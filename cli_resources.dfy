/**
 * The stateful side of the resource plugin: the per-stylesheet cache, the
 * loader's side effects, and the plugin instance whose methods are `process`,
 * the per-declaration rewrite loop and the pass over a stylesheet.
 */
module CliResources {
  import opened Wrappers
  import opened UrlText
  import opened Sequences
  import opened ResourcePolicy
  import opened Rewriting

  /** The stylesheet-wide `Map<string, string>` from input URL to output URL. */
  class ResourceCache {
    var entries: map<string, string>

    constructor ()
      ensures entries == map[]
    {
      entries := map[];
    }

    /** `resourceCache.get(key)`: `None` is `undefined`. */
    method Get(key: string) returns (v: Option<string>)
      ensures v.Some? <==> key in entries
      ensures v.Some? ==> v.value == entries[key]
    {
      v := if key in entries then Some(entries[key]) else None;
    }

    /** `resourceCache.set(key, value)`. */
    method Set(key: string, value: string)
      modifies this
      ensures entries == old(entries)[key := value]
    {
      entries := entries[key := value];
    }
  }

  /** The loader context: its pure collaborators and the record of what was asked of it. */
  class Loader {
    const io: Collaborators
    var dependencies: seq<string>
    var emitted: seq<Emission>
    var errors: seq<Diagnostic>

    constructor (io: Collaborators)
      ensures this.io == io
      ensures dependencies == [] && emitted == [] && errors == []
    {
      this.io := io;
      dependencies, emitted, errors := [], [], [];
    }

    /** `loader.addDependency(path)`. */
    method AddDependency(path: string)
      modifies this
      ensures dependencies == old(dependencies) + [path]
      ensures emitted == old(emitted) && errors == old(errors)
    {
      dependencies := dependencies + [path];
    }

    /** `loader.emitFile(outputPath, content)`. */
    method EmitFile(outputPath: string, content: Bytes)
      modifies this
      ensures emitted == old(emitted) + [Emission(outputPath, content)]
      ensures dependencies == old(dependencies) && errors == old(errors)
    {
      emitted := emitted + [Emission(outputPath, content)];
    }

    /** `loader.emitError(...)`. */
    method EmitError(d: Diagnostic)
      modifies this
      ensures errors == old(errors) + [d]
      ensures dependencies == old(dependencies) && emitted == old(emitted)
    {
      errors := errors + [d];
    }
  }

  /** The options the plugin is created with; `None` is an option left undefined. */
  datatype PluginOptions = PluginOptions(deployUrl: Option<string>, baseHref: Option<string>, filename: string)

  /** `value && value.includes('url')`: the test that selects a declaration. */
  predicate IsUrlDeclaration(value: string) {
    value != "" && Contains(value, "url")
  }

  /** The indices of the selected declarations, in stylesheet order. */
  function Selection(values: seq<string>): (r: seq<nat>)
    ensures |r| <= |values|
    ensures forall k :: 0 <= k < |r| ==> r[k] < |values|
    decreases |values|
  {
    if values == [] then []
    else
      var n := |values| - 1;
      Selection(values[..n]) + (if IsUrlDeclaration(values[n]) then [n] else [])
  }

  /** The selection holds exactly the declarations that pass the test, in increasing order. */
  lemma {:induction false} SelectionExact(values: seq<string>)
    ensures forall k :: 0 <= k < |Selection(values)| ==>
      Selection(values)[k] < |values| && IsUrlDeclaration(values[Selection(values)[k]])
    ensures forall k, m :: 0 <= k < m < |Selection(values)| ==> Selection(values)[k] < Selection(values)[m]
    ensures forall i :: 0 <= i < |values| && IsUrlDeclaration(values[i]) ==> i in Selection(values)
    decreases |values|
  {
    if values != [] {
      var n := |values| - 1;
      SelectionExact(values[..n]);
      assert forall i :: 0 <= i < n ==> values[..n][i] == values[i];
    }
  }

  /** Walks the declarations and collects those whose value mentions `url`. */
  method SelectUrlDeclarations(decls: array<string>) returns (selected: seq<nat>)
    ensures selected == Selection(decls[..])
  {
    selected := [];
    var i := 0;
    while i < decls.Length
      invariant 0 <= i <= decls.Length
      invariant selected == Selection(decls[..i])
    {
      assert decls[..i + 1][..i] == decls[..i];
      if decls[i] != "" && Contains(decls[i], "url") {
        selected := selected + [i];
      }
      i := i + 1;
    }
    assert decls[..decls.Length] == decls[..];
  }

  /** All URLs the pass hands to `process`: the matches of the selected declarations, in order. */
  function PassPayloads(spans: seq<seq<Span>>, selected: seq<nat>): seq<string>
    requires forall k :: 0 <= k < |selected| ==> selected[k] < |spans|
    decreases |selected|
  {
    if selected == [] then []
    else
      var n := |selected| - 1;
      PassPayloads(spans, selected[..n]) + Payloads(spans[selected[n]])
  }

  /** What the rewrite loop has accumulated: outcomes, cache, loader logs and the rebuilt text so far. */
  datatype LoopState = LoopState(outcomes: seq<Result<string, string>>, cache: map<string, string>,
                                 dependencies: seq<string>, emitted: seq<Emission>, errors: seq<Diagnostic>,
                                 segments: seq<string>, lastIndex: nat, modified: bool)

  /**
   * The rewrite loop's invariant after the first `i` matches of `value`,
   * measured from the state `start` it began in.
   */
  ghost predicate Rewritten(config: Config, io: Collaborators, value: string, spans: seq<Span>, i: nat,
                            start: LoopState, st: LoopState)
    requires WellFormed(value, spans)
  {
    && i <= |spans| && |st.outcomes| == i
    && st.lastIndex <= |value|
    && (i < |spans| ==> st.lastIndex <= spans[i].start)
    && WellFormed(value, spans[..i])
    && Join(st.segments) + value[st.lastIndex..] == Rebuild(value, spans[..i], st.outcomes)
    && (st.modified <==> AnyReplaced(spans, st.outcomes))
    && var b := ProcessAll(config, io, Payloads(spans[..i]), start.cache);
       && st.outcomes == b.outcomes
       && st.cache == b.cache
       && st.dependencies == start.dependencies + b.dependencies
       && st.emitted == start.emitted + b.emitted
       && st.errors == start.errors + Diagnostics(Payloads(spans[..i]), st.outcomes)
  }

  /** Nothing has been rewritten before the first match. */
  lemma RewrittenInit(config: Config, io: Collaborators, value: string, spans: seq<Span>, start: LoopState)
    requires WellFormed(value, spans)
    ensures Rewritten(config, io, value, spans, 0, start,
                      LoopState([], start.cache, start.dependencies, start.emitted, start.errors, [], 0, false))
  {
    assert spans[..0] == [];
  }

  /** The batch part of one loop pass: one more `process` call, one more outcome, logs and diagnostic. */
  lemma {:induction false} RewrittenBatchStep(config: Config, io: Collaborators, spans: seq<Span>, i: nat,
                                              start: LoopState, st: LoopState, next: LoopState)
    requires i < |spans|
    requires var b := ProcessAll(config, io, Payloads(spans[..i]), start.cache);
       && st.outcomes == b.outcomes
       && st.cache == b.cache
       && st.dependencies == start.dependencies + b.dependencies
       && st.emitted == start.emitted + b.emitted
       && st.errors == start.errors + Diagnostics(Payloads(spans[..i]), st.outcomes)
    requires var step := ProcessStep(config, io, spans[i].payload, st.cache);
       && next.outcomes == st.outcomes + [step.result]
       && next.cache == step.cache
       && next.dependencies == st.dependencies + step.dependencies
       && next.emitted == st.emitted + step.emitted
       && next.errors == st.errors + (if step.result.Failure? then [Diagnostic(spans[i].payload, step.result.error)] else [])
    ensures var b := ProcessAll(config, io, Payloads(spans[..i + 1]), start.cache);
       && next.outcomes == b.outcomes
       && next.cache == b.cache
       && next.dependencies == start.dependencies + b.dependencies
       && next.emitted == start.emitted + b.emitted
       && next.errors == start.errors + Diagnostics(Payloads(spans[..i + 1]), next.outcomes)
  {
    var prev := ProcessAll(config, io, Payloads(spans[..i]), start.cache);
    var step := ProcessStep(config, io, spans[i].payload, st.cache);
    PayloadsSnoc(spans, i);
    ProcessAllSnoc(config, io, Payloads(spans[..i]), spans[i].payload, start.cache);
    AppendAssoc(start.dependencies, prev.dependencies, step.dependencies);
    AppendAssoc(start.emitted, prev.emitted, step.emitted);
    DiagnosticsSnoc(Payloads(spans[..i]), st.outcomes, spans[i].payload, step.result);
    AppendAssoc(start.errors, Diagnostics(Payloads(spans[..i]), st.outcomes),
                if step.result.Failure? then [Diagnostic(spans[i].payload, step.result.error)] else []);
  }

  /** One pass of the loop keeps the invariant. */
  lemma {:induction false} RewrittenStep(config: Config, io: Collaborators, value: string, spans: seq<Span>, i: nat,
                                         start: LoopState, st: LoopState, next: LoopState, replaced: bool)
    requires WellFormed(value, spans) && i < |spans|
    requires Rewritten(config, io, value, spans, i, start, st)
    requires var step := ProcessStep(config, io, spans[i].payload, st.cache);
       && next.outcomes == st.outcomes + [step.result]
       && next.cache == step.cache
       && next.dependencies == st.dependencies + step.dependencies
       && next.emitted == st.emitted + step.emitted
       && next.errors == st.errors + (if step.result.Failure? then [Diagnostic(spans[i].payload, step.result.error)] else [])
    requires replaced <==> Replacement(spans[i].payload, next.outcomes[i]).Some?
    requires next.modified == (st.modified || replaced)
    requires next.outcomes[i].Failure? ==> next.segments == st.segments && next.lastIndex == st.lastIndex
    requires next.outcomes[i].Success? ==>
      && next.lastIndex == End(spans[i])
      && next.segments == st.segments
                          + (if st.lastIndex < spans[i].start then [value[st.lastIndex..spans[i].start]] else [])
                          + [Piece(value, spans[i], next.outcomes[i])]
    ensures Rewritten(config, io, value, spans, i + 1, start, next)
  {
    RewrittenBatchStep(config, io, spans, i, start, st, next);
    var processed := next.outcomes[i];
    assert next.outcomes == st.outcomes + [processed];
    RewriteStep(value, spans, i, st.outcomes, processed, st.segments, st.lastIndex, next.segments, next.lastIndex);
    assert i + 1 < |spans| ==> next.lastIndex <= spans[i + 1].start by {
      if i + 1 < |spans| {
        assert End(spans[i]) <= spans[i + 1].start;
      }
    }
    AnyReplacedSnoc(spans, st.outcomes, processed);
  }

  /** After the loop: the trailing text completes the rebuilt value, which is the original when nothing was replaced. */
  lemma RewriteFinish(value: string, spans: seq<Span>, outcomes: seq<Result<string, string>>,
                      segments: seq<string>, lastIndex: nat, modified: bool)
    requires WellFormed(value, spans) && |outcomes| == |spans| && lastIndex <= |value|
    requires Join(segments) + value[lastIndex..] == Rebuild(value, spans, outcomes)
    requires modified <==> AnyReplaced(spans, outcomes)
    ensures Join(segments + (if lastIndex < |value| then [value[lastIndex..]] else [])) == Rebuild(value, spans, outcomes)
    ensures !modified ==> Rebuild(value, spans, outcomes) == value
  {
    if lastIndex < |value| {
      JoinSnoc(segments, value[lastIndex..]);
    } else {
      assert value[lastIndex..] == "";
      assert segments + [] == segments;
    }
    if !modified {
      RebuildUntouched(value, spans, outcomes);
    }
  }

  /** Whether some match among the first `|outcomes|` earned a replacement. */
  ghost predicate AnyReplaced(spans: seq<Span>, outcomes: seq<Result<string, string>>)
    requires |outcomes| <= |spans|
  {
    exists k :: 0 <= k < |outcomes| && Replacement(spans[k].payload, outcomes[k]).Some?
  }

  lemma AnyReplacedSnoc(spans: seq<Span>, outcomes: seq<Result<string, string>>, p: Result<string, string>)
    requires |outcomes| < |spans|
    ensures AnyReplaced(spans, outcomes + [p])
      <==> AnyReplaced(spans, outcomes) || Replacement(spans[|outcomes|].payload, p).Some?
  {
    var next := outcomes + [p];
    if AnyReplaced(spans, next) {
      var k :| 0 <= k < |next| && Replacement(spans[k].payload, next[k]).Some?;
      if k < |outcomes| {
        assert next[k] == outcomes[k];
      }
    }
    if AnyReplaced(spans, outcomes) {
      var k :| 0 <= k < |outcomes| && Replacement(spans[k].payload, outcomes[k]).Some?;
      assert next[k] == outcomes[k];
    }
    if Replacement(spans[|outcomes|].payload, p).Some? {
      assert next[|outcomes|] == p;
    }
  }

  /** After the last match the invariant yields the loop's results. */
  lemma RewrittenExit(config: Config, io: Collaborators, value: string, spans: seq<Span>,
                      start: LoopState, st: LoopState)
    requires WellFormed(value, spans)
    requires Rewritten(config, io, value, spans, |spans|, start, st)
    ensures var b := ProcessAll(config, io, Payloads(spans), start.cache);
        && st.outcomes == b.outcomes
        && st.cache == b.cache
        && st.dependencies == start.dependencies + b.dependencies
        && st.emitted == start.emitted + b.emitted
        && st.errors == start.errors + Diagnostics(Payloads(spans), st.outcomes)
    ensures st.modified <==> AnyReplaced(spans, st.outcomes)
    ensures Join(st.segments) + value[st.lastIndex..] == Rebuild(value, spans, st.outcomes)
  {
    assert spans[..|spans|] == spans;
  }

  /** Every selected index names a declaration that has matches supplied for it. */
  predicate InRange(selected: seq<nat>, n: nat) {
    forall k :: 0 <= k < |selected| ==> selected[k] < n
  }

  /** The URLs of the first `k` selected declarations followed by those of the next one. */
  lemma PassPayloadsSnoc(spans: seq<seq<Span>>, selected: seq<nat>, k: nat)
    requires InRange(selected, |spans|) && k < |selected|
    ensures InRange(selected[..k], |spans|) && InRange(selected[..k + 1], |spans|)
    ensures PassPayloads(spans, selected[..k + 1]) == PassPayloads(spans, selected[..k]) + Payloads(spans[selected[k]])
  {
    var next := selected[..k + 1];
    assert next[..k] == selected[..k] && next[k] == selected[k];
  }

  /**
   * The pass's invariant after the first `k` selected declarations: their
   * outcomes, concatenated, are those of `process` over all their URLs in
   * order with one cache shared from an empty start, and the loader's logs grew
   * by what those calls did.
   */
  ghost predicate Passed(config: Config, io: Collaborators, spans: seq<seq<Span>>, selected: seq<nat>, k: nat,
                         start: LoopState, outcomes: seq<seq<Result<string, string>>>, st: LoopState)
    requires InRange(selected, |spans|) && k <= |selected|
  {
    PassPayloadsSnocRange(spans, selected, k);
    && |outcomes| == k
    && var b := ProcessAll(config, io, PassPayloads(spans, selected[..k]), map[]);
       && Flatten(outcomes) == b.outcomes
       && st.cache == b.cache
       && st.dependencies == start.dependencies + b.dependencies
       && st.emitted == start.emitted + b.emitted
       && st.errors == start.errors + Diagnostics(PassPayloads(spans, selected[..k]), Flatten(outcomes))
  }

  lemma PassPayloadsSnocRange(spans: seq<seq<Span>>, selected: seq<nat>, k: nat)
    requires InRange(selected, |spans|) && k <= |selected|
    ensures InRange(selected[..k], |spans|)
  {
  }

  /** Before the first declaration nothing has been processed. */
  lemma PassedInit(config: Config, io: Collaborators, spans: seq<seq<Span>>, selected: seq<nat>, start: LoopState)
    requires InRange(selected, |spans|) && start.cache == map[]
    ensures Passed(config, io, spans, selected, 0, start, [],
                   LoopState([], start.cache, start.dependencies, start.emitted, start.errors, [], 0, false))
  {
    assert selected[..0] == [];
  }

  /** After the last declaration the invariant speaks about all selected URLs. */
  lemma PassedExit(config: Config, io: Collaborators, spans: seq<seq<Span>>, selected: seq<nat>,
                   start: LoopState, outcomes: seq<seq<Result<string, string>>>, st: LoopState)
    requires InRange(selected, |spans|)
    requires Passed(config, io, spans, selected, |selected|, start, outcomes, st)
    ensures var b := ProcessAll(config, io, PassPayloads(spans, selected), map[]);
      && Flatten(outcomes) == b.outcomes
      && st.cache == b.cache
      && st.dependencies == start.dependencies + b.dependencies
      && st.emitted == start.emitted + b.emitted
      && st.errors == start.errors + Diagnostics(PassPayloads(spans, selected), Flatten(outcomes))
  {
    assert selected[..|selected|] == selected;
  }

  /**
   * The declarations after the first `k` selected ones were rewritten: each of
   * those holds its rebuilt value, every other declaration its original one.
   */
  ghost predicate DeclsRewritten(original: seq<string>, current: seq<string>, spans: seq<seq<Span>>, selected: seq<nat>,
                                 k: nat, outcomes: seq<seq<Result<string, string>>>)
    requires |original| == |spans| && InRange(selected, |spans|) && k <= |selected| && |outcomes| == k
    requires forall i :: 0 <= i < |original| ==> WellFormed(original[i], spans[i])
  {
    && |current| == |original|
    && (forall m :: 0 <= m < k ==> |outcomes[m]| == |spans[selected[m]]|)
    && (forall m :: 0 <= m < k ==> current[selected[m]] == Rebuild(original[selected[m]], spans[selected[m]], outcomes[m]))
    && (forall i :: 0 <= i < |original| && i !in selected[..k] ==> current[i] == original[i])
  }

  lemma {:induction false} DeclsRewrittenStep(original: seq<string>, current: seq<string>, spans: seq<seq<Span>>, selected: seq<nat>,
                                              k: nat, outcomes: seq<seq<Result<string, string>>>, o: seq<Result<string, string>>)
    requires |original| == |spans| && InRange(selected, |spans|) && k < |selected| && |outcomes| == k
    requires forall i :: 0 <= i < |original| ==> WellFormed(original[i], spans[i])
    requires forall a, b :: 0 <= a < b < |selected| ==> selected[a] < selected[b]
    requires DeclsRewritten(original, current, spans, selected, k, outcomes)
    requires |o| == |spans[selected[k]]|
    ensures current[selected[k]] == original[selected[k]]
    ensures DeclsRewritten(original, current[selected[k] := Rebuild(original[selected[k]], spans[selected[k]], o)],
                           spans, selected, k + 1, outcomes + [o])
  {
    var j := selected[k];
    assert j !in selected[..k] by {
      forall m | 0 <= m < k
        ensures selected[..k][m] != j
      {
        assert selected[m] < selected[k];
      }
    }
    var next := current[j := Rebuild(original[j], spans[j], o)];
    var all := outcomes + [o];
    forall m | 0 <= m < k + 1
      ensures |all[m]| == |spans[selected[m]]|
      ensures next[selected[m]] == Rebuild(original[selected[m]], spans[selected[m]], all[m])
    {
      if m < k {
        assert all[m] == outcomes[m] && selected[m] < j;
        assert next[selected[m]] == current[selected[m]];
      } else {
        assert all[m] == o && selected[m] == j;
      }
    }
    forall i | 0 <= i < |original| && i !in selected[..k + 1]
      ensures next[i] == original[i]
    {
      assert selected[..k + 1] == selected[..k] + [j];
      assert i != j && i !in selected[..k];
    }
  }

  lemma DeclsRewrittenExit(original: seq<string>, current: seq<string>, spans: seq<seq<Span>>, selected: seq<nat>,
                           outcomes: seq<seq<Result<string, string>>>)
    requires |original| == |spans| && InRange(selected, |spans|) && |outcomes| == |selected|
    requires forall i :: 0 <= i < |original| ==> WellFormed(original[i], spans[i])
    requires DeclsRewritten(original, current, spans, selected, |selected|, outcomes)
    ensures forall i :: 0 <= i < |original| && i !in selected ==> current[i] == original[i]
  {
    assert selected[..|selected|] == selected;
  }

  /** One more declaration rewritten keeps the pass's invariant. */
  lemma {:induction false} PassedStep(config: Config, io: Collaborators, spans: seq<seq<Span>>, selected: seq<nat>, k: nat,
                                      start: LoopState, outcomes: seq<seq<Result<string, string>>>, st: LoopState,
                                      o: seq<Result<string, string>>, next: LoopState)
    requires InRange(selected, |spans|) && k < |selected|
    requires Passed(config, io, spans, selected, k, start, outcomes, st)
    requires var b := ProcessAll(config, io, Payloads(spans[selected[k]]), st.cache);
      && o == b.outcomes
      && next.cache == b.cache
      && next.dependencies == st.dependencies + b.dependencies
      && next.emitted == st.emitted + b.emitted
      && next.errors == st.errors + Diagnostics(Payloads(spans[selected[k]]), o)
    ensures Passed(config, io, spans, selected, k + 1, start, outcomes + [o], next)
  {
    var xs := PassPayloads(spans, selected[..k]);
    var ys := Payloads(spans[selected[k]]);
    PassPayloadsSnoc(spans, selected, k);
    var a := ProcessAll(config, io, xs, map[]);
    var b := ProcessAll(config, io, ys, a.cache);
    ProcessAllAppend(config, io, xs, ys, map[]);
    FlattenSnoc(outcomes, o);
    AppendAssoc(start.dependencies, a.dependencies, b.dependencies);
    AppendAssoc(start.emitted, a.emitted, b.emitted);
    DiagnosticsAppend(xs, Flatten(outcomes), ys, o);
    AppendAssoc(start.errors, Diagnostics(xs, Flatten(outcomes)), Diagnostics(ys, o));
  }

  /** The plugin instance for one set of options and one loader. */
  class ResourcesPlugin {
    const config: Config
    const loader: Loader

    constructor (options: PluginOptions, loader: Loader)
      ensures config == Config(options.deployUrl.GetOr(""), options.baseHref.GetOr(""), options.filename)
      ensures this.loader == loader
    {
      config := Config(options.deployUrl.GetOr(""), options.baseHref.GetOr(""), options.filename);
      this.loader := loader;
    }

    /** `process(inputUrl, resourceCache)`: resolves one URL, updating the cache and the loader. */
    method Process(inputUrl: string, cache: ResourceCache) returns (r: Result<string, string>)
      modifies cache, loader
      ensures var step := ProcessStep(config, loader.io, inputUrl, old(cache.entries));
        && r == step.result
        && cache.entries == step.cache
        && loader.dependencies == old(loader.dependencies) + step.dependencies
        && loader.emitted == old(loader.emitted) + step.emitted
        && loader.errors == old(loader.errors)
    {
      var url := inputUrl;
      if IsAbsoluteOrOpaque(url) {
        return Success(url);
      }
      if StartsWith(url, "^") {
        return Success(url[1..]);
      }
      var cached := cache.Get(url);
      if cached.Some? && cached.value != "" {
        return Success(cached.value);
      }
      if StartsWith(url, "~") {
        url := url[1..];
      }
      if IsRootRelative(url) {
        var outputUrl := RootRelativeUrl(config.deployUrl, config.baseHref, url);
        cache.Set(url, outputUrl);
        return Success(outputUrl);
      }
      var io := loader.io;
      var parsed := io.parse(ForwardSlashes(url));
      var found := Resolve(parsed.pathname, io.context, io.resolveFile);
      if found.result.Failure? {
        return Failure(found.result.error);
      }
      var path := found.result.value;
      var read := io.readFile(path);
      if read.Failure? {
        return Failure(read.error);
      }
      var content := read.value;
      var outputPath := io.interpolateName(path, config.filename, content);
      loader.AddDependency(path);
      loader.EmitFile(outputPath, content);
      var outputUrl := ForwardSlashes(outputPath);
      if parsed.hash != "" || parsed.search != "" {
        outputUrl := io.format(outputUrl, parsed.hash, parsed.search);
      }
      if config.deployUrl != "" && !io.extracted {
        outputUrl := io.join(config.deployUrl, outputUrl);
      }
      cache.Set(url, outputUrl);
      return Success(outputUrl);
    }

    /**
     * One pass of the rewrite loop: the match at `i` is processed; a failure
     * is reported and leaves the segments alone, a success appends the
     * untouched gap before the match and then the match's piece.
     */
    method RewriteMatch(value: string, s: Span, cache: ResourceCache, segments: seq<string>, lastIndex: nat)
      returns (processed: Result<string, string>, segments': seq<string>, lastIndex': nat, replaced: bool)
      requires lastIndex <= s.start && End(s) <= |value|
      modifies cache, loader
      ensures var step := ProcessStep(config, loader.io, s.payload, old(cache.entries));
        && processed == step.result
        && cache.entries == step.cache
        && loader.dependencies == old(loader.dependencies) + step.dependencies
        && loader.emitted == old(loader.emitted) + step.emitted
      ensures loader.errors == old(loader.errors) + (if processed.Failure? then [Diagnostic(s.payload, processed.error)] else [])
      ensures replaced <==> Replacement(s.payload, processed).Some?
      ensures processed.Failure? ==> segments' == segments && lastIndex' == lastIndex
      ensures processed.Success? ==>
        && lastIndex' == End(s)
        && segments' == segments
                        + (if lastIndex < s.start then [value[lastIndex..s.start]] else [])
                        + [Piece(value, s, processed)]
    {
      processed := Process(s.payload, cache);
      segments', lastIndex', replaced := segments, lastIndex, false;
      if processed.Failure? {
        loader.EmitError(Diagnostic(s.payload, processed.error));
      } else {
        if lastIndex < s.start {
          segments' := segments' + [value[lastIndex..s.start]];
        }
        if processed.value == "" || s.payload == processed.value {
          segments' := segments' + [value[s.start..End(s)]];
          assert Piece(value, s, processed) == value[s.start..End(s)];
        } else {
          segments' := segments' + [WrapUrl(processed.value)];
          replaced := true;
          assert Piece(value, s, processed) == WrapUrl(processed.value);
        }
        lastIndex' := End(s);
      }
    }

    /**
     * The rewrite of one declaration: every match is processed left to right,
     * a failure is reported and skipped, and the value is written back only if
     * some URL was replaced.
     */
    method RewriteDeclaration(decls: array<string>, j: nat, spans: seq<Span>, cache: ResourceCache)
      returns (outcomes: seq<Result<string, string>>, modified: bool)
      requires j < decls.Length && WellFormed(decls[j], spans)
      modifies decls, cache, loader
      ensures var b := ProcessAll(config, loader.io, Payloads(spans), old(cache.entries));
        && outcomes == b.outcomes
        && cache.entries == b.cache
        && loader.dependencies == old(loader.dependencies) + b.dependencies
        && loader.emitted == old(loader.emitted) + b.emitted
      ensures loader.errors == old(loader.errors) + Diagnostics(Payloads(spans), outcomes)
      ensures modified <==> AnyReplaced(spans, outcomes)
      ensures decls[j] == Rebuild(old(decls[j]), spans, outcomes)
      ensures !modified ==> decls[j] == old(decls[j])
      ensures decls[..] == old(decls[..])[j := decls[j]]
    {
      var value := decls[j];
      ghost var start := LoopState([], cache.entries, loader.dependencies, loader.emitted, loader.errors, [], 0, false);
      var segments, lastIndex;
      outcomes, segments, lastIndex, modified := RewriteMatches(value, spans, cache);
      RewrittenExit(config, loader.io, value, spans, start,
                    LoopState(outcomes, cache.entries, loader.dependencies, loader.emitted, loader.errors, segments, lastIndex, modified));
      RewriteFinish(value, spans, outcomes, segments, lastIndex, modified);
      if lastIndex < |value| {
        segments := segments + [value[lastIndex..]];
      }
      if modified {
        decls[j] := Join(segments);
      }
    }

    /**
     * The plugin's pass over a stylesheet's declarations: select those whose
     * value mentions `url`, stop if there are none, otherwise rewrite each of
     * them in turn with one cache shared by the whole stylesheet.
     */
    method Run(decls: array<string>, spans: seq<seq<Span>>)
      returns (selected: seq<nat>, cache: ResourceCache?, outcomes: seq<seq<Result<string, string>>>)
      requires |spans| == decls.Length
      requires forall k :: 0 <= k < decls.Length ==> WellFormed(decls[k], spans[k])
      modifies decls, loader
      ensures selected == Selection(old(decls[..]))
      ensures InRange(selected, |spans|) && |outcomes| == |selected|
      ensures forall k :: 0 <= k < |selected| ==> |outcomes[k]| == |spans[selected[k]]|
      ensures cache == null <==> selected == []
      ensures cache != null ==> fresh(cache)
      ensures var b := ProcessAll(config, loader.io, PassPayloads(spans, selected), map[]);
        && Flatten(outcomes) == b.outcomes
        && (cache != null ==> cache.entries == b.cache)
        && loader.dependencies == old(loader.dependencies) + b.dependencies
        && loader.emitted == old(loader.emitted) + b.emitted
        && loader.errors == old(loader.errors) + Diagnostics(PassPayloads(spans, selected), Flatten(outcomes))
      ensures forall k :: 0 <= k < |selected| ==>
        decls[selected[k]] == Rebuild(old(decls[selected[k]]), spans[selected[k]], outcomes[k])
      ensures forall i :: 0 <= i < decls.Length && i !in selected ==> decls[i] == old(decls[i])
    {
      selected := SelectUrlDeclarations(decls);
      SelectionExact(old(decls[..]));
      outcomes := [];
      if selected == [] {
        cache := null;
        return;
      }
      var entries := new ResourceCache();
      cache := entries;
      outcomes := RewriteAll(decls, spans, selected, entries);
      PassedExit(config, loader.io, spans, selected,
                 LoopState([], map[], old(loader.dependencies), old(loader.emitted), old(loader.errors), [], 0, false), outcomes,
                 LoopState([], entries.entries, loader.dependencies, loader.emitted, loader.errors, [], 0, false));
    }

    /** The rewrite of every selected declaration in stylesheet order, sharing `cache`, which starts empty. */
    method RewriteAll(decls: array<string>, spans: seq<seq<Span>>, selected: seq<nat>, cache: ResourceCache)
      returns (outcomes: seq<seq<Result<string, string>>>)
      requires |spans| == decls.Length && InRange(selected, |spans|)
      requires forall k :: 0 <= k < decls.Length ==> WellFormed(decls[k], spans[k])
      requires forall k, m :: 0 <= k < m < |selected| ==> selected[k] < selected[m]
      requires cache.entries == map[]
      modifies decls, cache, loader
      ensures Passed(config, loader.io, spans, selected, |selected|,
                     LoopState([], map[], old(loader.dependencies), old(loader.emitted), old(loader.errors), [], 0, false), outcomes,
                     LoopState([], cache.entries, loader.dependencies, loader.emitted, loader.errors, [], 0, false))
      ensures forall k :: 0 <= k < |selected| ==> |outcomes[k]| == |spans[selected[k]]|
      ensures forall k :: 0 <= k < |selected| ==>
        decls[selected[k]] == Rebuild(old(decls[selected[k]]), spans[selected[k]], outcomes[k])
      ensures forall i :: 0 <= i < decls.Length && i !in selected ==> decls[i] == old(decls[i])
    {
      ghost var original := decls[..];
      outcomes := [];
      ghost var start := LoopState([], map[], loader.dependencies, loader.emitted, loader.errors, [], 0, false);
      PassedInit(config, loader.io, spans, selected, start);
      assert selected[..0] == [];
      var k := 0;
      while k < |selected|
        invariant k <= |selected| && |outcomes| == k
        invariant Passed(config, loader.io, spans, selected, k, start, outcomes,
                         LoopState([], cache.entries, loader.dependencies, loader.emitted, loader.errors, [], 0, false))
        invariant DeclsRewritten(original, decls[..], spans, selected, k, outcomes)
      {
        var j := selected[k];
        ghost var st := LoopState([], cache.entries, loader.dependencies, loader.emitted, loader.errors, [], 0, false);
        ghost var current := decls[..];
        DeclsRewrittenStep(original, current, spans, selected, k, outcomes,
                           ProcessAll(config, loader.io, Payloads(spans[j]), cache.entries).outcomes);
        var o, _ := RewriteDeclaration(decls, j, spans[j], cache);
        PassedStep(config, loader.io, spans, selected, k, start, outcomes, st, o,
                   LoopState([], cache.entries, loader.dependencies, loader.emitted, loader.errors, [], 0, false));
        outcomes := outcomes + [o];
        k := k + 1;
      }
      DeclsRewrittenExit(original, decls[..], spans, selected, outcomes);
    }

    /** The loop of the rewrite: every match of `value` in turn, left to right. */
    method RewriteMatches(value: string, spans: seq<Span>, cache: ResourceCache)
      returns (outcomes: seq<Result<string, string>>, segments: seq<string>, lastIndex: nat, modified: bool)
      requires WellFormed(value, spans)
      modifies cache, loader
      ensures Rewritten(config, loader.io, value, spans, |spans|,
                        LoopState([], old(cache.entries), old(loader.dependencies), old(loader.emitted), old(loader.errors), [], 0, false),
                        LoopState(outcomes, cache.entries, loader.dependencies, loader.emitted, loader.errors, segments, lastIndex, modified))
    {
      segments, lastIndex, modified, outcomes := [], 0, false, [];
      ghost var start := LoopState([], cache.entries, loader.dependencies, loader.emitted, loader.errors, [], 0, false);
      RewrittenInit(config, loader.io, value, spans, start);
      var i := 0;
      while i < |spans|
        invariant i <= |spans|
        invariant Rewritten(config, loader.io, value, spans, i, start,
                            LoopState(outcomes, cache.entries, loader.dependencies, loader.emitted, loader.errors, segments, lastIndex, modified))
      {
        ghost var st := LoopState(outcomes, cache.entries, loader.dependencies, loader.emitted, loader.errors, segments, lastIndex, modified);
        assert lastIndex <= spans[i].start && End(spans[i]) <= |value|;
        var processed, replaced;
        processed, segments, lastIndex, replaced := RewriteMatch(value, spans[i], cache, segments, lastIndex);
        outcomes := outcomes + [processed];
        modified := modified || replaced;
        RewrittenStep(config, loader.io, value, spans, i, start, st,
                      LoopState(outcomes, cache.entries, loader.dependencies, loader.emitted, loader.errors, segments, lastIndex, modified),
                      replaced);
        i := i + 1;
      }
    }
  }

  lemma PayloadsSnoc(spans: seq<Span>, i: nat)
    requires i < |spans|
    ensures Payloads(spans[..i + 1]) == Payloads(spans[..i]) + [spans[i].payload]
  {
  }
}
