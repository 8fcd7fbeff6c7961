/**
 * The URL resolution policy of the resource plugin's `process`, as pure
 * functions of the configuration, the build host's collaborators, the input
 * URL and the per-stylesheet cache. The imperative `process` in module
 * CliResources is proved to do exactly what ProcessStep says.
 */
module ResourcePolicy {
  import opened Wrappers
  import opened UrlText
  import opened Sequences

  type Bytes = seq<bv8>

  /** The plugin's options once defaults apply (`deployUrl` and `baseHref` default to ""). */
  datatype Config = Config(deployUrl: string, baseHref: string, filename: string)

  /** The parts of `url.parse` that are used. An absent part is "". */
  datatype ParsedUrl = ParsedUrl(pathname: string, hash: string, search: string)

  /**
   * What the relative-file branch asks of its host, as deterministic functions:
   * `resolveFile(file, base)` is the promise-wrapped `loader.resolve`, `readFile`
   * is `loader.fs.readFile`, `interpolateName(resourcePath, template, content)` is
   * loader-utils' name interpolation, `parse`, `format` and `join` are Node's
   * `url.parse`, `url.format` and `url.resolve`, and `extracted` says that the
   * current loader's ident is 'extracted'.
   */
  datatype Collaborators = Collaborators(
    context: string,
    resolveFile: (string, string) -> Result<string, string>,
    readFile: string -> Result<Bytes, string>,
    interpolateName: (string, string, Bytes) -> string,
    parse: string -> ParsedUrl,
    format: (string, string, string) -> string,
    join: (string, string) -> string,
    extracted: bool)

  /** A file handed to `loader.emitFile`. */
  datatype Emission = Emission(outputPath: string, content: Bytes)

  /** The result of `resolve` and the names it asked the resolver for, in order. */
  datatype Resolution = Resolution(result: Result<string, string>, attempts: seq<string>)

  /** `resolve`: try `./file` first and fall back to the bare `file` only if that fails. */
  function Resolve(file: string, base: string, resolver: (string, string) -> Result<string, string>): (r: Resolution)
    ensures 1 <= |r.attempts| <= 2 && r.attempts[0] == "./" + file
    ensures r.result == resolver(r.attempts[|r.attempts| - 1], base)
    ensures |r.attempts| == 2 <==> resolver("./" + file, base).Failure?
    ensures |r.attempts| == 2 ==> r.attempts[1] == file
    ensures r.result.Failure? <==> resolver("./" + file, base).Failure? && resolver(file, base).Failure?
  {
    var first := resolver("./" + file, base);
    if first.Success? then Resolution(first, ["./" + file])
    else Resolution(resolver(file, base), ["./" + file, file])
  }

  /** The condition under which a root-relative URL is appended to `deployUrl` alone. */
  predicate DeployUrlIsRooted(deployUrl: string) {
    Contains(deployUrl, "://") || StartsWith(deployUrl, "/")
  }

  /** The composition of a root-relative URL from `deployUrl` and `baseHref`. */
  function RootRelativeUrl(deployUrl: string, baseHref: string, url: string): (r: string)
    ensures DeployUrlIsRooted(deployUrl) ==> r == StripTrailingSlash(deployUrl) + url
    ensures !DeployUrlIsRooted(deployUrl) && Contains(baseHref, "://") ==>
      && StartsWith(r, StripTrailingSlash(baseHref))
      && StartsWith(r[|StripTrailingSlash(baseHref)|..], "/")
      && NoDoubleSlash(r[|StripTrailingSlash(baseHref)|..])
    ensures !DeployUrlIsRooted(deployUrl) && !Contains(baseHref, "://") ==>
      StartsWith(r, "/") && NoDoubleSlash(r)
  {
    if DeployUrlIsRooted(deployUrl) then
      StripTrailingSlash(deployUrl) + url
    else if Contains(baseHref, "://") then
      var prefix := StripTrailingSlash(baseHref);
      var tail := DedupeSlashes("/" + deployUrl + "/" + url);
      assert (prefix + tail)[|prefix|..] == tail;
      prefix + tail
    else
      DedupeSlashes("/" + baseHref + "/" + deployUrl + "/" + url)
  }

  /** In the two de-duplicating cases nothing but slashes is lost or moved. */
  lemma RootRelativeKeepsText(deployUrl: string, baseHref: string, url: string)
    requires !DeployUrlIsRooted(deployUrl)
    ensures Contains(baseHref, "://") ==>
      NonSlash(RootRelativeUrl(deployUrl, baseHref, url))
        == NonSlash(StripTrailingSlash(baseHref)) + NonSlash(deployUrl) + NonSlash(url)
    ensures !Contains(baseHref, "://") ==>
      NonSlash(RootRelativeUrl(deployUrl, baseHref, url))
        == NonSlash(baseHref) + NonSlash(deployUrl) + NonSlash(url)
  {
    if Contains(baseHref, "://") {
      SchemeBaseKeepsText(deployUrl, baseHref, url);
    } else {
      PlainBaseKeepsText(deployUrl, baseHref, url);
    }
  }

  lemma SchemeBaseKeepsText(deployUrl: string, baseHref: string, url: string)
    ensures var r := StripTrailingSlash(baseHref) + DedupeSlashes("/" + deployUrl + "/" + url);
      NonSlash(r) == NonSlash(StripTrailingSlash(baseHref)) + NonSlash(deployUrl) + NonSlash(url)
  {
    var prefix := StripTrailingSlash(baseHref);
    var tail := "/" + deployUrl + "/" + url;
    calc {
      NonSlash(prefix + DedupeSlashes(tail));
      { NonSlashAppend(prefix, DedupeSlashes(tail)); }
      NonSlash(prefix) + NonSlash(DedupeSlashes(tail));
      { DedupeKeepsNonSlash(tail); }
      NonSlash(prefix) + NonSlash(tail);
      { NonSlashAppend("/" + deployUrl + "/", url); SlashesAroundVanish(deployUrl); }
      NonSlash(prefix) + (NonSlash(deployUrl) + NonSlash(url));
    }
  }

  lemma PlainBaseKeepsText(deployUrl: string, baseHref: string, url: string)
    ensures NonSlash(DedupeSlashes("/" + baseHref + "/" + deployUrl + "/" + url))
      == NonSlash(baseHref) + NonSlash(deployUrl) + NonSlash(url)
  {
    var around := "/" + baseHref + "/";
    var whole := around + deployUrl + "/" + url;
    calc {
      NonSlash(DedupeSlashes(whole));
      { DedupeKeepsNonSlash(whole); }
      NonSlash(whole);
      { NonSlashAppend(around + deployUrl + "/", url); }
      NonSlash(around + deployUrl + "/") + NonSlash(url);
      { NonSlashAppend(around + deployUrl, "/"); SlashVanishes(); }
      NonSlash(around + deployUrl) + NonSlash(url);
      { NonSlashAppend(around, deployUrl); SlashesAroundVanish(baseHref); }
      NonSlash(baseHref) + NonSlash(deployUrl) + NonSlash(url);
    }
  }

  lemma SlashVanishes()
    ensures NonSlash("/") == ""
  {
  }

  lemma SlashesAroundVanish(s: string)
    ensures NonSlash("/" + s + "/") == NonSlash(s)
  {
    NonSlashAppend("/" + s, "/");
    NonSlashAppend("/", s);
    SlashVanishes();
  }

  /**
   * With clean segments the composition is exactly "base href, deploy URL, URL",
   * each non-empty segment behind one slash; a scheme base href is kept as is,
   * minus its trailing slash.
   */
  lemma RootRelativeJoinsSegments(deployUrl: string, baseHref: string, url: string)
    requires CleanSegment(deployUrl) && IsRootRelative(url) && NoDoubleSlash(url)
    ensures CleanSegment(baseHref) ==>
      RootRelativeUrl(deployUrl, baseHref, url) == Prefixed(baseHref) + Prefixed(deployUrl) + url
    ensures Contains(baseHref, "://") ==>
      RootRelativeUrl(deployUrl, baseHref, url) == StripTrailingSlash(baseHref) + Prefixed(deployUrl) + url
  {
    if CleanSegment(baseHref) {
      PlainComposition(deployUrl, baseHref, url);
    } else if Contains(baseHref, "://") {
      SchemeComposition(deployUrl, baseHref, url);
    }
  }

  /** The joined branch with clean segments: a clean base href has no scheme, so it is that branch. */
  lemma PlainComposition(deployUrl: string, baseHref: string, url: string)
    requires CleanSegment(deployUrl) && CleanSegment(baseHref) && IsRootRelative(url) && NoDoubleSlash(url)
    ensures !Contains(baseHref, "://")
    ensures RootRelativeUrl(deployUrl, baseHref, url) == Prefixed(baseHref) + Prefixed(deployUrl) + url
  {
    NoDoubleSlashNoScheme(deployUrl);
    NoDoubleSlashNoScheme(baseHref);
    PlainJoin(deployUrl, baseHref, url);
  }

  /** The scheme base href branch with a clean deploy URL. */
  lemma SchemeComposition(deployUrl: string, baseHref: string, url: string)
    requires CleanSegment(deployUrl) && Contains(baseHref, "://") && IsRootRelative(url) && NoDoubleSlash(url)
    ensures RootRelativeUrl(deployUrl, baseHref, url) == StripTrailingSlash(baseHref) + Prefixed(deployUrl) + url
  {
    NoDoubleSlashNoScheme(deployUrl);
    SchemeJoin(deployUrl, url);
  }

  /** The de-duplicated tail of the scheme branch. */
  lemma SchemeJoin(deployUrl: string, url: string)
    requires CleanSegment(deployUrl) && IsRootRelative(url) && NoDoubleSlash(url)
    ensures DedupeSlashes("/" + deployUrl + "/" + url) == Prefixed(deployUrl) + url
  {
    DeployedTail(deployUrl, url);
    AppendAssoc("/" + deployUrl, "/", url);
  }

  /** The part after the base href: `/deployUrl` then `/url`, with its slashes collapsed. */
  lemma DeployedTail(deployUrl: string, url: string)
    requires CleanSegment(deployUrl) && IsRootRelative(url) && NoDoubleSlash(url)
    ensures DedupeSlashes("/" + deployUrl + ("/" + url)) == Prefixed(deployUrl) + url
  {
    var tail := "/" + url;
    assert DedupeSlashes(tail) == url by {
      DedupeSegment("", url);
      DedupeFixpoint(url);
      assert "/" + "" + url == tail;
    }
    assert StartsWith(tail, "/") by { assert tail[..1] == "/"; }
    DedupeSegment(deployUrl, tail);
  }

  /** The de-duplicated text of the joined branch. */
  lemma PlainJoin(deployUrl: string, baseHref: string, url: string)
    requires CleanSegment(baseHref) && CleanSegment(deployUrl) && IsRootRelative(url) && NoDoubleSlash(url)
    ensures DedupeSlashes("/" + baseHref + "/" + deployUrl + "/" + url) == Prefixed(baseHref) + Prefixed(deployUrl) + url
  {
    var deployed := "/" + deployUrl + ("/" + url);
    DeployedTail(deployUrl, url);
    assert deployed[..1] == "/";
    DedupeSegment(baseHref, deployed);
    PlainJoinAlgebra(deployUrl, baseHref, url);
  }

  /** Regrouping the joined text to apply the two de-duplication facts. */
  lemma PlainJoinAlgebra(deployUrl: string, baseHref: string, url: string)
    requires DedupeSlashes("/" + deployUrl + ("/" + url)) == Prefixed(deployUrl) + url
    requires DedupeSlashes("/" + baseHref + ("/" + deployUrl + ("/" + url)))
      == Prefixed(baseHref) + DedupeSlashes("/" + deployUrl + ("/" + url))
    ensures DedupeSlashes("/" + baseHref + "/" + deployUrl + "/" + url) == Prefixed(baseHref) + Prefixed(deployUrl) + url
  {
    Regroup("/", baseHref, "/", deployUrl, "/", url);
    AppendAssoc(Prefixed(baseHref), Prefixed(deployUrl), url);
  }

  /**
   * The usual base href form `/x/`: its own slashes merge with the separators,
   * so the result is the same as for the bare segment `x`.
   */
  lemma RootedBaseHrefJoins(deployUrl: string, x: string, url: string)
    requires CleanSegment(x) && CleanSegment(deployUrl) && IsRootRelative(url) && NoDoubleSlash(url)
    ensures RootRelativeUrl(deployUrl, "/" + x + "/", url) == Prefixed(x) + Prefixed(deployUrl) + url
  {
    NoDoubleSlashNoScheme(deployUrl);
    RootedBaseNoScheme(x);
    RootedBaseJoin(deployUrl, x, url);
  }

  /** `/x/` holds no `://` when `x` is a clean segment. */
  lemma RootedBaseNoScheme(x: string)
    requires CleanSegment(x)
    ensures !Contains("/" + x + "/", "://")
  {
    var b := "/" + x + "/";
    forall i: nat | i <= |b| ensures !OccursAt(b, "://", i) {
      if i + 3 <= |b| {
        assert b[i..i + 3][1] == b[i + 1] && b[i..i + 3][2] == b[i + 2];
      }
    }
  }

  /** The de-duplicated text of the joined branch for base href `/x/`. */
  lemma RootedBaseJoin(deployUrl: string, x: string, url: string)
    requires CleanSegment(x) && CleanSegment(deployUrl) && IsRootRelative(url) && NoDoubleSlash(url)
    ensures DedupeSlashes("/" + ("/" + x + "/") + "/" + deployUrl + "/" + url) == Prefixed(x) + Prefixed(deployUrl) + url
  {
    var deployed := "/" + deployUrl + ("/" + url);
    var r := "/" + deployed;
    var inner := "/" + x + r;
    DeployedTail(deployUrl, url);
    DedupeDrop('/', deployed);
    assert r[..1] == "/";
    DedupeSegment(x, r);
    DedupeDrop('/', inner);
    RootedBaseAlgebra(deployUrl, x, url);
  }

  /** Regrouping the text of the joined branch for base href `/x/`. */
  lemma RootedBaseAlgebra(deployUrl: string, x: string, url: string)
    ensures "/" + ("/" + x + "/") + "/" + deployUrl + "/" + url == "/" + ("/" + x + ("/" + ("/" + deployUrl + ("/" + url))))
  {
  }

  /**
   * The usual relative deploy URL form `d/`: its trailing slash merges with the
   * separator, so the result is the same as for the bare segment `d`.
   */
  lemma SlashedDeployUrlJoins(d: string, baseHref: string, url: string)
    requires d != "" && CleanSegment(d) && IsRootRelative(url) && NoDoubleSlash(url)
    ensures CleanSegment(baseHref) ==>
      RootRelativeUrl(d + "/", baseHref, url) == Prefixed(baseHref) + Prefixed(d) + url
    ensures Contains(baseHref, "://") ==>
      RootRelativeUrl(d + "/", baseHref, url) == StripTrailingSlash(baseHref) + Prefixed(d) + url
  {
    SlashedDeployNotRooted(d);
    if CleanSegment(baseHref) {
      NoDoubleSlashNoScheme(baseHref);
      SlashedDeployPlainJoin(d, baseHref, url);
    } else if Contains(baseHref, "://") {
      SlashedDeploySchemeJoin(d, url);
    }
  }

  /** `d/` is neither rooted nor scheme-qualified when `d` is a non-empty clean segment. */
  lemma SlashedDeployNotRooted(d: string)
    requires d != "" && CleanSegment(d)
    ensures !DeployUrlIsRooted(d + "/")
  {
    var s := d + "/";
    assert s[0] == d[0] && d[..1] == [d[0]];
    forall i: nat | i <= |s| ensures !OccursAt(s, "://", i) {
      if i + 3 <= |s| {
        assert s[i..i + 3][1] == s[i + 1] && s[i..i + 3][2] == s[i + 2];
      }
    }
  }

  /** `/d` followed by two slashes and the URL collapses to `/d` + URL. */
  lemma SlashedDeployTail(d: string, url: string)
    requires d != "" && CleanSegment(d) && IsRootRelative(url) && NoDoubleSlash(url)
    ensures DedupeSlashes("/" + d + ("/" + ("/" + url))) == Prefixed(d) + url
  {
    var t := "/" + url;
    assert DedupeSlashes(t) == url by {
      DedupeSegment("", url);
      DedupeFixpoint(url);
      assert "/" + "" + url == t;
    }
    DedupeDrop('/', t);
    assert ("/" + t)[..1] == "/";
    DedupeSegment(d, "/" + t);
  }

  /** The de-duplicated text of the joined branch for deploy URL `d/`. */
  lemma SlashedDeployPlainJoin(d: string, baseHref: string, url: string)
    requires d != "" && CleanSegment(d) && CleanSegment(baseHref) && IsRootRelative(url) && NoDoubleSlash(url)
    ensures DedupeSlashes("/" + baseHref + "/" + (d + "/") + "/" + url) == Prefixed(baseHref) + Prefixed(d) + url
  {
    var deployed := "/" + d + ("/" + ("/" + url));
    SlashedDeployTail(d, url);
    assert deployed[..1] == "/";
    DedupeSegment(baseHref, deployed);
    SlashedDeployAlgebra(d, baseHref, url);
    AppendAssoc(Prefixed(baseHref), Prefixed(d), url);
  }

  /** The de-duplicated tail of the scheme branch for deploy URL `d/`. */
  lemma SlashedDeploySchemeJoin(d: string, url: string)
    requires d != "" && CleanSegment(d) && IsRootRelative(url) && NoDoubleSlash(url)
    ensures DedupeSlashes("/" + (d + "/") + "/" + url) == Prefixed(d) + url
  {
    SlashedDeployTail(d, url);
    SlashedDeployAlgebra(d, "", url);
  }

  /** Regrouping the joined text for deploy URL `d/`. */
  lemma SlashedDeployAlgebra(d: string, baseHref: string, url: string)
    ensures "/" + baseHref + "/" + (d + "/") + "/" + url == "/" + baseHref + ("/" + d + ("/" + ("/" + url)))
    ensures "/" + (d + "/") + "/" + url == "/" + d + ("/" + ("/" + url))
  {
  }

  /** Deploy URL `static/`, no base href: `/a.png` becomes `/static/a.png`. */
  lemma ExampleSlashedDeployUrl()
    ensures RootRelativeUrl("static/", "", "/a.png") == "/static/a.png"
  {
    assert "/a.png"[1] == 'a' && "static"[..1] == "s" && "static" + "/" == "static/";
    SlashedDeployUrlJoins("static", "", "/a.png");
  }

  /** Base href `/app/`, no deploy URL: `/a.png` becomes `/app/a.png`. */
  lemma ExampleRootedBaseHref()
    ensures RootRelativeUrl("", "/app/", "/a.png") == "/app/a.png"
  {
    assert "/a.png"[1] == 'a' && "app"[..1] == "a" && "/" + "app" + "/" == "/app/";
    RootedBaseHrefJoins("", "app", "/a.png");
  }

  /** Base href `app`, no deploy URL: `/a.png` becomes `/app/a.png`. */
  lemma ExampleRelativeBaseHref()
    ensures RootRelativeUrl("", "app", "/a.png") == "/app/a.png"
  {
    assert "/a.png"[1] == 'a' && "app"[..1] == "a";
    RootRelativeJoinsSegments("", "app", "/a.png");
  }

  /** With no deploy URL and no base href a root-relative URL without double slashes is kept. */
  lemma DefaultOptionsKeepRootRelative(url: string)
    requires IsRootRelative(url) && NoDoubleSlash(url)
    ensures RootRelativeUrl("", "", url) == url
  {
    assert !DeployUrlIsRooted("") && !Contains("", "://");
    var s := "/" + "" + "/" + "" + "/" + url;
    assert url[0] == '/';
    assert s[0] == '/' && s[1] == '/' && s[2] == '/' && s[3] == '/';
    assert s[1..][1..][1..] == url;
    calc {
      DedupeSlashes(s);
      DedupeSlashes(s[1..]);
      DedupeSlashes(s[1..][1..]);
      DedupeSlashes(s[1..][1..][1..]);
      { DedupeFixpoint(url); }
      url;
    }
  }

  lemma ExampleDefaultOptions()
    ensures RootRelativeUrl("", "", "/a/b.png") == "/a/b.png"
  {
    assert "/a/b.png"[1] == 'a';
    DefaultOptionsKeepRootRelative("/a/b.png");
  }

  lemma ExampleAbsoluteDeployUrl()
    ensures RootRelativeUrl("http://cdn.example/", "", "/a/b.png") == "http://cdn.example/a/b.png"
  {
    assert OccursAt("http://cdn.example/", "://", 4);
  }

  /** With a scheme-qualified base href and no deploy URL, a clean root-relative URL is appended to it. */
  lemma AbsoluteBaseHrefKeepsPath(baseHref: string, url: string)
    requires Contains(baseHref, "://")
    requires IsRootRelative(url) && NoDoubleSlash(url)
    ensures RootRelativeUrl("", baseHref, url) == StripTrailingSlash(baseHref) + url
  {
    assert !DeployUrlIsRooted("");
    var tail := "/" + "" + "/" + url;
    assert url[0] == '/';
    assert tail[0] == '/' && tail[1] == '/' && tail[2] == '/';
    assert tail[1..][1..] == url;
    calc {
      DedupeSlashes(tail);
      DedupeSlashes(tail[1..]);
      DedupeSlashes(tail[1..][1..]);
      { DedupeFixpoint(url); }
      url;
    }
  }

  lemma ExampleAbsoluteBaseHref()
    ensures RootRelativeUrl("", "http://site.example/app/", "/a/b.png") == "http://site.example/app/a/b.png"
  {
    assert OccursAt("http://site.example/app/", "://", 4);
    assert "/a/b.png"[1] == 'a';
    AbsoluteBaseHrefKeepsPath("http://site.example/app/", "/a/b.png");
    assert StripTrailingSlash("http://site.example/app/") == "http://site.example/app";
  }

  /** Drops one leading `~` (the module-resolution marker). */
  function StripTilde(u: string): (r: string)
    ensures StartsWith(u, "~") ==> "~" + r == u
    ensures !StartsWith(u, "~") ==> r == u
  {
    if StartsWith(u, "~") then u[1..] else u
  }

  /** What resolving one URL yields apart from the cache: the outcome and the host's side effects. */
  datatype Fetched = Fetched(result: Result<string, string>, dependencies: seq<string>, emitted: seq<Emission>)

  /** The relative-file branch: resolve, read, name, emit, then add hash/search and the deploy URL. */
  function FetchRelative(config: Config, io: Collaborators, url: string): (f: Fetched)
    ensures f.result.Failure? ==> f.dependencies == [] && f.emitted == []
    ensures f.result.Success? ==> |f.dependencies| == 1 && |f.emitted| == 1
  {
    var parsed := io.parse(ForwardSlashes(url));
    var found := Resolve(parsed.pathname, io.context, io.resolveFile);
    match found.result
    case Failure(e) => Fetched(Failure(e), [], [])
    case Success(path) =>
      match io.readFile(path)
      case Failure(e) => Fetched(Failure(e), [], [])
      case Success(content) =>
        var outputPath := io.interpolateName(path, config.filename, content);
        var u1 := ForwardSlashes(outputPath);
        var u2 := if parsed.hash != "" || parsed.search != "" then io.format(u1, parsed.hash, parsed.search) else u1;
        var u3 := if config.deployUrl != "" && !io.extracted then io.join(config.deployUrl, u2) else u2;
        Fetched(Success(u3), [path], [Emission(outputPath, content)])
  }

  /** The part of `process` after the cache lookup and the `~` strip. */
  function Fetch(config: Config, io: Collaborators, url: string): Fetched {
    if IsRootRelative(url) then Fetched(Success(RootRelativeUrl(config.deployUrl, config.baseHref, url)), [], [])
    else FetchRelative(config, io, url)
  }

  /** One call of `process`: its outcome, the new cache and the host's side effects. */
  datatype Step = Step(result: Result<string, string>, cache: map<string, string>, dependencies: seq<string>, emitted: seq<Emission>)

  /** `process(inputUrl, resourceCache)`. */
  function ProcessStep(config: Config, io: Collaborators, inputUrl: string, cache: map<string, string>): (st: Step)
    ensures cache.Keys <= st.cache.Keys
    ensures st.cache != cache ==> st.result.Success? && st.cache == cache[StripTilde(inputUrl) := st.result.value]
    ensures st.result.Failure? ==> st.cache == cache && st.dependencies == [] && st.emitted == []
  {
    if IsAbsoluteOrOpaque(inputUrl) then Step(Success(inputUrl), cache, [], [])
    else if StartsWith(inputUrl, "^") then Step(Success(inputUrl[1..]), cache, [], [])
    else if inputUrl in cache && cache[inputUrl] != "" then Step(Success(cache[inputUrl]), cache, [], [])
    else
      var url := StripTilde(inputUrl);
      var f := Fetch(config, io, url);
      Step(f.result, if f.result.Success? then cache[url := f.result.value] else cache, f.dependencies, f.emitted)
  }

  /** An absolute or opaque URL comes back unchanged and touches neither the cache nor the host. */
  lemma PassThroughUnchanged(config: Config, io: Collaborators, u: string, cache: map<string, string>)
    requires IsAbsoluteOrOpaque(u)
    ensures ProcessStep(config, io, u, cache) == Step(Success(u), cache, [], [])
  {
  }

  /** A `^` URL comes back without its caret and touches neither the cache nor the host. */
  lemma CaretBypass(config: Config, io: Collaborators, u: string, cache: map<string, string>)
    requires !IsAbsoluteOrOpaque(u) && StartsWith(u, "^")
    ensures ProcessStep(config, io, u, cache) == Step(Success(u[1..]), cache, [], [])
  {
  }

  /** A non-empty entry under the raw URL is returned as it is, with no I/O. */
  lemma CacheHit(config: Config, io: Collaborators, u: string, cache: map<string, string>)
    requires !IsAbsoluteOrOpaque(u) && !StartsWith(u, "^")
    requires u in cache && cache[u] != ""
    ensures ProcessStep(config, io, u, cache) == Step(Success(cache[u]), cache, [], [])
  {
  }

  /** Otherwise the URL is resolved after the `~` strip and a success is stored under the stripped key. */
  lemma MissStoresStrippedKey(config: Config, io: Collaborators, u: string, cache: map<string, string>)
    requires !IsAbsoluteOrOpaque(u) && !StartsWith(u, "^")
    requires !(u in cache && cache[u] != "")
    ensures var s := ProcessStep(config, io, u, cache);
      var f := Fetch(config, io, StripTilde(u));
      && s.result == f.result
      && s.dependencies == f.dependencies && s.emitted == f.emitted
      && (f.result.Success? ==> s.cache == cache[StripTilde(u) := f.result.value])
      && (f.result.Failure? ==> s.cache == cache)
  {
  }

  /** A root-relative URL (after the strip) is composed, cached and never sent to the host. */
  lemma RootRelativeComposed(config: Config, io: Collaborators, u: string, cache: map<string, string>)
    requires !IsAbsoluteOrOpaque(u) && !StartsWith(u, "^")
    requires !(u in cache && cache[u] != "")
    requires IsRootRelative(StripTilde(u))
    ensures var out := RootRelativeUrl(config.deployUrl, config.baseHref, StripTilde(u));
      ProcessStep(config, io, u, cache) == Step(Success(out), cache[StripTilde(u) := out], [], [])
  {
  }

  /**
   * The deploy URL only affects the final URL of a relative asset: the
   * dependency and the emitted file are those of a build without a deploy
   * URL, and the URL is that build's URL joined onto the deploy URL when one
   * is set and the styles are not extracted. An extracted build ignores the
   * deploy URL altogether.
   */
  lemma DeployUrlOnlyJoins(config: Config, io: Collaborators, url: string)
    ensures var plain := FetchRelative(config.(deployUrl := ""), io, url);
      var f := FetchRelative(config, io, url);
      && f.dependencies == plain.dependencies
      && f.emitted == plain.emitted
      && f.result.Success? == plain.result.Success?
      && (f.result.Failure? ==> f.result == plain.result)
      && (f.result.Success? ==>
            f.result.value == (if config.deployUrl != "" && !io.extracted then io.join(config.deployUrl, plain.result.value)
                               else plain.result.value))
    ensures FetchRelative(config, io.(extracted := true), url) == FetchRelative(config.(deployUrl := ""), io, url)
  {
  }

  /** A failing URL is never cached and causes no dependency or emission. */
  lemma FailureLeavesCache(config: Config, io: Collaborators, u: string, cache: map<string, string>)
    requires ProcessStep(config, io, u, cache).result.Failure?
    ensures var s := ProcessStep(config, io, u, cache);
      s.cache == cache && s.dependencies == [] && s.emitted == []
  {
  }

  /** A URL without `~` that succeeded non-empty is answered from the cache the second time. */
  lemma RepeatHitsCache(config: Config, io: Collaborators, u: string, cache: map<string, string>)
    requires !StartsWith(u, "~")
    requires ProcessStep(config, io, u, cache).result.Success?
    requires ProcessStep(config, io, u, cache).result.value != ""
    ensures var first := ProcessStep(config, io, u, cache);
      ProcessStep(config, io, u, first.cache) == Step(first.result, first.cache, [], [])
  {
  }

  /**
   * The lookup key is the raw URL but the stored key is the stripped one, so a
   * `~` URL seen twice misses the cache again and repeats its I/O and emission.
   */
  lemma TildeRepeatRecomputes(config: Config, io: Collaborators, u: string, cache: map<string, string>)
    requires StartsWith(u, "~") && u !in cache
    ensures var first := ProcessStep(config, io, u, cache);
      var second := ProcessStep(config, io, u, first.cache);
      && second.result == first.result
      && second.dependencies == first.dependencies
      && second.emitted == first.emitted
  {
    assert !HasSchemePrefix(u) by { assert WordPrefixLength(u) == 0; }
    assert |StripTilde(u)| < |u|;
  }

  /** Every entry holds what resolving its key afresh would give. */
  ghost predicate CacheValid(config: Config, io: Collaborators, cache: map<string, string>) {
    forall k :: k in cache ==> Fetch(config, io, k).result == Success(cache[k])
  }

  /** One `process` call keeps every entry faithful to its key. */
  lemma ProcessKeepsCacheValid(config: Config, io: Collaborators, u: string, cache: map<string, string>)
    requires CacheValid(config, io, cache)
    ensures CacheValid(config, io, ProcessStep(config, io, u, cache).cache)
  {
  }

  /** For a URL without `~` a faithful cache changes no answer, only saves work. */
  lemma CacheTransparent(config: Config, io: Collaborators, u: string, cache: map<string, string>)
    requires CacheValid(config, io, cache) && !StartsWith(u, "~")
    ensures ProcessStep(config, io, u, cache).result == ProcessStep(config, io, u, map[]).result
  {
  }

  /** The outcomes and side effects of a run of `process` calls over one shared cache. */
  datatype Batch = Batch(outcomes: seq<Result<string, string>>, cache: map<string, string>, dependencies: seq<string>, emitted: seq<Emission>)

  /** One more `process` call after `prev`, on the cache `prev` left. */
  function Extend(config: Config, io: Collaborators, prev: Batch, url: string): Batch {
    var step := ProcessStep(config, io, url, prev.cache);
    Batch(prev.outcomes + [step.result], step.cache, prev.dependencies + step.dependencies, prev.emitted + step.emitted)
  }

  /** `process` applied to `urls` in order, each call seeing the cache the previous one left. */
  function ProcessAll(config: Config, io: Collaborators, urls: seq<string>, cache: map<string, string>): (b: Batch)
    ensures |b.outcomes| == |urls|
    decreases |urls|
  {
    if urls == [] then Batch([], cache, [], [])
    else Extend(config, io, ProcessAll(config, io, urls[..|urls| - 1], cache), urls[|urls| - 1])
  }

  lemma ProcessAllSnoc(config: Config, io: Collaborators, xs: seq<string>, y: string, cache: map<string, string>)
    ensures ProcessAll(config, io, xs + [y], cache) == Extend(config, io, ProcessAll(config, io, xs, cache), y)
  {
    assert (xs + [y])[..|xs|] == xs;
  }

  /** `a` followed by `b`, where `b` ran on the cache `a` left. */
  function Then(a: Batch, b: Batch): Batch {
    Batch(a.outcomes + b.outcomes, b.cache, a.dependencies + b.dependencies, a.emitted + b.emitted)
  }

  lemma ExtendThen(config: Config, io: Collaborators, a: Batch, b: Batch, y: string)
    ensures Extend(config, io, Then(a, b), y) == Then(a, Extend(config, io, b, y))
  {
    var step := ProcessStep(config, io, y, b.cache);
    AppendAssoc(a.outcomes, b.outcomes, [step.result]);
    AppendAssoc(a.dependencies, b.dependencies, step.dependencies);
    AppendAssoc(a.emitted, b.emitted, step.emitted);
    assert Extend(config, io, Then(a, b), y)
      == Batch((a.outcomes + b.outcomes) + [step.result], step.cache,
               (a.dependencies + b.dependencies) + step.dependencies, (a.emitted + b.emitted) + step.emitted);
  }

  /** Running two lists one after the other is running their concatenation. */
  lemma {:induction false} ProcessAllAppend(config: Config, io: Collaborators, xs: seq<string>, ys: seq<string>, cache: map<string, string>)
    ensures var a := ProcessAll(config, io, xs, cache);
      ProcessAll(config, io, xs + ys, cache) == Then(a, ProcessAll(config, io, ys, a.cache))
    decreases |ys|
  {
    var a := ProcessAll(config, io, xs, cache);
    if ys == [] {
      assert xs + ys == xs;
      assert Then(a, Batch([], a.cache, [], [])) == a;
    } else {
      var ys', y := ys[..|ys| - 1], ys[|ys| - 1];
      assert ys == ys' + [y];
      assert xs + ys == (xs + ys') + [y];
      ProcessAllAppend(config, io, xs, ys', cache);
      ProcessAllSnoc(config, io, xs + ys', y, cache);
      ProcessAllSnoc(config, io, ys', y, a.cache);
      ExtendThen(config, io, a, ProcessAll(config, io, ys', a.cache), y);
    }
  }

  /** The cache never loses a key during a pass. */
  lemma {:induction false} ProcessAllKeepsKeys(config: Config, io: Collaborators, urls: seq<string>, cache: map<string, string>)
    ensures cache.Keys <= ProcessAll(config, io, urls, cache).cache.Keys
    decreases |urls|
  {
    if urls != [] {
      ProcessAllKeepsKeys(config, io, urls[..|urls| - 1], cache);
    }
  }

  /** Starting from a fresh cache, every entry stays faithful to its key through a pass. */
  lemma {:induction false} ProcessAllKeepsCacheValid(config: Config, io: Collaborators, urls: seq<string>, cache: map<string, string>)
    requires CacheValid(config, io, cache)
    ensures CacheValid(config, io, ProcessAll(config, io, urls, cache).cache)
    decreases |urls|
  {
    if urls != [] {
      var prev := ProcessAll(config, io, urls[..|urls| - 1], cache);
      ProcessAllKeepsCacheValid(config, io, urls[..|urls| - 1], cache);
      ProcessKeepsCacheValid(config, io, urls[|urls| - 1], prev.cache);
    }
  }
}
