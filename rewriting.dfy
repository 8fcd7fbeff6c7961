/**
 * The text side of the per-declaration rewrite: the `url(...)` matches of one
 * declaration value, the replacement each processed URL earns, the value
 * rebuilt from them, and the diagnostics a failed URL produces.
 */
module Rewriting {
  import opened Wrappers
  import opened UrlText
  import opened Sequences

  /**
   * One match of the `url(...)` pattern in a declaration value: where the whole
   * match starts, its length, and the URL it captured (the double-quoted,
   * single-quoted or bare alternative, whichever matched).
   */
  datatype Span = Span(start: nat, len: nat, payload: string)

  function End(s: Span): nat {
    s.start + s.len
  }

  /** The matches lie inside `value`, are non-empty and come left to right without overlapping. */
  ghost predicate WellFormed(value: string, spans: seq<Span>) {
    && (forall k :: 0 <= k < |spans| ==> 0 < spans[k].len && End(spans[k]) <= |value|)
    && (forall k, m :: 0 <= k < m < |spans| ==> End(spans[k]) <= spans[m].start)
  }

  /** A prefix of well-formed matches is well formed. */
  lemma WellFormedPrefix(value: string, spans: seq<Span>, n: nat)
    requires WellFormed(value, spans) && n <= |spans|
    ensures WellFormed(value, spans[..n])
  {
    var prefix := spans[..n];
    assert forall k :: 0 <= k < n ==> prefix[k] == spans[k];
  }

  /** The text a match's URL is replaced by, if any: only a non-empty result that differs from the original. */
  function Replacement(original: string, outcome: Result<string, string>): (r: Option<string>)
    ensures r.Some? <==> outcome.Success? && outcome.value != "" && outcome.value != original
    ensures r.Some? ==> r.value == WrapUrl(outcome.value)
  {
    match outcome
    case Failure(_) => None
    case Success(processed) => if processed == "" || processed == original then None else Some(WrapUrl(processed))
  }

  /** What a match contributes to the rebuilt value: its replacement or its original text. */
  function Piece(value: string, s: Span, outcome: Result<string, string>): string
    requires End(s) <= |value|
  {
    match Replacement(s.payload, outcome)
    case Some(t) => t
    case None => value[s.start..End(s)]
  }

  /** `value` with every match replaced by its piece and all other text kept in place. */
  function Rebuild(value: string, spans: seq<Span>, outcomes: seq<Result<string, string>>): string
    requires WellFormed(value, spans) && |outcomes| == |spans|
    decreases |spans|
  {
    if spans == [] then value
    else
      var n := |spans| - 1;
      var s := spans[n];
      assert WellFormed(value[..s.start], spans[..n]);
      Rebuild(value[..s.start], spans[..n], outcomes[..n]) + Piece(value, s, outcomes[n]) + value[End(s)..]
  }

  /** The text before the first match is kept as it is. */
  lemma {:induction false} RebuildKeepsHead(value: string, spans: seq<Span>, outcomes: seq<Result<string, string>>)
    requires WellFormed(value, spans) && |outcomes| == |spans| && spans != []
    ensures var r := Rebuild(value, spans, outcomes);
      spans[0].start <= |r| && r[..spans[0].start] == value[..spans[0].start]
    decreases |spans|
  {
    var n := |spans| - 1;
    var s := spans[n];
    var first := spans[0].start;
    WellFormedCut(value, spans);
    var head := Rebuild(value[..s.start], spans[..n], outcomes[..n]);
    assert first <= |head| && head[..first] == value[..first] by {
      if n > 0 {
        RebuildKeepsHead(value[..s.start], spans[..n], outcomes[..n]);
        assert spans[..n][0] == spans[0] && End(spans[0]) <= s.start;
        assert value[..s.start][..first] == value[..first];
      }
    }
    var rest := Piece(value, s, outcomes[n]) + value[End(s)..];
    assert Rebuild(value, spans, outcomes) == head + rest by {
      AppendAssoc(head, Piece(value, s, outcomes[n]), value[End(s)..]);
    }
    assert (head + rest)[..first] == head[..first];
  }

  /** The text after the last match is kept as it is. */
  lemma RebuildKeepsTail(value: string, spans: seq<Span>, outcomes: seq<Result<string, string>>)
    requires WellFormed(value, spans) && |outcomes| == |spans| && spans != []
    ensures var r := Rebuild(value, spans, outcomes);
      var tail := value[End(spans[|spans| - 1])..];
      |tail| <= |r| && r[|r| - |tail|..] == tail
  {
    var n := |spans| - 1;
    var s := spans[n];
    assert WellFormed(value[..s.start], spans[..n]);
    var front := Rebuild(value[..s.start], spans[..n], outcomes[..n]) + Piece(value, s, outcomes[n]);
    assert Rebuild(value, spans, outcomes) == front + value[End(s)..];
    assert (front + value[End(s)..])[|front|..] == value[End(s)..];
  }

  /** Text after the last match can be split off before rebuilding. */
  lemma {:induction false} RebuildPrefix(value: string, spans: seq<Span>, outcomes: seq<Result<string, string>>, p: nat)
    requires WellFormed(value, spans) && |outcomes| == |spans|
    requires p <= |value| && forall k :: 0 <= k < |spans| ==> End(spans[k]) <= p
    ensures WellFormed(value[..p], spans)
    ensures Rebuild(value, spans, outcomes) == Rebuild(value[..p], spans, outcomes) + value[p..]
  {
    if spans != [] {
      var n := |spans| - 1;
      var s := spans[n];
      var short := value[..p];
      assert short[..s.start] == value[..s.start];
      var head := Rebuild(value[..s.start], spans[..n], outcomes[..n]);
      assert Piece(short, s, outcomes[n]) == Piece(value, s, outcomes[n]) by {
        assert short[s.start..End(s)] == value[s.start..End(s)];
      }
      var piece := Piece(value, s, outcomes[n]);
      assert Rebuild(value, spans, outcomes) == head + piece + value[End(s)..];
      assert Rebuild(short, spans, outcomes) == head + piece + short[End(s)..];
      assert short[End(s)..] + value[p..] == value[End(s)..];
      AppendAssoc(head + piece, short[End(s)..], value[p..]);
    }
  }

  /** When no match earns a replacement, the rebuilt value is the original. */
  lemma {:induction false} RebuildUntouched(value: string, spans: seq<Span>, outcomes: seq<Result<string, string>>)
    requires WellFormed(value, spans) && |outcomes| == |spans|
    requires forall k :: 0 <= k < |spans| ==> Replacement(spans[k].payload, outcomes[k]).None?
    ensures Rebuild(value, spans, outcomes) == value
    decreases |spans|
  {
    if spans != [] {
      var n := |spans| - 1;
      var s := spans[n];
      WellFormedCut(value, spans);
      var head := Rebuild(value[..s.start], spans[..n], outcomes[..n]);
      assert head == value[..s.start] by {
        assert forall k :: 0 <= k < n ==> spans[..n][k] == spans[k] && outcomes[..n][k] == outcomes[k];
        RebuildUntouched(value[..s.start], spans[..n], outcomes[..n]);
      }
      assert Piece(value, s, outcomes[n]) == value[s.start..End(s)] by {
        assert Replacement(s.payload, outcomes[n]).None?;
      }
      calc {
        Rebuild(value, spans, outcomes);
        head + Piece(value, s, outcomes[n]) + value[End(s)..];
        value[..s.start] + value[s.start..End(s)] + value[End(s)..];
        { SliceSplit(value, s.start, End(s)); }
        value;
      }
    }
  }

  /** The matches before the last one lie in the text before the last one starts. */
  lemma WellFormedCut(value: string, spans: seq<Span>)
    requires WellFormed(value, spans) && spans != []
    ensures WellFormed(value[..spans[|spans| - 1].start], spans[..|spans| - 1])
  {
    var n := |spans| - 1;
    var prefix := spans[..n];
    forall k | 0 <= k < n
      ensures End(prefix[k]) <= spans[n].start
    {
      assert prefix[k] == spans[k];
    }
  }

  /** The value and matches of the two-URL example below. */
  function ExampleValue(): string { "url(a) url(b)" }
  function ExampleSpans(): seq<Span> { [Span(0, 6, "a"), Span(7, 6, "b")] }
  function ExampleOutcomes(): seq<Result<string, string>> { [Failure("not found"), Success("c.png")] }

  lemma ExampleFirstKept()
    ensures WellFormed(ExampleValue()[..7], ExampleSpans()[..1])
    ensures Rebuild(ExampleValue()[..7], ExampleSpans()[..1], ExampleOutcomes()[..1]) == "url(a) "
  {
    var v7 := ExampleValue()[..7];
    assert v7 == "url(a) ";
    var spans, outcomes := ExampleSpans()[..1], ExampleOutcomes()[..1];
    assert spans == [Span(0, 6, "a")] && outcomes == [Failure("not found")];
    assert spans[..0] == [] && outcomes[..0] == [];
    assert Piece(v7, spans[0], outcomes[0]) == "url(a)" by {
      assert v7[0..6] == "url(a)";
    }
    assert Rebuild(v7, spans, outcomes) == Rebuild(v7[..0], [], []) + Piece(v7, spans[0], outcomes[0]) + v7[6..];
    assert v7[..0] == "" && v7[6..] == " ";
  }

  /** The two-URL case: a failed first URL keeps its text, a resolved second one is rewritten. */
  lemma ExampleFailedThenResolved()
    ensures WellFormed(ExampleValue(), ExampleSpans())
    ensures Rebuild(ExampleValue(), ExampleSpans(), ExampleOutcomes()) == "url(a) url('c.png')"
  {
    var value, spans, outcomes := ExampleValue(), ExampleSpans(), ExampleOutcomes();
    assert WellFormed(value, spans);
    ExampleFirstKept();
    assert Piece(value, spans[1], outcomes[1]) == "url('c.png')" by {
      assert '\'' !in "c.png";
      assert WrapUrl("c.png") == "url('c.png')";
    }
    assert value[13..] == "";
    assert Rebuild(value, spans, outcomes)
      == Rebuild(value[..7], spans[..1], outcomes[..1]) + Piece(value, spans[1], outcomes[1]) + value[13..];
  }

  /** In the same case exactly one diagnostic is reported, for the failed URL. */
  lemma ExampleOneDiagnostic()
    ensures Diagnostics(Payloads(ExampleSpans()), ExampleOutcomes()) == [Diagnostic("a", "not found")]
  {
    var outcomes := ExampleOutcomes();
    assert Payloads(ExampleSpans()) == ["a", "b"];
    assert ["a", "b"][..1] == ["a"] && ["a"][..0] == [];
    assert outcomes[..1] == [Failure("not found")] && outcomes[..1][..0] == [];
  }

  /** The captured URLs of the matches, in order. */
  function Payloads(spans: seq<Span>): (p: seq<string>)
    ensures |p| == |spans|
    ensures forall k :: 0 <= k < |spans| ==> p[k] == spans[k].payload
  {
    seq(|spans|, k requires 0 <= k < |spans| => spans[k].payload)
  }

  /** An error reported for one URL: the offending word and the thrown message. */
  datatype Diagnostic = Diagnostic(word: string, message: string)

  /** One diagnostic per failed URL, in order. */
  function Diagnostics(payloads: seq<string>, outcomes: seq<Result<string, string>>): (d: seq<Diagnostic>)
    requires |payloads| == |outcomes|
    ensures |d| <= |outcomes|
    decreases |outcomes|
  {
    if outcomes == [] then []
    else
      var n := |outcomes| - 1;
      Diagnostics(payloads[..n], outcomes[..n])
        + (if outcomes[n].Failure? then [Diagnostic(payloads[n], outcomes[n].error)] else [])
  }

  /** Every diagnostic names a URL that failed, with the message it failed with. */
  lemma {:induction false} DiagnosticsSound(payloads: seq<string>, outcomes: seq<Result<string, string>>)
    requires |payloads| == |outcomes|
    ensures forall e :: e in Diagnostics(payloads, outcomes) ==>
      exists k :: 0 <= k < |outcomes| && outcomes[k] == Failure(e.message) && payloads[k] == e.word
    decreases |outcomes|
  {
    if outcomes != [] {
      var n := |outcomes| - 1;
      DiagnosticsSound(payloads[..n], outcomes[..n]);
      forall e | e in Diagnostics(payloads, outcomes)
        ensures exists k :: 0 <= k < |outcomes| && outcomes[k] == Failure(e.message) && payloads[k] == e.word
      {
        if e in Diagnostics(payloads[..n], outcomes[..n]) {
          var k :| 0 <= k < n && outcomes[..n][k] == Failure(e.message) && payloads[..n][k] == e.word;
          assert outcomes[k] == Failure(e.message) && payloads[k] == e.word;
        } else {
          assert outcomes[n] == Failure(e.message) && payloads[n] == e.word;
        }
      }
    }
  }

  /** One more outcome adds a diagnostic exactly when it is a failure. */
  lemma DiagnosticsSnoc(payloads: seq<string>, outcomes: seq<Result<string, string>>, w: string, o: Result<string, string>)
    requires |payloads| == |outcomes|
    ensures Diagnostics(payloads + [w], outcomes + [o])
      == Diagnostics(payloads, outcomes) + (if o.Failure? then [Diagnostic(w, o.error)] else [])
  {
    assert (payloads + [w])[..|outcomes|] == payloads;
    assert (outcomes + [o])[..|outcomes|] == outcomes;
  }

  /** How many of the outcomes are failures. */
  function FailureCount(outcomes: seq<Result<string, string>>): nat
    decreases |outcomes|
  {
    if outcomes == [] then 0
    else FailureCount(outcomes[..|outcomes| - 1]) + (if outcomes[|outcomes| - 1].Failure? then 1 else 0)
  }

  /** Exactly one diagnostic is reported for each failed URL. */
  lemma {:induction false} DiagnosticPerFailure(payloads: seq<string>, outcomes: seq<Result<string, string>>)
    requires |payloads| == |outcomes|
    ensures |Diagnostics(payloads, outcomes)| == FailureCount(outcomes)
    decreases |outcomes|
  {
    if outcomes != [] {
      var n := |outcomes| - 1;
      DiagnosticPerFailure(payloads[..n], outcomes[..n]);
    }
  }

  /** Diagnostics of a concatenation are the concatenated diagnostics. */
  lemma {:induction false} DiagnosticsAppend(p1: seq<string>, o1: seq<Result<string, string>>, p2: seq<string>, o2: seq<Result<string, string>>)
    requires |p1| == |o1| && |p2| == |o2|
    ensures Diagnostics(p1 + p2, o1 + o2) == Diagnostics(p1, o1) + Diagnostics(p2, o2)
    decreases |o2|
  {
    if o2 == [] {
      assert p1 + p2 == p1 && o1 + o2 == o1;
    } else {
      var n := |o2| - 1;
      assert (p1 + p2)[..|p1| + n] == p1 + p2[..n];
      assert (o1 + o2)[..|o1| + n] == o1 + o2[..n];
      assert (o1 + o2)[|o1| + n] == o2[n] && (p1 + p2)[|p1| + n] == p2[n];
      DiagnosticsAppend(p1, o1, p2[..n], o2[..n]);
    }
  }

  /** The concatenation of a list of lists. */
  function Flatten<T>(xss: seq<seq<T>>): (r: seq<T>)
    decreases |xss|
  {
    if xss == [] then [] else Flatten(xss[..|xss| - 1]) + xss[|xss| - 1]
  }

  lemma FlattenSnoc<T>(xss: seq<seq<T>>, xs: seq<T>)
    ensures Flatten(xss + [xs]) == Flatten(xss) + xs
  {
    assert (xss + [xs])[..|xss|] == xss;
  }

  /** `segments.join('')`. */
  function Join(segments: seq<string>): string
    decreases |segments|
  {
    if segments == [] then "" else Join(segments[..|segments| - 1]) + segments[|segments| - 1]
  }

  lemma JoinSnoc(segments: seq<string>, s: string)
    ensures Join(segments + [s]) == Join(segments) + s
  {
    assert (segments + [s])[..|segments|] == segments;
  }

  /** Rebuilding with one more match, split at that match's start. */
  lemma {:induction false} RebuildSnoc(value: string, spans: seq<Span>, i: nat, before: seq<Result<string, string>>, p: Result<string, string>)
    requires WellFormed(value, spans) && i < |spans| && |before| == i
    ensures WellFormed(value, spans[..i]) && WellFormed(value, spans[..i + 1])
    ensures WellFormed(value[..spans[i].start], spans[..i])
    ensures Rebuild(value, spans[..i + 1], before + [p])
      == Rebuild(value[..spans[i].start], spans[..i], before) + Piece(value, spans[i], p) + value[End(spans[i])..]
    ensures Rebuild(value, spans[..i], before)
      == Rebuild(value[..spans[i].start], spans[..i], before) + value[spans[i].start..]
  {
    WellFormedPrefix(value, spans, i);
    WellFormedPrefix(value, spans, i + 1);
    var sp := spans[..i + 1];
    assert sp[..i] == spans[..i] && sp[i] == spans[i];
    assert (before + [p])[..i] == before && (before + [p])[i] == p;
    RebuildPrefix(value, spans[..i], before, spans[i].start);
  }

  /** The text algebra of a successful step: the gap and the piece are appended on both sides. */
  lemma StepAlgebra(joined: string, value: string, lastBefore: nat, start: nat, end: nat, head: string, piece: string)
    requires lastBefore <= start <= end <= |value|
    requires joined + value[lastBefore..] == head + value[start..]
    ensures joined + value[lastBefore..start] + piece + value[end..] == head + piece + value[end..]
  {
    var a := joined + value[lastBefore..start];
    assert a + value[start..] == joined + value[lastBefore..];
    assert |a| == |head|;
    calc {
      a;
      (a + value[start..])[..|a|];
      (head + value[start..])[..|head|];
      head;
    }
  }

  /**
   * One iteration of the rewrite loop keeps "segments so far, then the text
   * not yet consumed" equal to the value rebuilt from the matches seen so far.
   */
  lemma {:induction false} RewriteStep(value: string, spans: seq<Span>, i: nat, before: seq<Result<string, string>>,
                    processed: Result<string, string>, segmentsBefore: seq<string>, lastBefore: nat,
                    segments: seq<string>, lastIndex: nat)
    requires WellFormed(value, spans) && i < |spans| && |before| == i
    requires lastBefore <= spans[i].start
    requires WellFormed(value, spans[..i])
    requires Join(segmentsBefore) + value[lastBefore..] == Rebuild(value, spans[..i], before)
    requires processed.Failure? ==> segments == segmentsBefore && lastIndex == lastBefore
    requires processed.Success? ==>
      && lastIndex == End(spans[i])
      && segments == segmentsBefore
                     + (if lastBefore < spans[i].start then [value[lastBefore..spans[i].start]] else [])
                     + [Piece(value, spans[i], processed)]
    ensures WellFormed(value, spans[..i + 1])
    ensures lastIndex <= |value|
    ensures Join(segments) + value[lastIndex..] == Rebuild(value, spans[..i + 1], before + [processed])
  {
    var s := spans[i];
    RebuildSnoc(value, spans, i, before, processed);
    var head := Rebuild(value[..s.start], spans[..i], before);
    var piece := Piece(value, s, processed);
    if processed.Failure? {
      assert piece == value[s.start..End(s)];
      SliceSplit(value, s.start, End(s));
      AppendAssoc(head, piece, value[End(s)..]);
    } else {
      var gap := if lastBefore < s.start then [value[lastBefore..s.start]] else [];
      var joined := Join(segmentsBefore);
      assert Join(segmentsBefore + gap) == joined + value[lastBefore..s.start] by {
        if lastBefore < s.start {
          JoinSnoc(segmentsBefore, value[lastBefore..s.start]);
        } else {
          assert segmentsBefore + gap == segmentsBefore;
        }
      }
      JoinSnoc(segmentsBefore + gap, piece);
      StepAlgebra(joined, value, lastBefore, s.start, End(s), head, piece);
      calc {
        Join(segments) + value[lastIndex..];
        Join(segmentsBefore + gap) + piece + value[End(s)..];
        joined + value[lastBefore..s.start] + piece + value[End(s)..];
        head + piece + value[End(s)..];
      }
    }
  }
}
