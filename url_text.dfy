/**
 * String helpers of the resource plugin: the prefix and pattern tests that
 * `process` applies, slash de-duplication, backslash normalisation and the
 * quoting of a rewritten `url(...)` token.
 */
module UrlText {
  import opened Wrappers
  import opened Sequences

  /** `s.startsWith(p)`. */
  predicate StartsWith(s: string, p: string) {
    |p| <= |s| && s[..|p|] == p
  }

  /** `t` occurs in `s` starting at index `i`. */
  predicate OccursAt(s: string, t: string, i: nat) {
    i + |t| <= |s| && s[i..i + |t|] == t
  }

  /** `s.includes(t)`, and equally `s.match(/t/)` for a literal pattern `t`. */
  predicate Contains(s: string, t: string) {
    exists i: nat | i <= |s| :: OccursAt(s, t, i)
  }

  /** The class `\w` of a JavaScript regular expression without the `u` flag. */
  predicate IsWordChar(c: char) {
    ('a' <= c <= 'z') || ('A' <= c <= 'Z') || ('0' <= c <= '9') || c == '_'
  }

  /** Length of the longest prefix of `s` made of word characters. */
  function WordPrefixLength(s: string): (n: nat)
    ensures n <= |s|
    ensures forall i :: 0 <= i < n ==> IsWordChar(s[i])
    ensures n < |s| ==> !IsWordChar(s[n])
    decreases |s|
  {
    if |s| > 0 && IsWordChar(s[0]) then 1 + WordPrefixLength(s[1..]) else 0
  }

  /** `/^\w+:\/\//`, decided on the longest run of word characters. */
  predicate HasSchemePrefix(s: string) {
    var n := WordPrefixLength(s);
    n > 0 && StartsWith(s[n..], "://")
  }

  /** The pattern read literally: a non-empty run of word characters ending at `k`, then `://`. */
  ghost predicate SchemeEndsAt(s: string, k: nat) {
    && 0 < k
    && k + 3 <= |s|
    && (forall i :: 0 <= i < k ==> IsWordChar(s[i]))
    && s[k..k + 3] == "://"
  }

  /** Deciding the scheme test on the longest word run agrees with the backtracking regex. */
  lemma SchemePrefixMatchesPattern(s: string)
    ensures HasSchemePrefix(s) <==> exists k: nat :: SchemeEndsAt(s, k)
  {
    var n := WordPrefixLength(s);
    if HasSchemePrefix(s) {
      assert s[n..][..3] == s[n..n + 3];
      assert SchemeEndsAt(s, n);
    }
    if k: nat :| SchemeEndsAt(s, k) {
      assert s[k] == ':' && !IsWordChar(s[k]);
      assert n == k;
      assert s[n..][..3] == s[n..n + 3];
    }
  }

  /** `/^(?:\w+:\/\/|data:|chrome:|#)/`: an absolute or opaque URL that is left as is. */
  predicate IsAbsoluteOrOpaque(s: string) {
    HasSchemePrefix(s) || StartsWith(s, "data:") || StartsWith(s, "chrome:") || StartsWith(s, "#")
  }

  /** Root-relative: starts with one `/` but not with `//`. */
  predicate IsRootRelative(s: string) {
    StartsWith(s, "/") && !StartsWith(s, "//")
  }

  /** `s.replace(/\/$/, '')`: drops one trailing slash, if there is one. */
  function StripTrailingSlash(s: string): (r: string)
    ensures s == r || s == r + "/"
    ensures |s| > 0 && s[|s| - 1] == '/' <==> s == r + "/"
  {
    if |s| > 0 && s[|s| - 1] == '/' then s[..|s| - 1] else s
  }

  /** `s.replace(/\\/g, '/')`: every backslash becomes a forward slash. */
  function ForwardSlashes(s: string): (r: string)
    ensures |r| == |s|
    ensures forall i :: 0 <= i < |s| ==> r[i] == (if s[i] == '\\' then '/' else s[i])
    ensures '\\' !in r
    decreases |s|
  {
    if s == [] then [] else [if s[0] == '\\' then '/' else s[0]] + ForwardSlashes(s[1..])
  }

  /** No two adjacent slashes. */
  predicate NoDoubleSlash(s: string) {
    forall i :: 0 <= i < |s| - 1 ==> !(s[i] == '/' && s[i + 1] == '/')
  }

  /** The characters of `s` other than `/`, in order. */
  function NonSlash(s: string): string
    decreases |s|
  {
    if s == [] then [] else (if s[0] == '/' then [] else [s[0]]) + NonSlash(s[1..])
  }

  lemma {:induction false} NonSlashAppend(a: string, b: string)
    ensures NonSlash(a + b) == NonSlash(a) + NonSlash(b)
    decreases |a|
  {
    if a == [] {
      assert a + b == b;
    } else {
      assert (a + b)[0] == a[0];
      assert (a + b)[1..] == a[1..] + b;
      NonSlashAppend(a[1..], b);
    }
  }

  /** `url.replace(/\/\/+/g, '/')`: every run of two or more slashes becomes one slash. */
  function DedupeSlashes(s: string): (r: string)
    ensures |r| <= |s|
    ensures |s| > 0 ==> |r| > 0 && r[0] == s[0]
    ensures NoDoubleSlash(r)
    decreases |s|
  {
    if |s| <= 1 then s
    else if s[0] == '/' && s[1] == '/' then DedupeSlashes(s[1..])
    else
      var t := DedupeSlashes(s[1..]);
      assert forall i :: 1 <= i < |t| ==> !(t[i - 1] == '/' && t[i] == '/');
      [s[0]] + t
  }

  /** A string without a double slash is left unchanged. */
  lemma {:induction false} DedupeFixpoint(s: string)
    requires NoDoubleSlash(s)
    ensures DedupeSlashes(s) == s
    decreases |s|
  {
    if |s| > 1 {
      assert !(s[0] == '/' && s[1] == '/');
      assert NoDoubleSlash(s[1..]) by {
        forall i | 0 <= i < |s[1..]| - 1 ensures !(s[1..][i] == '/' && s[1..][i + 1] == '/') {
          assert s[1..][i] == s[i + 1] && s[1..][i + 1] == s[i + 2];
        }
      }
      DedupeFixpoint(s[1..]);
      assert [s[0]] + s[1..] == s;
    }
  }

  /** De-duplicating changes a string exactly when it holds a double slash. */
  lemma DedupeUnchangedIff(s: string)
    ensures DedupeSlashes(s) == s <==> NoDoubleSlash(s)
  {
    if NoDoubleSlash(s) { DedupeFixpoint(s); }
  }

  /** Applying the de-duplication twice equals applying it once. */
  lemma DedupeIdempotent(s: string)
    ensures DedupeSlashes(DedupeSlashes(s)) == DedupeSlashes(s)
  {
    DedupeFixpoint(DedupeSlashes(s));
  }

  /** Only slashes are removed: the other characters keep their order. */
  lemma {:induction false} DedupeKeepsNonSlash(s: string)
    ensures NonSlash(DedupeSlashes(s)) == NonSlash(s)
    decreases |s|
  {
    if |s| > 1 {
      DedupeKeepsNonSlash(s[1..]);
      if !(s[0] == '/' && s[1] == '/') {
        var t := DedupeSlashes(s[1..]);
        NonSlashAppend([s[0]], t);
        NonSlashAppend([s[0]], s[1..]);
        assert [s[0]] + s[1..] == s;
      }
    }
  }

  /** `n` slashes in a row. */
  function Slashes(n: nat): (r: string)
    ensures |r| == n && forall i :: 0 <= i < n ==> r[i] == '/'
  {
    seq(n, _ => '/')
  }

  predicate EndsInSlash(s: string) {
    |s| > 0 && s[|s| - 1] == '/'
  }

  /** A run of slashes at the start becomes one slash. */
  lemma {:induction false} DedupeLeadingRun(n: nat, b: string)
    requires n >= 1 && !StartsWith(b, "/")
    ensures DedupeSlashes(Slashes(n) + b) == "/" + DedupeSlashes(b)
    decreases n
  {
    var s := Slashes(n) + b;
    if n == 1 {
      if b == [] {
        assert s == "/";
      } else {
        assert b[..1] == [b[0]];
        assert s[0] == '/' && s[1] == b[0] && s[1..] == b;
      }
    } else {
      assert s[0] == '/' && s[1] == '/';
      assert s[1..] == Slashes(n - 1) + b;
      DedupeLeadingRun(n - 1, b);
    }
  }

  /** Every run of slashes between two texts becomes exactly one slash. */
  lemma {:induction false} DedupeRun(a: string, n: nat, b: string)
    requires n >= 1 && !EndsInSlash(a) && !StartsWith(b, "/")
    ensures DedupeSlashes(a + Slashes(n) + b) == DedupeSlashes(a) + "/" + DedupeSlashes(b)
    decreases |a|
  {
    var run := Slashes(n) + b;
    assert run[0] == '/';
    if a == [] {
      assert a + Slashes(n) + b == run;
      DedupeLeadingRun(n, b);
    } else {
      var rest := a[1..] + Slashes(n) + b;
      assert a + Slashes(n) + b == [a[0]] + rest;
      if |a| == 1 {
        assert rest == run;
        DedupeCons(a[0], rest);
        DedupeLeadingRun(n, b);
      } else {
        assert a[1..][|a[1..]| - 1] == a[|a| - 1];
        assert rest[0] == a[1] && a == [a[0]] + a[1..];
        DedupeRun(a[1..], n, b);
        if a[0] == '/' && a[1] == '/' {
          DedupeDrop(a[0], rest);
          DedupeDrop(a[0], a[1..]);
        } else {
          DedupeCons(a[0], rest);
          DedupeCons(a[0], a[1..]);
          Regroup3([a[0]], DedupeSlashes(a[1..]), "/", DedupeSlashes(b));
        }
      }
    }
  }

  /** A character that does not start a double slash is kept in front. */
  lemma DedupeCons(c: char, t: string)
    requires t != [] && !(c == '/' && t[0] == '/')
    ensures DedupeSlashes([c] + t) == [c] + DedupeSlashes(t)
  {
    assert ([c] + t)[1..] == t;
  }

  /** The first slash of a double slash is dropped. */
  lemma DedupeDrop(c: char, t: string)
    requires t != [] && c == '/' && t[0] == '/'
    ensures DedupeSlashes([c] + t) == DedupeSlashes(t)
  {
    assert ([c] + t)[1..] == t;
  }

  /** A prefix without a double slash that does not end in a slash is passed through unchanged. */
  lemma {:induction false} DedupePrefix(p: string, r: string)
    requires !EndsInSlash(p) && NoDoubleSlash(p)
    ensures DedupeSlashes(p + r) == p + DedupeSlashes(r)
    decreases |p|
  {
    if p == [] {
      assert p + r == r;
    } else {
      var s := p + r;
      var rest := p[1..] + r;
      assert s[0] == p[0] && s[1..] == rest;
      if |p| == 1 {
        assert rest == r && p == [p[0]] && p[0] != '/';
        if r == [] {
          assert s == p;
        } else {
          assert DedupeSlashes(s) == [s[0]] + DedupeSlashes(s[1..]);
        }
      } else {
        assert s[1] == p[1] && !(p[0] == '/' && p[1] == '/');
        assert NoDoubleSlash(p[1..]) by {
          forall i | 0 <= i < |p[1..]| - 1 ensures !(p[1..][i] == '/' && p[1..][i + 1] == '/') {
            assert p[1..][i] == p[i + 1] && p[1..][i + 1] == p[i + 2];
          }
        }
        assert p[1..][|p[1..]| - 1] == p[|p| - 1];
        DedupePrefix(p[1..], r);
        assert [p[0]] + p[1..] == p;
      }
    }
  }

  /** A path segment as the composition of a root-relative URL expects it: no slash at either end and no double slash. */
  predicate CleanSegment(s: string) {
    !StartsWith(s, "/") && !EndsInSlash(s) && NoDoubleSlash(s)
  }

  /** A segment with its separating slash, or nothing for an empty segment. */
  function Prefixed(s: string): string {
    if s == "" then "" else "/" + s
  }

  /** Before text that starts with a slash, `/segment` contributes exactly one separating slash. */
  lemma DedupeSegment(x: string, r: string)
    requires CleanSegment(x) && StartsWith(r, "/")
    ensures DedupeSlashes("/" + x + r) == Prefixed(x) + DedupeSlashes(r)
  {
    assert r[..1] == [r[0]];
    if x == "" {
      var s := "/" + x + r;
      assert s[0] == '/' && s[1] == '/' && s[1..] == r;
    } else {
      var p := "/" + x;
      assert x[..1] == [x[0]];
      assert NoDoubleSlash(p) by {
        forall i | 0 <= i < |p| - 1 ensures !(p[i] == '/' && p[i + 1] == '/') {
          if i > 0 { assert p[i] == x[i - 1] && p[i + 1] == x[i]; }
        }
      }
      assert p[|p| - 1] == x[|x| - 1];
      DedupePrefix(p, r);
    }
  }

  /** A string without a double slash holds no `://`. */
  lemma NoDoubleSlashNoScheme(s: string)
    requires NoDoubleSlash(s)
    ensures !Contains(s, "://")
  {
    if i: nat :| i <= |s| && OccursAt(s, "://", i) {
      assert s[i..i + 3] == "://";
      assert s[i + 1] == '/' && s[i + 2] == '/';
    }
  }

  /** The quote that `wrapUrl` picks: double if the URL holds a single quote. */
  function QuoteFor(u: string): char {
    if '\'' in u then '"' else '\''
  }

  /** `wrapUrl`: `url('u')`, or `url("u")` when `u` holds a single quote. */
  function WrapUrl(u: string): (r: string)
    ensures |r| == |u| + 7
  {
    var q := QuoteFor(u);
    "url(" + [q] + u + [q] + ")"
  }

  /**
   * The token is `url(` and `)` around `u` in matching quotes: double quotes
   * exactly when `u` holds a single quote, so the quote never clashes with
   * `u` unless `u` holds both kinds.
   */
  lemma WrapUrlShape(u: string)
    ensures var r := WrapUrl(u);
      && StartsWith(r, "url(") && r[|r| - 1] == ')'
      && r[5..|r| - 2] == u
      && r[4] == r[|r| - 2]
      && (r[4] == '"' || r[4] == '\'')
      && (r[4] == '"' <==> '\'' in u)
      && (!('\'' in u && '"' in u) ==> r[4] !in u)
  {
  }

  /** Reads back the URL embedded in a quoted `url(...)` token. */
  function UnwrapUrl(t: string): Option<string> {
    if |t| >= 7 && StartsWith(t, "url(") && t[|t| - 1] == ')'
       && t[4] == t[|t| - 2] && (t[4] == '"' || t[4] == '\'')
    then Some(t[5..|t| - 2])
    else None
  }

  /** The URL inside `wrapUrl`'s token is the one given, unchanged. */
  lemma UnwrapWrap(u: string)
    ensures UnwrapUrl(WrapUrl(u)) == Some(u)
  {
    WrapUrlShape(u);
  }
}
