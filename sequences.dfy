/** Facts about splitting and re-associating sequences that the rewrite proofs use. */
module Sequences {

  /** Cutting a sequence at `a` and `b` and gluing the pieces back gives it back. */
  lemma SliceSplit<T>(v: seq<T>, a: nat, b: nat)
    requires a <= b <= |v|
    ensures v[a..] == v[a..b] + v[b..]
    ensures v[..a] + v[a..b] + v[b..] == v
  {
  }

  lemma AppendAssoc<T>(a: seq<T>, b: seq<T>, c: seq<T>)
    ensures (a + b) + c == a + (b + c)
  {
  }

  lemma Regroup3<T>(a: seq<T>, b: seq<T>, c: seq<T>, d: seq<T>)
    ensures a + (b + c + d) == a + b + c + d
  {
  }

  lemma Regroup<T>(a: seq<T>, b: seq<T>, c: seq<T>, d: seq<T>, e: seq<T>, f: seq<T>)
    ensures a + b + c + d + e + f == a + b + (c + d + (e + f))
  {
    AppendAssoc(a + b + c + d, e, f);
    AppendAssoc(a + b + c, d, e + f);
    AppendAssoc(a + b, c, d + (e + f));
    AppendAssoc(c, d, e + f);
  }
}
