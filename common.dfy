/** Small value types and sequence helpers shared by the warrant evaluators. */
module Common {

  /** A value that may be absent (Python's `None`). */
  datatype Option<+T> = None | Some(value: T)

  /** The number of elements of `s` that satisfy `p`: a counter bumped once per row. */
  function CountWhere<T>(s: seq<T>, p: T -> bool): (n: nat)
    ensures n <= |s|
  {
    if s == [] then 0
    else CountWhere(s[..|s| - 1], p) + (if p(s[|s| - 1]) then 1 else 0)
  }

  /** The positions of `s` whose element satisfies `p`. */
  ghost function IndicesWhere<T>(s: seq<T>, p: T -> bool): set<nat>
  {
    set k: nat | k < |s| && p(s[k])
  }

  /** A counter is the size of the set of hours it counted. */
  lemma {:induction false} CountWhereIsCardinality<T>(s: seq<T>, p: T -> bool)
    ensures CountWhere(s, p) == |IndicesWhere(s, p)|
  {
    if s != [] {
      var n := |s| - 1;
      var init := s[..n];
      CountWhereIsCardinality(init, p);
      var before := IndicesWhere(init, p);
      assert forall k: nat | k < n :: init[k] == s[k];
      if p(s[n]) {
        assert IndicesWhere(s, p) == before + {n};
      } else {
        assert IndicesWhere(s, p) == before;
      }
    }
  }

  /** A weaker test never counts fewer elements than a stronger one. */
  lemma {:induction false} CountWhereMonotone<T>(s: seq<T>, p: T -> bool, q: T -> bool)
    requires forall x :: x in s && p(x) ==> q(x)
    ensures CountWhere(s, p) <= CountWhere(s, q)
  {
    if s != [] {
      var n := |s| - 1;
      assert forall x :: x in s[..n] ==> x in s;
      CountWhereMonotone(s[..n], p, q);
    }
  }

  /** `f` applied to every element of `s`, in order: a list appended to once per row. */
  function MapSeq<T, U>(s: seq<T>, f: T -> U): (r: seq<U>)
    ensures |r| == |s|
    ensures forall k :: 0 <= k < |s| ==> r[k] == f(s[k])
  {
    if s == [] then []
    else MapSeq(s[..|s| - 1], f) + [f(s[|s| - 1])]
  }

  function Min(a: int, b: int): int { if a <= b then a else b }

  function Max(a: int, b: int): int { if a >= b then a else b }
}
