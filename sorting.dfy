/**
 * An ascending sort by a real-valued key, the model of Python's `sorted(xs, key=...)`:
 * insertion sort, proved to give a sorted permutation of its input.
 */
module Sorting {

  /** Keys never decrease from left to right. */
  predicate SortedBy<T>(s: seq<T>, key: T -> real)
  {
    forall i, j :: 0 <= i < j < |s| ==> key(s[i]) <= key(s[j])
  }

  /** Keys never decrease between neighbours (the cheap form to check on literal data). */
  predicate AdjacentSortedBy<T>(s: seq<T>, key: T -> real)
  {
    forall i :: 0 <= i < |s| - 1 ==> key(s[i]) <= key(s[i + 1])
  }

  /** Each element is the only one in `s` with its key. */
  ghost predicate KeyDetermines<T>(s: seq<T>, key: T -> real)
  {
    forall a, b :: a in s && b in s && key(a) == key(b) ==> a == b
  }

  /** Inserts `x` before the first element whose key is not smaller than its own. */
  function InsertBy<T>(x: T, s: seq<T>, key: T -> real): (r: seq<T>)
    ensures |r| == |s| + 1
    ensures multiset(r) == multiset(s) + multiset{x}
  {
    if s == [] || key(x) <= key(s[0]) then [x] + s
    else
      assert s == [s[0]] + s[1..];
      [s[0]] + InsertBy(x, s[1..], key)
  }

  lemma {:induction false} InsertKeepsSorted<T>(x: T, s: seq<T>, key: T -> real)
    requires SortedBy(s, key)
    ensures SortedBy(InsertBy(x, s, key), key)
  {
    if s != [] && key(x) > key(s[0]) {
      var tail := s[1..];
      var rest := InsertBy(x, tail, key);
      InsertKeepsSorted(x, tail, key);
      forall y | y in rest ensures key(s[0]) <= key(y) {
        assert y in multiset(rest);
        if y != x {
          assert y in tail;
        }
      }
      var r := [s[0]] + rest;
      forall i, j | 0 <= i < j < |r| ensures key(r[i]) <= key(r[j]) {
        if i > 0 {
          assert r[i] == rest[i - 1] && r[j] == rest[j - 1];
        } else {
          assert r[j] == rest[j - 1];
          assert r[j] in rest;
        }
      }
    }
  }

  /** Insertion sort: the first element goes in front of the later ones with the same key. */
  function SortBy<T>(s: seq<T>, key: T -> real): (r: seq<T>)
    ensures |r| == |s|
    ensures multiset(r) == multiset(s)
    ensures SortedBy(r, key)
  {
    if s == [] then []
    else
      assert s == [s[0]] + s[1..];
      var rest := SortBy(s[1..], key);
      InsertKeepsSorted(s[0], rest, key);
      InsertBy(s[0], rest, key)
  }

  lemma {:induction false} AdjacentIsSorted<T>(s: seq<T>, key: T -> real)
    requires AdjacentSortedBy(s, key)
    ensures SortedBy(s, key)
  {
    if |s| > 1 {
      var tail := s[1..];
      AdjacentIsSorted(tail, key);
      forall i, j | 0 <= i < j < |s| ensures key(s[i]) <= key(s[j]) {
        if i > 0 {
          assert s[i] == tail[i - 1] && s[j] == tail[j - 1];
        } else if j > 1 {
          assert s[1] == tail[0] && s[j] == tail[j - 1];
        }
      }
    }
  }

  /** Sorting data that is already in order gives it back unchanged. */
  lemma {:induction false} SortSortedIsIdentity<T>(s: seq<T>, key: T -> real)
    requires SortedBy(s, key)
    ensures SortBy(s, key) == s
  {
    if s != [] {
      SortSortedIsIdentity(s[1..], key);
      assert s == [s[0]] + s[1..];
    }
  }

  lemma SortedTail<T>(s: seq<T>, key: T -> real)
    requires SortedBy(s, key) && s != []
    ensures SortedBy(s[1..], key)
  {
    forall i, j | 0 <= i < j < |s| - 1 ensures key(s[1..][i]) <= key(s[1..][j]) {
      assert s[1..][i] == s[i + 1] && s[1..][j] == s[j + 1];
    }
  }

  /**
   * Two sorted arrangements of the same elements are equal when no two distinct
   * elements share a key.
   */
  lemma {:induction false} SortedArrangementUnique<T>(r1: seq<T>, r2: seq<T>, key: T -> real)
    requires SortedBy(r1, key) && SortedBy(r2, key)
    requires multiset(r1) == multiset(r2)
    requires KeyDetermines(r1, key)
    ensures r1 == r2
  {
    if r1 != [] {
      assert r1[0] in multiset(r2);
      assert |r2| == |multiset(r2)| == |r1|;
      assert r2[0] in multiset(r1);
      assert key(r1[0]) == key(r2[0]);
      assert r1[0] == r2[0];
      assert r1 == [r1[0]] + r1[1..];
      assert r2 == [r2[0]] + r2[1..];
      assert multiset(r1) == multiset{r1[0]} + multiset(r1[1..]);
      assert multiset(r2) == multiset{r2[0]} + multiset(r2[1..]);
      assert multiset(r1[1..]) == multiset(r1) - multiset{r1[0]};
      assert multiset(r2[1..]) == multiset(r2) - multiset{r2[0]};
      assert forall a :: a in r1[1..] ==> a in r1;
      SortedTail(r1, key);
      SortedTail(r2, key);
      SortedArrangementUnique(r1[1..], r2[1..], key);
    }
  }

  /** When the key determines the element, sorting forgets the supplied order. */
  lemma SortIgnoresSuppliedOrder<T>(s1: seq<T>, s2: seq<T>, key: T -> real)
    requires multiset(s1) == multiset(s2)
    requires KeyDetermines(s1, key)
    ensures SortBy(s1, key) == SortBy(s2, key)
  {
    var r1, r2 := SortBy(s1, key), SortBy(s2, key);
    forall a | a in r1 ensures a in s1 {
      assert a in multiset(r1);
    }
    SortedArrangementUnique(r1, r2, key);
  }
}
