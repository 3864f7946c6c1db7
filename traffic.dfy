/**
 * The hourly traffic series and the aggregates the warrants take of it: street
 * totals and the major/minor roles, the peak-total hour, the largest major volume
 * and the mean of the four largest major volumes.
 */
module Traffic {
  import opened Common
  import opened Sorting

  /** One hour of counts: its label and the vph on Street 1 and on Street 2. */
  datatype Row = Row(hour: string, s1: nat, s2: nat)

  datatype Street = Street1 | Street2

  function Other(street: Street): Street
  {
    if street == Street1 then Street2 else Street1
  }

  /** The column of `street` in one row. */
  function Volume(row: Row, street: Street): nat
  {
    if street == Street1 then row.s1 else row.s2
  }

  /** The sum of a street's column over the whole series. */
  function StreetTotal(rows: seq<Row>, street: Street): (total: nat)
    ensures forall k :: 0 <= k < |rows| ==> Volume(rows[k], street) <= total
    ensures total == 0 <==> forall k :: 0 <= k < |rows| ==> Volume(rows[k], street) == 0
  {
    if rows == [] then 0 else Volume(rows[0], street) + StreetTotal(rows[1..], street)
  }

  /** The major street carries the larger total over the series; a tie goes to Street 1. */
  function MajorStreet(rows: seq<Row>): (major: Street)
    ensures StreetTotal(rows, Other(major)) <= StreetTotal(rows, major)
    ensures StreetTotal(rows, Other(major)) == StreetTotal(rows, major) ==> major == Street1
  {
    if StreetTotal(rows, Street1) >= StreetTotal(rows, Street2) then Street1 else Street2
  }

  function MajorVol(row: Row, major: Street): nat { Volume(row, major) }

  function MinorVol(row: Row, major: Street): nat { Volume(row, Other(major)) }

  /** The major street's column. */
  function MajorColumn(rows: seq<Row>, major: Street): (vols: seq<nat>)
    ensures |vols| == |rows|
    ensures forall k :: 0 <= k < |rows| ==> vols[k] == MajorVol(rows[k], major)
  {
    seq(|rows|, k requires 0 <= k < |rows| => MajorVol(rows[k], major))
  }

  /** The derived `total` column: major plus minor volume of each hour. */
  function TotalColumn(rows: seq<Row>, major: Street): (totals: seq<nat>)
    ensures |totals| == |rows|
    ensures forall k :: 0 <= k < |rows| ==> totals[k] == rows[k].s1 + rows[k].s2
  {
    seq(|rows|, k requires 0 <= k < |rows| => MajorVol(rows[k], major) + MinorVol(rows[k], major))
  }

  /** The largest value of a non-empty column. */
  function MaxOf(s: seq<nat>): (m: nat)
    requires |s| > 0
    ensures m in s
    ensures forall k :: 0 <= k < |s| ==> s[k] <= m
  {
    if |s| == 1 then s[0]
    else
      var m := MaxOf(s[1..]);
      assert forall k :: 1 <= k < |s| ==> s[k] == s[1..][k - 1];
      if s[0] >= m then s[0] else m
  }

  /** The position of the first largest value (`idxmax`). */
  function FirstArgMax(s: seq<nat>): (i: nat)
    requires |s| > 0
    ensures i < |s|
    ensures forall k :: 0 <= k < |s| ==> s[k] <= s[i]
    ensures forall k :: 0 <= k < i ==> s[k] < s[i]
  {
    if |s| == 1 then 0
    else
      var j := FirstArgMax(s[..|s| - 1]);
      if s[|s| - 1] > s[j] then |s| - 1 else j
  }

  function Sum(s: seq<nat>): nat
  {
    if s == [] then 0 else s[0] + Sum(s[1..])
  }

  /** Sorting key that puts larger volumes first. */
  function Descending(v: nat): real { -(v as real) }

  /** The `k` largest values, largest first (`nlargest`); all of them when there are fewer. */
  function Largest(s: seq<nat>, k: nat): (top: seq<nat>)
    ensures |top| == Min(k, |s|)
  {
    SortBy(s, Descending)[..Min(k, |s|)]
  }

  /** The average of a non-empty list of volumes. */
  function Mean(s: seq<nat>): real
    requires |s| > 0
  {
    Sum(s) as real / |s| as real
  }

  /** The mean of the (up to) four largest volumes. */
  function TopFourMean(s: seq<nat>): (m: real)
    requires |s| > 0
    ensures 0.0 <= m <= MaxOf(s) as real
    ensures forall y :: y in multiset(s) - multiset(Largest(s, 4)) ==> y as real <= m
  {
    LargestMeanBounds(s, 4);
    Mean(Largest(s, 4))
  }

  // ---------------------------------------------------------------------------
  // Properties of the aggregates
  // ---------------------------------------------------------------------------

  /**
   * `Largest(s, k)` takes its values from `s`, and none of the values it leaves
   * out is larger than any value it keeps.
   */
  lemma LargestAreLargest(s: seq<nat>, k: nat)
    ensures multiset(Largest(s, k)) <= multiset(s)
    ensures forall x, y :: x in Largest(s, k) && y in multiset(s) - multiset(Largest(s, k)) ==> y <= x
  {
    var sorted := SortBy(s, Descending);
    var n := Min(k, |s|);
    var top, rest := sorted[..n], sorted[n..];
    assert sorted == top + rest;
    assert multiset(sorted) == multiset(top) + multiset(rest);
    assert multiset(s) - multiset(top) == multiset(rest);
    forall x, y | x in top && y in multiset(rest) ensures y <= x {
      assert y in rest;
      PrefixBeforeSuffix(sorted, n, x, y);
    }
  }

  /** In a sequence sorted largest first, a value before a cut is at least every value after it. */
  lemma PrefixBeforeSuffix(sorted: seq<nat>, n: nat, x: nat, y: nat)
    requires SortedBy(sorted, Descending) && n <= |sorted|
    requires x in sorted[..n] && y in sorted[n..]
    ensures y <= x
  {
    var i :| 0 <= i < n && sorted[i] == x;
    var j :| n <= j < |sorted| && sorted[j] == y;
    assert Descending(sorted[i]) <= Descending(sorted[j]);
  }

  lemma {:induction false} SumAtLeast(s: seq<nat>, lo: real)
    requires forall k :: 0 <= k < |s| ==> lo <= s[k] as real
    ensures (|s| as real) * lo <= Sum(s) as real
  {
    if s != [] {
      SumAtLeast(s[1..], lo);
      AddOneTimes(|s[1..]| as real, lo);
    }
  }

  lemma {:induction false} SumAtMost(s: seq<nat>, hi: real)
    requires forall k :: 0 <= k < |s| ==> s[k] as real <= hi
    ensures Sum(s) as real <= (|s| as real) * hi
  {
    if s != [] {
      SumAtMost(s[1..], hi);
      AddOneTimes(|s[1..]| as real, hi);
    }
  }

  lemma AddOneTimes(a: real, b: real)
    ensures (a + 1.0) * b == a * b + b
  {
  }

  /** A factor of a non-negative product with a positive factor is non-negative. */
  lemma NonnegativeFactor(a: real, n: real)
    requires n > 0.0 && a * n >= 0.0
    ensures a >= 0.0
  {
  }

  /** A quotient by a positive count is bounded as the dividend is. */
  lemma DivBounds(total: real, n: real, lo: real, hi: real)
    requires n > 0.0 && n * lo <= total <= n * hi
    ensures lo <= total / n <= hi
  {
    var m := total / n;
    assert m * n == total;
    assert (m - lo) * n == total - n * lo;
    NonnegativeFactor(m - lo, n);
    assert (hi - m) * n == n * hi - total;
    NonnegativeFactor(hi - m, n);
  }

  lemma MeanBounds(s: seq<nat>, lo: real, hi: real)
    requires |s| > 0
    requires forall k :: 0 <= k < |s| ==> lo <= s[k] as real <= hi
    ensures lo <= Mean(s) <= hi
  {
    SumAtLeast(s, lo);
    SumAtMost(s, hi);
    DivBounds(Sum(s) as real, |s| as real, lo, hi);
  }

  /**
   * The mean of the `n` largest volumes lies between the largest volume of the
   * series and every volume left out of the `n` largest.
   */
  lemma LargestMeanBounds(s: seq<nat>, n: nat)
    requires |s| > 0 && n > 0
    ensures 0.0 <= Mean(Largest(s, n)) <= MaxOf(s) as real
    ensures forall y :: y in multiset(s) - multiset(Largest(s, n)) ==> y as real <= Mean(Largest(s, n))
  {
    var top := Largest(s, n);
    LargestAreLargest(s, n);
    var m := MaxOf(s);
    forall k | 0 <= k < |top| ensures top[k] <= m {
      assert top[k] in multiset(top);
    }
    MeanBounds(top, 0.0, m as real);
    forall y | y in multiset(s) - multiset(top) ensures y as real <= Mean(top) {
      forall k | 0 <= k < |top| ensures y <= top[k] {
        assert top[k] in top;
      }
      MeanBounds(top, y as real, m as real);
    }
  }
}
