/**
 * Piecewise-linear reading of a volume curve: given the curve's vertices
 * (major-street volume, minor-street threshold) and a major-street volume,
 * the minor-street threshold at that volume, or None below the curve's range.
 */
module Interpolation {
  import opened Common
  import opened Sorting

  /** One vertex of a curve: major-street vph `x`, minor-street threshold vph `y`. */
  datatype Point = Point(x: real, y: real)

  function XOf(p: Point): real { p.x }

  /** A curve has at least one vertex (every table entry does). */
  type Curve = c: seq<Point> | |c| > 0 witness [Point(0.0, 0.0)]

  function Last<T>(s: seq<T>): T
    requires |s| > 0
  {
    s[|s| - 1]
  }

  /** The vertices in ascending order of major volume. */
  function SortedPoints(curve: seq<Point>): (pts: seq<Point>)
    ensures |pts| == |curve| && multiset(pts) == multiset(curve)
    ensures SortedBy(pts, XOf)
  {
    SortBy(curve, XOf)
  }

  /** `v` lies in the half-open segment [p.x, q.x). */
  predicate Brackets(p: Point, q: Point, v: real)
  {
    p.x <= v < q.x
  }

  /** The straight line through `p` and `q`, read at `v`. */
  function Lerp(p: Point, q: Point, v: real): real
    requires p.x < q.x
  {
    var slope := (q.y - p.y) / (q.x - p.x);
    p.y + slope * (v - p.x)
  }

  /** The first segment, from position `i` on, whose half-open range holds `v`. */
  function FirstSegment(pts: seq<Point>, i: nat, v: real): (r: Option<nat>)
    decreases |pts| - i
    ensures r.Some? ==> i <= r.value && r.value + 1 < |pts| && Brackets(pts[r.value], pts[r.value + 1], v)
    ensures r.Some? ==> forall j :: i <= j < r.value ==> !Brackets(pts[j], pts[j + 1], v)
    ensures r.None? ==> forall j :: i <= j && j + 1 < |pts| ==> !Brackets(pts[j], pts[j + 1], v)
  {
    if i + 1 >= |pts| then None
    else if Brackets(pts[i], pts[i + 1], v) then Some(i)
    else FirstSegment(pts, i + 1, v)
  }

  /**
   * The minor-street threshold at major volume `majorVol`: None below the first
   * vertex, the last vertex's threshold at or beyond the last vertex, and the
   * straight line of the first bracketing segment in between. The final
   * alternative is the code's fall-through return, which ThresholdSegmentExists
   * shows cannot be reached.
   */
  function Threshold(curve: seq<Point>, majorVol: real): (r: Option<real>)
    requires |curve| > 0
    ensures r.None? <==> majorVol < SortedPoints(curve)[0].x
    ensures majorVol >= Last(SortedPoints(curve)).x ==> r == Some(Last(SortedPoints(curve)).y)
  {
    var pts := SortedPoints(curve);
    if majorVol < pts[0].x then None
    else if majorVol >= Last(pts).x then Some(Last(pts).y)
    else match FirstSegment(pts, 0, majorVol)
      case Some(i) => Some(Lerp(pts[i], pts[i + 1], majorVol))
      case None => Some(Last(pts).y)
  }

  /** The segment loop, with its early return, computes Threshold. */
  method InterpolateThreshold(curvePoints: seq<Point>, majorVol: real) returns (r: Option<real>)
    requires |curvePoints| > 0
    ensures r == Threshold(curvePoints, majorVol)
  {
    var points := SortedPoints(curvePoints);
    if majorVol < points[0].x {
      return None;
    }
    if majorVol >= points[|points| - 1].x {
      return Some(points[|points| - 1].y);
    }
    var i := 0;
    while i < |points| - 1
      invariant 0 <= i <= |points| - 1
      invariant FirstSegment(points, 0, majorVol) == FirstSegment(points, i, majorVol)
    {
      var p, q := points[i], points[i + 1];
      if p.x <= majorVol < q.x {
        assert FirstSegment(points, i, majorVol) == Some(i);
        return Some(Lerp(p, q, majorVol));
      }
      i := i + 1;
    }
    return Some(points[|points| - 1].y);
  }

  // ---------------------------------------------------------------------------
  // Properties of Threshold
  // ---------------------------------------------------------------------------

  /** Walking segments that do not hold `v` never passes `v`. */
  lemma {:induction false} NoBracketStaysBelow(pts: seq<Point>, v: real, j: nat)
    requires j < |pts| && pts[0].x <= v
    requires forall k :: 0 <= k && k + 1 < |pts| ==> !Brackets(pts[k], pts[k + 1], v)
    ensures pts[j].x <= v
  {
    if j > 0 {
      NoBracketStaysBelow(pts, v, j - 1);
    }
  }

  /**
   * Inside the covered range some segment holds `v`, even when the curve has
   * zero-width segments, so the fall-through return is never taken.
   */
  lemma ThresholdSegmentExists(pts: seq<Point>, v: real)
    requires |pts| > 0 && SortedBy(pts, XOf)
    requires pts[0].x <= v < Last(pts).x
    ensures FirstSegment(pts, 0, v).Some?
  {
    if FirstSegment(pts, 0, v).None? {
      NoBracketStaysBelow(pts, v, |pts| - 1);
    }
  }

  /** Under the sort, the first vertex has the smallest and the last the largest x. */
  lemma SortedEnds(curve: seq<Point>)
    requires |curve| > 0
    ensures SortedPoints(curve)[0] in curve && Last(SortedPoints(curve)) in curve
    ensures forall p :: p in curve ==> SortedPoints(curve)[0].x <= p.x <= Last(SortedPoints(curve)).x
  {
    var pts := SortedPoints(curve);
    assert pts[0] in multiset(pts) && Last(pts) in multiset(pts);
    forall p | p in curve ensures pts[0].x <= p.x <= Last(pts).x {
      assert p in multiset(curve);
      assert p in pts;
    }
  }

  /** The result is None exactly when `majorVol` is below every vertex, in whatever order the vertices come. */
  lemma ThresholdNoneIffBelowRange(curve: seq<Point>, majorVol: real)
    requires |curve| > 0
    ensures Threshold(curve, majorVol).None? <==> forall p :: p in curve ==> majorVol < p.x
  {
    SortedEnds(curve);
  }

  /**
   * At or beyond the largest vertex the result is that vertex's threshold, however far
   * beyond: flat extrapolation.
   */
  lemma ThresholdFlatAboveRange(curve: seq<Point>, majorVol: real)
    requires |curve| > 0
    requires forall p :: p in curve ==> p.x <= majorVol
    ensures Threshold(curve, majorVol) == Some(Last(SortedPoints(curve)).y)
    ensures Last(SortedPoints(curve)) in curve
    ensures forall p :: p in curve ==> p.x <= Last(SortedPoints(curve)).x
  {
    SortedEnds(curve);
  }

  /** The first bracketing segment of a sorted curve is the one that holds `v` with a larger end. */
  lemma FirstSegmentIs(pts: seq<Point>, v: real, i: nat)
    requires SortedBy(pts, XOf)
    requires i + 1 < |pts| && Brackets(pts[i], pts[i + 1], v)
    ensures FirstSegment(pts, 0, v) == Some(i)
  {
  }

  /** At a vertex where a new segment starts, the result is exactly that vertex's threshold. */
  lemma ThresholdAtVertex(curve: seq<Point>, i: nat)
    requires i < |curve|
    requires i + 1 == |curve| || SortedPoints(curve)[i].x < SortedPoints(curve)[i + 1].x
    ensures Threshold(curve, SortedPoints(curve)[i].x) == Some(SortedPoints(curve)[i].y)
  {
    var pts := SortedPoints(curve);
    var v := pts[i].x;
    if i + 1 < |pts| {
      assert XOf(pts[0]) <= XOf(pts[i]);
      assert XOf(pts[i + 1]) <= XOf(Last(pts));
      FirstSegmentIs(pts, v, i);
      assert pts[0].x <= v < Last(pts).x;
      assert Threshold(curve, v) == Some(Lerp(pts[i], pts[i + 1], v));
      assert Lerp(pts[i], pts[i + 1], v) == pts[i].y;
    } else {
      assert v == Last(pts).x;
    }
  }

  /** The straight line between two vertices stays between their thresholds. */
  lemma LerpBetween(p: Point, q: Point, v: real)
    requires p.x <= v <= q.x && p.x < q.x
    ensures Min2(p.y, q.y) <= Lerp(p, q, v) <= Max2(p.y, q.y)
  {
    var w := q.x - p.x;
    var t := (v - p.x) / w;
    assert t * w == v - p.x;
    if t < 0.0 {
      MulNonnegative(-t, w);
    }
    if t > 1.0 {
      MulNonnegative(t - 1.0, w);
      assert (t - 1.0) * w == t * w - w;
    }
    var d := q.y - p.y;
    assert Lerp(p, q, v) == p.y + d * t;
    var a := if d >= 0.0 then d else -d;
    MulNonnegative(a, t);
    MulNonnegative(a, 1.0 - t);
    assert a * (1.0 - t) == a - a * t;
  }

  lemma MulNonnegative(a: real, b: real)
    requires a >= 0.0 && b >= 0.0
    ensures a * b >= 0.0
  {
  }

  function Min2(a: real, b: real): real { if a <= b then a else b }

  function Max2(a: real, b: real): real { if a >= b then a else b }

  /**
   * Strictly inside a segment the result is that segment's straight line, and lies
   * between the thresholds of its two ends.
   */
  lemma ThresholdInsideSegment(curve: seq<Point>, i: nat, majorVol: real)
    requires i + 1 < |curve|
    requires SortedPoints(curve)[i].x < majorVol < SortedPoints(curve)[i + 1].x
    ensures Threshold(curve, majorVol) == Some(Lerp(SortedPoints(curve)[i], SortedPoints(curve)[i + 1], majorVol))
    ensures Min2(SortedPoints(curve)[i].y, SortedPoints(curve)[i + 1].y)
         <= Threshold(curve, majorVol).value
         <= Max2(SortedPoints(curve)[i].y, SortedPoints(curve)[i + 1].y)
  {
    var pts := SortedPoints(curve);
    assert XOf(pts[0]) <= XOf(pts[i]);
    assert XOf(pts[i + 1]) <= XOf(Last(pts));
    FirstSegmentIs(pts, majorVol, i);
    LerpBetween(pts[i], pts[i + 1], majorVol);
  }

  /** Whenever a threshold is returned, it lies within the range of the curve's thresholds. */
  lemma ThresholdWithinCurve(curve: seq<Point>, majorVol: real, lo: real, hi: real)
    requires |curve| > 0
    requires forall p :: p in curve ==> lo <= p.y <= hi
    requires Threshold(curve, majorVol).Some?
    ensures lo <= Threshold(curve, majorVol).value <= hi
  {
    var pts := SortedPoints(curve);
    SortedEnds(curve);
    if pts[0].x <= majorVol < Last(pts).x {
      ThresholdSegmentExists(pts, majorVol);
      var i := FirstSegment(pts, 0, majorVol).value;
      assert pts[i] in multiset(curve) && pts[i + 1] in multiset(curve);
      LerpBetween(pts[i], pts[i + 1], majorVol);
    }
  }

  /** On a curve whose thresholds are all positive, every threshold read is positive. */
  lemma ThresholdPositive(curve: seq<Point>, majorVol: real)
    requires |curve| > 0
    requires forall p :: p in curve ==> p.y > 0.0
    requires Threshold(curve, majorVol).Some?
    ensures Threshold(curve, majorVol).value > 0.0
  {
    var pts := SortedPoints(curve);
    SortedEnds(curve);
    if pts[0].x <= majorVol < Last(pts).x {
      var i := SegmentOf(curve, majorVol);
      assert pts[i] in multiset(curve) && pts[i + 1] in multiset(curve);
      LerpBetween(pts[i], pts[i + 1], majorVol);
    }
  }

  /** When no two vertices share a major volume, the order they are supplied in does not matter. */
  lemma ThresholdIgnoresSuppliedOrder(c1: seq<Point>, c2: seq<Point>, majorVol: real)
    requires |c1| > 0
    requires multiset(c1) == multiset(c2)
    requires KeyDetermines(c1, XOf)
    ensures |c2| > 0 && Threshold(c1, majorVol) == Threshold(c2, majorVol)
  {
    assert |c2| == |multiset(c2)| == |c1|;
    SortIgnoresSuppliedOrder(c1, c2, XOf);
  }

  /** Thresholds never increase from one vertex to a later one (true of every shipped curve). */
  predicate NonIncreasingY(pts: seq<Point>)
  {
    forall i, j :: 0 <= i < j < |pts| ==> pts[j].y <= pts[i].y
  }

  /** On a segment whose threshold falls, a larger volume never reads a larger threshold. */
  lemma LerpNonIncreasing(p: Point, q: Point, v1: real, v2: real)
    requires p.x < q.x && q.y <= p.y && v1 <= v2
    ensures Lerp(p, q, v2) <= Lerp(p, q, v1)
  {
    var slope := (q.y - p.y) / (q.x - p.x);
    assert slope * (q.x - p.x) == q.y - p.y;
    if slope > 0.0 {
      MulNonnegative(slope, q.x - p.x);
    }
    MulNonnegative(-slope, v2 - v1);
    assert slope * (v2 - p.x) - slope * (v1 - p.x) == slope * (v2 - v1);
  }

  /** A larger volume is never held by an earlier segment. */
  lemma SegmentsInOrder(pts: seq<Point>, v1: real, v2: real, i1: nat, i2: nat)
    requires SortedBy(pts, XOf) && v1 <= v2
    requires i1 + 1 < |pts| && Brackets(pts[i1], pts[i1 + 1], v1)
    requires i2 + 1 < |pts| && Brackets(pts[i2], pts[i2 + 1], v2)
    ensures i1 <= i2
  {
  }

  /** Inside the covered range the result is the straight line of the segment holding the volume. */
  lemma SegmentOf(curve: seq<Point>, v: real) returns (i: nat)
    requires |curve| > 0
    requires SortedPoints(curve)[0].x <= v < Last(SortedPoints(curve)).x
    ensures i + 1 < |curve| && Brackets(SortedPoints(curve)[i], SortedPoints(curve)[i + 1], v)
    ensures Threshold(curve, v) == Some(Lerp(SortedPoints(curve)[i], SortedPoints(curve)[i + 1], v))
  {
    ThresholdSegmentExists(SortedPoints(curve), v);
    i := FirstSegment(SortedPoints(curve), 0, v).value;
  }

  /**
   * For a curve whose thresholds fall as the major volume grows, the threshold read
   * never rises with the major volume, and a volume above one inside the range is inside too.
   */
  lemma ThresholdNonIncreasing(curve: seq<Point>, v1: real, v2: real)
    requires |curve| > 0
    requires NonIncreasingY(SortedPoints(curve))
    requires v1 <= v2
    requires Threshold(curve, v1).Some?
    ensures Threshold(curve, v2).Some?
    ensures Threshold(curve, v2).value <= Threshold(curve, v1).value
  {
    var pts := SortedPoints(curve);
    var n := |pts| - 1;
    if v1 < pts[n].x {
      var i1 := SegmentOf(curve, v1);
      var p1, q1 := pts[i1], pts[i1 + 1];
      LerpBetween(p1, q1, v1);
      assert q1.y <= p1.y && pts[n].y <= q1.y;
      if v2 < pts[n].x {
        var i2 := SegmentOf(curve, v2);
        SegmentsInOrder(pts, v1, v2, i1, i2);
        var p2, q2 := pts[i2], pts[i2 + 1];
        LerpBetween(p2, q2, v2);
        if i2 == i1 {
          LerpNonIncreasing(p1, q1, v1, v2);
        } else {
          assert q2.y <= p2.y <= q1.y;
        }
      }
    }
  }
}
