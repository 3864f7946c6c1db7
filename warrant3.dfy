/**
 * Warrant 3, Peak Hour: the hour with the largest total volume falls on or above
 * the applicable peak-hour curve.
 */
module Warrant3 {
  import opened Common
  import opened Interpolation
  import opened Tables
  import opened Traffic
  import opened Verdicts

  /**
   * Which explanation the verdict carries: the peak hour compared with a threshold,
   * or "major volume below curve range". The code chooses by the truth of the
   * threshold value, so a threshold of zero would also give the second.
   */
  datatype Note = Compared | BelowCurveRange

  /** The peak hour and what it was compared with. */
  datatype Peak = Peak(hour: string, majorVol: nat, minorVol: nat, threshold: Option<real>,
                       tier: CurveTier, curve: Curve, major: Street, note: Note)

  datatype Result = Result(met: TriState, peak: Option<Peak>)

  /** The curve the warrant reads for the site. */
  function SiteCurve(majorLanes: int, minorLanes: int, speed: int, population: int): (c: Curve)
    ensures WellFormedCurve(c)
    ensures ReducedConditions(speed, population) ==> c == Warrant3Curve(Pct70, LaneKeyOf(majorLanes, minorLanes))
    ensures !ReducedConditions(speed, population) ==> c == Warrant3Curve(Pct100, LaneKeyOf(majorLanes, minorLanes))
  {
    Warrant3Curve(CurveTierOf(speed, population), LaneKeyOf(majorLanes, minorLanes))
  }

  /** The verdict of Warrant 3 for an hourly series (None when no series was entered). */
  function Warrant3(traffic: Option<seq<Row>>, majorLanes: int, minorLanes: int, speed: int, population: int): (r: Result)
    ensures r.met == NotApplicable <==> traffic.None? || |traffic.value| == 0
    ensures r.met == NotApplicable <==> r.peak.None?
    ensures r.peak.Some? ==>
      r.peak.value.major == MajorStreet(traffic.value) && r.peak.value.tier == CurveTierOf(speed, population) &&
      r.peak.value.curve == SiteCurve(majorLanes, minorLanes, speed, population)
    ensures r.peak.Some? ==>
      var p := r.peak.value;
      IsPeakOf(p, traffic.value) &&
      p.threshold == Threshold(SiteCurve(majorLanes, minorLanes, speed, population), p.majorVol as real) &&
      (r.met == Met <==> p.threshold.Some? && p.minorVol as real >= p.threshold.value)
  {
    if traffic.None? || |traffic.value| < 1 then Result(NotApplicable, None)
    else AtPeak(traffic.value, CurveTierOf(speed, population), SiteCurve(majorLanes, minorLanes, speed, population))
  }

  /**
   * `p` describes the first hour of `rows` with the largest total, its two volumes
   * read on the series' major street.
   */
  predicate IsPeakOf(p: Peak, rows: seq<Row>)
  {
    p.major == MajorStreet(rows) &&
    exists i :: 0 <= i < |rows| &&
      p.hour == rows[i].hour && p.majorVol + p.minorVol == rows[i].s1 + rows[i].s2 &&
      p.majorVol == MajorVol(rows[i], p.major) && p.minorVol == MinorVol(rows[i], p.major) &&
      (forall k :: 0 <= k < |rows| ==> rows[k].s1 + rows[k].s2 <= rows[i].s1 + rows[i].s2) &&
      (forall k :: 0 <= k < i ==> rows[k].s1 + rows[k].s2 < rows[i].s1 + rows[i].s2)
  }

  /**
   * The verdict for a non-empty series read against `curve`: the first hour with
   * the largest total is compared, and the warrant is met iff the curve gives a
   * threshold there and the hour's minor volume reaches it.
   */
  function AtPeak(rows: seq<Row>, tier: CurveTier, curve: Curve): (r: Result)
    requires |rows| > 0
    ensures r.met != NotApplicable && r.peak.Some?
    ensures var p := r.peak.value;
      p.tier == tier && p.curve == curve && IsPeakOf(p, rows)
    ensures var p := r.peak.value;
      p.threshold == Threshold(curve, p.majorVol as real) &&
      (r.met == Met <==> p.threshold.Some? && p.minorVol as real >= p.threshold.value)
    ensures var p := r.peak.value;
      p.note == BelowCurveRange <==> p.threshold.None? || p.threshold.value == 0.0
  {
    var major := MajorStreet(rows);
    var i := FirstArgMax(TotalColumn(rows, major));
    var row := rows[i];
    var majorVol, minorVol := MajorVol(row, major), MinorVol(row, major);
    var threshold := Threshold(curve, majorVol as real);
    var aboveCurve := threshold.Some? && minorVol as real >= threshold.value;
    var note := if threshold.Some? && threshold.value != 0.0 then Compared else BelowCurveRange;
    Result(FromBool(aboveCurve), Some(Peak(row.hour, majorVol, minorVol, threshold, tier, curve, major, note)))
  }

  // ---------------------------------------------------------------------------
  // Properties of Warrant 3
  // ---------------------------------------------------------------------------

  /**
   * On a well-formed curve (every shipped one, by the contract of Warrant3Curve) the
   * "below curve range" explanation appears exactly when no threshold was read,
   * that is when the peak's major volume is below the curve's first vertex.
   */
  lemma BelowRangeNoteIffNoThreshold(rows: seq<Row>, tier: CurveTier, curve: Curve)
    requires |rows| > 0
    requires WellFormedCurve(curve)
    ensures var p := AtPeak(rows, tier, curve).peak.value;
      (p.note == BelowCurveRange <==> p.threshold.None?) &&
      (p.note == BelowCurveRange <==> forall q :: q in curve ==> (p.majorVol as real) < q.x)
  {
    WellFormedCurveFacts(curve);
    var p := AtPeak(rows, tier, curve).peak.value;
    if p.threshold.Some? {
      ThresholdPositive(curve, p.majorVol as real);
    }
    ThresholdNoneIffBelowRange(curve, p.majorVol as real);
  }

  /** The same, for the verdict of any site: the shipped curves are all well formed. */
  lemma SiteNoteIffNoThreshold(rows: seq<Row>, majorLanes: int, minorLanes: int, speed: int, population: int)
    requires |rows| > 0
    ensures var p := Warrant3(Some(rows), majorLanes, minorLanes, speed, population).peak.value;
      p.note == BelowCurveRange <==> p.threshold.None?
  {
    BelowRangeNoteIffNoThreshold(rows, CurveTierOf(speed, population), SiteCurve(majorLanes, minorLanes, speed, population));
  }
}
