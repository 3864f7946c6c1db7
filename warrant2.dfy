/**
 * Warrant 2, Four-Hour Vehicular Volume: at least four hours whose (major, minor)
 * volumes fall on or above the applicable curve.
 */
module Warrant2 {
  import opened Common
  import opened HourTests
  import opened Interpolation
  import opened Tables
  import opened Traffic
  import opened Verdicts

  /** One hour's line of the chart data. */
  datatype HourCheck = HourCheck(hour: string, majorVol: nat, minorVol: nat, threshold: Option<real>, aboveCurve: bool)

  datatype Evidence = Evidence(tier: CurveTier, curve: Curve, hourly: seq<HourCheck>, major: Street)

  datatype Result = Result(met: TriState, hoursMet: nat, evidence: Option<Evidence>)

  function HourOf(row: Row, major: Street, curve: Curve): HourCheck
  {
    HourCheck(row.hour, MajorVol(row, major), MinorVol(row, major),
              RowThreshold(row, major, curve), AboveCurve(row, major, curve))
  }

  function HourFn(major: Street, curve: Curve): Row -> HourCheck
  {
    row => HourOf(row, major, curve)
  }

  /** The curve the warrant reads for the site. */
  function SiteCurve(majorLanes: int, minorLanes: int, speed: int, population: int): (c: Curve)
    ensures WellFormedCurve(c)
    ensures ReducedConditions(speed, population) ==> c == Warrant2Curve(Pct70, LaneKeyOf(majorLanes, minorLanes))
    ensures !ReducedConditions(speed, population) ==> c == Warrant2Curve(Pct100, LaneKeyOf(majorLanes, minorLanes))
  {
    Warrant2Curve(CurveTierOf(speed, population), LaneKeyOf(majorLanes, minorLanes))
  }

  /** The verdict of Warrant 2 for an hourly series (None when no series was entered). */
  function Warrant2(traffic: Option<seq<Row>>, majorLanes: int, minorLanes: int, speed: int, population: int): (r: Result)
    ensures r.met == NotApplicable <==> traffic.None? || |traffic.value| < 4
    ensures r.met == NotApplicable ==> r.hoursMet == 0 && r.evidence.None?
    ensures r.met != NotApplicable ==>
      (r.met == Met <==> r.hoursMet >= 4) &&
      r.hoursMet <= |traffic.value| &&
      r.evidence.Some? && |r.evidence.value.hourly| == |traffic.value| &&
      var e, major := r.evidence.value, MajorStreet(traffic.value);
      e.major == major && e.tier == CurveTierOf(speed, population) &&
      e.curve == SiteCurve(majorLanes, minorLanes, speed, population) &&
      forall k :: 0 <= k < |traffic.value| ==>
        var h, row := e.hourly[k], traffic.value[k];
        h.hour == row.hour && h.majorVol == MajorVol(row, major) && h.minorVol == MinorVol(row, major) &&
        h.threshold == RowThreshold(row, major, e.curve) &&
        (h.aboveCurve <==> AboveCurve(row, major, e.curve))
    ensures r.met != NotApplicable ==>
      var rows, major := traffic.value, MajorStreet(traffic.value);
      var curve := SiteCurve(majorLanes, minorLanes, speed, population);
      r.hoursMet == |set k: nat | k < |rows| && AboveCurve(rows[k], major, curve)| &&
      (r.met == Met <==> r.hoursMet >= 4)
  {
    if traffic.None? || |traffic.value| < 4 then Result(NotApplicable, 0, None)
    else
      var rows, tier := traffic.value, CurveTierOf(speed, population);
      var curve := SiteCurve(majorLanes, minorLanes, speed, population);
      HoursMetAreHoursAboveCurve(rows, tier, curve);
      OnCurve(rows, tier, curve)
  }

  /** The verdict for a series of at least four hours read against `curve`. */
  function OnCurve(rows: seq<Row>, tier: CurveTier, curve: Curve): (r: Result)
    ensures r.met != NotApplicable && (r.met == Met <==> r.hoursMet >= 4)
    ensures r.hoursMet <= |rows| && r.evidence.Some? && r.evidence.value.curve == curve
    ensures r.evidence.value.major == MajorStreet(rows) && r.evidence.value.tier == tier
    ensures |r.evidence.value.hourly| == |rows|
    ensures forall k :: 0 <= k < |rows| ==>
      var h, major := r.evidence.value.hourly[k], MajorStreet(rows);
      h.hour == rows[k].hour && h.majorVol == MajorVol(rows[k], major) && h.minorVol == MinorVol(rows[k], major) &&
      h.threshold == RowThreshold(rows[k], major, curve) &&
      (h.aboveCurve <==> AboveCurve(rows[k], major, curve))
  {
    var major := MajorStreet(rows);
    var hours := CountWhere(rows, AboveTest(major, curve));
    Result(FromBool(hours >= 4), hours, Some(Evidence(tier, curve, MapSeq(rows, HourFn(major, curve)), major)))
  }

  /** The evaluator: the data gate, then the hour loop on the site's curve. */
  method EvaluateWarrant2(traffic: Option<seq<Row>>, majorLanes: int, minorLanes: int, speed: int, population: int)
    returns (r: Result)
    ensures r == Warrant2(traffic, majorLanes, minorLanes, speed, population)
  {
    if traffic.None? || |traffic.value| < 4 {
      return Result(NotApplicable, 0, None);
    }
    var curve := SiteCurve(majorLanes, minorLanes, speed, population);
    r := CountAboveCurve(traffic.value, CurveTierOf(speed, population), curve);
  }

  /** The hour loop: one counter and the chart rows, each hour read off the curve by interpolation. */
  method CountAboveCurve(rows: seq<Row>, tier: CurveTier, curve: Curve) returns (r: Result)
    ensures r == OnCurve(rows, tier, curve)
  {
    var major := MajorStreet(rows);
    var hoursAbove := 0;
    var hourly: seq<HourCheck> := [];
    var i := 0;
    while i < |rows|
      invariant 0 <= i <= |rows|
      invariant hoursAbove == CountWhere(rows[..i], AboveTest(major, curve))
      invariant hourly == MapSeq(rows[..i], HourFn(major, curve))
    {
      var row := rows[i];
      var majorVol, minorVol := MajorVol(row, major), MinorVol(row, major);
      var threshold := InterpolateThreshold(curve, majorVol as real);
      var aboveCurve := threshold.Some? && minorVol as real >= threshold.value;
      if aboveCurve {
        hoursAbove := hoursAbove + 1;
      }
      hourly := hourly + [HourCheck(row.hour, majorVol, minorVol, threshold, aboveCurve)];
      assert rows[..i + 1][..i] == rows[..i];
      i := i + 1;
    }
    assert rows[..i] == rows;
    r := Result(FromBool(hoursAbove >= 4), hoursAbove, Some(Evidence(tier, curve, hourly, major)));
  }

  // ---------------------------------------------------------------------------
  // Properties of Warrant 2
  // ---------------------------------------------------------------------------

  /**
   * The hours counted are exactly the hours with a threshold that the minor
   * volume reaches; the warrant is met iff there are at least four of them.
   */
  lemma HoursMetAreHoursAboveCurve(rows: seq<Row>, tier: CurveTier, curve: Curve)
    ensures
      var r := OnCurve(rows, tier, curve);
      var major := MajorStreet(rows);
      var above := set k: nat | k < |rows| && AboveCurve(rows[k], major, curve);
      r.hoursMet == |above| && (r.met == Met <==> |above| >= 4)
  {
    var major := MajorStreet(rows);
    CountWhereIsCardinality(rows, AboveTest(major, curve));
    assert IndicesWhere(rows, AboveTest(major, curve)) == set k: nat | k < |rows| && AboveCurve(rows[k], major, curve);
  }

  /**
   * An hour whose major volume is below the curve's first vertex never counts,
   * whatever its minor volume.
   */
  lemma BelowCurveRangeNeverCounts(row: Row, major: Street, curve: Curve)
    requires forall p :: p in curve ==> (MajorVol(row, major) as real) < p.x
    ensures !AboveCurve(row, major, curve)
  {
    ThresholdNoneIffBelowRange(curve, MajorVol(row, major) as real);
  }

  /**
   * On a shipped curve, an hour that counts keeps counting when its minor volume
   * grows or, with the minor volume unchanged, when its major volume grows.
   */
  lemma AboveCurveMonotone(row: Row, more: Row, major: Street, tier: CurveTier, key: LaneKey)
    requires MajorVol(row, major) <= MajorVol(more, major)
    requires MinorVol(row, major) <= MinorVol(more, major)
    requires AboveCurve(row, major, Warrant2Curve(tier, key))
    ensures AboveCurve(more, major, Warrant2Curve(tier, key))
  {
    var curve := Warrant2Curve(tier, key);
    WellFormedCurveFacts(curve);
    ThresholdNonIncreasing(curve, MajorVol(row, major) as real, MajorVol(more, major) as real);
  }
}
