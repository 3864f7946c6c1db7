/**
 * Warrant 7, Crash Experience: alternatives tried, five or more correctable crashes
 * in twelve months, and eight hours that meet a reduced vehicular volume test.
 */
module Warrant7 {
  import opened Common
  import opened HourTests
  import opened Interpolation
  import opened Tables
  import opened Traffic
  import opened Verdicts

  /** One hour's line of the chart data. */
  datatype HourCheck = HourCheck(
    hour: string, majorVol: nat, minorVol: nat,
    meetsW1A: bool, meetsW1B: bool, meetsW3: bool, meetsVolume: bool, w3Threshold: Option<real>)

  /** What the volume test was evaluated against. */
  datatype Evidence = Evidence(threshA: Pair, threshB: Pair, tier: CurveTier, curve: Curve,
                               hourly: seq<HourCheck>, major: Street)

  /**
   * The verdict with the three conditions: (A) alternatives tried, (B) enough
   * correctable crashes, (C) enough hours meeting the volume test.
   */
  datatype Result = Result(
    met: TriState, conditionA: bool, conditionB: bool, conditionC: bool,
    correctableCrashes: int, hoursMeetingVolume: nat, evidence: Option<Evidence>)

  /** At least this many correctable crashes in twelve months. */
  const MinCrashes: int := 5

  /** At least this many hours meeting the volume test. */
  const MinHours: nat := 8

  /** What one hour is tested against: the 80% pairs of Warrant 1 and the Warrant 3 curve. */
  datatype VolumeTest = VolumeTest(threshA: Pair, threshB: Pair, curve: Curve)

  /** The hour meets pair A, or pair B, or lies on or above the curve. */
  predicate MeetsVolume(row: Row, major: Street, test: VolumeTest)
  {
    MeetsPair(row, major, test.threshA) || MeetsPair(row, major, test.threshB) || AboveCurve(row, major, test.curve)
  }

  function VolumeFn(major: Street, test: VolumeTest): Row -> bool
  {
    row => MeetsVolume(row, major, test)
  }

  function HourOf(row: Row, major: Street, test: VolumeTest): HourCheck
  {
    HourCheck(row.hour, MajorVol(row, major), MinorVol(row, major),
              MeetsPair(row, major, test.threshA), MeetsPair(row, major, test.threshB),
              AboveCurve(row, major, test.curve), MeetsVolume(row, major, test),
              Threshold(test.curve, MajorVol(row, major) as real))
  }

  function HourFn(major: Street, test: VolumeTest): Row -> HourCheck
  {
    row => HourOf(row, major, test)
  }

  /** The site's volume test: the 80% column of Table 4C-1 and the Warrant 3 curve of the site's tier. */
  function SiteTest(majorLanes: int, minorLanes: int, speed: int, population: int): (t: VolumeTest)
    ensures var key := LaneKeyOf(majorLanes, minorLanes);
      PairAtMost(t.threshA, Warrant1Threshold(ConditionA, key, Pct100)) &&
      PairAtMost(t.threshB, Warrant1Threshold(ConditionB, key, Pct100)) &&
      100 * t.threshA.majorVph == 80 * Warrant1Threshold(ConditionA, key, Pct100).majorVph &&
      100 * t.threshB.majorVph == 80 * Warrant1Threshold(ConditionB, key, Pct100).majorVph
    ensures WellFormedCurve(t.curve)
    ensures t.curve == Warrant3Curve(CurveTierOf(speed, population), LaneKeyOf(majorLanes, minorLanes))
  {
    var key := LaneKeyOf(majorLanes, minorLanes);
    ReducedColumnsAreLower(ConditionA, key);
    ReducedColumnsAreLower(ConditionB, key);
    ColumnsScaleFullColumn(ConditionA, key, Pct80);
    ColumnsScaleFullColumn(ConditionB, key, Pct80);
    VolumeTest(Warrant1Threshold(ConditionA, key, Pct80), Warrant1Threshold(ConditionB, key, Pct80),
               Warrant3Curve(CurveTierOf(speed, population), key))
  }

  /** The verdict of Warrant 7. */
  function Warrant7(traffic: Option<seq<Row>>, majorLanes: int, minorLanes: int, speed: int, population: int,
                    correctableCrashes: int, alternativesTried: bool): (r: Result)
    ensures r.met != NotApplicable
    ensures r.met == Met ==> r.conditionA && r.conditionB && r.conditionC
    ensures r.conditionA <==> alternativesTried
    ensures r.conditionB <==> alternativesTried && correctableCrashes >= MinCrashes
    ensures r.met == Met <==> r.conditionA && r.conditionB && r.conditionC
    ensures r.conditionC ==> traffic.Some? && |traffic.value| >= MinHours && r.hoursMeetingVolume >= MinHours
    ensures !r.conditionB || traffic.None? || |traffic.value| < MinHours ==>
      r.hoursMeetingVolume == 0 && r.evidence.None?
    ensures r.correctableCrashes == correctableCrashes
    ensures r.evidence.Some? ==>
      var e, test := r.evidence.value, SiteTest(majorLanes, minorLanes, speed, population);
      traffic.Some? && e.major == MajorStreet(traffic.value) && e.tier == CurveTierOf(speed, population) &&
      e.threshA == test.threshA && e.threshB == test.threshB && e.curve == test.curve
    ensures r.conditionB && traffic.Some? && |traffic.value| >= MinHours ==>
      var rows, major := traffic.value, MajorStreet(traffic.value);
      var test := SiteTest(majorLanes, minorLanes, speed, population);
      r.hoursMeetingVolume ==
        |set k: nat | k < |rows| && (MeetsPair(rows[k], major, test.threshA) ||
                                     MeetsPair(rows[k], major, test.threshB) ||
                                     AboveCurve(rows[k], major, test.curve))| &&
      (r.conditionC <==> r.hoursMeetingVolume >= MinHours)
  {
    if !alternativesTried then Result(NotMet, false, false, false, correctableCrashes, 0, None)
    else if correctableCrashes < MinCrashes then Result(NotMet, true, false, false, correctableCrashes, 0, None)
    else if traffic.None? || |traffic.value| < MinHours then Result(NotMet, true, true, false, correctableCrashes, 0, None)
    else
      var rows, tier := traffic.value, CurveTierOf(speed, population);
      var test := SiteTest(majorLanes, minorLanes, speed, population);
      HoursMeetingVolumeAreTheQualifyingHours(rows, correctableCrashes, tier, test);
      VolumeCondition(rows, correctableCrashes, tier, test)
  }

  /** Past the three gates: condition C counts the hours that meet the volume test. */
  function VolumeCondition(rows: seq<Row>, correctableCrashes: int, tier: CurveTier, test: VolumeTest): (r: Result)
    requires |rows| >= MinHours
    ensures r.met != NotApplicable && r.conditionA && r.conditionB
    ensures r.hoursMeetingVolume <= |rows|
    ensures r.conditionC <==> r.hoursMeetingVolume >= MinHours
    ensures r.met == Met <==> r.conditionC
    ensures r.evidence.Some? && |r.evidence.value.hourly| == |rows|
    ensures r.evidence.value.major == MajorStreet(rows) && r.evidence.value.tier == tier
    ensures r.evidence.value.threshA == test.threshA && r.evidence.value.threshB == test.threshB
    ensures r.evidence.value.curve == test.curve
    ensures forall k :: 0 <= k < |rows| ==>
      var h, major := r.evidence.value.hourly[k], MajorStreet(rows);
      h.hour == rows[k].hour && h.majorVol == MajorVol(rows[k], major) && h.minorVol == MinorVol(rows[k], major) &&
      (h.meetsW1A <==> MeetsPair(rows[k], major, test.threshA)) &&
      (h.meetsW1B <==> MeetsPair(rows[k], major, test.threshB)) &&
      (h.meetsW3 <==> AboveCurve(rows[k], major, test.curve)) &&
      h.w3Threshold == RowThreshold(rows[k], major, test.curve) &&
      (h.meetsVolume <==> h.meetsW1A || h.meetsW1B || h.meetsW3)
  {
    var major := MajorStreet(rows);
    var hours := CountWhere(rows, VolumeFn(major, test));
    Result(FromBool(hours >= MinHours), true, true, hours >= MinHours, correctableCrashes, hours,
           Some(Evidence(test.threshA, test.threshB, tier, test.curve, MapSeq(rows, HourFn(major, test)), major)))
  }

  /** The evaluator: the three gates in order, then the hour loop. */
  method EvaluateWarrant7(traffic: Option<seq<Row>>, majorLanes: int, minorLanes: int, speed: int, population: int,
                          correctableCrashes: int, alternativesTried: bool) returns (r: Result)
    ensures r == Warrant7(traffic, majorLanes, minorLanes, speed, population, correctableCrashes, alternativesTried)
  {
    if !alternativesTried {
      return Result(NotMet, false, false, false, correctableCrashes, 0, None);
    }
    if correctableCrashes < MinCrashes {
      return Result(NotMet, true, false, false, correctableCrashes, 0, None);
    }
    if traffic.None? || |traffic.value| < MinHours {
      return Result(NotMet, true, true, false, correctableCrashes, 0, None);
    }
    var rows := traffic.value;
    var test := SiteTest(majorLanes, minorLanes, speed, population);
    var major := MajorStreet(rows);
    var hoursMeetingVolume, hourly := CountVolumeHours(rows, major, test);
    var met := hoursMeetingVolume >= MinHours;
    r := Result(FromBool(met), true, true, met, correctableCrashes, hoursMeetingVolume,
                Some(Evidence(test.threshA, test.threshB, CurveTierOf(speed, population), test.curve, hourly, major)));
  }

  /** The hour loop: one counter and the chart rows. */
  method CountVolumeHours(rows: seq<Row>, major: Street, test: VolumeTest)
    returns (hoursMeetingVolume: nat, hourly: seq<HourCheck>)
    ensures hoursMeetingVolume == CountWhere(rows, VolumeFn(major, test))
    ensures hourly == MapSeq(rows, HourFn(major, test))
  {
    hoursMeetingVolume := 0;
    hourly := [];
    var i := 0;
    while i < |rows|
      invariant 0 <= i <= |rows|
      invariant hoursMeetingVolume == CountWhere(rows[..i], VolumeFn(major, test))
      invariant hourly == MapSeq(rows[..i], HourFn(major, test))
    {
      var h := CheckHour(rows[i], major, test);
      if h.meetsVolume {
        hoursMeetingVolume := hoursMeetingVolume + 1;
      }
      hourly := hourly + [h];
      assert rows[..i + 1][..i] == rows[..i];
      i := i + 1;
    }
    assert rows[..i] == rows;
  }

  /** One pass of the hour loop: the two pair comparisons, the curve reading and their disjunction. */
  method CheckHour(row: Row, major: Street, test: VolumeTest) returns (h: HourCheck)
    ensures h == HourOf(row, major, test)
    ensures h.meetsVolume <==> MeetsVolume(row, major, test)
  {
    var majorVol, minorVol := MajorVol(row, major), MinorVol(row, major);
    var meetsW1A := majorVol >= test.threshA.majorVph && minorVol >= test.threshA.minorVph;
    var meetsW1B := majorVol >= test.threshB.majorVph && minorVol >= test.threshB.minorVph;
    var w3Threshold := InterpolateThreshold(test.curve, majorVol as real);
    var meetsW3 := w3Threshold.Some? && minorVol as real >= w3Threshold.value;
    var meetsVolume := meetsW1A || meetsW1B || meetsW3;
    h := HourCheck(row.hour, majorVol, minorVol, meetsW1A, meetsW1B, meetsW3, meetsVolume, w3Threshold);
  }

  // ---------------------------------------------------------------------------
  // Properties of Warrant 7
  // ---------------------------------------------------------------------------

  /** Condition C counts exactly the hours that meet pair A, pair B or the curve. */
  lemma HoursMeetingVolumeAreTheQualifyingHours(rows: seq<Row>, correctableCrashes: int, tier: CurveTier, test: VolumeTest)
    requires |rows| >= MinHours
    ensures var major := MajorStreet(rows);
      VolumeCondition(rows, correctableCrashes, tier, test).hoursMeetingVolume ==
        |set k: nat | k < |rows| && (MeetsPair(rows[k], major, test.threshA) ||
                                     MeetsPair(rows[k], major, test.threshB) ||
                                     AboveCurve(rows[k], major, test.curve))|
  {
    var major := MajorStreet(rows);
    CountWhereIsCardinality(rows, VolumeFn(major, test));
    assert IndicesWhere(rows, VolumeFn(major, test)) ==
      set k: nat | k < |rows| && (MeetsPair(rows[k], major, test.threshA) ||
                                  MeetsPair(rows[k], major, test.threshB) ||
                                  AboveCurve(rows[k], major, test.curve));
  }

  /**
   * Every hour that meets Condition A of Warrant 1 at its 100% column meets the
   * volume test of Warrant 7, since the 80% column asks for no more; so condition C
   * counts at least as many hours.
   */
  lemma FullWarrant1HoursCount(rows: seq<Row>, majorLanes: int, minorLanes: int, speed: int, population: int)
    ensures var major := MajorStreet(rows);
      var full := Warrant1Threshold(ConditionA, LaneKeyOf(majorLanes, minorLanes), Pct100);
      CountWhere(rows, row => MeetsPair(row, major, full)) <=
        CountWhere(rows, VolumeFn(major, SiteTest(majorLanes, minorLanes, speed, population)))
  {
    var major := MajorStreet(rows);
    var key := LaneKeyOf(majorLanes, minorLanes);
    var full := Warrant1Threshold(ConditionA, key, Pct100);
    ReducedColumnsAreLower(ConditionA, key);
    CountWhereMonotone(rows, row => MeetsPair(row, major, full),
                       VolumeFn(major, SiteTest(majorLanes, minorLanes, speed, population)));
  }
}
