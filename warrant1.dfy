/**
 * Warrant 1, Eight-Hour Vehicular Volume: Condition A, Condition B or the
 * combination of both at the reduced column, each for at least eight hours.
 */
module Warrant1 {
  import opened Common
  import opened HourTests
  import opened Tables
  import opened Traffic
  import opened Verdicts

  /** Which branch of the warrant was satisfied. */
  datatype Satisfied = SatisfiedA | SatisfiedB | SatisfiedAB

  /** One hour's line of the chart data. */
  datatype HourCheck = HourCheck(
    hour: string, majorVol: nat, minorVol: nat,
    meetsA: bool, meetsB: bool, threshA: Pair, threshB: Pair)

  /** The numbers behind an evaluated verdict. */
  datatype Evidence = Evidence(tier: Tier, threshA: Pair, threshB: Pair, hourly: seq<HourCheck>, major: Street)

  datatype Result = Result(met: TriState, condition: Option<Satisfied>, hoursMet: nat, evidence: Option<Evidence>)

  function HourOf(row: Row, major: Street, ta: Pair, tb: Pair): HourCheck
  {
    HourCheck(row.hour, MajorVol(row, major), MinorVol(row, major),
              MeetsPair(row, major, ta), MeetsPair(row, major, tb), ta, tb)
  }

  function HourFn(major: Street, ta: Pair, tb: Pair): Row -> HourCheck
  {
    row => HourOf(row, major, ta, tb)
  }

  /** The four threshold pairs the warrant uses for the given site. */
  function ThresholdA(majorLanes: int, minorLanes: int, speed: int, population: int, combination: bool): Pair
  {
    Warrant1Threshold(ConditionA, LaneKeyOf(majorLanes, minorLanes), PercentTier(speed, population, combination))
  }

  function ThresholdB(majorLanes: int, minorLanes: int, speed: int, population: int, combination: bool): Pair
  {
    Warrant1Threshold(ConditionB, LaneKeyOf(majorLanes, minorLanes), PercentTier(speed, population, combination))
  }

  /** The verdict of Warrant 1 for an hourly series (None when no series was entered). */
  function Warrant1(traffic: Option<seq<Row>>, majorLanes: int, minorLanes: int, speed: int, population: int): (r: Result)
    ensures r.met == NotApplicable <==> traffic.None? || |traffic.value| < 8
    ensures r.met == NotApplicable ==> r.hoursMet == 0 && r.condition.None? && r.evidence.None?
    ensures r.met == Met <==> r.condition.Some?
    ensures r.met == Met ==> r.hoursMet >= 8
    ensures r.met == NotMet ==> r.hoursMet < 8
    ensures r.met != NotApplicable ==>
      r.hoursMet <= |traffic.value| &&
      r.evidence.Some? && |r.evidence.value.hourly| == |traffic.value| &&
      var e, major := r.evidence.value, MajorStreet(traffic.value);
      var ta := ThresholdA(majorLanes, minorLanes, speed, population, false);
      var tb := ThresholdB(majorLanes, minorLanes, speed, population, false);
      e.major == major && e.threshA == ta && e.threshB == tb &&
      e.tier == PercentTier(speed, population, false) &&
      forall k :: 0 <= k < |traffic.value| ==>
        var h, row := e.hourly[k], traffic.value[k];
        h.hour == row.hour && h.majorVol + h.minorVol == row.s1 + row.s2 &&
        h.majorVol == MajorVol(row, major) && h.minorVol == MinorVol(row, major) &&
        (h.meetsA <==> MeetsPair(row, major, ta)) && (h.meetsB <==> MeetsPair(row, major, tb)) &&
        h.threshA == ta && h.threshB == tb
  {
    if traffic.None? || |traffic.value| < 8 then Result(NotApplicable, None, 0, None)
    else
      var rows := traffic.value;
      var ta := ThresholdA(majorLanes, minorLanes, speed, population, false);
      var tb := ThresholdB(majorLanes, minorLanes, speed, population, false);
      var taCombo := ThresholdA(majorLanes, minorLanes, speed, population, true);
      var tbCombo := ThresholdB(majorLanes, minorLanes, speed, population, true);
      var major := MajorStreet(rows);
      var hoursA, hoursB := HoursMeeting(rows, major, ta), HoursMeeting(rows, major, tb);
      var hoursACombo, hoursBCombo := HoursMeeting(rows, major, taCombo), HoursMeeting(rows, major, tbCombo);
      var evidence := Some(Evidence(PercentTier(speed, population, false), ta, tb, MapSeq(rows, HourFn(major, ta, tb)), major));
      if hoursA >= 8 then Result(Met, Some(SatisfiedA), hoursA, evidence)
      else if hoursB >= 8 then Result(Met, Some(SatisfiedB), hoursB, evidence)
      else if hoursACombo >= 8 && hoursBCombo >= 8 then
        Result(Met, Some(SatisfiedAB), Min(hoursACombo, hoursBCombo), evidence)
      else Result(NotMet, None, Max(hoursA, hoursB), evidence)
  }

  /** The evaluator: the data gate, the four threshold pairs, the hour loop, then the first satisfied branch. */
  method EvaluateWarrant1(traffic: Option<seq<Row>>, majorLanes: int, minorLanes: int, speed: int, population: int)
    returns (r: Result)
    ensures r == Warrant1(traffic, majorLanes, minorLanes, speed, population)
  {
    if traffic.None? || |traffic.value| < 8 {
      return Result(NotApplicable, None, 0, None);
    }
    var rows := traffic.value;
    var ta := ThresholdA(majorLanes, minorLanes, speed, population, false);
    var tb := ThresholdB(majorLanes, minorLanes, speed, population, false);
    var taCombo := ThresholdA(majorLanes, minorLanes, speed, population, true);
    var tbCombo := ThresholdB(majorLanes, minorLanes, speed, population, true);
    var major := MajorStreet(rows);
    var hoursA, hoursB, hoursACombo, hoursBCombo, hourly := CountHours(rows, major, ta, tb, taCombo, tbCombo);

    var evidence := Some(Evidence(PercentTier(speed, population, false), ta, tb, hourly, major));
    if hoursA >= 8 {
      r := Result(Met, Some(SatisfiedA), hoursA, evidence);
    } else if hoursB >= 8 {
      r := Result(Met, Some(SatisfiedB), hoursB, evidence);
    } else if hoursACombo >= 8 && hoursBCombo >= 8 {
      r := Result(Met, Some(SatisfiedAB), Min(hoursACombo, hoursBCombo), evidence);
    } else {
      r := Result(NotMet, None, Max(hoursA, hoursB), evidence);
    }
  }

  /** The hour loop: four counters, one per pair, and the chart rows. */
  method CountHours(rows: seq<Row>, major: Street, ta: Pair, tb: Pair, taCombo: Pair, tbCombo: Pair)
    returns (hoursA: nat, hoursB: nat, hoursACombo: nat, hoursBCombo: nat, hourly: seq<HourCheck>)
    ensures hoursA == HoursMeeting(rows, major, ta) && hoursB == HoursMeeting(rows, major, tb)
    ensures hoursACombo == HoursMeeting(rows, major, taCombo) && hoursBCombo == HoursMeeting(rows, major, tbCombo)
    ensures hourly == MapSeq(rows, HourFn(major, ta, tb))
  {
    hoursA, hoursB, hoursACombo, hoursBCombo := 0, 0, 0, 0;
    hourly := [];
    var i := 0;
    while i < |rows|
      invariant 0 <= i <= |rows|
      invariant hoursA == HoursMeeting(rows[..i], major, ta)
      invariant hoursB == HoursMeeting(rows[..i], major, tb)
      invariant hoursACombo == HoursMeeting(rows[..i], major, taCombo)
      invariant hoursBCombo == HoursMeeting(rows[..i], major, tbCombo)
      invariant hourly == MapSeq(rows[..i], HourFn(major, ta, tb))
    {
      var row := rows[i];
      var majorVol, minorVol := MajorVol(row, major), MinorVol(row, major);
      var meetsA := majorVol >= ta.majorVph && minorVol >= ta.minorVph;
      var meetsB := majorVol >= tb.majorVph && minorVol >= tb.minorVph;
      var meetsACombo := majorVol >= taCombo.majorVph && minorVol >= taCombo.minorVph;
      var meetsBCombo := majorVol >= tbCombo.majorVph && minorVol >= tbCombo.minorVph;
      if meetsA { hoursA := hoursA + 1; }
      if meetsB { hoursB := hoursB + 1; }
      if meetsACombo { hoursACombo := hoursACombo + 1; }
      if meetsBCombo { hoursBCombo := hoursBCombo + 1; }
      hourly := hourly + [HourCheck(row.hour, majorVol, minorVol, meetsA, meetsB, ta, tb)];
      assert rows[..i + 1][..i] == rows[..i];
      i := i + 1;
    }
    assert rows[..i] == rows;
  }

  // ---------------------------------------------------------------------------
  // Properties of Warrant 1
  // ---------------------------------------------------------------------------

  /** The hours of the series that meet a pair. */
  ghost function HoursWhere(rows: seq<Row>, major: Street, t: Pair): set<nat>
  {
    IndicesWhere(rows, PairTest(major, t))
  }

  /**
   * The branches in the order the code tries them, stated over the sets of hours
   * that meet each pair: A for eight hours wins, then B, then both combination
   * pairs; otherwise the larger of the A and B hour counts is reported.
   */
  lemma Warrant1Branches(rows: seq<Row>, majorLanes: int, minorLanes: int, speed: int, population: int)
    requires |rows| >= 8
    ensures
      var r := Warrant1(Some(rows), majorLanes, minorLanes, speed, population);
      var major := MajorStreet(rows);
      var a := |HoursWhere(rows, major, ThresholdA(majorLanes, minorLanes, speed, population, false))|;
      var b := |HoursWhere(rows, major, ThresholdB(majorLanes, minorLanes, speed, population, false))|;
      var ac := |HoursWhere(rows, major, ThresholdA(majorLanes, minorLanes, speed, population, true))|;
      var bc := |HoursWhere(rows, major, ThresholdB(majorLanes, minorLanes, speed, population, true))|;
      (r.condition == Some(SatisfiedA) <==> a >= 8) &&
      (r.condition == Some(SatisfiedA) ==> r.hoursMet == a) &&
      (r.condition == Some(SatisfiedB) <==> a < 8 && b >= 8) &&
      (r.condition == Some(SatisfiedB) ==> r.hoursMet == b) &&
      (r.condition == Some(SatisfiedAB) <==> a < 8 && b < 8 && ac >= 8 && bc >= 8) &&
      (r.condition == Some(SatisfiedAB) ==> r.hoursMet == Min(ac, bc)) &&
      (r.met == NotMet <==> r.condition.None?) &&
      (r.met == NotMet ==> r.hoursMet == Max(a, b))
  {
    var major := MajorStreet(rows);
    CountWhereIsCardinality(rows, PairTest(major, ThresholdA(majorLanes, minorLanes, speed, population, false)));
    CountWhereIsCardinality(rows, PairTest(major, ThresholdB(majorLanes, minorLanes, speed, population, false)));
    CountWhereIsCardinality(rows, PairTest(major, ThresholdA(majorLanes, minorLanes, speed, population, true)));
    CountWhereIsCardinality(rows, PairTest(major, ThresholdB(majorLanes, minorLanes, speed, population, true)));
  }

  /**
   * The combination column is never stricter, so each combination counter is at
   * least its condition's counter; with eight hours of A, combination A holds too.
   */
  lemma CombinationCountsDominate(rows: seq<Row>, majorLanes: int, minorLanes: int, speed: int, population: int)
    ensures
      var major := MajorStreet(rows);
      HoursMeeting(rows, major, ThresholdA(majorLanes, minorLanes, speed, population, false))
        <= HoursMeeting(rows, major, ThresholdA(majorLanes, minorLanes, speed, population, true)) &&
      HoursMeeting(rows, major, ThresholdB(majorLanes, minorLanes, speed, population, false))
        <= HoursMeeting(rows, major, ThresholdB(majorLanes, minorLanes, speed, population, true))
  {
    var key := LaneKeyOf(majorLanes, minorLanes);
    CombinationTierIsLower(ConditionA, key, speed, population);
    CombinationTierIsLower(ConditionB, key, speed, population);
    var major := MajorStreet(rows);
    HoursMeetingMonotone(rows, major, ThresholdA(majorLanes, minorLanes, speed, population, true),
                         ThresholdA(majorLanes, minorLanes, speed, population, false));
    HoursMeetingMonotone(rows, major, ThresholdB(majorLanes, minorLanes, speed, population, true),
                         ThresholdB(majorLanes, minorLanes, speed, population, false));
  }
}
