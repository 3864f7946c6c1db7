/**
 * Warrant 4, Pedestrian Volume: two gates (distance to the nearest signal and the
 * number of adequate gaps), then the four-hour or the peak-hour pedestrian curve.
 */
module Warrant4 {
  import opened Common
  import opened Interpolation
  import opened Sorting
  import opened Tables
  import opened Traffic
  import opened Verdicts

  datatype Criterion = FourHour | PeakHour

  /** Which of the code's exits produced the verdict. */
  datatype Exit = SignalTooClose | TooManyGaps | NoTraffic | Evaluated

  /** The inputs and thresholds of an evaluated verdict. */
  datatype Evidence = Evidence(
    tier: CurveTier, fourHourInput: real, peakInput: nat,
    fourHourThreshold: Option<real>, peakHourThreshold: Option<real>)

  datatype Result = Result(
    met: TriState, exit: Exit, criterion: Option<Criterion>,
    fourHourMet: bool, peakHourMet: bool, evidence: Option<Evidence>)

  /** The nearest signal is at least this far away (ft) for the warrant to apply. */
  const MinSignalDistance: int := 300

  /** Fewer adequate gaps per hour than this are required. */
  const MaxAdequateGaps: int := 60

  /** Reaches the threshold read from a curve, when the curve gives one. */
  predicate Reaches(volume: int, threshold: Option<real>)
  {
    threshold.Some? && volume as real >= threshold.value
  }

  /** The verdict of Warrant 4. */
  function Warrant4(traffic: Option<seq<Row>>, speed: int, population: int, pedPeak: int, ped4Hr: int,
                    gapsPerHour: int, distToSignal: int): (r: Result)
    ensures distToSignal < MinSignalDistance ==> r.met == NotMet && r.exit == SignalTooClose
    ensures distToSignal >= MinSignalDistance && gapsPerHour >= MaxAdequateGaps ==> r.met == NotMet && r.exit == TooManyGaps
    ensures r.exit == SignalTooClose || r.exit == TooManyGaps ==>
      r.criterion.None? && !r.fourHourMet && !r.peakHourMet && r.evidence.None?
    ensures r.met == NotApplicable <==>
      distToSignal >= MinSignalDistance && gapsPerHour < MaxAdequateGaps && (traffic.None? || |traffic.value| == 0)
    ensures r.met == NotApplicable ==> r.exit == NoTraffic && !r.fourHourMet && !r.peakHourMet && r.criterion.None?
    ensures r.exit == Evaluated <==>
      distToSignal >= MinSignalDistance && gapsPerHour < MaxAdequateGaps && traffic.Some? && |traffic.value| > 0
    ensures r.exit == Evaluated ==>
      r.evidence.Some? && r.evidence.value.tier == PedestrianTierOf(speed, population)
    ensures r.exit == Evaluated ==>
      var e, tier := r.evidence.value, PedestrianTierOf(speed, population);
      var column := MajorColumn(traffic.value, MajorStreet(traffic.value));
      e.fourHourInput == TopFourMean(column) && e.peakInput == MaxOf(column) &&
      e.fourHourThreshold == Threshold(Warrant4Curve(FourHourCurve, tier), e.fourHourInput) &&
      e.peakHourThreshold == Threshold(Warrant4Curve(PeakHourCurve, tier), e.peakInput as real) &&
      (r.fourHourMet <==> Reaches(ped4Hr, e.fourHourThreshold)) &&
      (r.peakHourMet <==> Reaches(pedPeak, e.peakHourThreshold)) &&
      (r.met == Met <==> r.fourHourMet || r.peakHourMet) &&
      (r.criterion == Some(FourHour) <==> r.fourHourMet) &&
      (r.criterion == Some(PeakHour) <==> !r.fourHourMet && r.peakHourMet)
  {
    if distToSignal < MinSignalDistance then Result(NotMet, SignalTooClose, None, false, false, None)
    else if gapsPerHour >= MaxAdequateGaps then Result(NotMet, TooManyGaps, None, false, false, None)
    else
      var tier := PedestrianTierOf(speed, population);
      if traffic.None? || |traffic.value| < 1 then Result(NotApplicable, NoTraffic, None, false, false, None)
      else Compare(traffic.value, tier, Warrant4Curve(FourHourCurve, tier), Warrant4Curve(PeakHourCurve, tier),
                   pedPeak, ped4Hr)
  }

  /**
   * Past the gates: the mean of the four largest major volumes is read on the
   * four-hour curve and the largest major volume on the peak-hour curve; either
   * curve reached meets the warrant, the four-hour criterion taking precedence.
   */
  function Compare(rows: seq<Row>, tier: CurveTier, fourHourCurve: Curve, peakHourCurve: Curve,
                   pedPeak: int, ped4Hr: int): (r: Result)
    requires |rows| > 0
    ensures r.exit == Evaluated && r.met != NotApplicable && r.evidence.Some?
    ensures var e := r.evidence.value;
      var column := MajorColumn(rows, MajorStreet(rows));
      e.tier == tier &&
      e.fourHourInput == TopFourMean(column) && e.peakInput == MaxOf(column) &&
      e.fourHourThreshold == Threshold(fourHourCurve, e.fourHourInput) &&
      e.peakHourThreshold == Threshold(peakHourCurve, e.peakInput as real) &&
      (r.fourHourMet <==> Reaches(ped4Hr, e.fourHourThreshold)) &&
      (r.peakHourMet <==> Reaches(pedPeak, e.peakHourThreshold))
    ensures r.met == Met <==> r.fourHourMet || r.peakHourMet
    ensures r.criterion == Some(FourHour) <==> r.fourHourMet
    ensures r.criterion == Some(PeakHour) <==> !r.fourHourMet && r.peakHourMet
    ensures r.criterion.None? <==> r.met == NotMet
  {
    var column := MajorColumn(rows, MajorStreet(rows));
    var fourHourInput := TopFourMean(column);
    var fourHourThreshold := Threshold(fourHourCurve, fourHourInput);
    var fourHourMet := Reaches(ped4Hr, fourHourThreshold);
    var peakInput := MaxOf(column);
    var peakHourThreshold := Threshold(peakHourCurve, peakInput as real);
    var peakHourMet := Reaches(pedPeak, peakHourThreshold);
    var met := fourHourMet || peakHourMet;
    var criterion := if !met then None else if fourHourMet then Some(FourHour) else Some(PeakHour);
    Result(FromBool(met), Evaluated, criterion, fourHourMet, peakHourMet,
           Some(Evidence(tier, fourHourInput, peakInput, fourHourThreshold, peakHourThreshold)))
  }

  // ---------------------------------------------------------------------------
  // Properties of Warrant 4
  // ---------------------------------------------------------------------------

  /**
   * The four-hour input never exceeds the peak input, and is at least every major
   * volume outside the four largest.
   */
  lemma FourHourInputBounds(rows: seq<Row>, tier: CurveTier, fourHourCurve: Curve, peakHourCurve: Curve,
                            pedPeak: int, ped4Hr: int)
    requires |rows| > 0
    ensures var e := Compare(rows, tier, fourHourCurve, peakHourCurve, pedPeak, ped4Hr).evidence.value;
      var column := MajorColumn(rows, MajorStreet(rows));
      e.fourHourInput <= e.peakInput as real &&
      forall k :: 0 <= k < |rows| && column[k] in multiset(column) - multiset(Largest(column, 4)) ==>
        column[k] as real <= e.fourHourInput
  {
  }

  /**
   * More pedestrians never undo a met verdict: with the same traffic and site,
   * larger pedestrian counts meet the warrant whenever smaller ones do.
   */
  lemma MorePedestriansStillMeet(rows: seq<Row>, tier: CurveTier, fourHourCurve: Curve, peakHourCurve: Curve,
                                 pedPeak: int, ped4Hr: int, morePeak: int, more4Hr: int)
    requires |rows| > 0
    requires pedPeak <= morePeak && ped4Hr <= more4Hr
    requires Compare(rows, tier, fourHourCurve, peakHourCurve, pedPeak, ped4Hr).met == Met
    ensures Compare(rows, tier, fourHourCurve, peakHourCurve, morePeak, more4Hr).met == Met
  {
  }

  /**
   * With four hours or fewer the four-hour input is the mean of every major volume,
   * and with a single hour both inputs are that hour's major volume.
   */
  lemma FewHoursUseEveryHour(rows: seq<Row>)
    requires 0 < |rows| <= 4
    ensures var column := MajorColumn(rows, MajorStreet(rows));
      multiset(Largest(column, 4)) == multiset(column) &&
      (|rows| == 1 ==> TopFourMean(column) == MaxOf(column) as real == column[0] as real)
  {
    var column := MajorColumn(rows, MajorStreet(rows));
    var top := Largest(column, 4);
    assert top == SortBy(column, Descending);
    if |rows| == 1 {
      assert multiset(top) == multiset{column[0]};
      assert top[0] in multiset(top);
      assert top == [column[0]];
      assert Sum(top) == column[0];
    }
  }
}
