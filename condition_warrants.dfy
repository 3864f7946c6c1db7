/**
 * The warrants decided by flags and a few site measurements: Warrant 5 (School
 * Crossing), Warrant 6 (Coordinated Signal System), Warrant 8 (Roadway Network)
 * and Warrant 9 (Intersection Near a Grade Crossing). Each is not applicable when
 * its enabling flag is off.
 */
module ConditionWarrants {
  import opened Verdicts

  // ---------------------------------------------------------------------------
  // Warrant 5, School Crossing
  // ---------------------------------------------------------------------------

  /** Which of the code's exits produced the Warrant 5 verdict. */
  datatype SchoolExit = NoSchoolCrossing | TooFewChildren | GapsFewerThanPeriod | GapsNotFewer

  datatype SchoolResult = SchoolResult(met: TriState, exit: SchoolExit, children: int, gaps: int)

  /** At least this many schoolchildren in the peak crossing hour. */
  const MinSchoolchildren: int := 20

  /** The crossing period (minutes) the evaluator uses when none is given. */
  const DefaultCrossingPeriod: int := 30

  function Warrant5(schoolCrossing: bool, schoolChildren: int, schoolGaps: int,
                    crossingPeriodMinutes: int := DefaultCrossingPeriod): (r: SchoolResult)
    ensures r.met == NotApplicable <==> !schoolCrossing
    ensures r.met == Met <==> schoolCrossing && schoolChildren >= MinSchoolchildren && schoolGaps < crossingPeriodMinutes
    ensures schoolCrossing && schoolChildren < MinSchoolchildren ==> r.met == NotMet && r.exit == TooFewChildren
    ensures r.children == schoolChildren && r.gaps == schoolGaps
  {
    if !schoolCrossing then SchoolResult(NotApplicable, NoSchoolCrossing, schoolChildren, schoolGaps)
    else if schoolChildren < MinSchoolchildren then SchoolResult(NotMet, TooFewChildren, schoolChildren, schoolGaps)
    else if schoolGaps < crossingPeriodMinutes then SchoolResult(Met, GapsFewerThanPeriod, schoolChildren, schoolGaps)
    else SchoolResult(NotMet, GapsNotFewer, schoolChildren, schoolGaps)
  }

  /**
   * More children or fewer adequate gaps never undo a met Warrant 5; with the
   * default period, 20 children and 29 gaps meet it and 30 gaps do not.
   */
  lemma Warrant5Monotone(children: int, gaps: int, moreChildren: int, fewerGaps: int, period: int)
    requires children <= moreChildren && fewerGaps <= gaps
    requires Warrant5(true, children, gaps, period).met == Met
    ensures Warrant5(true, moreChildren, fewerGaps, period).met == Met
    ensures Warrant5(true, 20, 29).met == Met && Warrant5(true, 20, 30).met == NotMet
    ensures Warrant5(true, 19, 0).met == NotMet
  {
  }

  // ---------------------------------------------------------------------------
  // Warrant 6, Coordinated Signal System
  // ---------------------------------------------------------------------------

  /**
   * The Warrant 6 verdict. `engineeringJudgment` is the flag the code attaches to
   * the verdicts it evaluates (not to the not-applicable one).
   */
  datatype CoordinationResult = CoordinationResult(met: TriState, signalSpacing: int, engineeringJudgment: bool)

  /** Signal spacing for good progression, in feet, both ends included. */
  const MinSpacing: int := 1000
  const MaxSpacing: int := 2640

  function Warrant6(coordinatedSystem: bool, signalSpacing: int, progressionSpeed: int): (r: CoordinationResult)
    ensures r.met == NotApplicable <==> !coordinatedSystem
    ensures r.met == Met <==> coordinatedSystem && MinSpacing <= signalSpacing <= MaxSpacing
    ensures r.engineeringJudgment <==> r.met != NotApplicable
    ensures r.signalSpacing == signalSpacing
  {
    if !coordinatedSystem then CoordinationResult(NotApplicable, signalSpacing, false)
    else if MinSpacing <= signalSpacing <= MaxSpacing then CoordinationResult(Met, signalSpacing, true)
    else CoordinationResult(NotMet, signalSpacing, true)
  }

  /** The progression speed never changes the verdict, and both range ends meet it. */
  lemma Warrant6IgnoresProgressionSpeed(coordinatedSystem: bool, signalSpacing: int, speed1: int, speed2: int)
    ensures Warrant6(coordinatedSystem, signalSpacing, speed1) == Warrant6(coordinatedSystem, signalSpacing, speed2)
    ensures Warrant6(true, 1000, speed1).met == Met && Warrant6(true, 2640, speed1).met == Met
    ensures Warrant6(true, 999, speed1).met == NotMet && Warrant6(true, 2641, speed1).met == NotMet
  {
  }

  // ---------------------------------------------------------------------------
  // Warrant 8, Roadway Network
  // ---------------------------------------------------------------------------

  /** Which explanation the Warrant 8 verdict carries. */
  datatype NetworkExit = NetworkNotApplicable | RouteAndVolumes | VolumesInsufficient | NotOnRoute

  /** The Warrant 8 verdict; the code flags every one of them, not-applicable included, as engineering judgment. */
  datatype NetworkResult = NetworkResult(met: TriState, exit: NetworkExit, engineeringJudgment: bool)

  function Warrant8(networkContinuity: bool, routeDesignation: bool, futureVolumes: bool): (r: NetworkResult)
    ensures r.met == NotApplicable <==> !networkContinuity
    ensures r.met == Met <==> networkContinuity && routeDesignation && futureVolumes
    ensures networkContinuity && !routeDesignation ==> r.exit == NotOnRoute
    ensures r.exit == VolumesInsufficient <==> networkContinuity && routeDesignation && !futureVolumes
    ensures r.engineeringJudgment
  {
    if !networkContinuity then NetworkResult(NotApplicable, NetworkNotApplicable, true)
    else if routeDesignation && futureVolumes then NetworkResult(Met, RouteAndVolumes, true)
    else if routeDesignation then NetworkResult(NotMet, VolumesInsufficient, true)
    else NetworkResult(NotMet, NotOnRoute, true)
  }

  // ---------------------------------------------------------------------------
  // Warrant 9, Intersection Near a Grade Crossing
  // ---------------------------------------------------------------------------

  /** Which of the code's exits produced the Warrant 9 verdict. */
  datatype RailExit = NoGradeCrossing | TooFar | TrainsAndPreemption | NoPreemptionNeed

  datatype RailResult = RailResult(met: TriState, exit: RailExit)

  /** The intersection lies within this many feet of the grade crossing. */
  const MaxQueuingDistance: int := 140

  function Warrant9(railroadCrossing: bool, trainFrequency: int, queuingDistance: int, preemptionNeeded: bool): (r: RailResult)
    ensures r.met == NotApplicable <==> !railroadCrossing
    ensures railroadCrossing && queuingDistance > MaxQueuingDistance ==> r.met == NotMet && r.exit == TooFar
    ensures r.met == Met <==>
      railroadCrossing && queuingDistance <= MaxQueuingDistance && trainFrequency > 0 && preemptionNeeded
  {
    if !railroadCrossing then RailResult(NotApplicable, NoGradeCrossing)
    else if queuingDistance > MaxQueuingDistance then RailResult(NotMet, TooFar)
    else if trainFrequency > 0 && preemptionNeeded then RailResult(Met, TrainsAndPreemption)
    else RailResult(NotMet, NoPreemptionNeed)
  }

  /**
   * The distance gate comes first: beyond 140 ft no train frequency or preemption
   * need changes the verdict; at exactly 140 ft the warrant can still be met.
   */
  lemma Warrant9DistanceDominates(trains1: int, trains2: int, distance: int, pre1: bool, pre2: bool)
    requires distance > MaxQueuingDistance
    ensures Warrant9(true, trains1, distance, pre1) == Warrant9(true, trains2, distance, pre2)
    ensures Warrant9(true, 1, 140, true).met == Met
  {
  }
}
