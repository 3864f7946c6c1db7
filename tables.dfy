/**
 * The MUTCD 2009 reference data the warrants read: the Warrant 1 volume pairs of
 * Table 4C-1 and the volume curves of Figures 4C-1 to 4C-8, with the rules that
 * pick a lane key and a percentage tier from the site conditions.
 */
module Tables {
  import opened Interpolation
  import opened Sorting

  /** A lane count collapsed to the table's two classes: one lane, or two or more. */
  datatype LaneClass = OneLane | TwoOrMore

  /** The table key: lane classes of the major and of the minor street. */
  datatype LaneKey = LaneKey(major: LaneClass, minor: LaneClass)

  /** Percentage of the Table 4C-1 base values: 100, 80, 70 or 56. */
  datatype Tier = Pct100 | Pct80 | Pct70 | Pct56

  /** The two tiers the curve tables are keyed by. */
  type CurveTier = t: Tier | t == Pct100 || t == Pct70 witness Pct100

  /** A Warrant 1 requirement: both volumes must be reached in the same hour. */
  datatype Pair = Pair(majorVph: nat, minorVph: nat)

  /** The two Warrant 1 conditions of Table 4C-1. */
  datatype Condition = ConditionA | ConditionB

  /** The two Warrant 4 pedestrian curves. */
  datatype PedestrianCurve = FourHourCurve | PeakHourCurve

  /** Collapses a lane count: exactly 1 is the one-lane class, anything else two or more. */
  function LaneClassOf(lanes: int): (c: LaneClass)
    ensures c == OneLane <==> lanes == 1
  {
    if lanes == 1 then OneLane else TwoOrMore
  }

  /** The table key for the major and minor streets' lane counts. */
  function LaneKeyOf(majorLanes: int, minorLanes: int): (k: LaneKey)
    ensures k.major == OneLane <==> majorLanes == 1
    ensures k.minor == OneLane <==> minorLanes == 1
  {
    LaneKey(LaneClassOf(majorLanes), LaneClassOf(minorLanes))
  }

  /** The reduction applies above 40 mph or below a population of 10,000. */
  predicate ReducedConditions(speed: int, population: int)
  {
    speed > 40 || population < 10000
  }

  /**
   * The percentage column for Warrant 1 to 3 and 7: 70 (or 56 for the combination
   * column) under reduced conditions, 100 (or 80) otherwise.
   */
  function PercentTier(speed: int, population: int, isCombination: bool): (t: Tier)
    ensures (t == Pct70 || t == Pct56) <==> (speed > 40 || population < 10000)
    ensures (t == Pct80 || t == Pct56) <==> isCombination
  {
    var hasReduction := ReducedConditions(speed, population);
    if isCombination then (if hasReduction then Pct56 else Pct80)
    else (if hasReduction then Pct70 else Pct100)
  }

  /** The non-combination column, the one the curve tables are keyed by. */
  function CurveTierOf(speed: int, population: int): (t: CurveTier)
    ensures t == Pct70 <==> speed > 40 || population < 10000
  {
    PercentTier(speed, population, false)
  }

  /** Warrant 4 reduces above 35 mph (not 40) or below a population of 10,000. */
  function PedestrianTierOf(speed: int, population: int): (t: CurveTier)
    ensures t == Pct70 <==> speed > 35 || population < 10000
  {
    if speed > 35 || population < 10000 then Pct70 else Pct100
  }

  /** Table 4C-1: the (major, minor) vph pair of a condition, lane key and tier. */
  function Warrant1Threshold(condition: Condition, key: LaneKey, tier: Tier): (r: Pair)
    ensures 0 < r.minorVph < r.majorVph
  {
    match (condition, key.major, key.minor, tier)
    case (ConditionA, OneLane, OneLane, Pct100) => Pair(500, 150)
    case (ConditionA, OneLane, OneLane, Pct80) => Pair(400, 120)
    case (ConditionA, OneLane, OneLane, Pct70) => Pair(350, 105)
    case (ConditionA, OneLane, OneLane, Pct56) => Pair(280, 84)
    case (ConditionA, TwoOrMore, OneLane, Pct100) => Pair(600, 150)
    case (ConditionA, TwoOrMore, OneLane, Pct80) => Pair(480, 120)
    case (ConditionA, TwoOrMore, OneLane, Pct70) => Pair(420, 105)
    case (ConditionA, TwoOrMore, OneLane, Pct56) => Pair(336, 84)
    case (ConditionA, TwoOrMore, TwoOrMore, Pct100) => Pair(600, 200)
    case (ConditionA, TwoOrMore, TwoOrMore, Pct80) => Pair(480, 160)
    case (ConditionA, TwoOrMore, TwoOrMore, Pct70) => Pair(420, 140)
    case (ConditionA, TwoOrMore, TwoOrMore, Pct56) => Pair(336, 112)
    case (ConditionA, OneLane, TwoOrMore, Pct100) => Pair(500, 200)
    case (ConditionA, OneLane, TwoOrMore, Pct80) => Pair(400, 160)
    case (ConditionA, OneLane, TwoOrMore, Pct70) => Pair(350, 140)
    case (ConditionA, OneLane, TwoOrMore, Pct56) => Pair(280, 112)
    case (ConditionB, OneLane, OneLane, Pct100) => Pair(750, 75)
    case (ConditionB, OneLane, OneLane, Pct80) => Pair(600, 60)
    case (ConditionB, OneLane, OneLane, Pct70) => Pair(525, 53)
    case (ConditionB, OneLane, OneLane, Pct56) => Pair(420, 42)
    case (ConditionB, TwoOrMore, OneLane, Pct100) => Pair(900, 75)
    case (ConditionB, TwoOrMore, OneLane, Pct80) => Pair(720, 60)
    case (ConditionB, TwoOrMore, OneLane, Pct70) => Pair(630, 53)
    case (ConditionB, TwoOrMore, OneLane, Pct56) => Pair(504, 42)
    case (ConditionB, TwoOrMore, TwoOrMore, Pct100) => Pair(900, 100)
    case (ConditionB, TwoOrMore, TwoOrMore, Pct80) => Pair(720, 80)
    case (ConditionB, TwoOrMore, TwoOrMore, Pct70) => Pair(630, 70)
    case (ConditionB, TwoOrMore, TwoOrMore, Pct56) => Pair(504, 56)
    case (ConditionB, OneLane, TwoOrMore, Pct100) => Pair(750, 100)
    case (ConditionB, OneLane, TwoOrMore, Pct80) => Pair(600, 80)
    case (ConditionB, OneLane, TwoOrMore, Pct70) => Pair(525, 70)
    case (ConditionB, OneLane, TwoOrMore, Pct56) => Pair(420, 56)
  }

  /** Figures 4C-1 and 4C-2: the Warrant 2 four-hour curves. */
  function Warrant2Curve(tier: CurveTier, key: LaneKey): (c: Curve)
    ensures WellFormedCurve(c)
  {
    match (tier, key.major, key.minor)
    case (Pct100, OneLane, OneLane) =>
      [
        Point(300.0, 115.0),
        Point(400.0, 100.0),
        Point(500.0, 90.0),
        Point(600.0, 80.0),
        Point(700.0, 70.0),
        Point(800.0, 60.0),
        Point(900.0, 50.0),
        Point(1000.0, 40.0)
      ]
    case (Pct100, TwoOrMore, OneLane) =>
      [
        Point(400.0, 115.0),
        Point(500.0, 100.0),
        Point(600.0, 90.0),
        Point(700.0, 80.0),
        Point(800.0, 70.0),
        Point(900.0, 60.0),
        Point(1000.0, 50.0),
        Point(1100.0, 40.0)
      ]
    case (Pct100, TwoOrMore, TwoOrMore) =>
      [
        Point(400.0, 150.0),
        Point(500.0, 135.0),
        Point(600.0, 120.0),
        Point(700.0, 105.0),
        Point(800.0, 95.0),
        Point(900.0, 85.0),
        Point(1000.0, 75.0),
        Point(1100.0, 65.0)
      ]
    case (Pct100, OneLane, TwoOrMore) =>
      [
        Point(300.0, 150.0),
        Point(400.0, 135.0),
        Point(500.0, 120.0),
        Point(600.0, 105.0),
        Point(700.0, 95.0),
        Point(800.0, 85.0),
        Point(900.0, 75.0),
        Point(1000.0, 65.0)
      ]
    case (Pct70, OneLane, OneLane) =>
      [
        Point(210.0, 80.0),
        Point(280.0, 70.0),
        Point(350.0, 63.0),
        Point(420.0, 56.0),
        Point(490.0, 49.0),
        Point(560.0, 42.0),
        Point(630.0, 35.0),
        Point(700.0, 28.0)
      ]
    case (Pct70, TwoOrMore, OneLane) =>
      [
        Point(280.0, 80.0),
        Point(350.0, 70.0),
        Point(420.0, 63.0),
        Point(490.0, 56.0),
        Point(560.0, 49.0),
        Point(630.0, 42.0),
        Point(700.0, 35.0),
        Point(770.0, 28.0)
      ]
    case (Pct70, TwoOrMore, TwoOrMore) =>
      [
        Point(280.0, 105.0),
        Point(350.0, 95.0),
        Point(420.0, 84.0),
        Point(490.0, 74.0),
        Point(560.0, 67.0),
        Point(630.0, 60.0),
        Point(700.0, 53.0),
        Point(770.0, 46.0)
      ]
    case (Pct70, OneLane, TwoOrMore) =>
      [
        Point(210.0, 105.0),
        Point(280.0, 95.0),
        Point(350.0, 84.0),
        Point(420.0, 74.0),
        Point(490.0, 67.0),
        Point(560.0, 60.0),
        Point(630.0, 53.0),
        Point(700.0, 46.0)
      ]
  }

  /** Figures 4C-3 and 4C-4: the Warrant 3 peak-hour curves. */
  function Warrant3Curve(tier: CurveTier, key: LaneKey): (c: Curve)
    ensures WellFormedCurve(c)
  {
    match (tier, key.major, key.minor)
    case (Pct100, OneLane, OneLane) =>
      [
        Point(400.0, 150.0),
        Point(500.0, 135.0),
        Point(600.0, 120.0),
        Point(700.0, 105.0),
        Point(800.0, 100.0),
        Point(900.0, 100.0),
        Point(1000.0, 100.0)
      ]
    case (Pct100, TwoOrMore, OneLane) =>
      [
        Point(500.0, 150.0),
        Point(600.0, 135.0),
        Point(700.0, 120.0),
        Point(800.0, 105.0),
        Point(900.0, 100.0),
        Point(1000.0, 100.0),
        Point(1100.0, 100.0)
      ]
    case (Pct100, TwoOrMore, TwoOrMore) =>
      [
        Point(500.0, 200.0),
        Point(600.0, 180.0),
        Point(700.0, 160.0),
        Point(800.0, 150.0),
        Point(900.0, 150.0),
        Point(1000.0, 150.0),
        Point(1100.0, 150.0)
      ]
    case (Pct100, OneLane, TwoOrMore) =>
      [
        Point(400.0, 200.0),
        Point(500.0, 180.0),
        Point(600.0, 160.0),
        Point(700.0, 150.0),
        Point(800.0, 150.0),
        Point(900.0, 150.0),
        Point(1000.0, 150.0)
      ]
    case (Pct70, OneLane, OneLane) =>
      [
        Point(280.0, 105.0),
        Point(350.0, 95.0),
        Point(420.0, 84.0),
        Point(490.0, 74.0),
        Point(560.0, 70.0),
        Point(630.0, 70.0),
        Point(700.0, 70.0)
      ]
    case (Pct70, TwoOrMore, OneLane) =>
      [
        Point(350.0, 105.0),
        Point(420.0, 95.0),
        Point(490.0, 84.0),
        Point(560.0, 74.0),
        Point(630.0, 70.0),
        Point(700.0, 70.0),
        Point(770.0, 70.0)
      ]
    case (Pct70, TwoOrMore, TwoOrMore) =>
      [
        Point(350.0, 140.0),
        Point(420.0, 126.0),
        Point(490.0, 112.0),
        Point(560.0, 105.0),
        Point(630.0, 105.0),
        Point(700.0, 105.0),
        Point(770.0, 105.0)
      ]
    case (Pct70, OneLane, TwoOrMore) =>
      [
        Point(280.0, 140.0),
        Point(350.0, 126.0),
        Point(420.0, 112.0),
        Point(490.0, 105.0),
        Point(560.0, 105.0),
        Point(630.0, 105.0),
        Point(700.0, 105.0)
      ]
  }

  /** Figures 4C-5 to 4C-8: the Warrant 4 pedestrian curves. */
  function Warrant4Curve(curve: PedestrianCurve, tier: CurveTier): (c: Curve)
    ensures WellFormedCurve(c)
  {
    match (curve, tier)
    case (FourHourCurve, Pct100) =>
      [
        Point(300.0, 190.0),
        Point(400.0, 150.0),
        Point(500.0, 130.0),
        Point(600.0, 115.0),
        Point(700.0, 107.0),
        Point(800.0, 100.0),
        Point(900.0, 100.0),
        Point(1000.0, 100.0)
      ]
    case (FourHourCurve, Pct70) =>
      [
        Point(210.0, 133.0),
        Point(280.0, 105.0),
        Point(350.0, 91.0),
        Point(420.0, 81.0),
        Point(490.0, 75.0),
        Point(560.0, 70.0),
        Point(630.0, 70.0),
        Point(700.0, 70.0)
      ]
    case (PeakHourCurve, Pct100) =>
      [
        Point(300.0, 380.0),
        Point(400.0, 300.0),
        Point(500.0, 260.0),
        Point(600.0, 230.0),
        Point(700.0, 214.0),
        Point(800.0, 200.0),
        Point(900.0, 200.0),
        Point(1000.0, 200.0)
      ]
    case (PeakHourCurve, Pct70) =>
      [
        Point(210.0, 266.0),
        Point(280.0, 210.0),
        Point(350.0, 182.0),
        Point(420.0, 161.0),
        Point(490.0, 150.0),
        Point(560.0, 140.0),
        Point(630.0, 140.0),
        Point(700.0, 140.0)
      ]
  }

  // ---------------------------------------------------------------------------
  // Properties of the tables
  // ---------------------------------------------------------------------------

  /** `lower` asks for no more than `upper` on either street. */
  predicate PairAtMost(lower: Pair, upper: Pair)
  {
    lower.majorVph <= upper.majorVph && lower.minorVph <= upper.minorVph
  }

  /** The combination column never asks for more than the column it combines with. */
  lemma CombinationTierIsLower(condition: Condition, key: LaneKey, speed: int, population: int)
    ensures PairAtMost(Warrant1Threshold(condition, key, PercentTier(speed, population, true)),
                       Warrant1Threshold(condition, key, PercentTier(speed, population, false)))
  {
  }

  /** The 80% column never asks for more than the 100% column, nor the 56% column more than the 70%. */
  lemma ReducedColumnsAreLower(condition: Condition, key: LaneKey)
    ensures PairAtMost(Warrant1Threshold(condition, key, Pct80), Warrant1Threshold(condition, key, Pct100))
    ensures PairAtMost(Warrant1Threshold(condition, key, Pct70), Warrant1Threshold(condition, key, Pct100))
    ensures PairAtMost(Warrant1Threshold(condition, key, Pct56), Warrant1Threshold(condition, key, Pct80))
  {
  }

  /** The percentage a tier stands for. */
  function Percent(tier: Tier): nat
  {
    match tier
    case Pct100 => 100
    case Pct80 => 80
    case Pct70 => 70
    case Pct56 => 56
  }

  /**
   * Every reduced column is the 100% column scaled by its percentage: exactly on
   * the major street, and rounded to the nearest vph (halves up) on the minor street.
   */
  lemma ColumnsScaleFullColumn(condition: Condition, key: LaneKey, tier: Tier)
    ensures var full, r := Warrant1Threshold(condition, key, Pct100), Warrant1Threshold(condition, key, tier);
      100 * r.majorVph == Percent(tier) * full.majorVph &&
      -50 < 100 * r.minorVph - Percent(tier) * full.minorVph <= 50
  {
  }

  /**
   * A curve as authored: at least one vertex, major volumes strictly increasing,
   * thresholds never increasing from one vertex to the next, every threshold positive.
   */
  predicate WellFormedCurve(c: seq<Point>)
  {
    |c| > 0 && WellFormedFrom(c, 0)
  }

  /** The vertices from position `i` on are in shape (checked vertex by vertex). */
  predicate WellFormedFrom(c: seq<Point>, i: nat)
    decreases |c| - i
  {
    i >= |c| ||
    (c[i].y > 0.0 && (i + 1 == |c| || (c[i].x < c[i + 1].x && c[i + 1].y <= c[i].y)) && WellFormedFrom(c, i + 1))
  }

  function NegY(p: Point): real { -p.y }

  lemma {:induction false} WellFormedFromAt(c: seq<Point>, i: nat, j: nat)
    requires WellFormedFrom(c, i) && i <= j < |c|
    ensures c[j].y > 0.0
    ensures j + 1 < |c| ==> c[j].x < c[j + 1].x && c[j + 1].y <= c[j].y
    decreases j - i
  {
    if i < j {
      WellFormedFromAt(c, i + 1, j);
    }
  }

  /**
   * A well-formed curve is already sorted, so it is read as authored; its
   * thresholds fall along the whole curve and are all positive.
   */
  lemma WellFormedCurveFacts(c: seq<Point>)
    requires WellFormedCurve(c)
    ensures SortedPoints(c) == c
    ensures NonIncreasingY(c)
    ensures forall p :: p in c ==> p.y > 0.0
  {
    forall j | 0 <= j < |c| ensures c[j].y > 0.0 && (j + 1 < |c| ==> c[j].x < c[j + 1].x && c[j + 1].y <= c[j].y) {
      WellFormedFromAt(c, 0, j);
    }
    assert AdjacentSortedBy(c, XOf);
    AdjacentIsSorted(c, XOf);
    SortSortedIsIdentity(c, XOf);
    assert AdjacentSortedBy(c, NegY);
    AdjacentIsSorted(c, NegY);
    forall i, j | 0 <= i < j < |c| ensures c[j].y <= c[i].y {
      assert NegY(c[i]) <= NegY(c[j]);
    }
  }
}
