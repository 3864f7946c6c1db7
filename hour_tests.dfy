/**
 * The per-hour volume tests the warrants share: an hour meets a Table 4C-1 pair,
 * and an hour lies on or above a curve.
 */
module HourTests {
  import opened Common
  import opened Interpolation
  import opened Tables
  import opened Traffic

  /** Both the major and the minor volume of the hour reach the pair. */
  predicate MeetsPair(row: Row, major: Street, t: Pair)
  {
    MajorVol(row, major) >= t.majorVph && MinorVol(row, major) >= t.minorVph
  }

  function PairTest(major: Street, t: Pair): Row -> bool
  {
    row => MeetsPair(row, major, t)
  }

  /** The curve's minor-street threshold at the hour's major volume. */
  function RowThreshold(row: Row, major: Street, curve: Curve): Option<real>
  {
    Threshold(curve, MajorVol(row, major) as real)
  }

  /** The hour lies on or above the curve: a threshold exists and the minor volume reaches it. */
  predicate AboveCurve(row: Row, major: Street, curve: Curve)
  {
    var t := RowThreshold(row, major, curve);
    t.Some? && MinorVol(row, major) as real >= t.value
  }

  function AboveTest(major: Street, curve: Curve): Row -> bool
  {
    row => AboveCurve(row, major, curve)
  }

  /** The number of hours that meet the pair. */
  function HoursMeeting(rows: seq<Row>, major: Street, t: Pair): nat
  {
    CountWhere(rows, PairTest(major, t))
  }

  /** A pair that asks for no more is met in every hour a stricter pair is met. */
  lemma HoursMeetingMonotone(rows: seq<Row>, major: Street, lower: Pair, upper: Pair)
    requires PairAtMost(lower, upper)
    ensures HoursMeeting(rows, major, upper) <= HoursMeeting(rows, major, lower)
  {
    CountWhereMonotone(rows, PairTest(major, upper), PairTest(major, lower));
  }
}
