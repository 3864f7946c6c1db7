# Traffic signal warrant engine, modelled in Dafny

This project models the warrant evaluation engine of a traffic-signal warrant
checker (`app.py`, lines 19–680). The engine is a simplified reading of the
nine signal warrants of MUTCD 2009 Chapter 4C. Given site data, it decides for
each warrant whether it is met, not met or not applicable:

- the site data are lane counts, approach speed, population, pedestrian and
  school counts, crash counts and a few flags;
- the hourly traffic series gives, for each hour, the volume on Street 1 and
  on Street 2.

The model covers:

- the constant tables: Table 4C-1 and the curve points of Figures 4C-1 to 4C-8;
- the choice of lane key and percentage column;
- piecewise-linear curve interpolation;
- the nine evaluators;
- the status label shown in the summary table.

Modules, one per part of the engine:

- `Common`: `Option`, counting and mapping over sequences.
- `HourTests`: the per-hour tests the warrants share, meeting a Table 4C-1 pair and lying on or above a curve.
- `Sorting`: the ascending sort behind `sorted(..., key=...)`, proved to give a sorted permutation.
- `Tables`: lane key, percentage tier, Table 4C-1, and the curves of Warrants 2, 3 and 4.
- `Interpolation`: `Threshold`, the specification of `interpolate_threshold`, and the method `InterpolateThreshold` with the segment loop.
- `Traffic`: the hourly rows, the major/minor street roles, the derived total column, the largest value, the first largest position, and the mean of the four largest values.
- `Verdicts`: the tri-state verdict and its label.
- `Warrant1`, `Warrant2`, `Warrant3`, `Warrant4` and `Warrant7`: the volume-based warrants.
- `ConditionWarrants`: Warrants 5, 6, 8 and 9.

The code's loops are modelled as methods: the row loops of Warrants 1, 2 and 7
and the segment loop of the interpolation. Each method is proved equal to a
specification function. The properties are proved about those functions.

A pandas frame is modelled as `Option<seq<Row>>`, where `None` means that no
series was entered and `Row(hour, s1, s2)` holds natural-number volumes. A
verdict's `met` is `Met`, `NotMet` or `NotApplicable`, standing for Python's
`True`, `False` and `None`. Interpolation is exact `real` arithmetic.

Where the code and its surrounding documentation differ, the model follows the code:

- Warrant 7 reads the Warrant 3 curve of the site's tier: 70% when speed > 40 or
  population < 10000 (`app.py:504-505`). The comment on line 503 says the
  100% curve is used.

## Model

| member | source | states |
|---|---|---|
| Tables.LaneClassOf | app.py:78-79 | a lane count of exactly 1 is the one-lane class; every other count (0, 2 or more) is the two-or-more class |
| Tables.LaneKeyOf | app.py:76-80 | each component of the key is one-lane iff its street has exactly one lane, so every table lookup has an entry |
| Tables.PercentTier | app.py:83-89 | the column is reduced (70%, or 56% for the combination) iff speed > 40 or population < 10000, and it is a combination column (80/56) iff asked for one |
| Tables.CurveTierOf | app.py:195 | the Warrant 2/3/7 curve tier is 70 iff speed > 40 or population < 10000, else 100 |
| Tables.PedestrianTierOf | app.py:306-307 | the Warrant 4 tier is 70 iff speed > 35 or population < 10000, else 100 |
| Tables.CombinationTierIsLower | app.py:20-33 | for every condition and lane key, the combination column asks for no more major and no more minor volume than the column it pairs with |
| Tables.ReducedColumnsAreLower | app.py:20-33 | for every condition and lane key: 80% ≤ 100%, 70% ≤ 100% and 56% ≤ 80% on both streets |
| Tables.Warrant1Threshold | app.py:19-33 | every Table 4C-1 pair asks for a positive minor volume below its major volume |
| Tables.ColumnsScaleFullColumn | app.py:19-33 | each reduced column is the 100% column times its percentage: exactly on the major street, rounded to the nearest vph (halves up) on the minor street |
| Tables.Warrant2Curve | app.py:36-50 | every Warrant 2 curve is non-empty, strictly increasing in major volume, non-increasing and positive in threshold |
| Tables.Warrant3Curve | app.py:52-66 | every Warrant 3 curve is well formed in the same sense |
| Tables.Warrant4Curve | app.py:68-74 | every Warrant 4 curve is well formed in the same sense |
| Tables.WellFormedCurveFacts | app.py:94 | a well-formed curve is left unchanged by the sort, its thresholds never rise along it, and all are positive |
| Sorting.SortBy | app.py:94 | the sorted points are a permutation of the supplied ones, in ascending order of major volume |
| Sorting.SortSortedIsIdentity | app.py:94 | points already in order come back unchanged |
| Sorting.SortIgnoresSuppliedOrder | app.py:94 | when no two points share a major volume, every supplied order of the same points sorts to the same sequence |
| Interpolation.SortedPoints | app.py:94 | the points the interpolation walks are a permutation of the curve, sorted by major volume |
| Interpolation.FirstSegment | app.py:101-106 | the first segment from a position on whose half-open range [x1, x2) holds the volume, with no earlier one holding it; None iff no segment does |
| Interpolation.Threshold | app.py:92-108 | None exactly when the major volume is below the first sorted vertex; the last vertex's threshold at or beyond the last vertex |
| Interpolation.InterpolateThreshold | app.py:92-108 | the sort, the two range checks and the segment loop with its early return compute `Threshold` |
| Interpolation.ThresholdNoneIffBelowRange | app.py:96-97 | the result is None exactly when the major volume is below every vertex, whatever order the vertices are supplied in |
| Interpolation.ThresholdFlatAboveRange | app.py:98-99 | at or above the largest vertex the result is that vertex's threshold, however far above |
| Interpolation.ThresholdSegmentExists | app.py:101-108 | inside the covered range some segment holds the volume, even with zero-width segments, so the final return is never reached |
| Interpolation.ThresholdAtVertex | app.py:101-106 | at a vertex that starts a segment of positive width, the result is exactly that vertex's threshold |
| Interpolation.ThresholdInsideSegment | app.py:101-106 | strictly inside a segment the result is the straight line through its ends, and lies between their two thresholds |
| Interpolation.LerpBetween | app.py:104-105 | the straight line between two vertices, read between them, stays between their thresholds |
| Interpolation.ThresholdWithinCurve | app.py:92-108 | any threshold returned lies within the range of the curve's thresholds |
| Interpolation.ThresholdPositive | app.py:92-108 | on a curve with positive thresholds, every threshold returned is positive |
| Interpolation.ThresholdIgnoresSuppliedOrder | app.py:94 | when no two vertices share a major volume, the result does not depend on the order the vertices are supplied in |
| Interpolation.ThresholdNonIncreasing | app.py:92-108 | on a curve whose thresholds fall, a larger major volume never reads a larger threshold, and is never below range when a smaller one is not |
| Traffic.StreetTotal | app.py:129-130 | a street's total is at least each of its hourly volumes, and zero exactly when every hourly volume is zero |
| Traffic.MajorStreet | app.py:129-135 | the major street carries a total at least the other's, and a tie goes to Street 1 |
| Traffic.MajorColumn | app.py:323-329 | the major column has one entry per hour, the major street's volume of that hour |
| Traffic.TotalColumn | app.py:256-257 | the derived total column holds, for each hour, the sum of its two volumes |
| Traffic.MaxOf | app.py:329 | the largest value of the column is one of its values and at least every value |
| Traffic.FirstArgMax | app.py:258 | the peak position holds a largest value, and every earlier position holds a strictly smaller one |
| Traffic.Largest | app.py:325 | the largest values number min(4, hours) |
| Traffic.LargestAreLargest | app.py:325 | the values kept are taken from the column, and no value left out is larger than a value kept |
| Traffic.LargestMeanBounds | app.py:325-329 | the mean of the n largest values lies between 0 and the column's largest value, and is at least every value left out |
| Traffic.TopFourMean | app.py:325 | the mean of the four largest values lies between 0 and the column's largest value, and is at least every value left out |
| Verdicts.Status | app.py:1321-1327 | the label is "—" iff the verdict is not applicable, "✓ MET" iff met, "✗ NOT MET" iff not met |
| Warrant1.Warrant1 | app.py:111-182 | not applicable iff no series or fewer than 8 hours, then no hours and no condition; met iff a condition was satisfied, with at least 8 hours, otherwise fewer than 8; hours are at most the series length; the evidence names the major street of the series and the site's A and B pairs; one chart row per hour, in input order, with that hour's major and minor volumes and each flag true iff the hour meets its pair |
| Warrant1.EvaluateWarrant1 | app.py:111-182 | the data gate, the four threshold pairs, the hour loop and the first-match decision compute `Warrant1` |
| Warrant1.CountHours | app.py:137-159 | the hour loop's four counters are the numbers of hours meeting pair A, pair B and the two combination pairs, and its chart list holds one row per hour as `Warrant1` records it |
| Warrant1.Warrant1Branches | app.py:170-180 | A wins iff at least 8 hours meet pair A, reporting those hours; B iff A fails and 8 hours meet B; A+B iff both fail and both combination counts reach 8, reporting their minimum; else not met with the larger of the A and B counts |
| HourTests.HoursMeetingMonotone | app.py:145-148 | a pair that asks for no more is met in at least as many hours |
| Warrant1.CombinationCountsDominate | app.py:124-127 | each combination counter is at least the counter of its condition |
| Warrant2.SiteCurve | app.py:194-196 | the site's curve is the 70% curve of its lane key iff speed > 40 or population < 10000, else the 100% curve; it is well formed |
| Warrant2.Warrant2 | app.py:185-233 | not applicable iff no series or fewer than 4 hours; otherwise the hours met are exactly the number of hours on or above the site's curve, on the series' major street, and the warrant is met iff there are at least 4; the evidence holds the major street, the site's tier and curve; one chart row per hour, in input order, with its major and minor volumes, the threshold read at its major volume and the flag true iff the hour is on or above that curve |
| Warrant2.OnCurve | app.py:198-233 | for a series read against a curve: met iff the counted hours reach 4; the count is at most the series length; the evidence names the series' major street, and each chart row holds its hour's volumes, threshold and above-curve flag on that street |
| Warrant2.EvaluateWarrant2 | app.py:185-233 | the data gate, the site's curve and the hour loop compute `Warrant2` |
| Warrant2.CountAboveCurve | app.py:206-233 | the hour loop, calling the interpolation for each hour, computes `OnCurve` |
| Warrant2.HoursMetAreHoursAboveCurve | app.py:209-225 | the hours met are exactly the hours with a threshold that the minor volume reaches, and the warrant is met iff there are at least 4 |
| Warrant2.BelowCurveRangeNeverCounts | app.py:213-214 | an hour whose major volume is below every vertex never counts, whatever its minor volume |
| Warrant2.AboveCurveMonotone | app.py:213-214 | on a shipped curve, an hour with at least the major and at least the minor volume of a counted hour is counted too |
| Warrant3.SiteCurve | app.py:244-246 | the site's curve is the 70% curve of its lane key iff speed > 40 or population < 10000, else the 100% curve; it is well formed |
| Warrant3.Warrant3 | app.py:236-281 | not applicable exactly for no series or an empty one, and then there is no peak hour; otherwise the peak is the first hour with the largest total, read on the series' major street against the site's tier and curve, its threshold is the site curve's reading at its major volume, and the warrant is met iff that threshold exists and the peak's minor volume reaches it |
| Warrant3.AtPeak | app.py:244-268 | the peak is the first hour with the largest total, its major and minor volumes taken on the series' major street; met iff the curve gives a threshold at its major volume and its minor volume reaches it; "below curve range" iff the threshold is None or zero |
| Warrant3.BelowRangeNoteIffNoThreshold | app.py:265-268 | on a well-formed curve "below curve range" appears exactly when no threshold is read, that is when the peak's major volume is below every vertex |
| Warrant3.SiteNoteIffNoThreshold | app.py:245-268 | for every site the "below curve range" message appears exactly when the threshold is None |
| Warrant4.Warrant4 | app.py:284-321 | distance < 300 gives not met before anything else; then gaps ≥ 60 gives not met; then no traffic gives not applicable; otherwise, at the pedestrian tier, the mean of the four largest major volumes is read on that tier's four-hour curve and the largest on its peak-hour curve, met iff either reading exists and its pedestrian count reaches it, the four-hour criterion taking precedence |
| Warrant4.Compare | app.py:323-345 | the four-hour input is the mean of the four largest major volumes and the peak input the largest; met iff either threshold exists and is reached; the criterion is four-hour whenever that is met, else peak-hour when met, else none |
| Warrant4.FourHourInputBounds | app.py:325-329 | the four-hour input never exceeds the peak input and is at least every major volume outside the four largest |
| Warrant4.MorePedestriansStillMeet | app.py:327-333 | larger pedestrian counts meet the warrant whenever smaller ones do |
| Warrant4.FewHoursUseEveryHour | app.py:325-329 | with four hours or fewer every hour enters the mean; with one hour both inputs are its major volume |
| Warrant7.SiteTest | app.py:497-505 | the site's pairs are the 80% column: no stricter than the 100% pairs, with exactly 80% of their major volume; the curve is the well-formed Warrant 3 curve of the site's tier |
| Warrant7.Warrant7 | app.py:442-586 | never not applicable; condition A iff alternatives were tried; B iff also at least 5 crashes; met iff A, B and C all hold; no count before the volume step; past the gates the count is exactly the number of hours meeting the site's 80% pair A, 80% pair B or Warrant 3 curve, and C iff at least 8; the evidence holds the series' major street and the site's pairs and curve |
| Warrant7.VolumeCondition | app.py:498-586 | past the gates: C iff at least 8 hours qualify; the evidence names the series' major street; each chart row holds its hour's major and minor volumes, the W1A and W1B flags true iff the hour meets the respective pair, the W3 flag true iff it is on or above the curve, the threshold read there, and qualifies iff one of the three holds |
| Warrant7.EvaluateWarrant7 | app.py:442-586 | the three gates in order, the site's pairs and curve, then the hour loop and the condition C decision, compute `Warrant7` |
| Warrant7.CountVolumeHours | app.py:516-548 | the hour loop's counter is the number of hours meeting the volume test, and its chart list holds one row per hour as `VolumeCondition` records it |
| Warrant7.CheckHour | app.py:519-533 | one hour's two pair comparisons, curve reading and disjunction give the chart row `VolumeCondition` records, qualifying iff the hour meets pair A, pair B or the curve |
| Warrant7.HoursMeetingVolumeAreTheQualifyingHours | app.py:519-535 | the hours counted are exactly those meeting 80% pair A, 80% pair B or the Warrant 3 curve |
| Warrant7.FullWarrant1HoursCount | app.py:500-533 | every hour meeting Warrant 1 Condition A at the 100% column qualifies for Warrant 7 |
| ConditionWarrants.Warrant5 | app.py:362-395 | not applicable iff no school crossing; fewer than 20 children is not met; met iff there is a crossing, at least 20 children, and fewer gaps than the crossing period (default 30) |
| ConditionWarrants.Warrant5Monotone | app.py:372-382 | more children or fewer gaps never undo a met verdict; the boundaries sit at 20 children and 30 gaps by default |
| ConditionWarrants.Warrant6 | app.py:398-439 | not applicable iff not coordinated; met iff spacing is in [1000, 2640], both ends included; the engineering-judgment flag is set exactly on the evaluated verdicts |
| ConditionWarrants.Warrant6IgnoresProgressionSpeed | app.py:419-424 | the progression speed never changes the verdict; 1000 and 2640 meet it, 999 and 2641 do not |
| ConditionWarrants.Warrant8 | app.py:589-632 | not applicable iff no network continuity; met iff route designated and future volumes; which explanation is given; every verdict carries the engineering-judgment flag |
| ConditionWarrants.Warrant9 | app.py:635-680 | not applicable iff no grade crossing; more than 140 ft is not met; met iff within 140 ft, at least one train and preemption needed |
| ConditionWarrants.Warrant9DistanceDominates | app.py:656-665 | beyond 140 ft no train frequency or preemption changes the verdict; at exactly 140 ft it can be met |

## Left out

- The Streamlit interface, its session state, CSV upload, the Plotly charts, and the Excel, CSV and PDF reports. These are interactive I/O and presentation through foreign libraries.
- The `details` strings. The model records which message variant was produced (`Exit`, `Note`, the satisfied condition or criterion), not the text or its `:.0f` number formatting.
- Python float rounding in the slope division. The model uses exact `real`, so a comparison on a boundary may differ from IEEE floats in the last bit.
- pandas semantics. The column sum, `idxmax`, `nlargest(4).mean()` and `max` are their plain sequence meanings: `idxmax` takes the first occurrence, and `nlargest` keeps up to four values.
- The street-name strings (`major_street`, `minor_street`). The model records the major street as `Street1` or `Street2`.
- `progression_speed` (Warrant 6) and the crash-type breakdown. They never affect a verdict; Warrant 6 takes `progression_speed` and ignores it.
- The `result is None` case of `get_status`. Every evaluator returns a record, so only `met` is mapped.
- Interpolation.Threshold: requires a non-empty curve (`requires |curve| > 0`); an empty one would raise `IndexError` in Python. Every shipped curve has type `Curve`, whose values have at least one vertex.
- Interpolation.InterpolateThreshold: returns the segment value through `Lerp`, the same formula `y1 + slope * (v - x1)` written once.
- Traffic.Row: hourly volumes are natural numbers, as the data editor allows (whole numbers from 0 to 9999, `app.py:1042-1053`). Non-integer, negative or missing values that an uploaded CSV file can bring (`app.py:1060-1066`) are not modelled.
- Warrant1.Warrant1: the record's `threshold_used` percentage string is recorded as the `Tier` of the non-combination column.
