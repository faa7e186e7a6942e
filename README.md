# Smart CPG decision agent: analytics core in Dafny

This project models the three analytics tools of the smart CPG (consumer
packaged goods) decision agent. Each tool is a function over a sales table
with one row per day, store and SKU. The row's columns are date, store id,
store region, SKU id, category, units sold, revenue, promotion flag, price and
inventory level.

- **Scenario simulation** (`ScenarioSimulation`) projects what-if figures:
  - a price change for one SKU under a constant price elasticity, with the
    volume clamped at zero;
  - a promotion for one category, as a flat volume uplift with a flat cost per
    unit.

  When the filter selects no row, each projection returns a "no data" message
  instead.
- **Anomaly detection** (`AnomalyDetection`) makes three selections of rows:
  - sales spikes: the rows above their (SKU, store) group's mean plus
    `threshold` sample standard deviations, sorted by date;
  - stock shortages: the rows below a critical inventory level, sorted by
    (date, store, SKU);
  - failed promotions: the promotion rows that sold fewer units than the mean
    of their group's non-promotion rows.
- **Trend analysis** (`TrendAnalysis`) produces three group-and-sum reports:
  - units and revenue per (week or month, category);
  - revenue and units per (store, region), largest first by a chosen metric;
  - revenue per month of the year, over all rows or one category, largest
    first.

  Two of these reports overwrite the caller's frame. The date column is
  re-parsed, and the seasonality report adds a `month` column. The class
  `TrendAnalysis.SalesFrame` models that frame.

Shared modules:

- `Common`: `Option`, `Result` and the error for an invalid parameter.
- `Table`:
  - the row;
  - `Sum`, `Mean` and `Filter`, with their algebra (append, permutation,
    constant and sign lemmas).
- `Sorting`: a stable insertion sort, proved to be a permutation and, for a
  total preorder, sorted.
- `Grouping`:
  - the group-by-and-sum fold (`GroupTotals`);
  - `Summary`, a reference definition of one group's totals read straight off
    its rows;
  - the proofs that the fold agrees with `Summary` and conserves the totals.
- `Aggregation`: the whole `groupby(...).agg(sum).reset_index().sort_values(...)`
  pipeline. Its lemmas show that each output record carries the totals of
  exactly its group, that every occurring group has one record, and that the
  totals are conserved.
- `Calendar`:
  - conversion from day numbers (days since 1970-01-01) to the proleptic
    Gregorian calendar;
  - the weekday, the week ending on Sunday, and the last day of the month.

Numbers and dates are modelled as follows:

- Money, units and prices are exact `real`s.
- Ids, inventory levels and the promotion flag are `int`s.
- Dates are `int` day numbers.
- Python's `int()` is truncation toward zero (`Trunc`).
- `round(x, 2)` rounds to the nearest cent with ties to even (`Round2`).

## Model

| member | source | states |
|---|---|---|
| ScenarioSimulation.Trunc | smart-cpg-decision-agent/src/tools/scenario_simulation.py:39-40 | `int()` of a unit count rounds toward zero: for non-negative x the result is the largest integer not above x; for negative x, the smallest not below it |
| ScenarioSimulation.RoundHalfEven | smart-cpg-decision-agent/src/tools/scenario_simulation.py:37-43 | the result is within one half of x, an exact tie goes to the even integer, and an integer is its own rounding |
| ScenarioSimulation.Round2 | smart-cpg-decision-agent/src/tools/scenario_simulation.py:37-43 | `round(x, 2)` is a whole number of cents within half a cent of x, and a figure exactly halfway between two cents goes to the even one |
| ScenarioSimulation.Round2Exact | smart-cpg-decision-agent/src/tools/scenario_simulation.py:41-43 | a figure that already is a whole number of cents is unchanged by rounding |
| ScenarioSimulation.ProjectedVolume | smart-cpg-decision-agent/src/tools/scenario_simulation.py:23-29 | a non-negative volume never projects negative, and a price move that the elasticity turns into a drop never projects more than the volume |
| ScenarioSimulation.ProjectPrice | smart-cpg-decision-agent/src/tools/scenario_simulation.py:17-31 | the unrounded projection: the SKU's total volume and revenue, the mean price, the new price as the mean times (1 + change), the projected volume, and the projected revenue as volume times new price; a clamped volume gives 0 units and 0 revenue |
| ScenarioSimulation.PriceChangeOf | smart-cpg-decision-agent/src/tools/scenario_simulation.py:33-44 | the record echoes the SKU, change and elasticity; its units are the truncated original and projected volumes; each money figure is a whole number of cents within half a cent of its unrounded value, the even cent when that value is exactly halfway, the impact rounded from the unrounded revenue difference |
| ScenarioSimulation.SimulatePriceChange | smart-cpg-decision-agent/src/tools/scenario_simulation.py:12-44 | the result is the "No data found for SKU n" message exactly when no row has the SKU; otherwise it is the record for the SKU's rows, echoing the SKU id, the price change and the elasticity |
| ScenarioSimulation.NatToString | smart-cpg-decision-agent/src/tools/scenario_simulation.py:15 | the decimal digits of a natural number: a non-empty string of digits whose first digit is 0 only for 0 |
| ScenarioSimulation.NatToStringValue | smart-cpg-decision-agent/src/tools/scenario_simulation.py:15 | reading the digits back gives the number |
| ScenarioSimulation.IntToString | smart-cpg-decision-agent/src/tools/scenario_simulation.py:15 | Python's `str` of the SKU id in the not-found message: a leading minus exactly for a negative id, followed by the digits that denote its absolute value, with no leading zero except for 0 itself |
| ScenarioSimulation.IntToStringExamples | smart-cpg-decision-agent/src/tools/scenario_simulation.py:15 | 101 prints as "101", -7 as "-7" and 0 as "0" |
| ScenarioSimulation.PriceChangeOriginalsOverTable | smart-cpg-decision-agent/src/tools/scenario_simulation.py:12-18 | for a SKU the table has, the original units are the truncated sum, and the original revenue the rounded sum, over the whole table with every other SKU's rows counted as 0 |
| ScenarioSimulation.PriceChangeClamp | smart-cpg-decision-agent/src/tools/scenario_simulation.py:26-27 | a volume change of -100% or worse projects 0 units and 0.0 revenue, so the impact is minus the original revenue |
| ScenarioSimulation.PriceChangeLinear | smart-cpg-decision-agent/src/tools/scenario_simulation.py:28-29 | above the clamp, the projected volume is volume · (1 + change · elasticity) |
| ScenarioSimulation.PriceMoveAgainstDemand | smart-cpg-decision-agent/src/tools/scenario_simulation.py:3-10 | on rows with non-negative units, a price move that lowers demand projects between 0 and the original number of units |
| ScenarioSimulation.PriceChangeIgnoresOtherSkus | smart-cpg-decision-agent/src/tools/scenario_simulation.py:12 | appending rows of other SKUs does not change the simulation for this SKU |
| ScenarioSimulation.PriceChangeReferenceCase | smart-cpg-decision-agent/tests/test_tools.py:5-27 | for the test's three rows, a 10% rise at elasticity -1.0 gives the full record: prices 10.0 → 11.0, units 30 → 27, revenue 300.0 → 297.0, impact -3.0 |
| ScenarioSimulation.PriceChangeDefaultElasticity | smart-cpg-decision-agent/src/tools/scenario_simulation.py:3 | leaving the elasticity out is the same as passing -1.5 |
| ScenarioSimulation.ScaleSigns | smart-cpg-decision-agent/src/tools/scenario_simulation.py:29 | (sign facts of the volume scaling) v · (1 + c) is non-negative for c ≥ -1, and lies above or below v as c is positive or negative |
| ScenarioSimulation.LiftedVolume | smart-cpg-decision-agent/src/tools/scenario_simulation.py:61 | the lifted volume is the baseline plus the baseline times the uplift; it is non-negative for an uplift of at least -100%, and no smaller than the baseline for a non-negative uplift |
| ScenarioSimulation.ProjectMoney | smart-cpg-decision-agent/src/tools/scenario_simulation.py:65-67 | gross revenue is volume times mean price, cost is volume times cost per unit, net revenue is their difference and also volume times (price less cost), the impact is net less baseline revenue, and net revenue is non-negative when the price covers the cost |
| ScenarioSimulation.PromotionOf | smart-cpg-decision-agent/src/tools/scenario_simulation.py:69-79 | the record echoes the category and the uplift; its units are the truncated baseline and lifted volumes; each money figure is a whole number of cents within half a cent of its unrounded value, the even cent when that value is exactly halfway |
| ScenarioSimulation.SimulatePromotion | smart-cpg-decision-agent/src/tools/scenario_simulation.py:51-79 | the result is the "No data found for category 'c'" message exactly when no row has the category; otherwise it is the record for the category's rows, echoing the category and the uplift |
| ScenarioSimulation.PromotionBaselineIgnoresPromoRows | smart-cpg-decision-agent/src/tools/scenario_simulation.py:57-61 | adding promotion rows to the category leaves the baseline units, the baseline revenue and the simulated units unchanged |
| AnomalyDetection.UnitStats | smart-cpg-decision-agent/src/tools/anomaly_detection.py:16-17 | a group has statistics exactly when it has at least two rows (pandas' sample standard deviation is NaN below that); the mean is the mean of its units; the variance times (n - 1) is the sum of the squared deviations from the mean (the sample variance), and it is non-negative |
| AnomalyDetection.SquareLess | smart-cpg-decision-agent/src/tools/anomaly_detection.py:20-23 | (helper) squaring is strictly monotone on non-negative numbers |
| AnomalyDetection.ExceedsLimit | smart-cpg-decision-agent/src/tools/anomaly_detection.py:20-23 | a row flagged at a non-negative threshold is above the mean; a row above the mean is flagged at any non-positive threshold; with zero variance, a row is flagged exactly when it is above the mean |
| AnomalyDetection.ExceedsLimitIffAboveLimit | smart-cpg-decision-agent/src/tools/anomaly_detection.py:20-23 | for any std ≥ 0 with std² equal to the variance, the variance test holds exactly when units > mean + threshold · std, for every sign of the threshold |
| AnomalyDetection.GroupSpikesCount | smart-cpg-decision-agent/src/tools/anomaly_detection.py:15-23 | one loop iteration's spike rows are exactly the rows of that group that are spikes, each as often as in the table |
| AnomalyDetection.GroupSpikes | smart-cpg-decision-agent/src/tools/anomaly_detection.py:16-23 | one loop iteration keeps only rows of the table from its own group, and none at all for a group of fewer than two rows |
| AnomalyDetection.Concat | smart-cpg-decision-agent/src/tools/anomaly_detection.py:29 | a row is in the concatenation exactly when it is in one of the collected frames |
| AnomalyDetection.ConcatAppend | smart-cpg-decision-agent/src/tools/anomaly_detection.py:28-29 | concatenating one more collected frame appends its rows |
| AnomalyDetection.CollectGroup | smart-cpg-decision-agent/src/tools/anomaly_detection.py:23-26 | collecting one group's spike rows adds exactly that group's spikes to the collection |
| AnomalyDetection.AllKeysGrouped | smart-cpg-decision-agent/src/tools/anomaly_detection.py:11 | every row's (SKU, store) is one of the groups the loop walks |
| AnomalyDetection.CollectedAll | smart-cpg-decision-agent/src/tools/anomaly_detection.py:15-29 | once every group is collected, the collection holds every spike of the table and nothing else |
| AnomalyDetection.GroupKeysStep | smart-cpg-decision-agent/src/tools/anomaly_detection.py:15 | the loop meets each group key once: the next key is new, and adding it extends the keys seen |
| AnomalyDetection.DateLeTotal | smart-cpg-decision-agent/src/tools/anomaly_detection.py:29 | ordering by date is a total preorder |
| AnomalyDetection.DetectSalesSpikes | smart-cpg-decision-agent/src/tools/anomaly_detection.py:4-31 | the output holds every row that is a spike of its own (SKU, store) group, as often as the table holds it, and no other row, sorted by date; no spikes gives an empty result |
| AnomalyDetection.SpikeIffAboveLimit | smart-cpg-decision-agent/src/tools/anomaly_detection.py:16-23 | in a group of two or more rows, a row is a spike exactly when its units exceed the group mean plus threshold times the standard deviation |
| AnomalyDetection.FlatGroupHasNoSpikes | smart-cpg-decision-agent/src/tools/anomaly_detection.py:16-23 | a group whose rows all sold the same units, a single row included, has no spike at any threshold |
| AnomalyDetection.FlatStats | smart-cpg-decision-agent/src/tools/anomaly_detection.py:16-17 | equal units give mean equal to that value and variance zero |
| AnomalyDetection.ShortageLeTotal | smart-cpg-decision-agent/src/tools/anomaly_detection.py:38 | ordering by (date, store, SKU) is a total preorder |
| AnomalyDetection.DetectStockShortages | smart-cpg-decision-agent/src/tools/anomaly_detection.py:33-38 | the output holds exactly the rows strictly below the critical level (default 50), each as often as in the table, sorted by date, store, SKU |
| AnomalyDetection.BaselineIsNonPromoMean | smart-cpg-decision-agent/src/tools/anomaly_detection.py:46-47 | the grouped baseline frame gives, for every (SKU, store), the mean units of that group's non-promotion rows, and none when it has no such rows |
| AnomalyDetection.BaselineAvg | smart-cpg-decision-agent/src/tools/anomaly_detection.py:46-53 | a key without a baseline row has no baseline; a baseline, when there is one, times its group's row count is the group's total units |
| AnomalyDetection.MergeBaseline | smart-cpg-decision-agent/src/tools/anomaly_detection.py:53 | the left merge keeps every promotion row exactly as often as before, each paired with its group's baseline, or with no baseline when the group has none |
| AnomalyDetection.IsFailedPromo | smart-cpg-decision-agent/src/tools/anomaly_detection.py:56 | a row with no baseline is never a failed promotion; with baseline v it is one exactly when it sold fewer than v units |
| AnomalyDetection.MergedDateLeTotal | smart-cpg-decision-agent/src/tools/anomaly_detection.py:58 | ordering merged rows by date is a total preorder |
| AnomalyDetection.FlagAnomalousPromotions | smart-cpg-decision-agent/src/tools/anomaly_detection.py:40-58 | the output holds exactly the rows with promotion flag 1 whose units are below the mean of their group's non-promotion rows, each paired with that mean and as often as in the table, sorted by date |
| AnomalyDetection.FlaggedPromotionsBelowBaseline | smart-cpg-decision-agent/src/tools/anomaly_detection.py:50-56 | every flagged row is a promotion row of the table whose group has a baseline, and its units are below that baseline |
| AnomalyDetection.MissingBaselineNotFlagged | smart-cpg-decision-agent/src/tools/anomaly_detection.py:53-56 | a promotion row whose group has no non-promotion row is never flagged (the missing baseline compares false) |
| AnomalyDetection.BelowBaselineFlagged | smart-cpg-decision-agent/src/tools/anomaly_detection.py:50-56 | every promotion row below its group's baseline is flagged, paired with that baseline |
| Grouping.RowsWithKey | smart-cpg-decision-agent/src/tools/trend_analysis.py:24-27 | a group holds exactly the rows with its key, each as often as in the table |
| Table.Sum | smart-cpg-decision-agent/src/tools/scenario_simulation.py:17-18 | the sum over no rows is 0 |
| Table.SumAppend | smart-cpg-decision-agent/src/tools/scenario_simulation.py:17-18 | the sum over two tables is the sum of their sums |
| Table.SumPermutation | smart-cpg-decision-agent/src/tools/anomaly_detection.py:29 | the sum does not depend on the order of the rows |
| Table.SumConstant | smart-cpg-decision-agent/src/tools/anomaly_detection.py:16-17 | a column that equals v on every row sums to v times the number of rows |
| Table.SumNonNegative | smart-cpg-decision-agent/src/tools/scenario_simulation.py:18 | a non-negative column has a non-negative sum |
| Table.Mean | smart-cpg-decision-agent/src/tools/scenario_simulation.py:19 | the mean times the number of rows is the sum |
| Table.Filter | smart-cpg-decision-agent/src/tools/scenario_simulation.py:12 | a boolean-mask selection keeps exactly the rows that satisfy the mask, each as often as in the table, and never more rows |
| Table.FilterAppend | smart-cpg-decision-agent/src/tools/trend_analysis.py:39-42 | filtering two tables joined end to end gives their filtered rows joined end to end |
| Table.SumFilter | smart-cpg-decision-agent/src/tools/scenario_simulation.py:12-18 | the sum of a column over the selected rows equals its sum over all rows with the unselected ones counted as 0 |
| Table.FilterEmpty | smart-cpg-decision-agent/src/tools/scenario_simulation.py:14 | a selection is empty exactly when no row satisfies the mask |
| Grouping.Lookup | smart-cpg-decision-agent/src/tools/trend_analysis.py:24-27 | finding a group's entry fails exactly when no entry has the key; a found entry has that key |
| Grouping.AddRow | smart-cpg-decision-agent/src/tools/trend_analysis.py:24-27 | folding a row in bumps its key's entry (or opens one) and leaves every other key's entry as it was; keys stay distinct |
| Grouping.AddRowSums | smart-cpg-decision-agent/src/tools/trend_analysis.py:24-27 | folding a row in adds its units and revenue to the accumulator's totals |
| Grouping.GroupTotals | smart-cpg-decision-agent/src/tools/trend_analysis.py:24-27 | the group-by has no key twice |
| Grouping.RowsWithKeyAppend | smart-cpg-decision-agent/src/tools/trend_analysis.py:24-27 | one more row joins its own group only |
| Grouping.GroupSummarySnoc | smart-cpg-decision-agent/src/tools/trend_analysis.py:24-27 | one more row in a group adds its units, revenue and count to the group's totals |
| Grouping.SumsSnoc | smart-cpg-decision-agent/src/tools/trend_analysis.py:24-27 | one more row adds its units and revenue to the column sums |
| Grouping.SummaryAppendHit | smart-cpg-decision-agent/src/tools/trend_analysis.py:24-27 | a row of group k appended to the table is added to k's reference totals |
| Grouping.SummaryAppendMiss | smart-cpg-decision-agent/src/tools/trend_analysis.py:24-27 | a row of another group leaves k's reference totals unchanged |
| Grouping.SummaryStep | smart-cpg-decision-agent/src/tools/trend_analysis.py:24-27 | how the last row of a table changes the reference totals of each group |
| Grouping.GroupTotalsSummary | smart-cpg-decision-agent/src/tools/trend_analysis.py:24-27 | for every key, the fold's entry equals the reference totals of the rows with that key (none when there are none) |
| Grouping.GroupTotalsConserve | smart-cpg-decision-agent/src/tools/trend_analysis.py:24-27 | the group totals together add up to the table's total units and revenue |
| Grouping.LookupEntry | smart-cpg-decision-agent/src/tools/trend_analysis.py:24-27 | with distinct keys, looking up an entry's key finds that entry |
| Grouping.GroupTotalsSpec | smart-cpg-decision-agent/src/tools/trend_analysis.py:24-27 | every entry is the reference totals of its own key, and every row's key has an entry |
| Aggregation.MapTotals | smart-cpg-decision-agent/src/tools/trend_analysis.py:27 | `reset_index` turns each group's totals into one output record, in order |
| Aggregation.Aggregate | smart-cpg-decision-agent/src/tools/trend_analysis.py:24-29 | the sorted report is a permutation of the finalised groups |
| Aggregation.AggregateEntries | smart-cpg-decision-agent/src/tools/trend_analysis.py:24-29 | every record is the finalised reference totals of its own key, and every row's group has its record |
| Aggregation.TwoPositions | smart-cpg-decision-agent/src/tools/trend_analysis.py:29 | (helper) an element at two positions occurs at least twice |
| Aggregation.OnePosition | smart-cpg-decision-agent/src/tools/trend_analysis.py:29 | (helper) an element at one position only occurs once |
| Aggregation.PermutationKeepsDistinct | smart-cpg-decision-agent/src/tools/trend_analysis.py:29 | sorting keeps the records' keys distinct |
| Aggregation.AggregateDistinct | smart-cpg-decision-agent/src/tools/trend_analysis.py:24-29 | no group has two records in the sorted report |
| Aggregation.SumMapTotals | smart-cpg-decision-agent/src/tools/trend_analysis.py:27 | the records' column sums are the groups' total sums |
| Aggregation.AggregateSum | smart-cpg-decision-agent/src/tools/trend_analysis.py:24-29 | a column of the sorted report sums to the matching total of the groups |
| Calendar.MonthsFillYear | smart-cpg-decision-agent/src/tools/trend_analysis.py:37 | the twelve months together fill the year |
| Calendar.DaysBeforeMonth | smart-cpg-decision-agent/src/tools/trend_analysis.py:37 | the days before a month are never negative, and between 28 and 31 per preceding month |
| Calendar.MonthsOrdered | smart-cpg-decision-agent/src/tools/trend_analysis.py:37 | a later month starts no earlier than the end of an earlier one |
| Calendar.YearStep | smart-cpg-decision-agent/src/tools/trend_analysis.py:10 | the days before the next year are the days before this year plus this year's length |
| Calendar.Era | smart-cpg-decision-agent/src/tools/trend_analysis.py:10 | every 400 years from 1970 hold exactly 146097 days |
| Calendar.YearsOrdered | smart-cpg-decision-agent/src/tools/trend_analysis.py:10 | a later year starts no earlier than the end of an earlier one |
| Calendar.YearWalk | smart-cpg-decision-agent/src/tools/trend_analysis.py:10 | walking whole years keeps the day count and ends inside a year |
| Calendar.MonthWalk | smart-cpg-decision-agent/src/tools/trend_analysis.py:37 | walking whole months keeps the day count and ends on a valid date of the same year |
| Calendar.CivilFromDays | smart-cpg-decision-agent/src/tools/trend_analysis.py:10 | every day number maps to a valid calendar date (with `DaysFromCivilFromDays` and `CivilFromDaysToDays`, the conversion is a bijection) |
| Calendar.DaysFromCivilFromDays | smart-cpg-decision-agent/src/tools/trend_analysis.py:10 | converting a day number to a date and back gives the day number |
| Calendar.DayOfYearBound | smart-cpg-decision-agent/src/tools/trend_analysis.py:10 | a valid date lies inside its year |
| Calendar.DaysFromCivilInjective | smart-cpg-decision-agent/src/tools/trend_analysis.py:10 | two valid dates with the same day number are the same date |
| Calendar.CivilFromDaysToDays | smart-cpg-decision-agent/src/tools/trend_analysis.py:10 | converting a valid date to its day number and back gives the date |
| Calendar.NextDay | smart-cpg-decision-agent/src/tools/trend_analysis.py:10 | the calendar's next day of a valid date is a valid date |
| Calendar.CivilFromDaysNext | smart-cpg-decision-agent/src/tools/trend_analysis.py:10 | the date of day number d + 1 is the next day of the date of d |
| Calendar.NextOfCivil | smart-cpg-decision-agent/src/tools/trend_analysis.py:10 | the day after a valid date's day number is its next day |
| Calendar.DaysFromCivilNext | smart-cpg-decision-agent/src/tools/trend_analysis.py:10 | the next day's day number is one more |
| Calendar.MonthOf | smart-cpg-decision-agent/src/tools/trend_analysis.py:37 | `.dt.month` is between 1 and 12 |
| Calendar.Weekday | smart-cpg-decision-agent/src/tools/trend_analysis.py:13 | the weekday is between 0 (Monday) and 6 (Sunday) |
| Calendar.WeekEnd | smart-cpg-decision-agent/src/tools/trend_analysis.py:13 | the weekly label is a Sunday, on the day itself or within the six days after it |
| Calendar.WeekEndUnique | smart-cpg-decision-agent/src/tools/trend_analysis.py:13 | that Sunday is the only Sunday in the week from the day on |
| Calendar.MonthEnd | smart-cpg-decision-agent/src/tools/trend_analysis.py:13 | the monthly label lies within 30 days on or after the day, is the date (year, month, days in that month) of the day's own year and month, and the day after it is the first of a month |
| Calendar.MonthEndOfCivil | smart-cpg-decision-agent/src/tools/trend_analysis.py:13 | the last day of a valid date's month is a valid date of that month, and the day after it is the first of the next month |
| Calendar.MonthOfCivil | smart-cpg-decision-agent/src/tools/trend_analysis.py:37 | the month of a valid date's day number is the date's month |
| Calendar.EpochAnchor | smart-cpg-decision-agent/src/tools/trend_analysis.py:10 | day 0 is 1970-01-01, a Thursday, and its week ends on day 3 |
| Calendar.MarchAnchor | smart-cpg-decision-agent/src/tools/trend_analysis.py:10 | day 59 is 1970-03-01 |
| Calendar.NewYearAnchor | smart-cpg-decision-agent/src/tools/trend_analysis.py:10 | day 365 is 1971-01-01 |
| Calendar.LeapDayAnchor | smart-cpg-decision-agent/src/tools/trend_analysis.py:10 | day 789 is the leap day 1972-02-29 |
| Sorting.SortBy | smart-cpg-decision-agent/src/tools/anomaly_detection.py:38 | `sort_values` returns a permutation of its input |
| Sorting.SortBySorted | smart-cpg-decision-agent/src/tools/anomaly_detection.py:38 | under a total preorder, the result of `sort_values` is sorted |
| TrendAnalysis.StrLe | smart-cpg-decision-agent/src/tools/trend_analysis.py:13 | the order pandas uses for category names (Python's code-point string order); a prefix comes no later than the longer name |
| TrendAnalysis.StrLeLexicographic | smart-cpg-decision-agent/src/tools/trend_analysis.py:13 | category names are ordered lexicographically: a is at most b exactly when a is a prefix of b or, at the first position where they differ, a has the smaller code point |
| TrendAnalysis.StrLeTotal | smart-cpg-decision-agent/src/tools/trend_analysis.py:13 | the order of category names is total |
| TrendAnalysis.StrLeTrans | smart-cpg-decision-agent/src/tools/trend_analysis.py:13 | the order of category names is transitive |
| TrendAnalysis.ParseFrequency | smart-cpg-decision-agent/src/tools/trend_analysis.py:13 | "W" is weekly, "M" is monthly, and any other code is an invalid `time_period` |
| TrendAnalysis.PeriodLabel | smart-cpg-decision-agent/src/tools/trend_analysis.py:13 | a weekly label is the Sunday on or after the day; a monthly label is the calendar date of the last day of the day's month |
| TrendAnalysis.TrendLeTotal | smart-cpg-decision-agent/src/tools/trend_analysis.py:13-16 | ordering by (period, category) is a total preorder |
| TrendAnalysis.CategoryTrends | smart-cpg-decision-agent/src/tools/trend_analysis.py:13-16 | the report is in ascending (period, category) order |
| TrendAnalysis.CategoryTrendsOf | smart-cpg-decision-agent/src/tools/trend_analysis.py:4-18 | the call fails exactly for a code other than "W" and "M", with that code in the error; otherwise it gives the weekly or monthly report |
| TrendAnalysis.CategoryTrendsTotals | smart-cpg-decision-agent/src/tools/trend_analysis.py:13-16 | each output row sums the units and revenue of exactly the rows in its period and category, and that set of rows is non-empty |
| TrendAnalysis.CategoryTrendsComplete | smart-cpg-decision-agent/src/tools/trend_analysis.py:13-16 | every row's period and category has an output row |
| TrendAnalysis.CategoryTrendsStrictOrder | smart-cpg-decision-agent/src/tools/trend_analysis.py:13-16 | one output row per (period, category), strictly ascending |
| TrendAnalysis.CategoryTrendsConserve | smart-cpg-decision-agent/src/tools/trend_analysis.py:13-16 | the report's units and revenue add up to the table's |
| TrendAnalysis.ParseMetric | smart-cpg-decision-agent/src/tools/trend_analysis.py:29 | "revenue" and "units_sold" name a sort column; anything else is an invalid `metric` |
| TrendAnalysis.StoresBy | smart-cpg-decision-agent/src/tools/trend_analysis.py:24-29 | the stores are in descending order of the chosen metric |
| TrendAnalysis.CompareStoresPerformance | smart-cpg-decision-agent/src/tools/trend_analysis.py:20-30 | the call fails exactly for a metric other than "revenue" and "units_sold" (default "revenue"); otherwise it gives the report sorted by that metric |
| TrendAnalysis.StoresTotals | smart-cpg-decision-agent/src/tools/trend_analysis.py:24-27 | each output row holds the revenue and units of exactly its (store, region) rows; every row's store has an output row; and no (store, region) appears twice |
| TrendAnalysis.StoresConserve | smart-cpg-decision-agent/src/tools/trend_analysis.py:24-27 | the report's revenue and units add up to the table's |
| TrendAnalysis.SeasonalityRows | smart-cpg-decision-agent/src/tools/trend_analysis.py:39-42 | a non-empty category name keeps exactly that category's rows, each as many times as the table has it; no name or an empty name keeps all rows with their multiplicities |
| TrendAnalysis.Seasonality | smart-cpg-decision-agent/src/tools/trend_analysis.py:44-48 | the months are in descending order of revenue |
| TrendAnalysis.SeasonalityTotals | smart-cpg-decision-agent/src/tools/trend_analysis.py:37-46 | one output row per month of the year (1-12) among the counted rows, holding the revenue of exactly that month's rows summed over all years |
| TrendAnalysis.SeasonalityConserve | smart-cpg-decision-agent/src/tools/trend_analysis.py:44-46 | the report's revenue adds up to the counted rows' revenue |
| TrendAnalysis.SeasonalityUnknownCategory | smart-cpg-decision-agent/src/tools/trend_analysis.py:39-48 | a category that no row has gives an empty report, not an error |
| TrendAnalysis.MonthColumn | smart-cpg-decision-agent/src/tools/trend_analysis.py:37 | the month column has one entry per row: the month of that row's date |
| TrendAnalysis.SalesFrame.constructor | smart-cpg-decision-agent/src/tools/trend_analysis.py:4 | a frame holds the caller's rows and has no month column yet |
| TrendAnalysis.SalesFrame.CalculateCategoryTrends | smart-cpg-decision-agent/src/tools/trend_analysis.py:4-18 | the result is the category trend report, or the error, for the frame's rows; the frame is not modified, since the re-parsed date column it writes back holds the same day numbers |
| TrendAnalysis.SalesFrame.AnalyzeSeasonality | smart-cpg-decision-agent/src/tools/trend_analysis.py:32-49 | the frame's rows are unchanged (the re-parsed dates are the same day numbers) and the frame gains the month column; the result is the seasonality report for its rows |

## Left out

- Floating point: all figures are exact reals. Binary representation error,
  NaN propagation from NaN cells, and the floating-point effects of `round`
  and `int()` are not modelled. On exact reals, the figures of the
  repository's test are proved by `ScenarioSimulation.PriceChangeReferenceCase`.
- `ScenarioSimulation.PriceChangeResult` and `ScenarioSimulation.PromotionResult`
  keep the `price_change` and `promo_uplift_assumption` labels as the
  percentages they print (the number), not as the formatted strings.
- Dynamic typing: a missing column, a non-numeric column, or an argument of
  the wrong type (a string SKU id, say) raises in pandas. The model's types
  rule those cases out.
- `pd.to_datetime` parsing of date strings: dates are day numbers already,
  so the date column the two reports write back holds the values it had.
  The model's calendar covers every day number. Pandas timestamps cover only
  the years 1677 to 2262.
- Sorting: pandas does not document whether `sort_values` keeps the input
  order of rows with tied keys (a single key uses quicksort by default; the
  three-key sort at anomaly_detection.py:38 goes through a lexsort). The model
  sorts with a stable insertion sort and proves only a sorted permutation,
  which is all the documented behaviour guarantees.
- Group iteration order in the spike loop: the groups are walked in order of
  first appearance rather than pandas' sorted key order. This changes only
  the order before the final sort by date.
- `TrendAnalysis.ParseFrequency`: only the codes "W" and "M", the two the
  tools use, are modelled. Any other code is an `InvalidParameter` error,
  whereas pandas accepts many more aliases ("2W", "Q", and so on) and raises
  its own error type for unknown ones.
- `TrendAnalysis.ParseMetric`: an unknown metric makes pandas raise a
  `KeyError`. The model returns `InvalidParameter("metric", …)` instead.
- `AnomalyDetection.FlagAnomalousPromotions`: the merged frame's columns
  other than the original row and `baseline_avg_units` are not modelled.
  Rows are flagged with `promo_flag == 1`; other non-zero flags are neither
  baseline nor promotion rows, as in the source.
- `AnomalyDetection.DetectSalesSpikes`: the standard deviation is never
  taken. The limit test is decided on the variance, and
  `AnomalyDetection.ExceedsLimitIffAboveLimit` proves it equal to the
  source's comparison for the square root.
- The agent loop, the LLM interface, the CLI and Streamlit UI, the data
  loader and the memory module are I/O and orchestration around these tools.
  They are not part of this model. This includes the agent's parsing of a
  tool call's optional third argument.
