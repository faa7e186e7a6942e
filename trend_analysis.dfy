/**
 * The trend analyser: three group-and-sum reports over the sales table.
 *
 * - Category trends: units and revenue per (period, category), where the
 *   period is the week ending on Sunday ("W") or the calendar month ("M")
 *   containing the row's date, labelled by its last day.
 * - Store performance: revenue and units per (store, region), sorted by
 *   the chosen metric, largest first.
 * - Seasonality: revenue per month of the year, optionally for one
 *   category, sorted by revenue, largest first.
 *
 * Category trends and seasonality write into the caller's frame: both
 * store the re-parsed date column, which on day numbers is the column they
 * read, and seasonality adds a month column. `SalesFrame` models that frame.
 */
module TrendAnalysis {
  import opened Common
  import opened Table
  import opened Sorting
  import opened Grouping
  import opened Aggregation
  import opened Calendar

  // ---------------------------------------------------------------------
  // String order (Python compares strings code point by code point)

  predicate StrLe(a: string, b: string): (r: bool)
    ensures a <= b ==> r
    decreases |a|
  {
    if a == [] then true
    else if b == [] then false
    else if a[0] != b[0] then a[0] < b[0]
    else StrLe(a[1..], b[1..])
  }

  /**
   * The recursive order is the lexicographic one: `a` is a prefix of `b`, or
   * at the first position where they differ `a` has the smaller character.
   */
  lemma {:induction false} StrLeLexicographic(a: string, b: string)
    ensures StrLe(a, b) <==>
            a <= b || exists k :: 0 <= k < |a| && k < |b| && a[..k] == b[..k] && a[k] < b[k]
    decreases |a|
  {
    if a != [] && b != [] && a[0] == b[0] {
      StrLeLexicographic(a[1..], b[1..]);
      if StrLe(a, b) && !(a <= b) {
        var k :| 0 <= k < |a| - 1 && k < |b| - 1 && a[1..][..k] == b[1..][..k] && a[1..][k] < b[1..][k];
        assert a[..k + 1] == [a[0]] + a[1..][..k];
        assert b[..k + 1] == [b[0]] + b[1..][..k];
      }
      if exists k :: 0 <= k < |a| && k < |b| && a[..k] == b[..k] && a[k] < b[k] {
        var k :| 0 <= k < |a| && k < |b| && a[..k] == b[..k] && a[k] < b[k];
        assert k > 0;
        assert a[1..][..k - 1] == a[..k][1..];
        assert b[1..][..k - 1] == b[..k][1..];
      }
    } else if a != [] && b != [] {
      assert a[..0] == b[..0];
    }
  }

  lemma {:induction false} StrLeTotal(a: string, b: string)
    ensures StrLe(a, b) || StrLe(b, a)
    decreases |a|
  {
    if a != [] && b != [] && a[0] == b[0] {
      StrLeTotal(a[1..], b[1..]);
    }
  }

  lemma {:induction false} StrLeTrans(a: string, b: string, c: string)
    requires StrLe(a, b) && StrLe(b, c)
    ensures StrLe(a, c)
    decreases |a|
  {
    if a != [] && a[0] == b[0] && b[0] == c[0] {
      StrLeTrans(a[1..], b[1..], c[1..]);
    }
  }

  // ---------------------------------------------------------------------
  // Category trends (calculate_category_trends)

  /** The resampling frequencies: weeks ending Sunday, calendar months. */
  datatype Frequency = Weekly | Monthly

  /** The frequency codes `"W"` and `"M"`; any other code is refused. */
  function ParseFrequency(code: string): (r: Result<Frequency>)
    ensures r == Ok(Weekly) <==> code == "W"
    ensures r == Ok(Monthly) <==> code == "M"
    ensures r.Err? ==> r.error == InvalidParameter("time_period", code)
  {
    if code == "W" then Ok(Weekly)
    else if code == "M" then Ok(Monthly)
    else Err(InvalidParameter("time_period", code))
  }

  /** The label of the period holding `day`: its last day. */
  function PeriodLabel(f: Frequency, day: int): (last: int)
    ensures f == Weekly ==> day <= last <= day + 6 && Weekday(last) == 6
    ensures f == Monthly ==> var c := CivilFromDays(day);
                             CivilFromDays(last) == Civil(c.year, c.month, DaysInMonth(c.year, c.month))
  {
    match f
    case Weekly => WeekEnd(day)
    case Monthly => MonthEnd(day)
  }

  datatype TrendKey = TrendKey(period: int, category: string)

  /** One output row: the period label in the `date` column. */
  datatype TrendRow = TrendRow(date: int, category: string, totalUnitsSold: real, totalRevenue: real)

  function TrendKeyOf(f: Frequency): Row -> TrendKey {
    (r: Row) => TrendKey(PeriodLabel(f, r.date), r.category)
  }

  function ToTrendRow(t: Totals<TrendKey>): TrendRow {
    TrendRow(t.key.period, t.key.category, t.units, t.revenue)
  }

  function TrendRowKey(o: TrendRow): TrendKey { TrendKey(o.date, o.category) }
  function TrendUnits(o: TrendRow): real { o.totalUnitsSold }
  function TrendRevenue(o: TrendRow): real { o.totalRevenue }

  /** The group keys' order: by period, then category. */
  predicate TrendLe(a: TrendRow, b: TrendRow) {
    a.date < b.date || (a.date == b.date && StrLe(a.category, b.category))
  }

  lemma TrendLeTotal()
    ensures TotalPreorder(TrendLe)
  {
    forall a: TrendRow, b: TrendRow ensures TrendLe(a, b) || TrendLe(b, a) {
      StrLeTotal(a.category, b.category);
    }
    forall a: TrendRow, b: TrendRow, c: TrendRow | TrendLe(a, b) && TrendLe(b, c) ensures TrendLe(a, c) {
      if a.date == b.date && b.date == c.date {
        StrLeTrans(a.category, b.category, c.category);
      }
    }
  }

  /** The report for a valid frequency, in group-key order. */
  function CategoryTrends(rows: seq<Row>, f: Frequency): (r: seq<TrendRow>)
    ensures SortedBy(r, TrendLe)
  {
    TrendLeTotal();
    SortBySorted(MapTotals(GroupTotals(rows, TrendKeyOf(f)), ToTrendRow), TrendLe);
    Aggregate(rows, TrendKeyOf(f), ToTrendRow, TrendLe)
  }

  /** The report for a frequency code; an unknown code is an error. */
  function CategoryTrendsOf(rows: seq<Row>, timePeriod: string): (r: Result<seq<TrendRow>>)
    ensures r.Err? <==> timePeriod != "W" && timePeriod != "M"
    ensures r.Err? ==> r.error == InvalidParameter("time_period", timePeriod)
    ensures timePeriod == "W" ==> r == Ok(CategoryTrends(rows, Weekly))
    ensures timePeriod == "M" ==> r == Ok(CategoryTrends(rows, Monthly))
  {
    match ParseFrequency(timePeriod)
    case Ok(f) => Ok(CategoryTrends(rows, f))
    case Err(e) => Err(e)
  }

  /** Each output row holds the totals of exactly the rows of its period and category. */
  lemma CategoryTrendsTotals(rows: seq<Row>, f: Frequency)
    ensures forall o :: o in CategoryTrends(rows, f) ==>
      var g := RowsWithKey(rows, TrendKeyOf(f), TrendRowKey(o));
      g != [] && o.totalUnitsSold == Sum(g, Units) && o.totalRevenue == Sum(g, Revenue)
  {
    AggregateEntries(rows, TrendKeyOf(f), ToTrendRow, TrendRowKey, TrendLe);
  }

  /** Every row's period and category has an output row. */
  lemma CategoryTrendsComplete(rows: seq<Row>, f: Frequency)
    ensures forall x :: x in rows ==>
      exists o :: o in CategoryTrends(rows, f) && o.date == PeriodLabel(f, x.date) && o.category == x.category
  {
    AggregateEntries(rows, TrendKeyOf(f), ToTrendRow, TrendRowKey, TrendLe);
    forall x | x in rows ensures
      exists o :: o in CategoryTrends(rows, f) && o.date == PeriodLabel(f, x.date) && o.category == x.category
    {
      var o := ToTrendRow(Summary(rows, TrendKeyOf(f), TrendKeyOf(f)(x)).value);
      assert o in CategoryTrends(rows, f);
    }
  }

  /**
   * One output row per (period, category), in strictly ascending key
   * order: the output is the one pandas' sorted group keys give.
   */
  lemma CategoryTrendsStrictOrder(rows: seq<Row>, f: Frequency)
    ensures var r := CategoryTrends(rows, f);
            forall i, j :: 0 <= i < j < |r| ==>
              r[i].date < r[j].date || (r[i].date == r[j].date && r[i].category != r[j].category
                                        && StrLe(r[i].category, r[j].category))
  {
    var r := CategoryTrends(rows, f);
    AggregateDistinct(rows, TrendKeyOf(f), ToTrendRow, TrendRowKey, TrendLe);
    forall i, j | 0 <= i < j < |r| && r[i].date == r[j].date
      ensures r[i].category != r[j].category && StrLe(r[i].category, r[j].category)
    {
      assert TrendRowKey(r[i]) != TrendRowKey(r[j]);
      assert TrendLe(r[i], r[j]);
    }
  }

  /** The report conserves the table's total units and revenue. */
  lemma CategoryTrendsConserve(rows: seq<Row>, f: Frequency)
    ensures Sum(CategoryTrends(rows, f), TrendUnits) == Sum(rows, Units)
    ensures Sum(CategoryTrends(rows, f), TrendRevenue) == Sum(rows, Revenue)
  {
    AggregateSum(rows, TrendKeyOf(f), ToTrendRow, TrendLe, TrendUnits, TotalUnits);
    AggregateSum(rows, TrendKeyOf(f), ToTrendRow, TrendLe, TrendRevenue, TotalRevenue);
    GroupTotalsConserve(rows, TrendKeyOf(f));
  }

  // ---------------------------------------------------------------------
  // Store performance (compare_stores_performance)

  datatype StoreKey = StoreKey(storeId: int, storeRegion: string)

  datatype StoreRow = StoreRow(storeId: int, storeRegion: string, totalRevenue: real, totalUnitsSold: real)

  /** The sort columns `total_revenue` and `total_units_sold`. */
  datatype Metric = RevenueMetric | UnitsMetric

  function ParseMetric(metric: string): (r: Result<Metric>)
    ensures r == Ok(RevenueMetric) <==> metric == "revenue"
    ensures r == Ok(UnitsMetric) <==> metric == "units_sold"
    ensures r.Err? ==> r.error == InvalidParameter("metric", metric)
  {
    if metric == "revenue" then Ok(RevenueMetric)
    else if metric == "units_sold" then Ok(UnitsMetric)
    else Err(InvalidParameter("metric", metric))
  }

  function StoreKeyOf(r: Row): StoreKey { StoreKey(r.storeId, r.storeRegion) }

  function ToStoreRow(t: Totals<StoreKey>): StoreRow {
    StoreRow(t.key.storeId, t.key.storeRegion, t.revenue, t.units)
  }

  function StoreRowKey(o: StoreRow): StoreKey { StoreKey(o.storeId, o.storeRegion) }
  function StoreUnits(o: StoreRow): real { o.totalUnitsSold }
  function StoreRevenue(o: StoreRow): real { o.totalRevenue }

  function MetricValue(m: Metric, o: StoreRow): real {
    match m
    case RevenueMetric => o.totalRevenue
    case UnitsMetric => o.totalUnitsSold
  }

  /** Descending by the metric. */
  function ByMetricDesc(m: Metric): (StoreRow, StoreRow) -> bool {
    (a: StoreRow, b: StoreRow) => MetricValue(m, a) >= MetricValue(m, b)
  }

  function StoresBy(rows: seq<Row>, m: Metric): (r: seq<StoreRow>)
    ensures forall i, j :: 0 <= i < j < |r| ==> MetricValue(m, r[i]) >= MetricValue(m, r[j])
  {
    SortBySorted(MapTotals(GroupTotals(rows, StoreKeyOf), ToStoreRow), ByMetricDesc(m));
    Aggregate(rows, StoreKeyOf, ToStoreRow, ByMetricDesc(m))
  }

  /** `compare_stores_performance(df, metric)`; a metric naming no column is an error. */
  function CompareStoresPerformance(rows: seq<Row>, metric: string := "revenue"): (r: Result<seq<StoreRow>>)
    ensures r.Err? <==> metric != "revenue" && metric != "units_sold"
    ensures r.Err? ==> r.error == InvalidParameter("metric", metric)
    ensures metric == "revenue" ==> r == Ok(StoresBy(rows, RevenueMetric))
    ensures metric == "units_sold" ==> r == Ok(StoresBy(rows, UnitsMetric))
  {
    match ParseMetric(metric)
    case Ok(m) => Ok(StoresBy(rows, m))
    case Err(e) => Err(e)
  }

  /**
   * One output row per (store, region) that occurs, holding the totals of
   * exactly its rows.
   */
  lemma StoresTotals(rows: seq<Row>, m: Metric)
    ensures var r := StoresBy(rows, m);
            && (forall o :: o in r ==>
                  var g := RowsWithKey(rows, StoreKeyOf, StoreRowKey(o));
                  g != [] && o.totalRevenue == Sum(g, Revenue) && o.totalUnitsSold == Sum(g, Units))
            && (forall x :: x in rows ==>
                  exists o :: o in r && o.storeId == x.storeId && o.storeRegion == x.storeRegion)
            && (forall i, j :: 0 <= i < j < |r| ==> StoreRowKey(r[i]) != StoreRowKey(r[j]))
  {
    var r := StoresBy(rows, m);
    AggregateEntries(rows, StoreKeyOf, ToStoreRow, StoreRowKey, ByMetricDesc(m));
    AggregateDistinct(rows, StoreKeyOf, ToStoreRow, StoreRowKey, ByMetricDesc(m));
    forall x | x in rows ensures exists o :: o in r && o.storeId == x.storeId && o.storeRegion == x.storeRegion {
      var o := ToStoreRow(Summary(rows, StoreKeyOf, StoreKeyOf(x)).value);
      assert o in r;
    }
  }

  /** The report conserves the table's total revenue and units. */
  lemma StoresConserve(rows: seq<Row>, m: Metric)
    ensures Sum(StoresBy(rows, m), StoreRevenue) == Sum(rows, Revenue)
    ensures Sum(StoresBy(rows, m), StoreUnits) == Sum(rows, Units)
  {
    AggregateSum(rows, StoreKeyOf, ToStoreRow, ByMetricDesc(m), StoreRevenue, TotalRevenue);
    AggregateSum(rows, StoreKeyOf, ToStoreRow, ByMetricDesc(m), StoreUnits, TotalUnits);
    GroupTotalsConserve(rows, StoreKeyOf);
  }

  // ---------------------------------------------------------------------
  // Seasonality (analyze_seasonality)

  datatype MonthRow = MonthRow(month: int, totalRevenue: real)

  function MonthKey(r: Row): int { MonthOf(r.date) }

  function ToMonthRow(t: Totals<int>): MonthRow { MonthRow(t.key, t.revenue) }
  function MonthRowKey(o: MonthRow): int { o.month }
  function MonthRevenue(o: MonthRow): real { o.totalRevenue }

  predicate RevenueDesc(a: MonthRow, b: MonthRow) { a.totalRevenue >= b.totalRevenue }

  /** The rows counted: one category's when a non-empty name is given, else all. */
  function SeasonalityRows(rows: seq<Row>, category: Option<string>): (counted: seq<Row>)
    ensures forall x :: x in counted <==>
      x in rows && (category.Some? && category.value != "" ==> x.category == category.value)
    ensures forall x :: multiset(counted)[x] ==
                          if category.None? || category.value == "" || x.category == category.value
                          then multiset(rows)[x] else 0
  {
    if category.Some? && category.value != "" then Filter(rows, InCategory(category.value)) else rows
  }

  function Seasonality(rows: seq<Row>, category: Option<string>): (r: seq<MonthRow>)
    ensures SortedBy(r, RevenueDesc)
  {
    var counted := SeasonalityRows(rows, category);
    SortBySorted(MapTotals(GroupTotals(counted, MonthKey), ToMonthRow), RevenueDesc);
    Aggregate(counted, MonthKey, ToMonthRow, RevenueDesc)
  }

  /**
   * One output row per month of the year (1 to 12) that occurs among the
   * counted rows, with the revenue of that month summed over all years.
   */
  lemma SeasonalityTotals(rows: seq<Row>, category: Option<string>)
    ensures var counted := SeasonalityRows(rows, category);
            var r := Seasonality(rows, category);
            && (forall o :: o in r ==>
                  var g := RowsWithKey(counted, MonthKey, o.month);
                  1 <= o.month <= 12 && g != [] && o.totalRevenue == Sum(g, Revenue))
            && (forall x :: x in counted ==> exists o :: o in r && o.month == MonthOf(x.date))
            && (forall i, j :: 0 <= i < j < |r| ==> r[i].month != r[j].month)
  {
    var counted := SeasonalityRows(rows, category);
    var r := Seasonality(rows, category);
    AggregateEntries(counted, MonthKey, ToMonthRow, MonthRowKey, RevenueDesc);
    AggregateDistinct(counted, MonthKey, ToMonthRow, MonthRowKey, RevenueDesc);
    forall o | o in r ensures 1 <= o.month <= 12 {
      var g := RowsWithKey(counted, MonthKey, o.month);
      assert g[0] in g;
    }
    forall x | x in counted ensures exists o :: o in r && o.month == MonthOf(x.date) {
      var o := ToMonthRow(Summary(counted, MonthKey, MonthKey(x)).value);
      assert o in r;
    }
  }

  /** The report's revenue is the counted rows' revenue. */
  lemma SeasonalityConserve(rows: seq<Row>, category: Option<string>)
    ensures Sum(Seasonality(rows, category), MonthRevenue) == Sum(SeasonalityRows(rows, category), Revenue)
  {
    var counted := SeasonalityRows(rows, category);
    AggregateSum(counted, MonthKey, ToMonthRow, RevenueDesc, MonthRevenue, TotalRevenue);
    GroupTotalsConserve(counted, MonthKey);
  }

  /** A category no row has gives an empty report, not an error. */
  lemma SeasonalityUnknownCategory(rows: seq<Row>, c: string)
    requires c != ""
    requires forall x :: x in rows ==> x.category != c
    ensures Seasonality(rows, Some(c)) == []
  {
    var counted := SeasonalityRows(rows, Some(c));
    assert counted == [];
    assert GroupTotals(counted, MonthKey) == [];
    assert MapTotals(GroupTotals(counted, MonthKey), ToMonthRow) == [];
  }

  // ---------------------------------------------------------------------
  // The caller's frame

  /** The `month` column: the month of the year of each row's date. */
  function MonthColumn(rows: seq<Row>): (months: seq<int>)
    ensures |months| == |rows|
    ensures forall i :: 0 <= i < |rows| ==> months[i] == MonthOf(rows[i].date) && 1 <= months[i] <= 12
  {
    seq(|rows|, i requires 0 <= i < |rows| => MonthOf(rows[i].date))
  }

  /** The DataFrame the two date-parsing reports write into. */
  class SalesFrame {
    var rows: seq<Row>
    var month: Option<seq<int>>

    constructor (rows: seq<Row>)
      ensures this.rows == rows && month == None
    {
      this.rows := rows;
      month := None;
    }

    /**
     * `calculate_category_trends(df, time_period)`. The source writes the
     * re-parsed `date` column back into the frame; on dates that already are
     * day numbers that write stores the same values, so the frame is left as
     * it was and the method needs no `modifies` clause.
     */
    method CalculateCategoryTrends(timePeriod: string := "W") returns (r: Result<seq<TrendRow>>)
      ensures r == CategoryTrendsOf(rows, timePeriod)
    {
      r := CategoryTrendsOf(rows, timePeriod);
    }

    /**
     * `analyze_seasonality(df, category)`: adds the `month` column to the
     * frame, then reports. The re-parsed `date` column it also writes back
     * holds the same day numbers, so `rows` is unchanged.
     */
    method AnalyzeSeasonality(category: Option<string> := None) returns (r: seq<MonthRow>)
      modifies this
      ensures rows == old(rows)
      ensures month == Some(MonthColumn(rows))
      ensures r == Seasonality(rows, category)
    {
      month := Some(MonthColumn(rows));
      r := Seasonality(rows, category);
    }
  }
}
