/**
 * The anomaly detector: three selections of rows from the sales table.
 *
 * - Sales spikes: per (SKU, store) group, the rows whose units exceed the
 *   group's mean plus `threshold` sample standard deviations. The source
 *   walks the groups in a loop and collects the flagged rows, so this is a
 *   method proved against a row-wise reference (`IsSpike`).
 * - Stock shortages: the rows whose inventory is below a critical level,
 *   ordered by (date, store, SKU).
 * - Failed promotions: promotion rows left-joined with the mean units of
 *   their group's non-promotion rows, kept when they sold fewer units.
 *
 * The standard deviation is never taken: the limit test is restated on
 * the variance (`ExceedsLimit`) and `ExceedsLimitIffAboveLimit` shows it is
 * the source's `units > mean + threshold * std` for the square root `std`.
 */
module AnomalyDetection {
  import opened Common
  import opened Table
  import opened Sorting
  import opened Grouping

  /** The grouping key of spikes and promotion baselines. */
  datatype SkuStore = SkuStore(skuId: int, storeId: int)

  function SkuStoreOf(r: Row): SkuStore { SkuStore(r.skuId, r.storeId) }

  /** The rows of `r`'s own (SKU, store) group, in table order. */
  function GroupOf(table: seq<Row>, r: Row): seq<Row> {
    RowsWithKey(table, SkuStoreOf, SkuStoreOf(r))
  }

  /** Mean and sample variance (one degree of freedom) of a group's units. */
  datatype Stats = Stats(mean: real, variance: real)

  function SquaredDeviation(m: real): Row -> real {
    (r: Row) => (r.unitsSold - m) * (r.unitsSold - m)
  }

  /**
   * The group's statistics, or `None` for fewer than two rows, where the
   * sample standard deviation is undefined (NaN) and so no comparison with
   * the limit holds.
   */
  function UnitStats(g: seq<Row>): (o: Option<Stats>)
    ensures o.Some? <==> |g| >= 2
    ensures o.Some? ==> o.value.mean == Mean(g, Units) && o.value.variance >= 0.0
    ensures o.Some? ==> o.value.variance * ((|g| - 1) as real) == Sum(g, SquaredDeviation(o.value.mean))
  {
    if |g| < 2 then None
    else
      var m := Mean(g, Units);
      SumNonNegative(g, SquaredDeviation(m));
      Some(Stats(m, Sum(g, SquaredDeviation(m)) / ((|g| - 1) as real)))
  }

  /**
   * `units > mean + threshold * std` with `std * std == variance`, decided
   * on the variance: `units - mean` is compared with `threshold * std`
   * through squares, on each sign of the two.
   */
  function ExceedsLimit(units: real, st: Stats, threshold: real): (b: bool)
    ensures b && threshold >= 0.0 ==> units > st.mean
    ensures units > st.mean && threshold <= 0.0 ==> b
    ensures st.variance == 0.0 ==> (b <==> units > st.mean)
  {
    var d := units - st.mean;
    assert threshold == 0.0 || st.variance == 0.0 ==> threshold * threshold * st.variance == 0.0;
    if threshold >= 0.0 then d > 0.0 && (SquareLess(0.0, d); d * d > threshold * threshold * st.variance)
    else (d >= 0.0 && (d > 0.0 || st.variance > 0.0))
         || (d < 0.0 && (SquareLess(0.0, -d); d * d < threshold * threshold * st.variance))
  }

  lemma SquareLess(x: real, y: real)
    requires 0.0 <= x < y
    ensures x * x < y * y
  {
    assert x * y - x * x == x * (y - x);
    assert y * y - x * y == y * (y - x);
    assert x * (y - x) >= 0.0;
    assert y * (y - x) > 0.0;
  }

  /** The variance test is the source's test against the standard deviation. */
  lemma ExceedsLimitIffAboveLimit(units: real, st: Stats, threshold: real, std: real)
    requires std >= 0.0 && std * std == st.variance
    ensures ExceedsLimit(units, st, threshold) <==> units > st.mean + threshold * std
  {
    var d := units - st.mean;
    var a := threshold * std;
    assert a * a == threshold * threshold * st.variance;
    if threshold >= 0.0 {
      assert a >= 0.0;
      if d > a {
        SquareLess(a, d);
      } else if d > 0.0 {
        if d < a { SquareLess(d, a); }
      }
    } else {
      assert a <= 0.0;
      assert a < 0.0 <==> st.variance > 0.0 by {
        if std > 0.0 {
          assert std * std > 0.0;
          assert threshold * std < 0.0;
        } else {
          assert std == 0.0;
        }
      }
      if d < 0.0 {
        if -d < -a { SquareLess(-d, -a); }
        else if -a < -d { SquareLess(-a, -d); }
      }
    }
  }

  /** `units_sold > limit` for the row's own group (the row-wise reference). */
  predicate IsSpike(table: seq<Row>, threshold: real, r: Row) {
    match UnitStats(GroupOf(table, r))
    case None => false
    case Some(st) => ExceedsLimit(r.unitsSold, st, threshold)
  }

  function AboveLimit(st: Stats, threshold: real): Row -> bool {
    (r: Row) => ExceedsLimit(r.unitsSold, st, threshold)
  }

  /** One iteration of the source's loop: the flagged rows of group `k`. */
  function GroupSpikes(table: seq<Row>, threshold: real, k: SkuStore): (s: seq<Row>)
    ensures forall x :: x in s ==> x in table && SkuStoreOf(x) == k
    ensures |RowsWithKey(table, SkuStoreOf, k)| < 2 ==> s == []
  {
    var g := RowsWithKey(table, SkuStoreOf, k);
    match UnitStats(g)
    case None => []
    case Some(st) => Filter(g, AboveLimit(st, threshold))
  }

  /** A group's flagged rows are exactly its rows that are spikes. */
  lemma GroupSpikesCount(table: seq<Row>, threshold: real, k: SkuStore)
    ensures forall x :: (multiset(GroupSpikes(table, threshold, k))[x] ==
      if SkuStoreOf(x) == k && IsSpike(table, threshold, x) then multiset(table)[x] else 0)
  {
    var g := RowsWithKey(table, SkuStoreOf, k);
    forall x ensures multiset(GroupSpikes(table, threshold, k))[x] ==
      if SkuStoreOf(x) == k && IsSpike(table, threshold, x) then multiset(table)[x] else 0
    {
      if SkuStoreOf(x) == k {
        assert GroupOf(table, x) == g;
      }
    }
  }

  /** The concatenation of the collected frames (`pd.concat`). */
  function Concat(frames: seq<seq<Row>>): (r: seq<Row>)
    ensures forall x :: x in r <==> exists i :: 0 <= i < |frames| && x in frames[i]
  {
    if frames == [] then [] else Concat(frames[..|frames| - 1]) + frames[|frames| - 1]
  }

  lemma ConcatAppend(frames: seq<seq<Row>>, f: seq<Row>)
    ensures Concat(frames + [f]) == Concat(frames) + f
  {
    assert (frames + [f])[..|frames|] == frames;
  }

  function GroupKeys(groups: seq<Totals<SkuStore>>): set<SkuStore> {
    set t | t in groups :: t.key
  }

  /** `acc` holds the spikes of exactly the groups in `keys`, with their multiplicity. */
  ghost predicate Collected(table: seq<Row>, threshold: real, acc: seq<Row>, keys: set<SkuStore>) {
    forall x :: multiset(acc)[x] == if IsSpike(table, threshold, x) && SkuStoreOf(x) in keys then multiset(table)[x] else 0
  }

  /** Collecting one more group's spikes extends the collected keys by it. */
  lemma CollectGroup(table: seq<Row>, threshold: real, acc: seq<Row>, keys: set<SkuStore>, k: SkuStore)
    requires k !in keys && Collected(table, threshold, acc, keys)
    ensures Collected(table, threshold, acc + GroupSpikes(table, threshold, k), keys + {k})
  {
    GroupSpikesCount(table, threshold, k);
  }

  /** Every row's key is among the group keys. */
  lemma AllKeysGrouped(table: seq<Row>)
    ensures forall x :: x in table ==> SkuStoreOf(x) in GroupKeys(GroupTotals(table, SkuStoreOf))
  {
    var groups := GroupTotals(table, SkuStoreOf);
    GroupTotalsSpec(table, SkuStoreOf);
    forall x | x in table ensures SkuStoreOf(x) in GroupKeys(groups) {
      var t := Lookup(groups, SkuStoreOf(x)).value;
      assert t in groups && t.key == SkuStoreOf(x);
    }
  }

  /** Once every group is collected, the collection is every spike of the table. */
  lemma CollectedAll(table: seq<Row>, threshold: real, acc: seq<Row>)
    requires Collected(table, threshold, acc, GroupKeys(GroupTotals(table, SkuStoreOf)))
    ensures forall x :: multiset(acc)[x] == if IsSpike(table, threshold, x) then multiset(table)[x] else 0
  {
    AllKeysGrouped(table);
    forall x ensures multiset(acc)[x] == if IsSpike(table, threshold, x) then multiset(table)[x] else 0 {
      if x !in table {
        assert multiset(table)[x] == 0;
      }
    }
  }

  /** The groups' keys, one group at a time. */
  lemma GroupKeysStep(groups: seq<Totals<SkuStore>>, i: nat)
    requires i < |groups| && DistinctKeys(groups)
    ensures GroupKeys(groups[..i + 1]) == GroupKeys(groups[..i]) + {groups[i].key}
    ensures groups[i].key !in GroupKeys(groups[..i])
  {
    assert groups[..i + 1] == groups[..i] + [groups[i]];
  }

  predicate DateLe(a: Row, b: Row) { a.date <= b.date }

  lemma DateLeTotal()
    ensures TotalPreorder(DateLe)
  {
  }

  /**
   * `detect_sales_spikes`: the output holds every row that is a spike of
   * its own group, as often as the table holds it, and nothing else,
   * sorted by date.
   */
  method DetectSalesSpikes(table: seq<Row>, threshold: real := 2.0) returns (spikes: seq<Row>)
    ensures forall x :: multiset(spikes)[x] == if IsSpike(table, threshold, x) then multiset(table)[x] else 0
    ensures SortedBy(spikes, DateLe)
  {
    var groups := GroupTotals(table, SkuStoreOf);
    var anomalies: seq<seq<Row>> := [];
    var i := 0;
    while i < |groups|
      invariant 0 <= i <= |groups|
      invariant Collected(table, threshold, Concat(anomalies), GroupKeys(groups[..i]))
    {
      var k := groups[i].key;
      var spikeRows := GroupSpikes(table, threshold, k);
      GroupKeysStep(groups, i);
      CollectGroup(table, threshold, Concat(anomalies), GroupKeys(groups[..i]), k);
      if spikeRows != [] {
        ConcatAppend(anomalies, spikeRows);
        anomalies := anomalies + [spikeRows];
      } else {
        assert Concat(anomalies) + spikeRows == Concat(anomalies);
      }
      i := i + 1;
    }
    assert groups[..i] == groups;
    CollectedAll(table, threshold, Concat(anomalies));
    if anomalies != [] {
      DateLeTotal();
      SortBySorted(Concat(anomalies), DateLe);
      spikes := SortBy(Concat(anomalies), DateLe);
    } else {
      spikes := [];
    }
  }

  /**
   * A spike is a row above its group's mean plus `threshold` standard
   * deviations, and every such row of a group of two or more is a spike.
   */
  lemma SpikeIffAboveLimit(table: seq<Row>, threshold: real, x: Row, std: real)
    requires |GroupOf(table, x)| >= 2
    requires std >= 0.0 && std * std == UnitStats(GroupOf(table, x)).value.variance
    ensures IsSpike(table, threshold, x) <==> x.unitsSold > Mean(GroupOf(table, x), Units) + threshold * std
  {
    ExceedsLimitIffAboveLimit(x.unitsSold, UnitStats(GroupOf(table, x)).value, threshold, std);
  }

  /**
   * A group whose rows all sold the same number of units (a single row
   * among them) has no spikes, whatever the threshold.
   */
  lemma FlatGroupHasNoSpikes(table: seq<Row>, threshold: real, x: Row)
    requires x in table
    requires forall y :: y in table && SkuStoreOf(y) == SkuStoreOf(x) ==> y.unitsSold == x.unitsSold
    ensures !IsSpike(table, threshold, x)
  {
    var g := GroupOf(table, x);
    if |g| >= 2 {
      FlatStats(g, x.unitsSold);
    }
  }

  /** Equal units: the mean is that value and the variance is zero. */
  lemma FlatStats(g: seq<Row>, v: real)
    requires |g| >= 2
    requires forall y :: y in g ==> y.unitsSold == v
    ensures UnitStats(g) == Some(Stats(v, 0.0))
  {
    var n := |g| as real;
    SumConstant(g, Units, v);
    assert Mean(g, Units) == v by {
      assert Sum(g, Units) == n * v;
      assert n * v / n == v;
    }
    var f := SquaredDeviation(v);
    forall y | y in g ensures f(y) == 0.0 {
      assert y.unitsSold == v;
    }
    SumConstant(g, f, 0.0);
  }

  function BelowLevel(level: int): Row -> bool {
    (r: Row) => r.inventoryLevel < level
  }

  /** Ascending by date, then store, then SKU. */
  predicate ShortageLe(a: Row, b: Row) {
    || a.date < b.date
    || (a.date == b.date && (a.storeId < b.storeId || (a.storeId == b.storeId && a.skuId <= b.skuId)))
  }

  lemma ShortageLeTotal()
    ensures TotalPreorder(ShortageLe)
  {
  }

  /**
   * `detect_stock_shortages`: exactly the rows below the critical level,
   * each as often as in the table, sorted by (date, store, SKU).
   */
  function DetectStockShortages(table: seq<Row>, criticalLevel: int := 50): (r: seq<Row>)
    ensures forall x :: multiset(r)[x] == if x.inventoryLevel < criticalLevel then multiset(table)[x] else 0
    ensures SortedBy(r, ShortageLe)
  {
    var shortages := Filter(table, BelowLevel(criticalLevel));
    ShortageLeTotal();
    SortBySorted(shortages, ShortageLe);
    SortBy(shortages, ShortageLe)
  }

  /** A promotion row with its group's baseline mean (missing: `None`). */
  datatype MergedRow = MergedRow(row: Row, baselineAvgUnits: Option<real>)

  /** The baseline frame's `baseline_avg_units` for key `k`, if it has a row for `k`. */
  function BaselineAvg(baseline: seq<Totals<SkuStore>>, k: SkuStore): (o: Option<real>)
    ensures Lookup(baseline, k).None? ==> o.None?
    ensures o.Some? ==> o.value * (Lookup(baseline, k).value.count as real) == Lookup(baseline, k).value.units
  {
    match Lookup(baseline, k)
    case None => None
    case Some(t) => if t.count == 0 then None else Some(t.units / (t.count as real))
  }

  /** The reference baseline: the mean units of the group's non-promotion rows. */
  function NonPromoMean(table: seq<Row>, k: SkuStore): Option<real> {
    var g := RowsWithKey(Filter(table, IsNonPromo), SkuStoreOf, k);
    if g == [] then None else Some(Mean(g, Units))
  }

  /** The grouped baseline frame holds, for every key, the reference mean. */
  lemma BaselineIsNonPromoMean(table: seq<Row>)
    ensures forall k :: BaselineAvg(GroupTotals(Filter(table, IsNonPromo), SkuStoreOf), k) == NonPromoMean(table, k)
  {
    GroupTotalsSummary(Filter(table, IsNonPromo), SkuStoreOf);
  }

  /** The left merge: every promotion row, paired with its baseline or `None`. */
  function MergeBaseline(promo: seq<Row>, baseline: seq<Totals<SkuStore>>): (m: seq<MergedRow>)
    ensures forall y :: (multiset(m)[y] ==
      if y.baselineAvgUnits == BaselineAvg(baseline, SkuStoreOf(y.row)) then multiset(promo)[y.row] else 0)
  {
    if promo == [] then []
    else
      var last := promo[|promo| - 1];
      assert promo == promo[..|promo| - 1] + [last];
      MergeBaseline(promo[..|promo| - 1], baseline) + [MergedRow(last, BaselineAvg(baseline, SkuStoreOf(last)))]
  }

  /** Fewer units than the baseline; a missing baseline compares false. */
  function IsFailedPromo(m: MergedRow): (b: bool)
    ensures m.baselineAvgUnits.None? ==> !b
    ensures forall v :: m.baselineAvgUnits == Some(v) ==> (b <==> m.row.unitsSold < v)
  {
    m.baselineAvgUnits.Some? && m.row.unitsSold < m.baselineAvgUnits.value
  }

  predicate MergedDateLe(a: MergedRow, b: MergedRow) { a.row.date <= b.row.date }

  lemma MergedDateLeTotal()
    ensures TotalPreorder(MergedDateLe)
  {
  }

  /**
   * `flag_anomalous_promotions`: exactly the promotion rows that sold fewer
   * units than the mean of their group's non-promotion rows, each paired
   * with that mean and as often as in the table, sorted by date.
   */
  function FlagAnomalousPromotions(table: seq<Row>): (r: seq<MergedRow>)
    ensures forall y :: (multiset(r)[y] ==
      if && y.row.promoFlag == 1
         && y.baselineAvgUnits == NonPromoMean(table, SkuStoreOf(y.row))
         && IsFailedPromo(y)
      then multiset(table)[y.row] else 0)
    ensures SortedBy(r, MergedDateLe)
  {
    var baseline := GroupTotals(Filter(table, IsNonPromo), SkuStoreOf);
    BaselineIsNonPromoMean(table);
    var merged := MergeBaseline(Filter(table, IsPromo), baseline);
    var failed := Filter(merged, IsFailedPromo);
    MergedDateLeTotal();
    SortBySorted(failed, MergedDateLe);
    SortBy(failed, MergedDateLe)
  }

  /** Every flagged promotion is a promotion row below its non-promotion mean. */
  lemma FlaggedPromotionsBelowBaseline(table: seq<Row>, y: MergedRow)
    requires y in FlagAnomalousPromotions(table)
    ensures y.row in table && y.row.promoFlag == 1
    ensures NonPromoMean(table, SkuStoreOf(y.row)).Some?
    ensures y.row.unitsSold < NonPromoMean(table, SkuStoreOf(y.row)).value
  {
    assert multiset(FlagAnomalousPromotions(table))[y] > 0;
  }

  /** A promotion row of a group with no non-promotion rows is never flagged. */
  lemma MissingBaselineNotFlagged(table: seq<Row>, x: Row, o: Option<real>)
    requires forall y :: y in table && SkuStoreOf(y) == SkuStoreOf(x) ==> y.promoFlag != 0
    ensures MergedRow(x, o) !in FlagAnomalousPromotions(table)
  {
    var g := RowsWithKey(Filter(table, IsNonPromo), SkuStoreOf, SkuStoreOf(x));
    assert forall y :: multiset(g)[y] == 0;
    assert multiset(g) == multiset{};
    assert NonPromoMean(table, SkuStoreOf(x)) == None;
    assert multiset(FlagAnomalousPromotions(table))[MergedRow(x, o)] == 0;
  }

  /** Every promotion row below its non-promotion mean is flagged. */
  lemma BelowBaselineFlagged(table: seq<Row>, x: Row, b: real)
    requires x in table && x.promoFlag == 1
    requires NonPromoMean(table, SkuStoreOf(x)) == Some(b) && x.unitsSold < b
    ensures MergedRow(x, Some(b)) in FlagAnomalousPromotions(table)
  {
    assert multiset(FlagAnomalousPromotions(table))[MergedRow(x, Some(b))] > 0;
  }
}
