/**
 * What-if projections over the sales table: a constant-elasticity price
 * change for one SKU and a flat-uplift promotion for one category. Each
 * returns a fixed-shape record, or a "no data" message when its filter
 * selects no row.
 */
module ScenarioSimulation {
  import opened Table

  /** Elasticity assumed when the caller gives none. */
  const DefaultElasticity: real := -1.5

  /** Python `int()` of a float: truncation toward zero. */
  function Trunc(x: real): (n: int)
    ensures 0.0 <= x ==> n as real <= x < n as real + 1.0
    ensures x < 0.0 ==> n as real - 1.0 < x <= n as real
  {
    if x >= 0.0 then x.Floor else -((-x).Floor)
  }

  /** Rounding to the nearest integer, ties to the even one. */
  function RoundHalfEven(x: real): (n: int)
    ensures -0.5 <= n as real - x <= 0.5
    ensures n as real - x == 0.5 || x - n as real == 0.5 ==> n % 2 == 0
    ensures (x.Floor as real == x) ==> n == x.Floor
  {
    var f := x.Floor;
    var frac := x - f as real;
    if frac < 0.5 then f
    else if frac > 0.5 then f + 1
    else if f % 2 == 0 then f else f + 1
  }

  /**
   * `r` is a whole number of cents within half a cent of `x`, and an even
   * number of cents when `x` lies exactly halfway between two cents.
   */
  predicate ToCent(r: real, x: real) {
    && (r * 100.0).Floor as real == r * 100.0
    && -0.005 <= r - x <= 0.005
    && (r - x == 0.005 || x - r == 0.005 ==> (r * 100.0).Floor % 2 == 0)
  }

  /**
   * `round(x, 2)`: the nearest multiple of 0.01, ties to even, on exact
   * reals (the binary floating-point representation is not modelled).
   */
  function Round2(x: real): (r: real)
    ensures ToCent(r, x)
  {
    RoundHalfEven(x * 100.0) as real / 100.0
  }

  /** A value with at most two decimals is its own rounding. */
  lemma Round2Exact(x: real, cents: int)
    requires x == cents as real / 100.0
    ensures Round2(x) == x
  {
    assert x * 100.0 == cents as real;
  }

  function DigitChar(d: int): (c: char)
    requires 0 <= d < 10
    ensures '0' <= c <= '9'
  {
    ('0' as int + d) as char
  }

  /** Decimal digits of a natural number, most significant first, with no leading zero. */
  function NatToString(n: nat): (s: string)
    ensures |s| > 0 && forall i :: 0 <= i < |s| ==> '0' <= s[i] <= '9'
    ensures s[0] == '0' <==> n == 0
  {
    if n < 10 then [DigitChar(n)] else NatToString(n / 10) + [DigitChar(n % 10)]
  }

  /** The number a string of decimal digits denotes. */
  function DigitsValue(s: string): nat
    requires forall i :: 0 <= i < |s| ==> '0' <= s[i] <= '9'
  {
    if s == [] then 0 else 10 * DigitsValue(s[..|s| - 1]) + (s[|s| - 1] as int - '0' as int)
  }

  /** Reading the digits back gives the number. */
  lemma {:induction false} NatToStringValue(n: nat)
    ensures DigitsValue(NatToString(n)) == n
  {
    if n >= 10 {
      var s := NatToString(n);
      NatToStringValue(n / 10);
      assert s[..|s| - 1] == NatToString(n / 10);
    }
  }

  /** Python's `str` of an integer: a minus sign for a negative number, then its digits. */
  function IntToString(n: int): (s: string)
    ensures |s| > 0 && (s[0] == '-' <==> n < 0)
    ensures n >= 0 ==> (s[0] == '0' <==> n == 0)
    ensures n < 0 ==> |s| > 1 && s[1] != '0'
    ensures n >= 0 ==> (forall i :: 0 <= i < |s| ==> '0' <= s[i] <= '9') && DigitsValue(s) == n
    ensures n < 0 ==> (forall i :: 1 <= i < |s| ==> '0' <= s[i] <= '9') && DigitsValue(s[1..]) == -n
  {
    if n < 0 then
      NatToStringValue(-n);
      assert ("-" + NatToString(-n))[1..] == NatToString(-n);
      "-" + NatToString(-n)
    else
      NatToStringValue(n);
      NatToString(n)
  }

  lemma IntToStringExamples()
    ensures IntToString(101) == "101"
    ensures IntToString(-7) == "-7"
    ensures IntToString(0) == "0"
  {
  }

  /** A projection, or the message that the filter selected nothing. */
  datatype Simulation<T> = NoData(message: string) | Simulated(result: T)

  /** The record `simulate_price_change` returns; the percentage label is kept as its number. */
  datatype PriceChangeResult = PriceChangeResult(
    skuId: int,
    priceChangePct: real,
    elasticityAssumption: real,
    originalAvgPrice: real,
    newAvgPrice: real,
    originalTotalUnits: int,
    simulatedTotalUnits: int,
    originalRevenue: real,
    simulatedRevenue: real,
    revenueImpact: real)

  /** The record `simulate_promotion` returns; the uplift label is kept as its number. */
  datatype PromotionResult = PromotionResult(
    category: string,
    promoUpliftPct: real,
    baselineUnits: int,
    simulatedUnits: int,
    baselineRevenue: real,
    simulatedGrossRevenue: real,
    totalPromoCost: real,
    simulatedNetRevenue: real,
    netRevenueImpact: real)

  function SkuRows(table: seq<Row>, skuId: int): seq<Row> {
    Filter(table, HasSku(skuId))
  }

  function CategoryRows(table: seq<Row>, category: string): seq<Row> {
    Filter(table, InCategory(category))
  }

  /** Signs of a non-negative volume scaled by `1 + c`. */
  lemma ScaleSigns(v: real, c: real)
    ensures v >= 0.0 && c >= -1.0 ==> v * (1.0 + c) >= 0.0
    ensures v >= 0.0 && c >= 0.0 ==> v * (1.0 + c) >= v
    ensures v >= 0.0 && c <= 0.0 ==> v * (1.0 + c) <= v
  {
    assert v * (1.0 + c) == v + v * c;
    if v >= 0.0 {
      if c >= 0.0 {
        assert v * c >= 0.0;
      } else {
        assert v * -c >= 0.0;
        assert v * c <= 0.0;
      }
      if c >= -1.0 {
        assert 1.0 + c >= 0.0;
        assert v * (1.0 + c) >= 0.0;
      }
    }
  }

  /**
   * Volume after a relative price change under a constant elasticity,
   * clamped at zero where the linear model would drive it negative.
   */
  function ProjectedVolume(volume: real, priceChangePct: real, elasticity: real): (v: real)
    ensures volume >= 0.0 ==> v >= 0.0
    ensures priceChangePct * elasticity <= 0.0 && volume >= 0.0 ==> v <= volume
  {
    var volumeChangePct := priceChangePct * elasticity;
    if volumeChangePct <= -1.0 then 0.0
    else
      ScaleSigns(volume, volumeChangePct);
      volume * (1.0 + volumeChangePct)
  }

  /** The unrounded figures of a price-change projection. */
  datatype PriceProjection = PriceProjection(
    originalVolume: real,
    originalRevenue: real,
    originalAvgPrice: real,
    newAvgPrice: real,
    newVolume: real,
    newRevenue: real)

  /** The projection for the SKU's (non-empty) rows, before rounding. */
  function ProjectPrice(rows: seq<Row>, priceChangePct: real, elasticity: real): (pr: PriceProjection)
    requires |rows| > 0
    ensures pr.originalVolume == Sum(rows, Units) && pr.originalRevenue == Sum(rows, Revenue)
    ensures pr.originalAvgPrice == Mean(rows, Price)
    ensures pr.newAvgPrice == pr.originalAvgPrice * (1.0 + priceChangePct)
    ensures pr.newVolume == ProjectedVolume(pr.originalVolume, priceChangePct, elasticity)
    ensures pr.newRevenue == pr.newVolume * pr.newAvgPrice
    ensures priceChangePct * elasticity <= -1.0 ==> pr.newVolume == 0.0 && pr.newRevenue == 0.0
  {
    var originalPriceAvg := Mean(rows, Price);
    var newPriceAvg := originalPriceAvg * (1.0 + priceChangePct);
    var newVolume := ProjectedVolume(Sum(rows, Units), priceChangePct, elasticity);
    PriceProjection(Sum(rows, Units), Sum(rows, Revenue), originalPriceAvg, newPriceAvg,
                    newVolume, newVolume * newPriceAvg)
  }

  /** The record: unit counts truncated, money and prices rounded to cents. */
  function PriceChangeOf(rows: seq<Row>, skuId: int, priceChangePct: real, elasticity: real): (r: PriceChangeResult)
    requires |rows| > 0
    ensures r.skuId == skuId && r.priceChangePct == priceChangePct && r.elasticityAssumption == elasticity
    ensures var pr := ProjectPrice(rows, priceChangePct, elasticity);
            && r.originalTotalUnits == Trunc(pr.originalVolume) && r.simulatedTotalUnits == Trunc(pr.newVolume)
            && ToCent(r.originalAvgPrice, pr.originalAvgPrice) && ToCent(r.newAvgPrice, pr.newAvgPrice)
            && ToCent(r.originalRevenue, pr.originalRevenue) && ToCent(r.simulatedRevenue, pr.newRevenue)
            && ToCent(r.revenueImpact, pr.newRevenue - pr.originalRevenue)
  {
    var pr := ProjectPrice(rows, priceChangePct, elasticity);
    PriceChangeResult(
      skuId, priceChangePct, elasticity,
      Round2(pr.originalAvgPrice), Round2(pr.newAvgPrice),
      Trunc(pr.originalVolume), Trunc(pr.newVolume),
      Round2(pr.originalRevenue), Round2(pr.newRevenue),
      Round2(pr.newRevenue - pr.originalRevenue))
  }

  /** `simulate_price_change(df, sku_id, price_change_pct, elasticity)`. */
  function SimulatePriceChange(table: seq<Row>, skuId: int, priceChangePct: real,
                               elasticity: real := DefaultElasticity): (r: Simulation<PriceChangeResult>)
    ensures r.NoData? <==> forall x :: x in table ==> x.skuId != skuId
    ensures r.NoData? ==> r.message == "No data found for SKU " + IntToString(skuId)
    ensures r.Simulated? ==> && |SkuRows(table, skuId)| > 0
                             && r.result == PriceChangeOf(SkuRows(table, skuId), skuId, priceChangePct, elasticity)
                             && r.result.skuId == skuId
                             && r.result.priceChangePct == priceChangePct
                             && r.result.elasticityAssumption == elasticity
  {
    var rows := SkuRows(table, skuId);
    FilterEmpty(table, HasSku(skuId));
    if rows == [] then NoData("No data found for SKU " + IntToString(skuId))
    else Simulated(PriceChangeOf(rows, skuId, priceChangePct, elasticity))
  }

  /** Baseline volume lifted by the promotion's uplift. */
  function LiftedVolume(baselineVolume: real, promoUpliftPct: real): (v: real)
    ensures baselineVolume >= 0.0 && promoUpliftPct >= -1.0 ==> v >= 0.0
    ensures v == baselineVolume + baselineVolume * promoUpliftPct
    ensures baselineVolume >= 0.0 && promoUpliftPct >= 0.0 ==> v >= baselineVolume
  {
    ScaleSigns(baselineVolume, promoUpliftPct);
    baselineVolume * (1.0 + promoUpliftPct)
  }

  /** The unrounded money of a promotion. */
  datatype PromotionMoney = PromotionMoney(
    grossRevenue: real,
    totalPromoCost: real,
    netRevenue: real,
    netRevenueImpact: real)

  /**
   * Gross revenue, promotion cost and net revenue of the projected volume,
   * and the net revenue's change from the baseline revenue.
   */
  function ProjectMoney(simulatedVolume: real, avgPrice: real, promoCostPerUnit: real,
                        baselineRevenue: real): (m: PromotionMoney)
    ensures m.grossRevenue == simulatedVolume * avgPrice
    ensures m.totalPromoCost == simulatedVolume * promoCostPerUnit
    ensures m.netRevenue == m.grossRevenue - m.totalPromoCost
    ensures m.netRevenue == simulatedVolume * (avgPrice - promoCostPerUnit)
    ensures m.netRevenueImpact == m.netRevenue - baselineRevenue
    ensures avgPrice >= promoCostPerUnit && simulatedVolume >= 0.0 ==> m.netRevenue >= 0.0
  {
    var grossRevenue := simulatedVolume * avgPrice;
    var totalPromoCost := simulatedVolume * promoCostPerUnit;
    var netRevenue := grossRevenue - totalPromoCost;
    assert netRevenue == simulatedVolume * (avgPrice - promoCostPerUnit);
    PromotionMoney(grossRevenue, totalPromoCost, netRevenue, netRevenue - baselineRevenue)
  }

  /**
   * The record: the baseline is the category's non-promotion rows, the
   * price the mean over all its rows; units truncated, money rounded.
   */
  function PromotionOf(rows: seq<Row>, category: string, promoUpliftPct: real,
                       promoCostPerUnit: real): (r: PromotionResult)
    requires |rows| > 0
    ensures r.category == category && r.promoUpliftPct == promoUpliftPct
    ensures var base := Filter(rows, IsNonPromo);
            var volume := LiftedVolume(Sum(base, Units), promoUpliftPct);
            var m := ProjectMoney(volume, Mean(rows, Price), promoCostPerUnit, Sum(base, Revenue));
            && r.baselineUnits == Trunc(Sum(base, Units)) && r.simulatedUnits == Trunc(volume)
            && ToCent(r.baselineRevenue, Sum(base, Revenue))
            && ToCent(r.simulatedGrossRevenue, m.grossRevenue) && ToCent(r.totalPromoCost, m.totalPromoCost)
            && ToCent(r.simulatedNetRevenue, m.netRevenue) && ToCent(r.netRevenueImpact, m.netRevenueImpact)
  {
    var baseline := Filter(rows, IsNonPromo);
    var baselineVolume := Sum(baseline, Units);
    var baselineRevenue := Sum(baseline, Revenue);
    var simulatedVolume := LiftedVolume(baselineVolume, promoUpliftPct);
    var m := ProjectMoney(simulatedVolume, Mean(rows, Price), promoCostPerUnit, baselineRevenue);
    PromotionResult(
      category, promoUpliftPct,
      Trunc(baselineVolume), Trunc(simulatedVolume),
      Round2(baselineRevenue), Round2(m.grossRevenue), Round2(m.totalPromoCost),
      Round2(m.netRevenue), Round2(m.netRevenueImpact))
  }

  /** `simulate_promotion(df, category, promo_uplift_pct, promo_cost_per_unit)`. */
  function SimulatePromotion(table: seq<Row>, category: string, promoUpliftPct: real,
                             promoCostPerUnit: real): (r: Simulation<PromotionResult>)
    ensures r.NoData? <==> forall x :: x in table ==> x.category != category
    ensures r.NoData? ==> r.message == "No data found for category '" + category + "'"
    ensures r.Simulated? ==> && |CategoryRows(table, category)| > 0
                             && r.result == PromotionOf(CategoryRows(table, category), category,
                                                        promoUpliftPct, promoCostPerUnit)
                             && r.result.category == category
                             && r.result.promoUpliftPct == promoUpliftPct
  {
    var rows := CategoryRows(table, category);
    FilterEmpty(table, InCategory(category));
    if rows == [] then NoData("No data found for category '" + category + "'")
    else Simulated(PromotionOf(rows, category, promoUpliftPct, promoCostPerUnit))
  }


  /**
   * The original volume and revenue of a price change are sums over the
   * whole table in which every other SKU's rows count as 0.
   */
  lemma PriceChangeOriginalsOverTable(table: seq<Row>, skuId: int, priceChangePct: real, elasticity: real)
    requires exists x :: x in table && x.skuId == skuId
    ensures var s := SimulatePriceChange(table, skuId, priceChangePct, elasticity);
            && s.Simulated?
            && s.result.originalTotalUnits == Trunc(Sum(table, Masked(HasSku(skuId), Units)))
            && s.result.originalRevenue == Round2(Sum(table, Masked(HasSku(skuId), Revenue)))
  {
    SumFilter(table, HasSku(skuId), Units);
    SumFilter(table, HasSku(skuId), Revenue);
  }

  /** A volume change of -100% or worse projects no units and no revenue. */
  lemma PriceChangeClamp(rows: seq<Row>, skuId: int, priceChangePct: real, elasticity: real)
    requires |rows| > 0
    requires priceChangePct * elasticity <= -1.0
    ensures var res := PriceChangeOf(rows, skuId, priceChangePct, elasticity);
            && res.simulatedTotalUnits == 0
            && res.simulatedRevenue == 0.0
            && res.revenueImpact == Round2(-Sum(rows, Revenue))
  {
    Round2Exact(0.0, 0);
  }

  /** Above the clamp the volume moves linearly with the price change. */
  lemma PriceChangeLinear(volume: real, priceChangePct: real, elasticity: real)
    requires priceChangePct * elasticity > -1.0
    ensures ProjectedVolume(volume, priceChangePct, elasticity)
         == volume + volume * (priceChangePct * elasticity)
  {
  }

  /**
   * On well-formed rows, a price move that the elasticity turns into a
   * volume drop (a price rise under negative elasticity, say) never projects
   * more units than were sold, nor fewer than none.
   */
  lemma PriceMoveAgainstDemand(rows: seq<Row>, skuId: int, priceChangePct: real, elasticity: real)
    requires |rows| > 0
    requires forall x :: x in rows ==> WellFormed(x)
    requires priceChangePct * elasticity <= 0.0
    ensures var res := PriceChangeOf(rows, skuId, priceChangePct, elasticity);
            0 <= res.simulatedTotalUnits <= res.originalTotalUnits
  {
    var v := Sum(rows, Units);
    var w := ProjectedVolume(v, priceChangePct, elasticity);
    SumNonNegative(rows, Units);
    assert w.Floor <= v.Floor;
  }

  /** Rows of other SKUs do not change the projection for this one. */
  lemma PriceChangeIgnoresOtherSkus(table: seq<Row>, others: seq<Row>, skuId: int,
                                    priceChangePct: real, elasticity: real)
    requires forall x :: x in others ==> x.skuId != skuId
    ensures SimulatePriceChange(table + others, skuId, priceChangePct, elasticity)
         == SimulatePriceChange(table, skuId, priceChangePct, elasticity)
  {
    assert SkuRows(table + others, skuId) == SkuRows(table, skuId) by {
      FilterAppend(table, others, HasSku(skuId));
      FilterEmpty(others, HasSku(skuId));
      assert SkuRows(table + others, skuId) == SkuRows(table, skuId) + [];
    }
  }

  /**
   * SKU 101 sold 10 and 20 units for 100 and 200 at price 10.0; SKU 102
   * sold 5 for 50. A 10% rise at elasticity -1.0 takes 30 units to 27 and
   * revenue 300.0 to 297.0.
   */
  lemma PriceChangeReferenceCase(a: Row, b: Row, c: Row)
    requires a.skuId == 101 && a.revenue == 100.0 && a.unitsSold == 10.0 && a.price == 10.0
    requires b.skuId == 101 && b.revenue == 200.0 && b.unitsSold == 20.0 && b.price == 10.0
    requires c.skuId == 102 && c.revenue == 50.0 && c.unitsSold == 5.0 && c.price == 10.0
    ensures SimulatePriceChange([a, b, c], 101, 0.1, -1.0) == Simulated(PriceChangeResult(
              101, 0.1, -1.0, 10.0, 11.0, 30, 27, 300.0, 297.0, -3.0))
  {
    var p := HasSku(101);
    assert [a, b, c][..2] == [a, b];
    assert [a, b][..1] == [a];
    assert [a][..0] == [];
    assert Filter([a], p) == [a];
    assert Filter([a, b], p) == [a, b];
    assert Filter([a, b, c], p) == [a, b];
    var rows := [a, b];
    assert Sum([a], Units) == 10.0;
    assert Sum(rows, Units) == 30.0;
    assert Sum([a], Revenue) == 100.0;
    assert Sum(rows, Revenue) == 300.0;
    assert Sum([a], Price) == 10.0;
    assert Sum(rows, Price) == 20.0;
    var pr := ProjectPrice(rows, 0.1, -1.0);
    assert pr.originalAvgPrice == 10.0;
    assert pr.newAvgPrice == 11.0;
    assert pr.newVolume == 27.0;
    assert pr.newRevenue == 297.0;
    Round2Exact(10.0, 1000);
    Round2Exact(11.0, 1100);
    Round2Exact(300.0, 30000);
    Round2Exact(297.0, 29700);
    Round2Exact(-3.0, -300);
  }

  /** Leaving the elasticity out assumes -1.5. */
  lemma PriceChangeDefaultElasticity(table: seq<Row>, skuId: int, priceChangePct: real)
    ensures SimulatePriceChange(table, skuId, priceChangePct)
         == SimulatePriceChange(table, skuId, priceChangePct, -1.5)
  {
  }

  /**
   * Extra promotion rows of the category leave the baseline, and so the
   * projected units, as they were: they can only move the mean price.
   */
  lemma PromotionBaselineIgnoresPromoRows(rows: seq<Row>, extra: seq<Row>, category: string,
                                          promoUpliftPct: real, promoCostPerUnit: real)
    requires |rows| > 0
    requires forall x :: x in extra ==> x.promoFlag != 0
    ensures var before := PromotionOf(rows, category, promoUpliftPct, promoCostPerUnit);
            var after := PromotionOf(rows + extra, category, promoUpliftPct, promoCostPerUnit);
            && after.baselineUnits == before.baselineUnits
            && after.baselineRevenue == before.baselineRevenue
            && after.simulatedUnits == before.simulatedUnits
  {
    assert Filter(rows + extra, IsNonPromo) == Filter(rows, IsNonPromo) by {
      FilterAppend(rows, extra, IsNonPromo);
      FilterEmpty(extra, IsNonPromo);
      assert Filter(rows + extra, IsNonPromo) == Filter(rows, IsNonPromo) + [];
    }
  }
}
