/**
  * `AdvancedSalesPredictionService` in sql/sales-prediction.ts: the basic predictions,
  * with the confidence raised by 0.1 (capped at 1) and a note appended for every
  * product whose average sales differ by more than 20% between days of the week.
  */
module AdvancedSalesPrediction {
  import opened SalesPrediction

  datatype Seasonality = Seasonality(hasWeeklyPattern: bool, hasMonthlyPattern: bool)

  const WeeklyNote := " Weekly pattern detected."

  /** The sum of `daily_sales` over the rows falling on day `d`, as `weeklyData[d]` accumulates it. */
  function BucketSum(data: seq<SalesData>, d: int): real {
    if data == [] then 0.0
    else
      var last := data[|data| - 1];
      BucketSum(data[..|data| - 1], d) + (if last.dayOfWeek == d then last.dailySales else 0.0)
  }

  /** The number of rows falling on day `d`, as `weeklyCounts[d]` accumulates it. */
  function BucketCount(data: seq<SalesData>, d: int): nat {
    if data == [] then 0
    else
      var last := data[|data| - 1];
      BucketCount(data[..|data| - 1], d) + (if last.dayOfWeek == d then 1 else 0)
  }

  /** `weeklyCounts[i] > 0 ? sum / weeklyCounts[i] : 0`: the average sales of day `d`. */
  function WeeklyAverage(data: seq<SalesData>, d: int): real {
    if BucketCount(data, d) > 0 then BucketSum(data, d) / BucketCount(data, d) as real else 0.0
  }

  function WeeklyAverages(data: seq<SalesData>): (avgs: seq<real>)
    ensures |avgs| == 7
  {
    seq(7, d => WeeklyAverage(data, d))
  }

  /** `weeklyAverages.filter(v => v > 0)`. */
  function Positives(s: seq<real>): (p: seq<real>)
    ensures forall v :: v in p <==> v in s && v > 0.0
  {
    if s == [] then []
    else
      assert s == s[..|s| - 1] + [s[|s| - 1]];
      Positives(s[..|s| - 1]) + (if s[|s| - 1] > 0.0 then [s[|s| - 1]] else [])
  }

  /**
    * `(maxWeekly - minWeekly) / maxWeekly > 0.2`. When no average is positive,
    * `Math.min()` of nothing is +Infinity, and in IEEE arithmetic the quotient is
    * +Infinity exactly when `maxWeekly` is negative (and -Infinity otherwise).
    */
  function HasWeeklyPattern(weeklyAverages: seq<real>): bool
    requires |weeklyAverages| > 0
  {
    var maxWeekly := MaxOf(weeklyAverages);
    var positives := Positives(weeklyAverages);
    if positives == [] then
      maxWeekly < 0.0
    else
      var minWeekly := MinOf(positives);
      assert positives[0] in weeklyAverages;
      Spread(maxWeekly, minWeekly) > 0.2
  }

  /** `(maxWeekly - minWeekly) / maxWeekly`: the spread between the days, relative to the highest. */
  function Spread(maxWeekly: real, minWeekly: real): real
    requires maxWeekly != 0.0
  {
    (maxWeekly - minWeekly) / maxWeekly
  }

  /**
    * When some day has positive average sales, there is a weekly pattern exactly when
    * the lowest positive average is below 80% of the highest average.
    */
  lemma WeeklyPatternCriterion(weeklyAverages: seq<real>)
    requires exists v :: v in weeklyAverages && v > 0.0
    ensures Positives(weeklyAverages) != []
    ensures HasWeeklyPattern(weeklyAverages)
        <==> MinOf(Positives(weeklyAverages)) < 0.8 * MaxOf(weeklyAverages)
  {
    var v :| v in weeklyAverages && v > 0.0;
    var positives := Positives(weeklyAverages);
    assert v in positives;
    var maxWeekly := MaxOf(weeklyAverages);
    assert maxWeekly > 0.0 by {
      assert v <= maxWeekly;
    }
    PatternAtPositiveMax(weeklyAverages);
  }

  /** With a positive highest average, the pattern test is the ratio test on the extremes. */
  lemma PatternAtPositiveMax(weeklyAverages: seq<real>)
    requires |weeklyAverages| > 0 && Positives(weeklyAverages) != [] && MaxOf(weeklyAverages) > 0.0
    ensures HasWeeklyPattern(weeklyAverages)
        <==> MinOf(Positives(weeklyAverages)) < 0.8 * MaxOf(weeklyAverages)
  {
    RatioCriterion(MaxOf(weeklyAverages), MinOf(Positives(weeklyAverages)));
  }

  /** `(max - min) / max > 0.2` for a positive `max` is `min < 0.8·max`. */
  lemma RatioCriterion(maxWeekly: real, minWeekly: real)
    requires maxWeekly > 0.0
    ensures Spread(maxWeekly, minWeekly) > 0.2 <==> minWeekly < 0.8 * maxWeekly
  {
    var q := (maxWeekly - minWeekly) / maxWeekly;
    assert q * maxWeekly == maxWeekly - minWeekly;
    ProductSign(q - 0.2, maxWeekly);
    assert (q - 0.2) * maxWeekly == q * maxWeekly - 0.2 * maxWeekly;
  }

  /**
   * Sign of a product with a positive factor. Stated on its own so that the
   * ratio argument above sees only this one nonlinear step.
   */
  lemma ProductSign(x: real, m: real)
    requires m > 0.0
    ensures x > 0.0 ==> x * m > 0.0
    ensures x <= 0.0 ==> x * m <= 0.0
  {
  }

  /**
   * Dividing a total of `n` equal amounts by `n` gives the amount back; the
   * averaging step of the constant-sales argument below.
   */
  lemma DivCancel(n: real, c: real)
    requires n > 0.0
    ensures (n * c) / n == c
  {
  }

  /** detectSeasonality, filling two seven-slot arrays in one pass over the rows. */
  method DetectSeasonality(data: seq<SalesData>) returns (s: Seasonality)
    ensures s.hasWeeklyPattern == HasWeeklyPattern(WeeklyAverages(data))
    ensures !s.hasMonthlyPattern
  {
    var weeklyData := new real[7](_ => 0.0);
    var weeklyCounts := new nat[7](_ => 0);
    for i := 0 to |data|
      invariant forall d :: 0 <= d < 7 ==> weeklyData[d] == BucketSum(data[..i], d)
      invariant forall d :: 0 <= d < 7 ==> weeklyCounts[d] == BucketCount(data[..i], d)
    {
      assert data[..i + 1][..i] == data[..i];
      var dayOfWeek := data[i].dayOfWeek;
      weeklyData[dayOfWeek] := weeklyData[dayOfWeek] + data[i].dailySales;
      weeklyCounts[dayOfWeek] := weeklyCounts[dayOfWeek] + 1;
    }
    assert data[..|data|] == data;
    var weeklyAverages := seq(7, i requires 0 <= i < 7 reads weeklyData, weeklyCounts =>
      if weeklyCounts[i] > 0 then weeklyData[i] / weeklyCounts[i] as real else 0.0);
    assert weeklyAverages == WeeklyAverages(data);
    s := Seasonality(HasWeeklyPattern(weeklyAverages), false);
  }

  /** A product that sold the same positive amount every day it sold has no weekly pattern. */
  lemma ConstantSalesNoWeeklyPattern(data: seq<SalesData>, c: real)
    requires c > 0.0
    requires forall i :: 0 <= i < |data| ==> data[i].dailySales == c
    ensures !HasWeeklyPattern(WeeklyAverages(data))
  {
    var avgs := WeeklyAverages(data);
    forall d | 0 <= d < 7 ensures avgs[d] == 0.0 || avgs[d] == c {
      ConstantBucket(data, c, d);
      var n := BucketCount(data, d) as real;
      assert avgs[d] == WeeklyAverage(data, d);
      if n > 0.0 {
        assert BucketSum(data, d) == n * c;
        DivCancel(n, c);
      }
    }
    NoPatternAtOneLevel(avgs, c);
  }

  /** Averages that are all either 0 or one positive level show no weekly pattern. */
  lemma NoPatternAtOneLevel(weeklyAverages: seq<real>, c: real)
    requires |weeklyAverages| > 0 && c > 0.0
    requires forall i :: 0 <= i < |weeklyAverages| ==> weeklyAverages[i] == 0.0 || weeklyAverages[i] == c
    ensures !HasWeeklyPattern(weeklyAverages)
  {
    var maxWeekly := MaxOf(weeklyAverages);
    if exists v :: v in weeklyAverages && v > 0.0 {
      WeeklyPatternCriterion(weeklyAverages);
      var minWeekly := MinOf(Positives(weeklyAverages));
      assert minWeekly in weeklyAverages;
      assert minWeekly == c;
      assert maxWeekly == c;
    } else {
      assert maxWeekly in weeklyAverages;
    }
  }

  /** With every row at `c`, a day's bucket holds `c` once per row. */
  lemma {:induction false} ConstantBucket(data: seq<SalesData>, c: real, d: int)
    requires forall i :: 0 <= i < |data| ==> data[i].dailySales == c
    ensures BucketSum(data, d) == BucketCount(data, d) as real * c
  {
    if data != [] {
      ConstantBucket(data[..|data| - 1], c, d);
    }
  }

  /**
    * Applies the weekly adjustment to one basic prediction: only the confidence and
    * the advice can change, the confidence by at most 0.1 and never beyond 1, and the
    * advice only by the appended note.
    */
  function Adjust(prediction: PredictionResult, seasonality: Seasonality): (r: PredictionResult)
    ensures r.productId == prediction.productId && r.productName == prediction.productName
    ensures r.currentTrend == prediction.currentTrend
    ensures r.predictedDailySales == prediction.predictedDailySales
    ensures r.predictedWeeklySales == prediction.predictedWeeklySales
    ensures r.predictedMonthlySales == prediction.predictedMonthlySales
    ensures !seasonality.hasWeeklyPattern ==> r == prediction
    ensures seasonality.hasWeeklyPattern ==> r.recommendation == prediction.recommendation + WeeklyNote
    ensures seasonality.hasWeeklyPattern ==> r.confidenceScore == Min(1.0, prediction.confidenceScore + 0.1)
    ensures prediction.confidenceScore <= 1.0 ==>
              prediction.confidenceScore <= r.confidenceScore <= 1.0
    ensures r.confidenceScore <= prediction.confidenceScore + 0.1
  {
    if seasonality.hasWeeklyPattern then
      prediction.(confidenceScore := Min(1.0, prediction.confidenceScore + 0.1),
                  recommendation := prediction.recommendation + WeeklyNote)
    else
      prediction
  }

  /** `productData.get(prediction.product_id) || []`: the product's rows, none when absent. */
  function SeasonalityOf(rows: seq<SalesData>, productId: int): (r: Seasonality)
    ensures !r.hasMonthlyPattern
    ensures RowsOf(rows, productId) == [] ==> !r.hasWeeklyPattern
  {
    NoRowsNoPattern();
    Seasonality(HasWeeklyPattern(WeeklyAverages(RowsOf(rows, productId))), false)
  }

  /** A product without rows has seven zero averages, hence no weekly pattern. */
  lemma NoRowsNoPattern()
    ensures !HasWeeklyPattern(WeeklyAverages([]))
  {
    var avgs := WeeklyAverages([]);
    assert forall d :: 0 <= d < 7 ==> avgs[d] == 0.0;
    assert MaxOf(avgs) in avgs;
  }

  /** The `map` of predictSalesWithSeasonality over the basic predictions. */
  function AdjustAll(rows: seq<SalesData>, basic: seq<PredictionResult>): (r: seq<PredictionResult>)
    ensures |r| == |basic|
  {
    seq(|basic|, i requires 0 <= i < |basic| => Adjust(basic[i], SeasonalityOf(rows, basic[i].productId)))
  }

  /** What predictSalesWithSeasonality returns for `rows`. */
  function SeasonalPredictions(rows: seq<SalesData>, sqrt: real -> real): seq<PredictionResult> {
    AdjustAll(rows, Predictions(rows, sqrt))
  }

  /** One call of the `map` callback of predictSalesWithSeasonality. */
  method AdjustOne(rows: seq<SalesData>, productData: map<int, seq<SalesData>>,
                   prediction: PredictionResult) returns (adjusted: PredictionResult)
    requires forall id :: id in productData <==> id in DistinctIds(rows)
    requires forall id :: id in productData ==> productData[id] == RowsOf(rows, id)
    ensures adjusted == Adjust(prediction, SeasonalityOf(rows, prediction.productId))
  {
    var data := if prediction.productId in productData then productData[prediction.productId] else [];
    DistinctIdsMember(rows, prediction.productId);
    assert data == RowsOf(rows, prediction.productId);
    var seasonality := DetectSeasonality(data);
    adjusted := Adjust(prediction, seasonality);
  }

  /** The `map` of predictSalesWithSeasonality, one callback per basic prediction. */
  method AdjustPredictions(rows: seq<SalesData>, productData: map<int, seq<SalesData>>,
                           basicPredictions: seq<PredictionResult>)
    returns (adjusted: seq<PredictionResult>)
    requires forall id :: id in productData <==> id in DistinctIds(rows)
    requires forall id :: id in productData ==> productData[id] == RowsOf(rows, id)
    ensures adjusted == AdjustAll(rows, basicPredictions)
  {
    adjusted := [];
    for i := 0 to |basicPredictions|
      invariant adjusted == AdjustAll(rows, basicPredictions)[..i]
    {
      var prediction := AdjustOne(rows, productData, basicPredictions[i]);
      adjusted := adjusted + [prediction];
    }
  }

  /** predictSalesWithSeasonality: the basic predictions, regrouped rows, then the `map`. */
  method PredictSalesWithSeasonality(historicalData: seq<SalesData>, sqrt: real -> real)
    returns (adjusted: seq<PredictionResult>)
    ensures adjusted == SeasonalPredictions(historicalData, sqrt)
  {
    var basicPredictions := PredictSales(historicalData, sqrt);
    var ids, productData := GroupByProduct(historicalData);
    adjusted := AdjustPredictions(historicalData, productData, basicPredictions);
  }

  /**
    * predictSalesWithSeasonality keeps predictSales' list: the same products in the
    * same order, largest predicted daily sales first, each adjusted for its own rows.
    */
  lemma SeasonalPredictionsKeepBasic(rows: seq<SalesData>, sqrt: real -> real)
    ensures var basic, adjusted := Predictions(rows, sqrt), SeasonalPredictions(rows, sqrt);
      && |adjusted| == |basic|
      && (forall i :: 0 <= i < |basic| ==>
            adjusted[i] == Adjust(basic[i], SeasonalityOf(rows, basic[i].productId)))
      && (forall i, j :: 0 <= i < j < |adjusted| ==>
            adjusted[i].predictedDailySales >= adjusted[j].predictedDailySales
            && adjusted[i].productId != adjusted[j].productId)
  {
    var basic := Predictions(rows, sqrt);
    PredictionsOrdered(rows, sqrt);
    PredictionIdsDistinct(rows, sqrt);
    assert forall i :: 0 <= i < |basic| ==>
      SeasonalPredictions(rows, sqrt)[i] == Adjust(basic[i], SeasonalityOf(rows, basic[i].productId));
  }
}
