/**
  * The sales trend estimator (`SalesPredictionService` in sql/sales-prediction.ts).
  *
  * Rows of per-day, per-product sales are grouped by product, each group is sorted
  * by date, smoothed with a trailing moving average of window 3, fitted with an
  * ordinary least-squares line, and the next point of that line is the predicted
  * daily sales (clamped at 0). The slope gives a trend, the smoothed series a
  * confidence score, and the two a recommendation text. Results are rounded to two
  * decimals and ordered by predicted daily sales, largest first.
  *
  * Numbers are exact rationals (`real`), not IEEE doubles. `Math.sqrt` is a platform
  * routine: it is passed in as the parameter `sqrt`.
  */
module SalesPrediction {
  import StableSort

  /** The day of the week as `Date.getDay()` reports it: 0 (Sunday) to 6 (Saturday). */
  type DayOfWeek = d: int | 0 <= d < 7

  /**
    * One input row: the sales of one product on one day. The source carries the date
    * as a string; here it is a day number (`date`) together with its day of week.
    */
  datatype SalesData = SalesData(
    date: int,
    dayOfWeek: DayOfWeek,
    productId: int,
    productName: string,
    dailySales: real,
    quantitySold: int)

  datatype Trend = Increasing | Decreasing | Stable

  datatype PredictionResult = PredictionResult(
    productId: int,
    productName: string,
    currentTrend: Trend,
    predictedDailySales: real,
    predictedWeeklySales: real,
    predictedMonthlySales: real,
    confidenceScore: real,
    recommendation: string)

  datatype Regression = Regression(slope: real, intercept: real)

  const SmoothingWindow: nat := 3

  const InsufficientData := "Insufficient data for reliable prediction. Collect more historical data."
  const StrongUpward := "Strong upward trend detected. Consider increasing inventory and marketing investment."
  const ModerateUpward := "Moderate upward trend. Monitor closely and prepare for potential demand increase."
  const StrongDownward := "Strong downward trend detected. Review pricing strategy and consider promotions."
  const ModerateDownward := "Moderate downward trend. Investigate potential causes and adjust strategy."
  const StablePattern := "Stable sales pattern. Maintain current strategy with regular monitoring."
  const InsufficientHistory := "Insufficient historical data for accurate prediction."

  // ---------------------------------------------------------------------------
  // Arithmetic helpers: the `reduce` folds, Math.max / Math.min, Math.round
  // ---------------------------------------------------------------------------

  function Max(a: real, b: real): real { if a >= b then a else b }

  function Min(a: real, b: real): real { if a <= b then a else b }

  /** `s.reduce((sum, val) => sum + val, 0)`, folded from the left. */
  function Sum(s: seq<real>): real {
    if s == [] then 0.0 else Sum(s[..|s| - 1]) + s[|s| - 1]
  }

  function Mean(s: seq<real>): real
    requires |s| > 0
  {
    Sum(s) / |s| as real
  }

  /** `Math.max(...s)` of a non-empty list. */
  function MaxOf(s: seq<real>): (m: real)
    requires |s| > 0
    ensures m in s
    ensures forall v :: v in s ==> v <= m
  {
    if |s| == 1 then
      s[0]
    else
      assert s == s[..|s| - 1] + [s[|s| - 1]];
      Max(MaxOf(s[..|s| - 1]), s[|s| - 1])
  }

  /** `Math.min(...s)` of a non-empty list. */
  function MinOf(s: seq<real>): (m: real)
    requires |s| > 0
    ensures m in s
    ensures forall v :: v in s ==> m <= v
  {
    if |s| == 1 then
      s[0]
    else
      assert s == s[..|s| - 1] + [s[|s| - 1]];
      Min(MinOf(s[..|s| - 1]), s[|s| - 1])
  }

  /** A sum of values between `lo` and `hi` lies between `|s|·lo` and `|s|·hi`. */
  lemma {:induction false} SumBounds(s: seq<real>, lo: real, hi: real)
    requires forall v :: v in s ==> lo <= v <= hi
    ensures |s| as real * lo <= Sum(s) <= |s| as real * hi
  {
    if s != [] {
      var p := s[..|s| - 1];
      assert forall v :: v in p ==> v in s;
      SumBounds(p, lo, hi);
      assert s[|s| - 1] in s;
      var k := |p| as real;
      assert |s| as real * lo == k * lo + lo;
      assert |s| as real * hi == k * hi + hi;
    }
  }

  /** The mean of values between `lo` and `hi` lies between them. */
  lemma MeanBounds(s: seq<real>, lo: real, hi: real)
    requires |s| > 0
    requires forall v :: v in s ==> lo <= v <= hi
    ensures lo <= Mean(s) <= hi
  {
    SumBounds(s, lo, hi);
    var n := |s| as real;
    assert n * lo <= Sum(s) <= n * hi;
    assert Mean(s) * n == Sum(s);
  }

  /**
    * `Math.round(x * 100) / 100`. `Math.round` rounds halves towards +infinity, which
    * is `floor(v + 0.5)` for every finite `v`.
    */
  function Round2(x: real): (r: real)
    ensures x - 0.005 < r <= x + 0.005
  {
    ((x * 100.0 + 0.5).Floor as real) / 100.0
  }

  lemma Round2Monotone(x: real, y: real)
    requires x <= y
    ensures Round2(x) <= Round2(y)
  {
    assert (x * 100.0 + 0.5).Floor <= (y * 100.0 + 0.5).Floor;
  }

  /** A value already on the two-decimal grid is left alone. */
  lemma Round2Grid(k: int)
    ensures Round2(k as real / 100.0) == k as real / 100.0
  {
    var x := k as real / 100.0;
    assert x * 100.0 == k as real;
    var j := (x * 100.0 + 0.5).Floor;
    assert j as real <= k as real + 0.5 < j as real + 1.0;
    assert j == k;
  }

  // ---------------------------------------------------------------------------
  // calculateMovingAverage
  // ---------------------------------------------------------------------------

  /** `Math.max(0, i - window + 1)`: where the trailing window of position `i` starts. */
  function WindowStart(i: nat, window: nat): nat {
    if i + 1 >= window then i + 1 - window else 0
  }

  /** The trailing moving average: position `i` is the mean of `data[WindowStart(i)..i]`. */
  function MovingAverage(data: seq<real>, window: nat): (r: seq<real>)
    requires window >= 1
    ensures |r| == |data|
  {
    seq(|data|, i requires 0 <= i < |data| => Mean(data[WindowStart(i, window)..i + 1]))
  }

  /** The smoothed series starts with the raw series' first value. */
  lemma MovingAverageHead(data: seq<real>, window: nat)
    requires window >= 1 && |data| > 0
    ensures MovingAverage(data, window)[0] == data[0]
  {
    assert data[WindowStart(0, window)..1] == [data[0]];
    assert Sum([data[0]]) == Sum([]) + data[0];
  }

  /** Smoothing never leaves the range of the raw values. */
  lemma MovingAverageWithin(data: seq<real>, window: nat, lo: real, hi: real)
    requires window >= 1
    requires forall v :: v in data ==> lo <= v <= hi
    ensures forall v :: v in MovingAverage(data, window) ==> lo <= v <= hi
  {
    var r := MovingAverage(data, window);
    forall k | 0 <= k < |r| ensures lo <= r[k] <= hi {
      var w := data[WindowStart(k, window)..k + 1];
      assert forall v :: v in w ==> v in data;
      MeanBounds(w, lo, hi);
    }
  }

  /** The for-loop of calculateMovingAverage, pushing one average per position. */
  method CalculateMovingAverage(data: seq<real>, window: nat) returns (result: seq<real>)
    requires window >= 1
    ensures result == MovingAverage(data, window)
  {
    result := [];
    for i := 0 to |data|
      invariant |result| == i
      invariant forall k :: 0 <= k < i ==> result[k] == Mean(data[WindowStart(k, window)..k + 1])
    {
      var start := WindowStart(i, window);
      var windowData := data[start..i + 1];
      var average := Sum(windowData) / |windowData| as real;
      result := result + [average];
    }
  }

  // ---------------------------------------------------------------------------
  // calculateLinearRegression
  // ---------------------------------------------------------------------------

  /** `Σ i` over the indexes `0 .. n-1`. */
  function SumIdx(n: nat): nat {
    if n == 0 then 0 else SumIdx(n - 1) + (n - 1)
  }

  /** `Σ i·i` over the indexes `0 .. n-1`. */
  function SumSqIdx(n: nat): nat {
    if n == 0 then 0 else SumSqIdx(n - 1) + (n - 1) * (n - 1)
  }

  /** `Σ i·y[i]`, folded from the left. */
  function SumXY(s: seq<real>): real {
    if s == [] then 0.0 else SumXY(s[..|s| - 1]) + (|s| - 1) as real * s[|s| - 1]
  }

  /** The regression's denominator `n·Σx² − (Σx)²`, over the integers. */
  function Denominator(n: nat): int {
    n * SumSqIdx(n) - SumIdx(n) * SumIdx(n)
  }

  lemma {:induction false} SumIdxClosed(n: nat)
    ensures 2 * SumIdx(n) == n * (n - 1)
  {
    if n > 0 {
      SumIdxClosed(n - 1);
      assert (n - 1) * (n - 2) + 2 * (n - 1) == n * (n - 1);
    }
  }

  lemma {:induction false} SumSqIdxClosed(n: nat)
    ensures 6 * SumSqIdx(n) == n * (n - 1) * (2 * n - 1)
  {
    if n > 0 {
      SumSqIdxClosed(n - 1);
      SquareStep(n - 1);
    }
  }

  /** The induction step of SumSqIdxClosed, on plain integers. */
  lemma SquareStep(m: int)
    ensures m * (m - 1) * (2 * m - 1) + 6 * (m * m) == (m + 1) * m * (2 * m + 1)
  {
    var q := (m - 1) * (2 * m - 1);
    assert q + 6 * m == (m + 1) * (2 * m + 1);
    assert m * q + m * (6 * m) == m * (q + 6 * m);
  }

  /** For two or more points the denominator is `n²(n²−1)/12`, hence positive. */
  lemma DenominatorPositive(n: nat)
    requires n >= 2
    ensures 12 * Denominator(n) == n * n * (n * n - 1)
    ensures Denominator(n) > 0
  {
    SumIdxClosed(n);
    SumSqIdxClosed(n);
    DenominatorAlgebra(n, SumIdx(n), SumSqIdx(n));
    NearSquarePositive(n);
  }

  /** `12(n·Σx² − (Σx)²) = n²(n²−1)` once the two closed forms are known. */
  lemma DenominatorAlgebra(n: int, a: int, b: int)
    requires 2 * a == n * (n - 1)
    requires 6 * b == n * (n - 1) * (2 * n - 1)
    ensures 12 * (n * b - a * a) == n * n * (n * n - 1)
  {
    var m := n * (n - 1);
    assert 12 * (n * b) == 2 * n * (m * (2 * n - 1));
    assert 12 * (a * a) == 3 * (m * m);
    assert 2 * n * (m * (2 * n - 1)) - 3 * (m * m) == m * (2 * n * (2 * n - 1) - 3 * m);
    assert 2 * n * (2 * n - 1) - 3 * m == n * (n + 1);
    assert m * (n * (n + 1)) == n * n * (n * n - 1);
  }

  lemma NearSquarePositive(n: int)
    requires n >= 2
    ensures n * n * (n * n - 1) > 0
  {
    var q := n * n;
    assert q >= 4 by { assert n * n >= 2 * n; }
    assert q * (q - 1) > 0;
  }

  /**
    * The least-squares formulas of calculateLinearRegression, given the four sums. The
    * index sums `Σx` and `Σx²` are whole numbers, so the denominator is one too.
    */
  function LeastSquares(n: int, sumX: int, sumY: real, sumXY: real, sumXX: int): Regression
    requires n > 0 && n * sumXX - sumX * sumX != 0
  {
    var slope := Quotient(n as real * sumXY - sumX as real * sumY, (n * sumXX - sumX * sumX) as real);
    var intercept := Quotient(sumY - slope * sumX as real, n as real);
    Regression(slope, intercept)
  }

  /** `a / b` on reals. */
  function Quotient(a: real, b: real): real
    requires b != 0.0
  {
    a / b
  }

  /** calculateLinearRegression: the least-squares line through the points `(i, data[i])`. */
  function CalculateLinearRegression(data: seq<real>): (r: Regression)
    ensures |data| < 2 ==> r.slope == 0.0
    ensures |data| == 0 ==> r.intercept == 0.0
    ensures |data| == 1 ==> r.intercept == data[0]
  {
    var n := |data|;
    if n < 2 then
      Regression(0.0, if n == 1 then data[0] else 0.0)
    else
      FitPoints(n, Sum(data), SumXY(data))
  }

  /** The least-squares line of `n >= 2` points at `x = 0 .. n-1`, from `Σy` and `Σx·y`. */
  function FitPoints(n: nat, sumY: real, sumXY: real): Regression
    requires n >= 2
  {
    DenominatorPositive(n);
    LeastSquares(n, SumIdx(n), sumY, sumXY, SumSqIdx(n))
  }

  /** The y-values of a line `a + b·i` sum to `n·a + b·Σi`. */
  lemma {:induction false} SumOfLine(data: seq<real>, a: real, b: real)
    requires forall i :: 0 <= i < |data| ==> data[i] == a + b * i as real
    ensures Sum(data) == |data| as real * a + b * SumIdx(|data|) as real
  {
    if data != [] {
      var m := |data| - 1;
      SumOfLine(data[..m], a, b);
      calc {
        Sum(data);
        m as real * a + b * SumIdx(m) as real + (a + b * m as real);
        (m + 1) as real * a + b * (SumIdx(m) + m) as real;
      }
    }
  }

  /** For a line `a + b·i`, `Σ i·y = a·Σi + b·Σi²`. */
  lemma {:induction false} SumXYOfLine(data: seq<real>, a: real, b: real)
    requires forall i :: 0 <= i < |data| ==> data[i] == a + b * i as real
    ensures SumXY(data) == a * SumIdx(|data|) as real + b * SumSqIdx(|data|) as real
  {
    if data != [] {
      var m := |data| - 1;
      SumXYOfLine(data[..m], a, b);
      StepOfLine(a, b, SumIdx(m) as real, SumSqIdx(m) as real, m as real);
    }
  }

  /** One step of SumXYOfLine: adding the point `(m, a + b·m)`. */
  lemma StepOfLine(a: real, b: real, x: real, y: real, m: real)
    ensures a * x + b * y + m * (a + b * m) == a * (x + m) + b * (y + m * m)
  {
  }

  /** The closed-form algebra behind ExactLineFit, on plain numbers. */
  lemma LineAlgebra(n: int, a: real, b: real, sx: int, sxx: int, sy: real, sxy: real)
    requires n > 0 && n * sxx - sx * sx != 0
    requires sy == n as real * a + b * sx as real && sxy == a * sx as real + b * sxx as real
    ensures LeastSquares(n, sx, sy, sxy, sxx) == Regression(b, a)
  {
    var nr, x, xx := n as real, sx as real, sxx as real;
    var d := nr * xx - x * x;
    assert (n * sxx - sx * sx) as real == d;
    assert nr * sxy - x * sy == b * d;
    assert (sy - b * x) == nr * a;
  }

  /** The regression of a series whose two sums are those of the line `a + b·i`. */
  lemma FitFromSums(n: nat, a: real, b: real, sy: real, sxy: real)
    requires n >= 2
    requires sy == n as real * a + b * SumIdx(n) as real
    requires sxy == a * SumIdx(n) as real + b * SumSqIdx(n) as real
    ensures FitPoints(n, sy, sxy) == Regression(b, a)
  {
    DenominatorPositive(n);
    LineAlgebra(n, a, b, SumIdx(n), SumSqIdx(n), sy, sxy);
  }

  /** Points that lie exactly on a line `a + b·i` are fitted by that very line. */
  lemma ExactLineFit(data: seq<real>, a: real, b: real)
    requires |data| >= 2
    requires forall i :: 0 <= i < |data| ==> data[i] == a + b * i as real
    ensures CalculateLinearRegression(data) == Regression(b, a)
  {
    var n, sy, sxy := |data|, Sum(data), SumXY(data);
    assert sy == n as real * a + b * SumIdx(n) as real by {
      SumOfLine(data, a, b);
    }
    assert sxy == a * SumIdx(n) as real + b * SumSqIdx(n) as real by {
      SumXYOfLine(data, a, b);
    }
    FitFromSums(n, a, b, sy, sxy);
    assert CalculateLinearRegression(data) == FitPoints(n, sy, sxy);
  }

  // ---------------------------------------------------------------------------
  // getTrend, calculateConfidence, generateRecommendation
  // ---------------------------------------------------------------------------

  /** getTrend: a slope beyond ±0.1 is a trend, anything in between is stable. */
  function GetTrend(slope: real): (t: Trend)
    ensures t == Increasing <==> slope > 0.1
    ensures t == Decreasing <==> slope < -0.1
    ensures t == Stable <==> -0.1 <= slope <= 0.1
  {
    if slope > 0.1 then Increasing
    else if slope < -0.1 then Decreasing
    else Stable
  }

  /** `data.reduce((sum, val) => sum + Math.pow(val - mean, 2), 0)`, folded from the left. */
  function SumSquaredDeviations(s: seq<real>, mean: real): real {
    if s == [] then 0.0
    else SumSquaredDeviations(s[..|s| - 1], mean) + (s[|s| - 1] - mean) * (s[|s| - 1] - mean)
  }

  /** The population variance (divisor `n`). */
  function Variance(s: seq<real>): real
    requires |s| > 0
  {
    SumSquaredDeviations(s, Mean(s)) / |s| as real
  }

  /**
    * `Math.max(0, 1 - standardDeviation / mean)`. For a zero mean the source divides
    * by zero and yields NaN; the model takes the variability score to be 0 there.
    */
  function VariabilityScore(standardDeviation: real, mean: real): real {
    if mean == 0.0 then 0.0 else Max(0.0, 1.0 - standardDeviation / mean)
  }

  /** 1 when the prediction lies in `[0.5·min, 2·max]` of the series, 0.5 otherwise. */
  function BoundsScore(data: seq<real>, prediction: real): real
    requires |data| > 0
  {
    if prediction >= MinOf(data) * 0.5 && prediction <= MaxOf(data) * 2.0 then 1.0 else 0.5
  }

  /**
    * calculateConfidence: 0.3 for fewer than three points, otherwise
    * `min(1, 0.7·variability + 0.3·bounds)`, which lies in `[0.15, 1]` whatever
    * the square-root routine returns.
    */
  function CalculateConfidence(data: seq<real>, prediction: real, sqrt: real -> real): (c: real)
    ensures |data| < 3 ==> c == 0.3
    ensures |data| >= 3 ==> 0.15 <= c <= 1.0
  {
    if |data| < 3 then
      0.3
    else
      var mean := Mean(data);
      var standardDeviation := sqrt(Variance(data));
      var variabilityScore := VariabilityScore(standardDeviation, mean);
      var boundsScore := BoundsScore(data, prediction);
      Min(1.0, variabilityScore * 0.7 + boundsScore * 0.3)
  }

  /** A constant positive series predicted at its own level gets full confidence. */
  lemma ConstantSeriesConfidence(data: seq<real>, c: real, sqrt: real -> real)
    requires |data| >= 3 && c > 0.0
    requires forall i :: 0 <= i < |data| ==> data[i] == c
    requires sqrt(0.0) == 0.0
    ensures CalculateConfidence(data, c, sqrt) == 1.0
  {
    SumBounds(data, c, c);
    var n := |data| as real;
    assert Sum(data) == n * c;
    assert Mean(data) == c;
    ZeroDeviations(data, c);
    assert Variance(data) == 0.0;
    assert MinOf(data) == c && MaxOf(data) == c;
  }

  lemma {:induction false} ZeroDeviations(data: seq<real>, c: real)
    requires forall i :: 0 <= i < |data| ==> data[i] == c
    ensures SumSquaredDeviations(data, c) == 0.0
  {
    if data != [] {
      ZeroDeviations(data[..|data| - 1], c);
    }
  }

  /**
    * generateRecommendation: below confidence 0.4 the advice is always to collect
    * more data; a stable trend always gets the "maintain" advice; a rising or falling
    * trend is "strong" exactly when the confidence exceeds 0.7.
    */
  function GenerateRecommendation(trend: Trend, confidence: real, predictedSales: real): (s: string)
    ensures confidence < 0.4 ==> s == InsufficientData
    ensures confidence >= 0.4 && trend == Stable ==> s == StablePattern
    ensures confidence >= 0.4 && trend == Increasing ==>
              s == (if confidence > 0.7 then StrongUpward else ModerateUpward)
    ensures confidence >= 0.4 && trend == Decreasing ==>
              s == (if confidence > 0.7 then StrongDownward else ModerateDownward)
  {
    if confidence < 0.4 then
      InsufficientData
    else
      match trend
      case Increasing => if confidence > 0.7 then StrongUpward else ModerateUpward
      case Decreasing => if confidence > 0.7 then StrongDownward else ModerateDownward
      case Stable => StablePattern
  }

  /** The six recommendation texts are pairwise different, so the text identifies the branch. */
  lemma RecommendationsDistinct()
    ensures |{InsufficientData, StrongUpward, ModerateUpward, StrongDownward, ModerateDownward, StablePattern}| == 6
  {
    assert |InsufficientData| == 72 && |StablePattern| == 72;
    assert |StrongUpward| == 85 && |ModerateUpward| == 81;
    assert |StrongDownward| == 80 && |ModerateDownward| == 74;
    assert InsufficientData[70] == 'a' && StablePattern[70] == 'g';
  }

  // ---------------------------------------------------------------------------
  // predictSales: grouping by product
  // ---------------------------------------------------------------------------

  /**
    * The product ids in the order the grouping `Map` first sees them, which is the
    * order its `for ... of` loop visits them.
    */
  function DistinctIds(rows: seq<SalesData>): (ids: seq<int>)
    ensures forall i, j :: 0 <= i < j < |ids| ==> ids[i] != ids[j]
  {
    if rows == [] then []
    else
      var ids := DistinctIds(rows[..|rows| - 1]);
      var id := rows[|rows| - 1].productId;
      if id in ids then ids else ids + [id]
  }

  /** The rows of product `id`, in input order: what the grouping pushes under that key. */
  function RowsOf(rows: seq<SalesData>, id: int): seq<SalesData> {
    if rows == [] then []
    else
      RowsOf(rows[..|rows| - 1], id)
        + (if rows[|rows| - 1].productId == id then [rows[|rows| - 1]] else [])
  }

  /** A product gets an entry exactly when some row carries its id, and never an empty group. */
  lemma {:induction false} DistinctIdsMember(rows: seq<SalesData>, id: int)
    ensures id in DistinctIds(rows) <==> exists k :: 0 <= k < |rows| && rows[k].productId == id
    ensures id in DistinctIds(rows) <==> |RowsOf(rows, id)| > 0
  {
    if rows != [] {
      var p := rows[..|rows| - 1];
      DistinctIdsMember(p, id);
      if exists k :: 0 <= k < |p| && p[k].productId == id {
        var k :| 0 <= k < |p| && p[k].productId == id;
        assert rows[k].productId == id;
      }
      if exists k :: 0 <= k < |rows| && rows[k].productId == id {
        var k :| 0 <= k < |rows| && rows[k].productId == id;
        if k < |p| {
          assert p[k].productId == id;
        }
      }
    }
  }

  /** A group holds exactly the rows of its product, and all of them, in input order. */
  lemma {:induction false} RowsOfSpec(rows: seq<SalesData>, id: int)
    ensures forall r :: r in RowsOf(rows, id) <==> r in rows && r.productId == id
    ensures multiset(RowsOf(rows, id)) <= multiset(rows)
  {
    if rows != [] {
      var p := rows[..|rows| - 1];
      RowsOfSpec(p, id);
      assert rows == p + [rows[|rows| - 1]];
    }
  }

  /**
    * The `forEach` of predictSales that fills the `Map` from product id to its rows;
    * `ids` is the key order of the `Map`.
    */
  method GroupByProduct(rows: seq<SalesData>) returns (ids: seq<int>, groups: map<int, seq<SalesData>>)
    ensures ids == DistinctIds(rows)
    ensures forall id :: id in groups <==> id in ids
    ensures forall id :: id in groups ==> groups[id] == RowsOf(rows, id)
  {
    ids, groups := [], map[];
    for i := 0 to |rows|
      invariant ids == DistinctIds(rows[..i])
      invariant forall id :: id in groups <==> id in ids
      invariant forall id :: id in groups ==> groups[id] == RowsOf(rows[..i], id)
    {
      var data := rows[i];
      assert rows[..i + 1][..i] == rows[..i];
      if data.productId !in groups {
        DistinctIdsMember(rows[..i], data.productId);
        groups := groups[data.productId := []];
        ids := ids + [data.productId];
      }
      groups := groups[data.productId := groups[data.productId] + [data]];
    }
    assert rows[..|rows|] == rows;
  }

  // ---------------------------------------------------------------------------
  // predictSales: one prediction per product
  // ---------------------------------------------------------------------------

  /** `data.map(d => d.daily_sales)`. */
  function DailySales(rows: seq<SalesData>): (v: seq<real>)
    ensures |v| == |rows|
    ensures forall i :: 0 <= i < |rows| ==> v[i] == rows[i].dailySales
  {
    seq(|rows|, i requires 0 <= i < |rows| => rows[i].dailySales)
  }

  /** The sort key of `new Date(a.date).getTime() - new Date(b.date).getTime()`. */
  function ByDate(r: SalesData): real {
    r.date as real
  }

  /**
    * The next point of the line, `Math.max(0, slope * nextIndex + intercept)`: the
    * line's value there, or zero when the line has fallen below zero.
    */
  function NextValue(line: Regression, nextIndex: nat): real {
    Max(0.0, line.slope * nextIndex as real + line.intercept)
  }

  /** The body of the `for ... of` loop of predictSales for one product and its rows. */
  function PredictProduct(productId: int, group: seq<SalesData>, sqrt: real -> real): PredictionResult
    requires |group| > 0
  {
    var data := StableSort.Sort(group, ByDate);
    var salesValues := DailySales(data);
    var productName := data[0].productName;
    if |salesValues| < 2 then
      PredictionResult(productId, productName, Stable, salesValues[0], salesValues[0] * 7.0,
                       salesValues[0] * 30.0, 0.2, InsufficientHistory)
    else
      TrendPrediction(productId, productName, MovingAverage(salesValues, SmoothingWindow), sqrt)
  }

  /** The prediction for a product with two or more rows, from its smoothed sales. */
  function TrendPrediction(productId: int, productName: string, smoothedData: seq<real>,
                           sqrt: real -> real): PredictionResult
  {
    var line := CalculateLinearRegression(smoothedData);
    var predictedDailySales := NextValue(line, |smoothedData|);
    var trend := GetTrend(line.slope);
    var confidence := CalculateConfidence(smoothedData, predictedDailySales, sqrt);
    var recommendation := GenerateRecommendation(trend, confidence, predictedDailySales);
    PredictionResult(productId, productName, trend, Round2(predictedDailySales),
                     Round2(predictedDailySales * 7.0), Round2(predictedDailySales * 30.0),
                     Round2(confidence), recommendation)
  }

  /** The predictions of every product, in the key order of the grouping `Map`. */
  function ProductPredictions(rows: seq<SalesData>, sqrt: real -> real): (ps: seq<PredictionResult>)
    ensures |ps| == |DistinctIds(rows)|
  {
    var ids := DistinctIds(rows);
    seq(|ids|, i requires 0 <= i < |ids| =>
      DistinctIdsMember(rows, ids[i]);
      PredictProduct(ids[i], RowsOf(rows, ids[i]), sqrt))
  }

  /** The sort key of `b.predicted_daily_sales - a.predicted_daily_sales`: largest first. */
  function ByPredictedDesc(p: PredictionResult): real {
    -p.predictedDailySales
  }

  /** What predictSales returns for `rows`: the per-product predictions, reordered. */
  function Predictions(rows: seq<SalesData>, sqrt: real -> real): (r: seq<PredictionResult>)
    ensures |r| == |DistinctIds(rows)|
  {
    StableSort.Sort(ProductPredictions(rows, sqrt), ByPredictedDesc)
  }

  /** One pass of the `for ... of` loop of predictSales: the prediction for one product. */
  method PredictOne(productId: int, group: seq<SalesData>, sqrt: real -> real)
    returns (prediction: PredictionResult)
    requires |group| > 0
    ensures prediction == PredictProduct(productId, group, sqrt)
  {
    var data := StableSort.Sort(group, ByDate);
    var salesValues := DailySales(data);
    var productName := data[0].productName;
    if |salesValues| < 2 {
      prediction := PredictionResult(productId, productName, Stable, salesValues[0],
          salesValues[0] * 7.0, salesValues[0] * 30.0, 0.2, InsufficientHistory);
      return;
    }
    var smoothedData := CalculateMovingAverage(salesValues, SmoothingWindow);
    prediction := TrendPrediction(productId, productName, smoothedData, sqrt);
  }

  /** predictSales: group, predict each product in `Map` order, then sort. */
  method PredictSales(historicalData: seq<SalesData>, sqrt: real -> real)
    returns (predictions: seq<PredictionResult>)
    ensures predictions == Predictions(historicalData, sqrt)
  {
    var ids, productData := GroupByProduct(historicalData);
    var unsorted: seq<PredictionResult> := [];
    for i := 0 to |ids|
      invariant unsorted == ProductPredictions(historicalData, sqrt)[..i]
    {
      DistinctIdsMember(historicalData, ids[i]);
      var prediction := PredictOne(ids[i], productData[ids[i]], sqrt);
      unsorted := unsorted + [prediction];
    }
    assert unsorted == ProductPredictions(historicalData, sqrt);
    predictions := StableSort.Sort(unsorted, ByPredictedDesc);
  }

  // ---------------------------------------------------------------------------
  // predictSales: what one product's prediction promises
  // ---------------------------------------------------------------------------

  lemma Round2Nonnegative(x: real)
    requires x >= 0.0
    ensures Round2(x) >= 0.0
  {
    Round2Monotone(0.0, x);
    Round2Grid(0);
  }

  /**
    * Every prediction is filed under its own product and named after the product's
    * earliest row (the first of the earliest, when several share that date).
    */
  lemma PredictProductIdentity(productId: int, group: seq<SalesData>, sqrt: real -> real)
    requires |group| > 0
    ensures PredictProduct(productId, group, sqrt).productId == productId
    ensures PredictProduct(productId, group, sqrt).productName
         == StableSort.FirstMinimal(group, ByDate).productName
  {
    StableSort.SortHead(group, ByDate);
  }

  /** A product with a single row: its own sales, a flat trend, confidence 0.2. */
  lemma SingleRowPrediction(productId: int, row: SalesData, sqrt: real -> real)
    ensures var r := PredictProduct(productId, [row], sqrt);
      && r.currentTrend == Stable
      && r.predictedDailySales == row.dailySales
      && r.predictedWeeklySales == 7.0 * row.dailySales
      && r.predictedMonthlySales == 30.0 * row.dailySales
      && r.confidenceScore == 0.2
      && r.recommendation == InsufficientHistory
  {
    assert StableSort.Sort([row], ByDate) == [row];
  }

  /** The facts about the two-or-more-rows branch that do not depend on the numbers. */
  lemma TrendPredictionFacts(productId: int, productName: string, smoothedData: seq<real>,
                             sqrt: real -> real)
    ensures var r := TrendPrediction(productId, productName, smoothedData, sqrt);
      && r.predictedDailySales >= 0.0
      && -0.04 < r.predictedWeeklySales - 7.0 * r.predictedDailySales < 0.04
      && -0.155 < r.predictedMonthlySales - 30.0 * r.predictedDailySales < 0.155
      && (|smoothedData| < 3 ==> r.confidenceScore == 0.3 && r.recommendation == InsufficientData)
      && (|smoothedData| >= 3 ==> 0.15 <= r.confidenceScore <= 1.0)
      && (r.currentTrend == Stable ==> r.recommendation in {InsufficientData, StablePattern})
      && (r.currentTrend == Increasing ==>
            r.recommendation in {InsufficientData, StrongUpward, ModerateUpward})
      && (r.currentTrend == Decreasing ==>
            r.recommendation in {InsufficientData, StrongDownward, ModerateDownward})
  {
    var line := CalculateLinearRegression(smoothedData);
    var p := NextValue(line, |smoothedData|);
    var c := CalculateConfidence(smoothedData, p, sqrt);
    Round2Nonnegative(p);
    Round2Grid(30);
    assert 30 as real / 100.0 == 0.3;
    if |smoothedData| >= 3 {
      Round2Grid(15);
      Round2Grid(100);
      assert 15 as real / 100.0 == 0.15 && 100 as real / 100.0 == 1.0;
      Round2Monotone(0.15, c);
      Round2Monotone(c, 1.0);
    }
  }

  /**
    * With two or more rows: daily sales are never negative, weekly and monthly are
    * 7 and 30 times the daily figure up to the rounding to cents, the advice never
    * contradicts the trend, two rows give confidence 0.3 and the advice to collect
    * more data, and from three rows on the confidence lies in `[0.15, 1]`.
    */
  lemma PredictionBounds(productId: int, group: seq<SalesData>, sqrt: real -> real)
    requires |group| >= 2
    ensures var r := PredictProduct(productId, group, sqrt);
      && r.predictedDailySales >= 0.0
      && -0.04 < r.predictedWeeklySales - 7.0 * r.predictedDailySales < 0.04
      && -0.155 < r.predictedMonthlySales - 30.0 * r.predictedDailySales < 0.155
      && (|group| == 2 ==> r.confidenceScore == 0.3 && r.recommendation == InsufficientData)
      && (|group| >= 3 ==> 0.15 <= r.confidenceScore <= 1.0)
      && (r.currentTrend == Stable ==> r.recommendation in {InsufficientData, StablePattern})
      && (r.currentTrend == Increasing ==>
            r.recommendation in {InsufficientData, StrongUpward, ModerateUpward})
      && (r.currentTrend == Decreasing ==>
            r.recommendation in {InsufficientData, StrongDownward, ModerateDownward})
  {
    var data := StableSort.Sort(group, ByDate);
    var smoothedData := MovingAverage(DailySales(data), SmoothingWindow);
    TrendPredictionFacts(productId, data[0].productName, smoothedData, sqrt);
  }

  /**
    * A product that sold the same positive amount on three or more days is predicted
    * to go on doing so: a stable trend, full confidence and the "maintain" advice.
    */
  lemma ConstantSalesPrediction(productId: int, group: seq<SalesData>, c: real, sqrt: real -> real)
    requires |group| >= 3 && c > 0.0
    requires forall i :: 0 <= i < |group| ==> group[i].dailySales == c
    requires sqrt(0.0) == 0.0
    ensures var r := PredictProduct(productId, group, sqrt);
      && r.currentTrend == Stable
      && r.predictedDailySales == Round2(c)
      && r.confidenceScore == 1.0
      && r.recommendation == StablePattern
  {
    var data := StableSort.Sort(group, ByDate);
    var values := DailySales(data);
    forall i | 0 <= i < |values| ensures values[i] == c {
      assert data[i] in multiset(group);
    }
    var smoothedData := MovingAverage(values, SmoothingWindow);
    MovingAverageWithin(values, SmoothingWindow, c, c);
    assert forall i :: 0 <= i < |smoothedData| ==> smoothedData[i] == c + 0.0 * i as real by {
      forall i | 0 <= i < |smoothedData| ensures smoothedData[i] == c + 0.0 * i as real {
        assert smoothedData[i] in smoothedData;
      }
    }
    ExactLineFit(smoothedData, c, 0.0);
    var p := NextValue(CalculateLinearRegression(smoothedData), |smoothedData|);
    assert p == c;
    ConstantSeriesConfidence(smoothedData, c, sqrt);
    Round2Grid(100);
    assert 100 as real / 100.0 == 1.0;
  }

  // ---------------------------------------------------------------------------
  // predictSales: what the whole result promises
  // ---------------------------------------------------------------------------

  /** The unsorted list holds each product's prediction, under that product's id. */
  lemma ProductPredictionsIds(rows: seq<SalesData>, sqrt: real -> real)
    ensures var ps, ids := ProductPredictions(rows, sqrt), DistinctIds(rows);
      forall i :: 0 <= i < |ps| ==> ps[i].productId == ids[i]
  {
    var ps, ids := ProductPredictions(rows, sqrt), DistinctIds(rows);
    forall i | 0 <= i < |ps| ensures ps[i].productId == ids[i] {
      DistinctIdsMember(rows, ids[i]);
      PredictProductIdentity(ids[i], RowsOf(rows, ids[i]), sqrt);
    }
  }

  /** predictSales returns the largest predicted daily sales first. */
  lemma PredictionsOrdered(rows: seq<SalesData>, sqrt: real -> real)
    ensures var ps := Predictions(rows, sqrt);
      forall i, j :: 0 <= i < j < |ps| ==> ps[i].predictedDailySales >= ps[j].predictedDailySales
  {
    var ps := Predictions(rows, sqrt);
    assert StableSort.SortedBy(ps, ByPredictedDesc);
    forall i, j | 0 <= i < j < |ps|
      ensures ps[i].predictedDailySales >= ps[j].predictedDailySales
    {
      assert ByPredictedDesc(ps[i]) <= ByPredictedDesc(ps[j]);
    }
  }

  /** The ids of a list of predictions. */
  function IdsOf(ps: seq<PredictionResult>): set<int> {
    set i | 0 <= i < |ps| :: ps[i].productId
  }

  /** The ids of the input rows. */
  function RowIds(rows: seq<SalesData>): set<int> {
    set k | 0 <= k < |rows| :: rows[k].productId
  }

  /** Reordering predictions filed under pairwise different ids keeps them so, and keeps the ids. */
  lemma ReorderedIds(us: seq<PredictionResult>, ps: seq<PredictionResult>, ids: seq<int>)
    requires multiset(us) == multiset(ps) && |us| == |ids|
    requires forall i :: 0 <= i < |us| ==> us[i].productId == ids[i]
    requires forall i, j :: 0 <= i < j < |ids| ==> ids[i] != ids[j]
    ensures forall i, j :: 0 <= i < j < |ps| ==> ps[i].productId != ps[j].productId
    ensures IdsOf(ps) == set id | id in ids
  {
    StableSort.PermutationKeepsKeysDistinct(us, ps, (p: PredictionResult) => p.productId);
    forall id | id in IdsOf(ps) ensures id in ids {
      var i :| 0 <= i < |ps| && ps[i].productId == id;
      assert ps[i] in multiset(us);
      var k :| 0 <= k < |us| && us[k] == ps[i];
    }
    forall id | id in ids ensures id in IdsOf(ps) {
      var k :| 0 <= k < |ids| && ids[k] == id;
      assert us[k] in multiset(ps);
      var i :| 0 <= i < |ps| && ps[i] == us[k];
    }
  }

  /** The grouping's keys are the ids of the input rows. */
  lemma DistinctIdsAreRowIds(rows: seq<SalesData>)
    ensures (set id | id in DistinctIds(rows)) == RowIds(rows)
  {
    forall id ensures id in DistinctIds(rows) <==> id in RowIds(rows) {
      DistinctIdsMember(rows, id);
    }
  }

  /** predictSales files no two predictions under the same product id. */
  lemma PredictionIdsDistinct(rows: seq<SalesData>, sqrt: real -> real)
    ensures var ps := Predictions(rows, sqrt);
      forall i, j :: 0 <= i < j < |ps| ==> ps[i].productId != ps[j].productId
  {
    ProductPredictionsIds(rows, sqrt);
    ReorderedIds(ProductPredictions(rows, sqrt), Predictions(rows, sqrt), DistinctIds(rows));
  }

  /**
    * predictSales returns exactly one prediction per product that occurs in the input,
    * and each is the prediction computed from all of that product's rows.
    */
  lemma PredictionsOnePerProduct(rows: seq<SalesData>, sqrt: real -> real)
    ensures var ps := Predictions(rows, sqrt);
      && |ps| == |DistinctIds(rows)|
      && (forall i, j :: 0 <= i < j < |ps| ==> ps[i].productId != ps[j].productId)
      && IdsOf(ps) == RowIds(rows)
      && (forall i :: 0 <= i < |ps| ==>
            |RowsOf(rows, ps[i].productId)| > 0
            && ps[i] == PredictProduct(ps[i].productId, RowsOf(rows, ps[i].productId), sqrt))
  {
    var ps, us, ids := Predictions(rows, sqrt), ProductPredictions(rows, sqrt), DistinctIds(rows);
    ProductPredictionsIds(rows, sqrt);
    ReorderedIds(us, ps, ids);
    DistinctIdsAreRowIds(rows);
    PredictionsFromOwnRows(rows, sqrt);
  }

  /** Each sorted prediction is the one computed from all rows of its product. */
  lemma PredictionsFromOwnRows(rows: seq<SalesData>, sqrt: real -> real)
    ensures var ps := Predictions(rows, sqrt);
      forall i :: 0 <= i < |ps| ==>
        |RowsOf(rows, ps[i].productId)| > 0
        && ps[i] == PredictProduct(ps[i].productId, RowsOf(rows, ps[i].productId), sqrt)
  {
    var ps, us, ids := Predictions(rows, sqrt), ProductPredictions(rows, sqrt), DistinctIds(rows);
    ProductPredictionsIds(rows, sqrt);
    forall i | 0 <= i < |ps|
      ensures |RowsOf(rows, ps[i].productId)| > 0
      ensures ps[i] == PredictProduct(ps[i].productId, RowsOf(rows, ps[i].productId), sqrt)
    {
      assert ps[i] in multiset(us);
      var k :| 0 <= k < |us| && us[k] == ps[i];
      DistinctIdsMember(rows, ids[k]);
    }
  }

  /**
    * Products with equal predicted daily sales keep the order in which the input
    * first mentions them (the sort is stable).
    */
  lemma PredictionsTiesInInputOrder(rows: seq<SalesData>, sqrt: real -> real, daily: real)
    ensures StableSort.WithKey(Predictions(rows, sqrt), ByPredictedDesc, -daily)
         == StableSort.WithKey(ProductPredictions(rows, sqrt), ByPredictedDesc, -daily)
  {
    var ps := ProductPredictions(rows, sqrt);
    SortStableDesc(ps, daily);
  }

  lemma SortStableDesc(ps: seq<PredictionResult>, daily: real)
    ensures StableSort.WithKey(StableSort.Sort(ps, ByPredictedDesc), ByPredictedDesc, -daily)
         == StableSort.WithKey(ps, ByPredictedDesc, -daily)
  {
    StableSort.SortStable(ps, ByPredictedDesc, -daily);
  }
}
