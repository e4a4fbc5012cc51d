/**
 Forecast-quality scores in exact arithmetic. Mirrors weather_quality/metrics.py; the rounding to
 twelve digits is left out and a root mean square is any non-negative root of the mean square.
 */
module Metrics {
  import opened Basics

  /* ---------- sums and means ---------- */

  function Sum<T>(rows: seq<T>, f: T -> real): real {
    if rows == [] then 0.0 else f(rows[0]) + Sum(rows[1..], f)
  }

  function Mean<T>(rows: seq<T>, f: T -> real): real
    requires rows != []
  {
    Sum(rows, f) / |rows| as real
  }

  function Abs(x: real): real { if x < 0.0 then -x else x }

  lemma {:induction false} SumAppend<T>(a: seq<T>, b: seq<T>, f: T -> real)
    ensures Sum(a + b, f) == Sum(a, f) + Sum(b, f)
  {
    if a == [] {
      assert a + b == b;
    } else {
      assert (a + b)[1..] == a[1..] + b;
      SumAppend(a[1..], b, f);
    }
  }

  lemma {:induction false} SumMonotone<T>(rows: seq<T>, f: T -> real, g: T -> real)
    requires forall i :: 0 <= i < |rows| ==> f(rows[i]) <= g(rows[i])
    ensures Sum(rows, f) <= Sum(rows, g)
  {
    if rows != [] {
      SumMonotone(rows[1..], f, g);
    }
  }

  lemma {:induction false} SumCombines<T>(rows: seq<T>, f: T -> real, g: T -> real, c: real, h: T -> real)
    requires forall i :: 0 <= i < |rows| ==> h(rows[i]) == f(rows[i]) + c * g(rows[i])
    ensures Sum(rows, h) == Sum(rows, f) + c * Sum(rows, g)
  {
    if rows != [] {
      SumCombines(rows[1..], f, g, c, h);
    }
  }

  lemma {:induction false} SumOfNonNegative<T>(rows: seq<T>, f: T -> real)
    requires forall i :: 0 <= i < |rows| ==> f(rows[i]) >= 0.0
    ensures Sum(rows, f) >= 0.0
    ensures Sum(rows, f) == 0.0 <==> forall i :: 0 <= i < |rows| ==> f(rows[i]) == 0.0
  {
    if rows != [] {
      SumOfNonNegative(rows[1..], f);
      if Sum(rows, f) == 0.0 {
        forall i | 0 <= i < |rows| ensures f(rows[i]) == 0.0 {
          assert i > 0 ==> rows[i] == rows[1..][i - 1];
        }
      }
    }
  }

  lemma {:induction false} SumOfConstant<T>(rows: seq<T>, f: T -> real, c: real)
    requires forall i :: 0 <= i < |rows| ==> f(rows[i]) == c
    ensures Sum(rows, f) == c * |rows| as real
  {
    if rows != [] {
      SumOfConstant(rows[1..], f, c);
    }
  }

  /* ---------- products and quotients ---------- */

  function Times(a: real, b: real): real { a * b }

  function Square(x: real): real { Times(x, x) }

  lemma PositiveProduct(a: real, b: real)
    requires a > 0.0 && b > 0.0
    ensures Times(a, b) > 0.0
  {
  }

  lemma SquareIsPositive(a: real)
    ensures a == 0.0 ==> Square(a) == 0.0
    ensures a != 0.0 ==> Square(a) > 0.0
  {
    if a < 0.0 {
      PositiveProduct(-a, -a);
    } else if a > 0.0 {
      PositiveProduct(a, a);
    }
  }

  lemma SquareOrder(a: real, b: real)
    requires a >= 0.0 && b >= 0.0
    ensures Square(a) < Square(b) <==> a < b
    ensures Square(a) == Square(b) <==> a == b
  {
    if a < b {
      PositiveProduct(b - a, b + a);
      assert Times(b - a, b + a) == Square(b) - Square(a);
    } else if b < a {
      PositiveProduct(a - b, a + b);
      assert Times(a - b, a + b) == Square(a) - Square(b);
    }
  }

  lemma DivideBoth(a: real, b: real, n: real)
    requires n > 0.0
    ensures a < b <==> a / n < b / n
    ensures a == b <==> a / n == b / n
  {
    var x, y := a / n, b / n;
    assert a == x * n && b == y * n;
    if x < y {
      PositiveProduct(y - x, n);
      assert Times(y - x, n) == b - a;
    } else if y < x {
      PositiveProduct(x - y, n);
      assert Times(x - y, n) == a - b;
    }
  }

  lemma DivideAbs(a: real, n: real)
    requires n > 0.0
    ensures Abs(a) / n == Abs(a / n)
  {
    DivideBoth(a, 0.0, n);
    assert 0.0 / n == 0.0;
    assert (-a) / n == -(a / n);
  }

  lemma DivideProduct(q: real, s: real, n: real)
    requires n > 0.0
    ensures q * n < s <==> q < s / n
    ensures q * n == s <==> q == s / n
  {
    assert (q * n) / n == q;
    DivideBoth(q * n, s, n);
  }

  /* ---------- mean, mean size and mean square ---------- */

  /** `size` is the magnitude of `f`, and `square` its square, on these rows. */
  ghost predicate Sizes<T>(rows: seq<T>, f: T -> real, size: T -> real) {
    forall i :: 0 <= i < |rows| ==> size(rows[i]) == Abs(f(rows[i]))
  }

  ghost predicate Squares<T>(rows: seq<T>, f: T -> real, square: T -> real) {
    forall i :: 0 <= i < |rows| ==> square(rows[i]) == Square(f(rows[i]))
  }

  /** No value of one sign is hidden by a value of the other. */
  ghost predicate OneSided<T>(rows: seq<T>, f: T -> real) {
    (forall i :: 0 <= i < |rows| ==> f(rows[i]) >= 0.0) || (forall i :: 0 <= i < |rows| ==> f(rows[i]) <= 0.0)
  }

  lemma SumWithinSizes<T>(rows: seq<T>, f: T -> real, size: T -> real)
    requires Sizes(rows, f, size)
    ensures Abs(Sum(rows, f)) <= Sum(rows, size)
    ensures Abs(Sum(rows, f)) == Sum(rows, size) <==> OneSided(rows, f)
  {
    hide Sum;
    var below, above := x => size(x) + -1.0 * f(x), x => size(x) + 1.0 * f(x);
    SumCombines(rows, size, f, -1.0, below);
    SumCombines(rows, size, f, 1.0, above);
    SumOfNonNegative(rows, below);
    SumOfNonNegative(rows, above);
  }

  /** The mean is no larger than the mean size, and as large only for one-sided values. */
  lemma MeanWithinSize<T>(rows: seq<T>, f: T -> real, size: T -> real)
    requires rows != [] && Sizes(rows, f, size)
    ensures 0.0 <= Abs(Mean(rows, f)) <= Mean(rows, size)
    ensures Abs(Mean(rows, f)) == Mean(rows, size) <==> OneSided(rows, f)
  {
    var n := |rows| as real;
    SumWithinSizes(rows, f, size);
    DivideAbs(Sum(rows, f), n);
    DivideBoth(Abs(Sum(rows, f)), Sum(rows, size), n);
  }

  lemma SquaredDeviation(a: real, m: real)
    ensures Square(a - m) == (Square(a) + (-2.0 * m) * a) + Square(m) * 1.0
  {
  }

  /** The squared deviations from the mean add up to the squares less n times the squared mean. */
  lemma SumOfDeviations<T>(rows: seq<T>, f: T -> real, square: T -> real, m: real, spread: T -> real)
    requires Squares(rows, f, square) && Sum(rows, f) == m * |rows| as real
    requires forall i :: 0 <= i < |rows| ==> spread(rows[i]) == Square(f(rows[i]) - m)
    ensures Sum(rows, spread) == Sum(rows, square) - Square(m) * |rows| as real
  {
    hide Sum;
    var linear, one, n := x => square(x) + (-2.0 * m) * f(x), (x: T) => 1.0, |rows| as real;
    SumOfConstant(rows, one, 1.0);
    forall i | 0 <= i < |rows| ensures spread(rows[i]) == linear(rows[i]) + Square(m) * one(rows[i]) {
      SquaredDeviation(f(rows[i]), m);
    }
    SumCombines(rows, square, f, -2.0 * m, linear);
    SumCombines(rows, linear, one, Square(m), spread);
    TwiceAndBack(Sum(rows, square), m, n);
  }

  lemma TwiceAndBack(squares: real, m: real, n: real)
    ensures (squares + (-2.0 * m) * (m * n)) + Square(m) * (1.0 * n) == squares - Square(m) * n
  {
    assert (-2.0 * m) * (m * n) == -2.0 * (Square(m) * n);
  }

  /** The square of a mean is at most the mean of squares, and equal only for constant values. */
  lemma MeanWithinSquares<T>(rows: seq<T>, f: T -> real, square: T -> real)
    requires rows != [] && Squares(rows, f, square)
    ensures var m := Mean(rows, f); Square(m) <= Mean(rows, square)
    ensures var m := Mean(rows, f); Square(m) == Mean(rows, square) <==> forall i :: 0 <= i < |rows| ==> f(rows[i]) == m
  {
    hide Sum, Square;
    var m, n := Mean(rows, f), |rows| as real;
    var spread := x => Square(f(x) - m);
    forall i | 0 <= i < |rows| ensures spread(rows[i]) >= 0.0 && (spread(rows[i]) == 0.0 <==> f(rows[i]) == m) {
      SquareIsPositive(f(rows[i]) - m);
    }
    SumOfDeviations(rows, f, square, m, spread);
    SumOfNonNegative(rows, spread);
    DivideProduct(Square(m), Sum(rows, square), n);
  }

  /* ---------- continuous metrics ---------- */

  datatype Error = NoPairs | BadProbability | BadTruth | BadPositiveLabel | MixedTypes | BlankValue

  datatype Pair = Pair(forecast: real, observed: real)

  function Miss(p: Pair): real { p.forecast - p.observed }

  function AbsoluteMiss(p: Pair): real { Abs(Miss(p)) }

  function SquaredMiss(p: Pair): real { Square(Miss(p)) }

  datatype Continuous = Continuous(count: nat, mae: real, meanSquare: real, bias: real)

  function ContinuousMetrics(rows: seq<Pair>): (r: Result<Continuous, Error>)
    ensures r.Err? <==> rows == []
  {
    if rows == [] then Err(NoPairs)
    else Ok(Continuous(|rows|, Mean(rows, AbsoluteMiss), Mean(rows, SquaredMiss), Mean(rows, Miss)))
  }

  ghost predicate IsRoot(root: real, square: real) { root >= 0.0 && Square(root) == square }

  /** |bias| <= MAE <= RMSE, with the exact condition for each to be an equality. */
  lemma ContinuousOrder(rows: seq<Pair>, rmse: real)
    requires rows != [] && IsRoot(rmse, ContinuousMetrics(rows).value.meanSquare)
    ensures var m := ContinuousMetrics(rows).value;
      && Abs(m.bias) <= m.mae <= rmse
      && (Abs(m.bias) == m.mae <==> OneSided(rows, Miss))
      && (m.mae == rmse <==> forall i :: 0 <= i < |rows| ==> AbsoluteMiss(rows[i]) == m.mae)
  {
    hide Mean, Sum;
    MeanWithinSize(rows, Miss, AbsoluteMiss);
    MeanWithinSquares(rows, AbsoluteMiss, SquaredMiss);
    SquareOrder(ContinuousMetrics(rows).value.mae, rmse);
  }

  /* ---------- probability metrics ---------- */

  /** A forecast probability and whether the event happened (1) or not (0). */
  datatype Event = Event(probability: real, truth: int)

  predicate InUnit(x: real) { 0.0 <= x <= 1.0 }

  predicate ValidEvent(e: Event) { InUnit(e.probability) && (e.truth == 0 || e.truth == 1) }

  ghost predicate ValidEvents(rows: seq<Event>) { forall i :: 0 <= i < |rows| ==> ValidEvent(rows[i]) }

  function Probability(e: Event): real { e.probability }

  function Occurred(e: Event): real { e.truth as real }

  function Residual(e: Event): real { e.probability - e.truth as real }

  function AbsoluteResidual(e: Event): real { Abs(Residual(e)) }

  function BrierComponent(e: Event): real { Square(Residual(e)) }

  /** The bin a probability falls in; 1.0 goes in the last one. */
  function BinIndex(p: real): (k: nat)
    requires InUnit(p)
    ensures k < 10
    ensures k as real / 10.0 <= p
    ensures p < (k + 1) as real / 10.0 || (k == 9 && p == 1.0)
  {
    var k := (p * 10.0).Floor;
    if k < 9 then k else 9
  }

  function InBin(rows: seq<Event>, k: nat): seq<Event>
    requires ValidEvents(rows)
  {
    if rows == [] then []
    else (if BinIndex(rows[0].probability) == k then [rows[0]] else []) + InBin(rows[1..], k)
  }

  datatype Bin = Bin(
    index: nat, lower: real, upper: real, upperInclusive: bool,
    count: nat, meanForecast: Option<real>, frequency: Option<real>, gap: real)

  datatype Probabilistic = Probabilistic(count: nat, brier: real, calibrationError: real, bins: seq<Bin>)

  function Weighted(gap: real, weight: nat, n: nat): real
    requires n > 0
  {
    gap * weight as real / n as real
  }

  function Gap(bucket: seq<Event>, n: nat): real
    requires n > 0
  {
    if bucket == [] then 0.0
    else Weighted(Abs(Mean(bucket, Probability) - Mean(bucket, Occurred)), |bucket|, n)
  }

  function BinOf(bucket: seq<Event>, k: nat, n: nat): Bin
    requires n > 0
  {
    Bin(k, k as real / 10.0, (k + 1) as real / 10.0, k == 9, |bucket|,
        if bucket == [] then None else Some(Mean(bucket, Probability)),
        if bucket == [] then None else Some(Mean(bucket, Occurred)),
        Gap(bucket, n))
  }

  /** The gaps of the first `bins` bins together. */
  function CalibrationError(rows: seq<Event>, bins: nat): real
    requires rows != [] && ValidEvents(rows)
  {
    if bins == 0 then 0.0 else CalibrationError(rows, bins - 1) + Gap(InBin(rows, bins - 1), |rows|)
  }

  lemma {:induction false} InBinAppend(rows: seq<Event>, e: Event, k: nat)
    requires ValidEvents(rows) && ValidEvent(e)
    ensures ValidEvents(rows + [e])
    ensures InBin(rows + [e], k) == InBin(rows, k) + (if BinIndex(e.probability) == k then [e] else [])
  {
    if rows == [] {
      assert [e][1..] == [];
    } else {
      assert (rows + [e])[1..] == rows[1..] + [e];
      InBinAppend(rows[1..], e, k);
    }
  }

  /** A bin holds exactly the rows whose probability lies between its bounds. */
  lemma {:induction false} BinHolds(rows: seq<Event>, k: nat, e: Event)
    requires ValidEvents(rows) && k < 10
    ensures e in InBin(rows, k) <==> e in rows && BinIndex(e.probability) == k
  {
    if rows != [] {
      BinHolds(rows[1..], k, e);
      assert rows == [rows[0]] + rows[1..];
    }
  }

  /** Summing over the rows of the first `bins` bins. */
  function SumOverBins(rows: seq<Event>, f: Event -> real, bins: nat): real
    requires ValidEvents(rows)
  {
    if bins == 0 then 0.0 else SumOverBins(rows, f, bins - 1) + Sum(InBin(rows, bins - 1), f)
  }

  lemma {:induction false} SumOverBinsStep(rows: seq<Event>, f: Event -> real, bins: nat)
    requires rows != [] && ValidEvents(rows)
    ensures ValidEvents(rows[1..])
    ensures SumOverBins(rows, f, bins)
      == SumOverBins(rows[1..], f, bins) + (if BinIndex(rows[0].probability) < bins then f(rows[0]) else 0.0)
  {
    if bins > 0 {
      SumOverBinsStep(rows, f, bins - 1);
      var first := if BinIndex(rows[0].probability) == bins - 1 then [rows[0]] else [];
      SumAppend(first, InBin(rows[1..], bins - 1), f);
    }
  }

  /** The ten bins partition the sample: any total over the rows is the total over the bins. */
  lemma {:induction false} BinsPartition(rows: seq<Event>, f: Event -> real)
    requires ValidEvents(rows)
    ensures SumOverBins(rows, f, 10) == Sum(rows, f)
    decreases |rows|
  {
    if rows == [] {
      EmptyBins(f, 10);
    } else {
      SumOverBinsStep(rows, f, 10);
      BinsPartition(rows[1..], f);
    }
  }

  lemma {:induction false} EmptyBins(f: Event -> real, bins: nat)
    ensures SumOverBins([], f, bins) == 0.0
  {
    if bins > 0 {
      EmptyBins(f, bins - 1);
    }
  }

  /** A bin's weighted gap is the magnitude of its residuals' sum, over the sample size. */
  lemma GapIsResidual(bucket: seq<Event>, n: nat)
    requires n > 0
    ensures Gap(bucket, n) == Abs(Sum(bucket, Residual)) / n as real
  {
    if bucket != [] {
      hide Sum, Weighted;
      SumCombines(bucket, Probability, Occurred, -1.0, Residual);
      WeightCancels(Sum(bucket, Probability), Sum(bucket, Occurred), |bucket|, n);
    }
  }

  lemma WeightCancels(p: real, o: real, m: nat, n: nat)
    requires m > 0 && n > 0
    ensures Weighted(Abs(p / m as real - o / m as real), m, n) == Abs(p - o) / n as real
  {
    var weight := m as real;
    DivideAbs(p - o, weight);
    assert p / weight - o / weight == (p - o) / weight;
    assert Abs(p - o) / weight * weight == Abs(p - o);
  }

  lemma {:induction false} CalibrationBounds(rows: seq<Event>, bins: nat)
    requires rows != [] && ValidEvents(rows)
    ensures Abs(SumOverBins(rows, Residual, bins)) / |rows| as real <= CalibrationError(rows, bins)
    ensures CalibrationError(rows, bins) <= SumOverBins(rows, AbsoluteResidual, bins) / |rows| as real
  {
    var n := |rows| as real;
    if bins > 0 {
      CalibrationBounds(rows, bins - 1);
      var bucket := InBin(rows, bins - 1);
      GapIsResidual(bucket, |rows|);
      SumWithinSizes(bucket, Residual, AbsoluteResidual);
      DivideBoth(Abs(Sum(bucket, Residual)), Sum(bucket, AbsoluteResidual), n);
      AddQuotients(SumOverBins(rows, AbsoluteResidual, bins - 1), Sum(bucket, AbsoluteResidual), n);
      AddQuotients(Abs(SumOverBins(rows, Residual, bins - 1)), Abs(Sum(bucket, Residual)), n);
      DivideBoth(Abs(SumOverBins(rows, Residual, bins)),
                 Abs(SumOverBins(rows, Residual, bins - 1)) + Abs(Sum(bucket, Residual)), n);
    }
  }

  lemma AddQuotients(a: real, b: real, n: real)
    requires n > 0.0
    ensures (a + b) / n == a / n + b / n
  {
  }

  /** Residuals never exceed one, so squaring shrinks them. */
  lemma ResidualsAreSmall(rows: seq<Event>)
    requires rows != [] && ValidEvents(rows)
    ensures Mean(rows, BrierComponent) <= Mean(rows, AbsoluteResidual) <= 1.0
  {
    var n, one := |rows| as real, (e: Event) => 1.0;
    forall i | 0 <= i < |rows|
      ensures BrierComponent(rows[i]) <= AbsoluteResidual(rows[i]) <= one(rows[i])
    {
      SmallSquare(Residual(rows[i]));
    }
    SumMonotone(rows, BrierComponent, AbsoluteResidual);
    SumMonotone(rows, AbsoluteResidual, one);
    SumOfConstant(rows, one, 1.0);
    DivideBoth(Sum(rows, BrierComponent), Sum(rows, AbsoluteResidual), n);
    DivideBoth(Sum(rows, AbsoluteResidual), n, n);
  }

  lemma SmallSquare(r: real)
    requires -1.0 <= r <= 1.0
    ensures Square(r) <= Abs(r) <= 1.0
  {
    var size := Abs(r);
    assert Square(r) == Times(size, size);
    if 0.0 < size < 1.0 {
      PositiveProduct(size, 1.0 - size);
      assert Times(size, 1.0 - size) == size - Times(size, size);
    }
  }

  /**
   Calibration in the large bounds the calibration error from below, the mean absolute error from
   above, and the square of either mean is within the Brier score, which is itself at most one.
   */
  lemma ProbabilityOrder(rows: seq<Event>)
    requires rows != [] && ValidEvents(rows)
    ensures var ece, mae, brier := CalibrationError(rows, 10), Mean(rows, AbsoluteResidual), Mean(rows, BrierComponent);
      && 0.0 <= Abs(Mean(rows, Residual)) <= ece <= mae <= 1.0
      && Square(ece) <= Square(mae) <= brier <= mae
  {
    var ece, mae, n := CalibrationError(rows, 10), Mean(rows, AbsoluteResidual), |rows| as real;
    BinsPartition(rows, Residual);
    BinsPartition(rows, AbsoluteResidual);
    CalibrationBounds(rows, 10);
    DivideAbs(Sum(rows, Residual), n);
    ResidualsAreSmall(rows);
    SquareOrder(ece, mae);
    forall i | 0 <= i < |rows| ensures BrierComponent(rows[i]) == Square(AbsoluteResidual(rows[i])) {
      SquareOfAbs(Residual(rows[i]));
    }
    MeanWithinSquares(rows, AbsoluteResidual, BrierComponent);
  }

  lemma SquareOfAbs(r: real)
    ensures Square(Abs(r)) == Square(r)
  {
    assert (-r) * (-r) == r * r;
  }

  function ProbabilityScores(rows: seq<Event>): Probabilistic
    requires rows != [] && ValidEvents(rows)
  {
    Probabilistic(|rows|, Mean(rows, BrierComponent), CalibrationError(rows, 10),
                  seq(10, k requires 0 <= k < 10 => BinOf(InBin(rows, k), k, |rows|)))
  }

  /** The first row that is refused, and why. */
  ghost predicate RefusedAt(rows: seq<Event>, i: nat, error: Error) {
    && i < |rows| && ValidEvents(rows[..i]) && !ValidEvent(rows[i])
    && error == if InUnit(rows[i].probability) then BadTruth else BadProbability
  }

  method ProbabilityMetrics(rows: seq<Event>) returns (r: Result<Probabilistic, Error>)
    ensures r.Ok? <==> rows != [] && ValidEvents(rows)
    ensures r.Err? ==> if rows == [] then r.error == NoPairs else exists i :: RefusedAt(rows, i, r.error)
    ensures r.Ok? ==> r.value == ProbabilityScores(rows)
  {
    if rows == [] { return Err(NoPairs); }
    for i := 0 to |rows|
      invariant ValidEvents(rows[..i])
    {
      if !InUnit(rows[i].probability) {
        assert RefusedAt(rows, i, BadProbability);
        return Err(BadProbability);
      }
      if rows[i].truth != 0 && rows[i].truth != 1 {
        assert RefusedAt(rows, i, BadTruth);
        return Err(BadTruth);
      }
    }
    assert rows[..|rows|] == rows;
    var buckets := FillBuckets(rows);
    var bins, calibrationError := Calibrate(rows, buckets);
    assert bins == ProbabilityScores(rows).bins;
    return Ok(Probabilistic(|rows|, Mean(rows, BrierComponent), calibrationError, bins));
  }

  method Calibrate(rows: seq<Event>, buckets: array<seq<Event>>) returns (bins: seq<Bin>, calibrationError: real)
    requires rows != [] && ValidEvents(rows)
    requires buckets.Length == 10 && forall k :: 0 <= k < 10 ==> buckets[k] == InBin(rows, k)
    ensures calibrationError == CalibrationError(rows, 10) && |bins| == 10
    ensures forall k :: 0 <= k < 10 ==> bins[k] == BinOf(InBin(rows, k), k, |rows|)
  {
    hide Mean, InBin, Weighted;
    bins, calibrationError := [], 0.0;
    for k := 0 to 10
      invariant |bins| == k && calibrationError == CalibrationError(rows, k)
      invariant forall j :: 0 <= j < k ==> bins[j] == BinOf(InBin(rows, j), j, |rows|)
    {
      var bucket := buckets[k];
      var bin := Bin(k, k as real / 10.0, (k + 1) as real / 10.0, k == 9, |bucket|, None, None, 0.0);
      if bucket != [] {
        var meanForecast, frequency := Mean(bucket, Probability), Mean(bucket, Occurred);
        var gap := Weighted(Abs(meanForecast - frequency), |bucket|, |rows|);
        calibrationError := calibrationError + gap;
        bin := bin.(meanForecast := Some(meanForecast), frequency := Some(frequency), gap := gap);
      }
      bins := bins + [bin];
    }
  }

  method FillBuckets(rows: seq<Event>) returns (buckets: array<seq<Event>>)
    requires ValidEvents(rows)
    ensures buckets.Length == 10
    ensures forall k :: 0 <= k < 10 ==> buckets[k] == InBin(rows, k)
  {
    buckets := new seq<Event>[10](_ => []);
    for i := 0 to |rows|
      invariant ValidEvents(rows[..i])
      invariant forall k :: 0 <= k < 10 ==> buckets[k] == InBin(rows[..i], k)
    {
      assert rows[..i + 1] == rows[..i] + [rows[i]];
      forall k: nat | k < 10 { InBinAppend(rows[..i], rows[i], k); }
      var home := BinIndex(rows[i].probability);
      buckets[home] := buckets[home] + [rows[i]];
    }
    assert rows[..|rows|] == rows;
  }

  /* ---------- categorical metrics ---------- */

  datatype Label = Flag(flag: bool) | Text(text: string)

  /** The blanks are the ASCII ones. */
  predicate IsBlank(s: string) { forall i :: 0 <= i < |s| ==> s[i] in " \t\r\n" }

  predicate SameKind(a: Label, b: Label) { a.Flag? == b.Flag? }

  predicate BlankText(a: Label) { a.Text? && IsBlank(a.text) }

  function RowProblem(rows: seq<(Label, Label)>, positive: Label): Option<Error> {
    if rows == [] then None
    else if !SameKind(rows[0].0, positive) || !SameKind(rows[0].1, positive) then Some(MixedTypes)
    else if BlankText(rows[0].0) || BlankText(rows[0].1) then Some(BlankValue)
    else RowProblem(rows[1..], positive)
  }

  function Problem(rows: seq<(Label, Label)>, positive: Label): Option<Error> {
    if rows == [] then Some(NoPairs)
    else if BlankText(positive) then Some(BadPositiveLabel)
    else RowProblem(rows, positive)
  }

  /** Whether each row's prediction and observation are the positive label. */
  function Binary(rows: seq<(Label, Label)>, positive: Label): (r: seq<(bool, bool)>)
    ensures |r| == |rows|
  {
    seq(|rows|, i requires 0 <= i < |rows| => (rows[i].0 == positive, rows[i].1 == positive))
  }

  function Tally(rows: seq<(bool, bool)>, cell: (bool, bool)): (n: nat)
    ensures n <= |rows|
  {
    if rows == [] then 0 else (if rows[0] == cell then 1 else 0) + Tally(rows[1..], cell)
  }

  function Ratio(numerator: nat, denominator: nat): Option<real> {
    if denominator == 0 then None else Some(numerator as real / denominator as real)
  }

  function HarmonicMean(p: real, r: real): real
    requires p + r != 0.0
  {
    2.0 * Times(p, r) / (p + r)
  }

  function F1(precision: Option<real>, recall: Option<real>): Option<real> {
    if precision.None? || recall.None? || precision.value + recall.value == 0.0 then None
    else Some(HarmonicMean(precision.value, recall.value))
  }

  datatype Categorical = Categorical(
    count: nat, truePositive: nat, falsePositive: nat, trueNegative: nat, falseNegative: nat,
    precision: Option<real>, recall: Option<real>, f1: Option<real>, accuracy: real, prevalence: real)

  function Scores(rows: seq<(bool, bool)>): Categorical
    requires rows != []
  {
    var tp, fp, tn, fn := Tally(rows, (true, true)), Tally(rows, (true, false)), Tally(rows, (false, false)), Tally(rows, (false, true));
    var precision, recall, n := Ratio(tp, tp + fp), Ratio(tp, tp + fn), |rows| as real;
    Categorical(|rows|, tp, fp, tn, fn, precision, recall, F1(precision, recall),
                (tp + tn) as real / n, (tp + fn) as real / n)
  }

  function CategoricalMetrics(rows: seq<(Label, Label)>, positive: Label): (r: Result<Categorical, Error>)
    ensures r.Ok? <==>
      && rows != [] && !BlankText(positive)
      && forall i :: 0 <= i < |rows| ==>
        && SameKind(rows[i].0, positive) && SameKind(rows[i].1, positive)
        && !BlankText(rows[i].0) && !BlankText(rows[i].1)
  {
    NoRowProblem(rows, positive);
    if Problem(rows, positive).Some? then Err(Problem(rows, positive).value) else Ok(Scores(Binary(rows, positive)))
  }

  lemma {:induction false} NoRowProblem(rows: seq<(Label, Label)>, positive: Label)
    ensures RowProblem(rows, positive).None? <==> forall i :: 0 <= i < |rows| ==>
      && SameKind(rows[i].0, positive) && SameKind(rows[i].1, positive)
      && !BlankText(rows[i].0) && !BlankText(rows[i].1)
  {
    if rows != [] {
      NoRowProblem(rows[1..], positive);
      assert forall i :: 1 <= i < |rows| ==> rows[i] == rows[1..][i - 1];
    }
  }

  /** Every row is in exactly one cell of the confusion matrix. */
  lemma {:induction false} CellsSum(rows: seq<(bool, bool)>)
    ensures Tally(rows, (true, true)) + Tally(rows, (true, false)) + Tally(rows, (false, false)) + Tally(rows, (false, true)) == |rows|
  {
    if rows != [] {
      CellsSum(rows[1..]);
      match rows[0] {
        case (true, true) =>
        case (true, false) =>
        case (false, true) =>
        case (false, false) =>
      }
    }
  }

  lemma ShareIsInUnit(part: nat, n: nat)
    requires part <= n && n > 0
    ensures InUnit(part as real / n as real)
  {
    var m := n as real;
    DivideBoth(part as real, m, m);
    DivideBoth(0.0, part as real, m);
  }

  lemma RatioSign(numerator: nat, denominator: nat)
    requires numerator <= denominator && denominator > 0
    ensures var ratio := numerator as real / denominator as real; 0.0 <= ratio && (ratio == 0.0 <==> numerator == 0)
  {
    DivideBoth(0.0, numerator as real, denominator as real);
  }

  ghost predicate Between(a: real, x: real, b: real) { a <= x <= b || b <= x <= a }

  lemma HarmonicMeanOrder(p: real, r: real)
    requires 0.0 < p <= r
    ensures p <= HarmonicMean(p, r) <= r
  {
    var twice, n := 2.0 * Times(p, r), p + r;
    if p < r {
      PositiveProduct(p, r - p);
      PositiveProduct(r, r - p);
      assert twice - p * n == Times(p, r - p) && r * n - twice == Times(r, r - p);
    }
    DivideProduct(p, twice, n);
    DivideProduct(r, twice, n);
  }

  /** F1 exists exactly when something was found, and lies between precision and recall. */
  lemma F1Order(tp: nat, fp: nat, fn: nat)
    ensures var precision, recall := Ratio(tp, tp + fp), Ratio(tp, tp + fn);
      var f1 := F1(precision, recall);
      && (f1.Some? <==> tp > 0)
      && (f1.Some? ==> Between(precision.value, f1.value, recall.value))
  {
    if tp + fp > 0 && tp + fn > 0 {
      RatioSign(tp, tp + fp);
      RatioSign(tp, tp + fn);
      if tp > 0 {
        var p, r := Ratio(tp, tp + fp).value, Ratio(tp, tp + fn).value;
        assert HarmonicMean(p, r) == HarmonicMean(r, p);
        if p <= r { HarmonicMeanOrder(p, r); } else { HarmonicMeanOrder(r, p); }
      }
    }
  }

  /** The confusion counts add up to the sample, and every derived score is in range. */
  lemma ScoresOrder(rows: seq<(bool, bool)>)
    requires rows != []
    ensures var s := Scores(rows);
      && s.truePositive + s.falsePositive + s.trueNegative + s.falseNegative == s.count == |rows|
      && InUnit(s.accuracy) && InUnit(s.prevalence)
      && (s.f1.Some? <==> s.truePositive > 0)
      && (s.f1.Some? ==> Between(s.precision.value, s.f1.value, s.recall.value))
  {
    hide F1, Ratio, Tally, Between;
    CellsSum(rows);
    var s := Scores(rows);
    ShareIsInUnit(s.truePositive + s.trueNegative, s.count);
    ShareIsInUnit(s.truePositive + s.falseNegative, s.count);
    F1Order(s.truePositive, s.falsePositive, s.falseNegative);
  }

  /* ---------- probabilities against the 0.5 threshold ---------- */

  datatype Outcome = TruePositive | FalsePositive | FalseNegative | TrueNegative

  /** The outcome a row's own score gives it. */
  function OutcomeOf(e: Event): Outcome {
    var predicted, observed := e.probability >= 0.5, e.truth != 0;
    if predicted && observed then TruePositive
    else if predicted then FalsePositive
    else if observed then FalseNegative
    else TrueNegative
  }

  function Occurrences(rows: seq<Event>, outcome: Outcome): nat {
    if rows == [] then 0 else (if OutcomeOf(rows[0]) == outcome then 1 else 0) + Occurrences(rows[1..], outcome)
  }

  /** The pairs evaluation hands to the categorical metrics. */
  function Thresholded(rows: seq<Event>): (r: seq<(Label, Label)>)
    ensures |r| == |rows|
  {
    seq(|rows|, i requires 0 <= i < |rows| => (Flag(rows[i].probability >= 0.5), Flag(rows[i].truth != 0)))
  }

  function Cell(outcome: Outcome): (bool, bool) {
    match outcome
    case TruePositive => (true, true)
    case FalsePositive => (true, false)
    case FalseNegative => (false, true)
    case TrueNegative => (false, false)
  }

  lemma {:induction false} CellCountsOutcome(rows: seq<Event>, outcome: Outcome)
    ensures Tally(Binary(Thresholded(rows), Flag(true)), Cell(outcome)) == Occurrences(rows, outcome)
  {
    var cells := Binary(Thresholded(rows), Flag(true));
    if rows != [] {
      CellCountsOutcome(rows[1..], outcome);
      assert cells[1..] == Binary(Thresholded(rows[1..]), Flag(true));
    }
  }

  /** The confusion counts of thresholded probabilities are the counts of the per-row outcomes. */
  lemma ThresholdAgrees(rows: seq<Event>)
    requires rows != []
    ensures var r := CategoricalMetrics(Thresholded(rows), Flag(true));
      && r.Ok?
      && r.value.truePositive == Occurrences(rows, TruePositive)
      && r.value.falsePositive == Occurrences(rows, FalsePositive)
      && r.value.trueNegative == Occurrences(rows, TrueNegative)
      && r.value.falseNegative == Occurrences(rows, FalseNegative)
  {
    CellCountsOutcome(rows, TruePositive);
    CellCountsOutcome(rows, FalsePositive);
    CellCountsOutcome(rows, TrueNegative);
    CellCountsOutcome(rows, FalseNegative);
  }

  lemma {:induction false} WrongRowsCostAQuarter(rows: seq<Event>)
    requires ValidEvents(rows)
    ensures (Occurrences(rows, FalsePositive) + Occurrences(rows, FalseNegative)) as real <= 4.0 * Sum(rows, BrierComponent)
  {
    if rows != [] {
      WrongRowsCostAQuarter(rows[1..]);
      WrongRowCost(rows[0]);
    }
  }

  lemma WrongRowCost(e: Event)
    requires ValidEvent(e)
    ensures 4.0 * BrierComponent(e) >= if OutcomeOf(e) in {FalsePositive, FalseNegative} then 1.0 else 0.0
  {
    var size := AbsoluteResidual(e);
    SquareOfAbs(Residual(e));
    SquareIsPositive(size);
    if OutcomeOf(e) in {FalsePositive, FalseNegative} {
      SquareOrder(0.5, size);
      assert Square(0.5) == 0.25;
    }
  }

  /** The share of misclassified rows is at most four times the Brier score. */
  lemma BrierBoundsErrors(rows: seq<Event>)
    requires rows != [] && ValidEvents(rows)
    ensures var s := CategoricalMetrics(Thresholded(rows), Flag(true)).value;
      1.0 - s.accuracy <= 4.0 * Mean(rows, BrierComponent)
  {
    hide Sum, Tally, Occurrences, F1, Ratio, Binary, Thresholded;
    ThresholdAgrees(rows);
    CellsSum(Binary(Thresholded(rows), Flag(true)));
    WrongRowsCostAQuarter(rows);
    var s := CategoricalMetrics(Thresholded(rows), Flag(true)).value;
    ErrorShare(s.truePositive + s.trueNegative, s.falsePositive + s.falseNegative, |rows|, Sum(rows, BrierComponent));
  }

  lemma QuotientsScale(a: real, n: real)
    requires n > 0.0
    ensures n / n == 1.0 && (4.0 * a) / n == 4.0 * (a / n)
  {
  }

  lemma ErrorShare(right: nat, wrong: nat, n: nat, cost: real)
    requires right + wrong == n > 0 && wrong as real <= 4.0 * cost
    ensures 1.0 - right as real / n as real <= 4.0 * (cost / n as real)
  {
    var m := n as real;
    DivideBoth(wrong as real, 4.0 * cost, m);
    QuotientsScale(cost, m);
    AddQuotients(wrong as real, right as real, m);
  }
}
