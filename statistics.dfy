/** Statistical metrics over lists of data points and single-figure risk ratios. */
module Statistics {
  import opened Guards

  /** Coefficient of Variation (CV) (%). */
  function CoefficientOfVariation(standardDeviation: real, mean: real): (r: Result<real>)
    ensures IsScaledQuotient(r, 100.0, standardDeviation, mean)
  {
    if mean == 0.0 then Invalid else Ok((standardDeviation / mean) * 100.0)
  }

  /** Beta (Systematic Risk). */
  function Beta(covarianceRiRm: real, varianceRm: real): (r: Result<real>)
    ensures IsQuotient(r, covarianceRiRm, varianceRm)
  {
    if varianceRm == 0.0 then Invalid else Ok(covarianceRiRm / varianceRm)
  }

  /** Beta (Alternative). */
  function BetaAlt(correlation: real, sigmaI: real, sigmaM: real): (r: Result<real>)
    ensures IsQuotient(r, correlation * sigmaI, sigmaM)
  {
    if sigmaM == 0.0 then Invalid else Ok((correlation * sigmaI) / sigmaM)
  }

  /** Sharpe Ratio. */
  function SharpeRatio(portfolioReturn: real, riskFreeRate: real, portfolioStdDev: real): (r: Result<real>)
    ensures IsQuotient(r, portfolioReturn - riskFreeRate, portfolioStdDev)
  {
    if portfolioStdDev == 0.0 then Invalid else Ok((portfolioReturn - riskFreeRate) / portfolioStdDev)
  }

  /** Treynor Ratio. */
  function TreynorRatio(portfolioReturn: real, riskFreeRate: real, portfolioBeta: real): (r: Result<real>)
    ensures IsQuotient(r, portfolioReturn - riskFreeRate, portfolioBeta)
  {
    if portfolioBeta == 0.0 then Invalid else Ok((portfolioReturn - riskFreeRate) / portfolioBeta)
  }

  /** Information Ratio. */
  function InformationRatio(portfolioReturn: real, benchmarkReturn: real, trackingError: real): (r: Result<real>)
    ensures IsQuotient(r, portfolioReturn - benchmarkReturn, trackingError)
  {
    if trackingError == 0.0 then Invalid else Ok((portfolioReturn - benchmarkReturn) / trackingError)
  }

  /** Sortino Ratio. */
  function SortinoRatio(portfolioReturn: real, riskFreeRate: real, downsideDev: real): (r: Result<real>)
    ensures IsQuotient(r, portfolioReturn - riskFreeRate, downsideDev)
  {
    if downsideDev == 0.0 then Invalid else Ok((portfolioReturn - riskFreeRate) / downsideDev)
  }

  // ---------------------------------------------------------------------
  // Sums over lists. Python's `sum` adds from left to right, so every sum
  // here peels off the LAST element; over `real` the order does not matter.
  // ---------------------------------------------------------------------

  /** The total of a list of numbers. */
  function Sum(s: seq<real>): real
  {
    if |s| == 0 then 0.0 else Sum(s[..|s| - 1]) + s[|s| - 1]
  }

  /** The total of the squares of a list. */
  function SumOfSquares(s: seq<real>): real
  {
    if |s| == 0 then 0.0 else SumOfSquares(s[..|s| - 1]) + Square(s[|s| - 1])
  }

  /** The total of the squared deviations of a list from a centre `m`. */
  function SumSquaredDeviations(s: seq<real>, m: real): real
  {
    if |s| == 0 then 0.0 else SumSquaredDeviations(s[..|s| - 1], m) + Square(s[|s| - 1] - m)
  }

  /** Squared deviations never add up to a negative total. */
  lemma {:induction false} SquaredDeviationsNonNegative(s: seq<real>, m: real)
    ensures SumSquaredDeviations(s, m) >= 0.0
  {
    if |s| > 0 {
      SquaredDeviationsNonNegative(s[..|s| - 1], m);
      SquareFacts(s[|s| - 1] - m);
    }
  }

  /** The total of the products of paired deviations from the centres `mx` and `my`. */
  function SumCrossDeviations(x: seq<real>, y: seq<real>, mx: real, my: real): real
    requires |x| == |y|
  {
    if |x| == 0 then 0.0
    else SumCrossDeviations(x[..|x| - 1], y[..|y| - 1], mx, my) + (x[|x| - 1] - mx) * (y[|y| - 1] - my)
  }

  /** The total of the products of paired values, as Python's `sum(v * w for v, w in zip(...))`. */
  function SumProducts(v: seq<real>, w: seq<real>): real
    requires |v| == |w|
  {
    if |v| == 0 then 0.0 else SumProducts(v[..|v| - 1], w[..|w| - 1]) + v[|v| - 1] * w[|w| - 1]
  }

  /** The mean of a non-empty list, as the statistical formulas compute it before their main sum. */
  function Mean(s: seq<real>): real
    requires |s| > 0
  {
    Sum(s) / (|s| as real)
  }

  // ---------------------------------------------------------------------
  // The list statistics of the catalogue.
  // ---------------------------------------------------------------------

  /** Sample variance: squared deviations from the mean over `n - 1`; needs two points. */
  function SampleVariance(data: seq<real>): (r: Result<real>)
    ensures r.Invalid? <==> |data| < 2
    ensures r.Ok? ==> r.value >= 0.0
    ensures r.Ok? ==> r.value * ((|data| - 1) as real) == SumSquaredDeviations(data, Mean(data))
  {
    if |data| < 2 then Invalid
    else
      var mean := Sum(data) / (|data| as real);
      var sumSquaredDiff := SumSquaredDeviations(data, mean);
      SquaredDeviationsNonNegative(data, mean);
      PositiveDivisorFacts(sumSquaredDiff, (|data| - 1) as real);
      Ok(sumSquaredDiff / ((|data| - 1) as real))
  }

  /** Population variance: squared deviations from the mean over `n`; needs one point. */
  function PopulationVariance(data: seq<real>): (r: Result<real>)
    ensures r.Invalid? <==> |data| == 0
    ensures r.Ok? ==> r.value >= 0.0
    ensures r.Ok? ==> r.value * (|data| as real) == SumSquaredDeviations(data, Mean(data))
  {
    if |data| == 0 then Invalid
    else
      var mean := Sum(data) / (|data| as real);
      var sumSquaredDiff := SumSquaredDeviations(data, mean);
      SquaredDeviationsNonNegative(data, mean);
      PositiveDivisorFacts(sumSquaredDiff, |data| as real);
      Ok(sumSquaredDiff / (|data| as real))
  }

  /** Sample covariance; the lists must have one length and at least two points. */
  function SampleCovariance(x: seq<real>, y: seq<real>): (r: Result<real>)
    ensures r.Invalid? <==> |x| != |y| || |x| < 2
    ensures r.Ok? ==> r.value * ((|x| - 1) as real) == SumCrossDeviations(x, y, Mean(x), Mean(y))
  {
    if |x| != |y| then Invalid
    else if |x| < 2 then Invalid
    else
      var meanX := Sum(x) / (|x| as real);
      var meanY := Sum(y) / (|y| as real);
      var sumProduct := SumCrossDeviations(x, y, meanX, meanY);
      PositiveDivisorFacts(sumProduct, (|x| - 1) as real);
      Ok(sumProduct / ((|x| - 1) as real))
  }

  /** Population covariance; the lists must have one length and at least one point. */
  function PopulationCovariance(x: seq<real>, y: seq<real>): (r: Result<real>)
    ensures r.Invalid? <==> |x| != |y| || |x| == 0
    ensures r.Ok? ==> r.value * (|x| as real) == SumCrossDeviations(x, y, Mean(x), Mean(y))
  {
    if |x| != |y| then Invalid
    else if |x| == 0 then Invalid
    else
      var meanX := Sum(x) / (|x| as real);
      var meanY := Sum(y) / (|y| as real);
      var sumProduct := SumCrossDeviations(x, y, meanX, meanY);
      PositiveDivisorFacts(sumProduct, |x| as real);
      Ok(sumProduct / (|x| as real))
  }

  /** Arithmetic mean; fails on an empty list. */
  function ArithmeticMean(data: seq<real>): (r: Result<real>)
    ensures r.Invalid? <==> |data| == 0
    ensures r.Ok? ==> r.value * (|data| as real) == Sum(data)
  {
    if |data| == 0 then Invalid
    else
      PositiveDivisorFacts(Sum(data), |data| as real);
      Ok(Sum(data) / (|data| as real))
  }

  /** Weighted average; fails on a length mismatch, an empty list or a zero total weight. */
  function WeightedAverage(values: seq<real>, weights: seq<real>): (r: Result<real>)
    ensures r.Invalid? <==> |values| != |weights| || |values| == 0 || Sum(weights) == 0.0
    ensures r.Ok? ==> r.value * Sum(weights) == SumProducts(values, weights)
  {
    if |values| != |weights| then Invalid
    else if |values| == 0 then Invalid
    else
      var weightedSum := SumProducts(values, weights);
      var totalWeight := Sum(weights);
      if totalWeight == 0.0 then Invalid else Ok(weightedSum / totalWeight)
  }

  /** The shortfall of a return below the minimum acceptable return, `min(0, r - mar)`. */
  function Shortfall(ret: real, mar: real): (d: real)
    ensures d <= 0.0
    ensures d == 0.0 <==> ret >= mar
  {
    if 0.0 <= ret - mar then 0.0 else ret - mar
  }

  /** The total of the squared shortfalls of a list of returns. */
  function SumSquaredShortfalls(returnList: seq<real>, mar: real): real
  {
    if |returnList| == 0 then 0.0
    else SumSquaredShortfalls(returnList[..|returnList| - 1], mar) + Square(Shortfall(returnList[|returnList| - 1], mar))
  }

  /** Squared shortfalls never add up to a negative total. */
  lemma {:induction false} ShortfallsNonNegative(returnList: seq<real>, mar: real)
    ensures SumSquaredShortfalls(returnList, mar) >= 0.0
  {
    if |returnList| > 0 {
      ShortfallsNonNegative(returnList[..|returnList| - 1], mar);
      SquareFacts(Shortfall(returnList[|returnList| - 1], mar));
    }
  }

  /** The quantity under the square root of the downside deviation: mean squared
      shortfall below `mar` (divided by `n`, not `n - 1`); fails on an empty list. */
  function DownsideDeviationSquared(returnList: seq<real>, mar: real := 0.0): (r: Result<real>)
    ensures r.Invalid? <==> |returnList| == 0
    ensures r.Ok? ==> r.value >= 0.0
    ensures r.Ok? ==> r.value * (|returnList| as real) == SumSquaredShortfalls(returnList, mar)
  {
    if |returnList| == 0 then Invalid
    else
      var downsideSquared := SumSquaredShortfalls(returnList, mar);
      ShortfallsNonNegative(returnList, mar);
      PositiveDivisorFacts(downsideSquared, |returnList| as real);
      Ok(downsideSquared / (|returnList| as real))
  }

  /** Variance of a two-asset portfolio with weights `weight1`, `weight2`. */
  function PortfolioVarianceTwoAssets(weight1: real, variance1: real, weight2: real,
                                      variance2: real, covariance: real): real
  {
    Square(weight1) * variance1 + Square(weight2) * variance2 + 2.0 * weight1 * weight2 * covariance
  }

  // ---------------------------------------------------------------------
  // Properties.
  // ---------------------------------------------------------------------

  /** Sample and population variance measure the same spread: `s² (n - 1) = σ² n`. */
  lemma SampleAndPopulationVarianceAgree(data: seq<real>)
    requires |data| >= 2
    ensures SampleVariance(data).value * ((|data| - 1) as real)
         == PopulationVariance(data).value * (|data| as real)
  {
  }

  /** Pairing a list with itself gives the squared deviations. */
  lemma {:induction false} CrossDeviationsWithItself(x: seq<real>, m: real)
    ensures SumCrossDeviations(x, x, m, m) == SumSquaredDeviations(x, m)
  {
    if |x| > 0 {
      CrossDeviationsWithItself(x[..|x| - 1], m);
    }
  }

  /** The covariance of a list with itself is its variance, in both the sample and the population form. */
  lemma CovarianceWithItselfIsVariance(x: seq<real>)
    ensures SampleCovariance(x, x) == SampleVariance(x)
    ensures PopulationCovariance(x, x) == PopulationVariance(x)
  {
    if |x| > 0 {
      CrossDeviationsWithItself(x, Mean(x));
    }
  }

  /** Swapping the lists leaves the cross deviations unchanged. */
  lemma {:induction false} CrossDeviationsSymmetric(x: seq<real>, y: seq<real>, mx: real, my: real)
    requires |x| == |y|
    ensures SumCrossDeviations(x, y, mx, my) == SumCrossDeviations(y, x, my, mx)
  {
    if |x| > 0 {
      CrossDeviationsSymmetric(x[..|x| - 1], y[..|y| - 1], mx, my);
    }
  }

  /** Covariance is symmetric in its two lists. */
  lemma CovarianceIsSymmetric(x: seq<real>, y: seq<real>)
    ensures SampleCovariance(x, y) == SampleCovariance(y, x)
    ensures PopulationCovariance(x, y) == PopulationCovariance(y, x)
  {
    if |x| == |y| && |x| > 0 {
      CrossDeviationsSymmetric(x, y, Mean(x), Mean(y));
    }
  }

  /** Expanding the squares: `Σ(x - m)² = Σx² - 2mΣx + n m²`. */
  lemma {:induction false} SquaredDeviationsExpand(s: seq<real>, m: real)
    ensures SumSquaredDeviations(s, m) == SumOfSquares(s) - 2.0 * m * Sum(s) + (|s| as real) * Square(m)
  {
    if |s| > 0 {
      var p, x := s[..|s| - 1], s[|s| - 1];
      SquaredDeviationsExpand(p, m);
      ExpandSquareStep(SumSquaredDeviations(s, m), SumSquaredDeviations(p, m), SumOfSquares(s), SumOfSquares(p),
                       Sum(s), Sum(p), |s| as real, |p| as real, x, m);
    }
  }

  /** One step of the expansion, as pure algebra: appending `x` extends every total by its own term. */
  lemma ExpandSquareStep(qs: real, q: real, squares: real, prevSquares: real, total: real, prevTotal: real,
                         k: real, prevK: real, x: real, m: real)
    requires q == prevSquares - 2.0 * m * prevTotal + prevK * Square(m)
    requires qs == q + Square(x - m) && squares == prevSquares + Square(x)
    requires total == prevTotal + x && k == prevK + 1.0
    ensures qs == squares - 2.0 * m * total + k * Square(m)
  {
  }

  /** Bounds of a sum: `n lo <= Σs <= n hi` when every element lies in `[lo, hi]`. */
  lemma {:induction false} SumBetween(s: seq<real>, lo: real, hi: real)
    requires forall i :: 0 <= i < |s| ==> lo <= s[i] <= hi
    ensures (|s| as real) * lo <= Sum(s) <= (|s| as real) * hi
  {
    if |s| > 0 {
      var p := s[..|s| - 1];
      assert forall i :: 0 <= i < |p| ==> p[i] == s[i];
      SumBetween(p, lo, hi);
    }
  }

  /** The arithmetic mean lies between any lower and upper bound of the data. */
  lemma MeanLiesBetweenBounds(data: seq<real>, lo: real, hi: real)
    requires |data| > 0
    requires forall i :: 0 <= i < |data| ==> lo <= data[i] <= hi
    ensures lo <= ArithmeticMean(data).value <= hi
  {
    SumBetween(data, lo, hi);
    var n := |data| as real;
    var m := ArithmeticMean(data).value;
    assert m * n == Sum(data);
    assert n * lo <= m * n <= n * hi;
  }

  /** Sum of a list of equal elements. */
  lemma {:induction false} SumOfConstant(s: seq<real>, c: real)
    requires forall i :: 0 <= i < |s| ==> s[i] == c
    ensures Sum(s) == (|s| as real) * c
  {
    if |s| > 0 {
      var p := s[..|s| - 1];
      assert forall i :: 0 <= i < |p| ==> p[i] == s[i];
      SumOfConstant(p, c);
    }
  }

  /** Weighting every value by the same `c` multiplies the total by `c`. */
  lemma {:induction false} SumProductsByConstant(v: seq<real>, w: seq<real>, c: real)
    requires |v| == |w|
    requires forall i :: 0 <= i < |w| ==> w[i] == c
    ensures SumProducts(v, w) == c * Sum(v)
  {
    if |v| > 0 {
      var pw := w[..|w| - 1];
      assert forall i :: 0 <= i < |pw| ==> pw[i] == w[i];
      SumProductsByConstant(v[..|v| - 1], pw, c);
    }
  }

  /** With all weights equal and non-zero the weighted average is the arithmetic mean. */
  lemma EqualWeightsGiveArithmeticMean(values: seq<real>, weights: seq<real>, c: real)
    requires |values| == |weights| > 0 && c != 0.0
    requires forall i :: 0 <= i < |weights| ==> weights[i] == c
    ensures WeightedAverage(values, weights) == ArithmeticMean(values)
  {
    var n := |values| as real;
    SumOfConstant(weights, c);
    SumProductsByConstant(values, weights, c);
    ScaledTotalIsNonZero(Sum(weights), n, c);
    EqualWeightsStep(WeightedAverage(values, weights).value, ArithmeticMean(values).value,
                     Sum(weights), SumProducts(values, weights), Sum(values), n, c);
  }

  /** `n c` is not zero when neither factor is. */
  lemma ScaledTotalIsNonZero(total: real, n: real, c: real)
    requires n > 0.0 && c != 0.0 && total == n * c
    ensures total != 0.0
  {
    ProductSign(n, c);
  }

  /** Cancelling the common weight, as pure algebra. */
  lemma EqualWeightsStep(wa: real, am: real, sw: real, sp: real, sv: real, n: real, c: real)
    requires n > 0.0 && c != 0.0 && sw == n * c && sp == c * sv
    requires wa * sw == sp && am * n == sv
    ensures wa == am
  {
    assert (wa * n) * c == (am * n) * c;
    CancelFactor(wa * n, am * n, c);
    CancelFactor(wa, am, n);
  }

  /** The squared shortfalls add up to zero exactly when no return is below `mar`. */
  lemma {:induction false} NoShortfallIffNoneBelow(returnList: seq<real>, mar: real)
    ensures SumSquaredShortfalls(returnList, mar) == 0.0
        <==> forall i :: 0 <= i < |returnList| ==> returnList[i] >= mar
  {
    if |returnList| > 0 {
      var n := |returnList|;
      var p := returnList[..n - 1];
      var d := Shortfall(returnList[n - 1], mar);
      NoShortfallIffNoneBelow(p, mar);
      ShortfallsNonNegative(p, mar);
      SquareFacts(d);
      assert (forall i :: 0 <= i < n ==> returnList[i] >= mar)
         <==> (forall i :: 0 <= i < |p| ==> p[i] >= mar) && returnList[n - 1] >= mar;
    }
  }

  /** The downside deviation is zero exactly when no return falls below the minimum acceptable return. */
  lemma DownsideZeroIffNoReturnBelow(returnList: seq<real>, mar: real)
    requires |returnList| > 0
    ensures DownsideDeviationSquared(returnList, mar).value == 0.0
        <==> forall i :: 0 <= i < |returnList| ==> returnList[i] >= mar
  {
    NoShortfallIffNoneBelow(returnList, mar);
    var n := |returnList| as real;
    var v := DownsideDeviationSquared(returnList, mar).value;
    assert v * n == SumSquaredShortfalls(returnList, mar);
    assert v == 0.0 <==> v * n == 0.0;
  }

  /** The two-asset formula is symmetric: listing the assets in the other order gives the same variance. */
  lemma PortfolioIsSymmetric(w1: real, v1: real, w2: real, v2: real, c: real)
    ensures PortfolioVarianceTwoAssets(w1, v1, w2, v2, c) == PortfolioVarianceTwoAssets(w2, v2, w1, v1, c)
  {
  }

  /** With the whole weight on one asset the portfolio has that asset's variance. */
  lemma SingleAssetPortfolio(v1: real, v2: real, c: real)
    ensures PortfolioVarianceTwoAssets(1.0, v1, 0.0, v2, c) == v1
  {
  }

  /** Perfectly correlated assets (covariance `s1 s2` for standard deviations
      `s1`, `s2`) give no diversification: the portfolio's variance is the
      square of the weighted standard deviations. */
  lemma PerfectlyCorrelatedPortfolio(w1: real, s1: real, w2: real, s2: real)
    ensures PortfolioVarianceTwoAssets(w1, Square(s1), w2, Square(s2), s1 * s2) == Square(w1 * s1 + w2 * s2)
  {
  }

  /** Appending one value adds it to the total. */
  lemma SumSnoc(s: seq<real>, x: real)
    ensures Sum(s + [x]) == Sum(s) + x
  {
    assert (s + [x])[..|s|] == s;
  }

  /** Appending one value adds its squared deviation. */
  lemma SquaredDeviationsSnoc(s: seq<real>, x: real, m: real)
    ensures SumSquaredDeviations(s + [x], m) == SumSquaredDeviations(s, m) + Square(x - m)
  {
    assert (s + [x])[..|s|] == s;
  }

  /** Worked figures from the catalogue's documentation. */
  lemma VarianceExamples()
    ensures PopulationVariance([2.0, 4.0, 4.0, 4.0, 5.0, 5.0, 7.0, 9.0]) == Ok(4.0)
    ensures SampleVariance([2.0, 4.0, 4.0, 4.0, 5.0, 5.0, 7.0, 9.0]) == Ok(32.0 / 7.0)
  {
    var d := [2.0, 4.0, 4.0, 4.0, 5.0, 5.0, 7.0, 9.0];
    var prefix: seq<real> := [];
    for i := 0 to |d|
      invariant prefix == d[..i]
      invariant Sum(prefix) == [0.0, 2.0, 6.0, 10.0, 14.0, 19.0, 24.0, 31.0, 40.0][i]
      invariant SumSquaredDeviations(prefix, 5.0) == [0.0, 9.0, 10.0, 11.0, 12.0, 12.0, 12.0, 16.0, 32.0][i]
    {
      SumSnoc(prefix, d[i]);
      SquaredDeviationsSnoc(prefix, d[i], 5.0);
      prefix := prefix + [d[i]];
      assert prefix == d[..i + 1];
    }
    assert prefix == d;
  }
}
