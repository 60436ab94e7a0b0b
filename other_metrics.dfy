/** Other key metrics: composite scores (Altman, Piotroski, Beneish) and quality ratios. */
module OtherMetrics {
  import opened Guards
  import Dcf

  /** Tobin's Q Ratio. */
  function TobinsQRatio(marketValueFirm: real, replacementCostAssets: real): (r: Result<real>)
    ensures IsQuotient(r, marketValueFirm, replacementCostAssets)
  {
    if replacementCostAssets == 0.0 then Invalid else Ok(marketValueFirm / replacementCostAssets)
  }

  /** Tobin's Q Ratio (Alternative). */
  function TobinsQRatioAlt(marketCap: real, totalDebt: real, totalAssets: real): (r: Result<real>)
    ensures IsQuotient(r, marketCap + totalDebt, totalAssets)
  {
    if totalAssets == 0.0 then Invalid else Ok((marketCap + totalDebt) / totalAssets)
  }

  /** Earnings Quality Ratio. */
  function EarningsQualityRatio(operatingCashFlow: real, netIncome: real): (r: Result<real>)
    ensures IsQuotient(r, operatingCashFlow, netIncome)
  {
    if netIncome == 0.0 then Invalid else Ok(operatingCashFlow / netIncome)
  }

  /** Accruals Ratio. */
  function AccrualsRatio(netIncome: real, operatingCashFlow: real, totalAssets: real): (r: Result<real>)
    ensures IsQuotient(r, netIncome - operatingCashFlow, totalAssets)
  {
    if totalAssets == 0.0 then Invalid else Ok((netIncome - operatingCashFlow) / totalAssets)
  }

  /** Economic value added: NOPAT less the capital charge `wacc × invested capital`. */
  function EconomicValueAdded(nopat: real, wacc: real, investedCapital: real): real
  {
    nopat - wacc * investedCapital
  }

  /** Economic value added from the return spread: `(roic - wacc) × invested capital`. */
  function EvaAlt(roic: real, wacc: real, investedCapital: real): real
  {
    (roic - wacc) * investedCapital
  }

  /** The two forms of economic value added agree when NOPAT is the return on
      invested capital earned on that capital. */
  lemma EvaFormsAgree(roic: real, wacc: real, investedCapital: real)
    ensures EconomicValueAdded(roic * investedCapital, wacc, investedCapital) == EvaAlt(roic, wacc, investedCapital)
  {
    Distribute(investedCapital, roic, -wacc);
  }

  /** Altman Z-score for public manufacturers, `1.2A + 1.4B + 3.3C + 0.6D + 1.0E`. The five
      divisions are unguarded in the source (a zero denominator is a division by zero there). */
  function AltmanZScore(workingCapital: real, totalAssets: real, retainedEarnings: real, ebit: real,
                        marketValueEquity: real, bookValueLiabilities: real, sales: real): real
    requires totalAssets != 0.0 && bookValueLiabilities != 0.0
  {
    var a := workingCapital / totalAssets;
    var b := retainedEarnings / totalAssets;
    var c := ebit / totalAssets;
    var d := marketValueEquity / bookValueLiabilities;
    var e := sales / totalAssets;
    1.2 * a + 1.4 * b + 3.3 * c + 0.6 * d + 1.0 * e
  }

  /** Altman Z'-score for private companies, `0.717A + 0.847B + 3.107C + 0.420D + 0.998E`. */
  function AltmanZScorePrivate(workingCapital: real, totalAssets: real, retainedEarnings: real, ebit: real,
                               bookValueEquity: real, totalLiabilities: real, sales: real): real
    requires totalAssets != 0.0 && totalLiabilities != 0.0
  {
    var a := workingCapital / totalAssets;
    var b := retainedEarnings / totalAssets;
    var c := ebit / totalAssets;
    var d := bookValueEquity / totalLiabilities;
    var e := sales / totalAssets;
    0.717 * a + 0.847 * b + 3.107 * c + 0.420 * d + 0.998 * e
  }

  /** A common factor cancels from a quotient, as pure algebra. */
  lemma CommonFactorCancels(k: real, a: real, b: real)
    requires k != 0.0 && b != 0.0
    ensures (k * a) / (k * b) == a / b
  {
    NonZeroProduct(k, b);
    var q := a / b;
    assert q * b == a;
    assert q * (k * b) == k * a;
  }

  /** The Z-score is built from ratios only: restating every figure in another unit
      (multiplying all of them by one non-zero factor) leaves it unchanged. */
  lemma AltmanIsUnitFree(k: real, workingCapital: real, totalAssets: real, retainedEarnings: real, ebit: real,
                         marketValueEquity: real, bookValueLiabilities: real, sales: real)
    requires k != 0.0 && totalAssets != 0.0 && bookValueLiabilities != 0.0
    ensures k * totalAssets != 0.0 && k * bookValueLiabilities != 0.0
    ensures AltmanZScore(k * workingCapital, k * totalAssets, k * retainedEarnings, k * ebit,
                         k * marketValueEquity, k * bookValueLiabilities, k * sales)
         == AltmanZScore(workingCapital, totalAssets, retainedEarnings, ebit,
                         marketValueEquity, bookValueLiabilities, sales)
  {
    NonZeroProduct(k, totalAssets);
    NonZeroProduct(k, bookValueLiabilities);
    CommonFactorCancels(k, workingCapital, totalAssets);
    CommonFactorCancels(k, retainedEarnings, totalAssets);
    CommonFactorCancels(k, ebit, totalAssets);
    CommonFactorCancels(k, marketValueEquity, bookValueLiabilities);
    CommonFactorCancels(k, sales, totalAssets);
  }

  /** The private-company Z'-score is unit-free in the same way. */
  lemma AltmanPrivateIsUnitFree(k: real, workingCapital: real, totalAssets: real, retainedEarnings: real,
                                ebit: real, bookValueEquity: real, totalLiabilities: real, sales: real)
    requires k != 0.0 && totalAssets != 0.0 && totalLiabilities != 0.0
    ensures k * totalAssets != 0.0 && k * totalLiabilities != 0.0
    ensures AltmanZScorePrivate(k * workingCapital, k * totalAssets, k * retainedEarnings, k * ebit,
                                k * bookValueEquity, k * totalLiabilities, k * sales)
         == AltmanZScorePrivate(workingCapital, totalAssets, retainedEarnings, ebit,
                                bookValueEquity, totalLiabilities, sales)
  {
    NonZeroProduct(k, totalAssets);
    NonZeroProduct(k, totalLiabilities);
    CommonFactorCancels(k, workingCapital, totalAssets);
    CommonFactorCancels(k, retainedEarnings, totalAssets);
    CommonFactorCancels(k, ebit, totalAssets);
    CommonFactorCancels(k, bookValueEquity, totalLiabilities);
    CommonFactorCancels(k, sales, totalAssets);
  }

  /** The nine Piotroski tests, in the source's order: four on profitability, three on
      leverage, liquidity and source of funds, two on operating efficiency. Only the
      share test (the seventh) passes on a tie. */
  function PiotroskiTests(roaCurrent: real, operatingCfCurrent: real, roaPrevious: real,
                          operatingCfPrevious: real, netIncomeCurrent: real, longTermDebtCurrent: real,
                          longTermDebtPrevious: real, currentRatioCurrent: real, currentRatioPrevious: real,
                          sharesCurrent: real, sharesPrevious: real, grossMarginCurrent: real,
                          grossMarginPrevious: real, assetTurnoverCurrent: real,
                          assetTurnoverPrevious: real): (tests: seq<bool>)
    ensures |tests| == 9
  {
    [ roaCurrent > 0.0,
      operatingCfCurrent > 0.0,
      roaCurrent > roaPrevious,
      operatingCfCurrent > netIncomeCurrent,
      longTermDebtCurrent < longTermDebtPrevious,
      currentRatioCurrent > currentRatioPrevious,
      sharesCurrent <= sharesPrevious,
      grossMarginCurrent > grossMarginPrevious,
      assetTurnoverCurrent > assetTurnoverPrevious ]
  }

  /** The point a test awards: one when it passes. */
  function Point(passed: bool): int
  {
    if passed then 1 else 0
  }

  /** The number of tests that pass. */
  function CountPassed(tests: seq<bool>): (n: int)
    ensures 0 <= n <= |tests|
  {
    if |tests| == 0 then 0 else CountPassed(tests[..|tests| - 1]) + Point(tests[|tests| - 1])
  }

  /** Every test passes exactly when the count is the number of tests; none passes exactly when it is zero. */
  lemma {:induction false} CountPassedExtremes(tests: seq<bool>)
    ensures CountPassed(tests) == |tests| <==> forall i :: 0 <= i < |tests| ==> tests[i]
    ensures CountPassed(tests) == 0 <==> forall i :: 0 <= i < |tests| ==> !tests[i]
  {
    if |tests| > 0 {
      var p := tests[..|tests| - 1];
      CountPassedExtremes(p);
      assert forall i :: 0 <= i < |p| ==> p[i] == tests[i];
    }
  }

  /** Piotroski F-score: one point per passed test, added up test by test as the source does. */
  method PiotroskiFScore(roaCurrent: real, operatingCfCurrent: real, roaPrevious: real,
                         operatingCfPrevious: real, netIncomeCurrent: real, longTermDebtCurrent: real,
                         longTermDebtPrevious: real, currentRatioCurrent: real, currentRatioPrevious: real,
                         sharesCurrent: real, sharesPrevious: real, grossMarginCurrent: real,
                         grossMarginPrevious: real, assetTurnoverCurrent: real,
                         assetTurnoverPrevious: real) returns (score: int)
    ensures score == CountPassed(PiotroskiTests(roaCurrent, operatingCfCurrent, roaPrevious, operatingCfPrevious,
                                                netIncomeCurrent, longTermDebtCurrent, longTermDebtPrevious,
                                                currentRatioCurrent, currentRatioPrevious, sharesCurrent,
                                                sharesPrevious, grossMarginCurrent, grossMarginPrevious,
                                                assetTurnoverCurrent, assetTurnoverPrevious))
    ensures 0 <= score <= 9
  {
    score := 0;
    ghost var counted := 0;
    // Profitability.
    if roaCurrent > 0.0 {
      score := score + 1;
    }
    counted := counted + Point(roaCurrent > 0.0);
    assert score == counted;
    if operatingCfCurrent > 0.0 {
      score := score + 1;
    }
    counted := counted + Point(operatingCfCurrent > 0.0);
    assert score == counted;
    if roaCurrent > roaPrevious {
      score := score + 1;
    }
    counted := counted + Point(roaCurrent > roaPrevious);
    assert score == counted;
    if operatingCfCurrent > netIncomeCurrent {
      score := score + 1;
    }
    counted := counted + Point(operatingCfCurrent > netIncomeCurrent);
    assert score == counted;
    // Leverage, liquidity and source of funds.
    if longTermDebtCurrent < longTermDebtPrevious {
      score := score + 1;
    }
    counted := counted + Point(longTermDebtCurrent < longTermDebtPrevious);
    assert score == counted;
    if currentRatioCurrent > currentRatioPrevious {
      score := score + 1;
    }
    counted := counted + Point(currentRatioCurrent > currentRatioPrevious);
    assert score == counted;
    if sharesCurrent <= sharesPrevious {
      score := score + 1;
    }
    counted := counted + Point(sharesCurrent <= sharesPrevious);
    assert score == counted;
    // Operating efficiency.
    if grossMarginCurrent > grossMarginPrevious {
      score := score + 1;
    }
    counted := counted + Point(grossMarginCurrent > grossMarginPrevious);
    assert score == counted;
    if assetTurnoverCurrent > assetTurnoverPrevious {
      score := score + 1;
    }
    counted := counted + Point(assetTurnoverCurrent > assetTurnoverPrevious);
    assert score == counted;
    PiotroskiCount(roaCurrent, operatingCfCurrent, roaPrevious, operatingCfPrevious,
                       netIncomeCurrent, longTermDebtCurrent, longTermDebtPrevious,
                       currentRatioCurrent, currentRatioPrevious, sharesCurrent,
                       sharesPrevious, grossMarginCurrent, grossMarginPrevious,
                       assetTurnoverCurrent, assetTurnoverPrevious);
  }

  /** The F-score count as a sum of nine points, one per comparison. */
  lemma PiotroskiCount(roaCurrent: real, operatingCfCurrent: real, roaPrevious: real,
                       operatingCfPrevious: real, netIncomeCurrent: real, longTermDebtCurrent: real,
                       longTermDebtPrevious: real, currentRatioCurrent: real, currentRatioPrevious: real,
                       sharesCurrent: real, sharesPrevious: real, grossMarginCurrent: real,
                       grossMarginPrevious: real, assetTurnoverCurrent: real, assetTurnoverPrevious: real)
    ensures CountPassed(PiotroskiTests(roaCurrent, operatingCfCurrent, roaPrevious, operatingCfPrevious,
                                       netIncomeCurrent, longTermDebtCurrent, longTermDebtPrevious,
                                       currentRatioCurrent, currentRatioPrevious, sharesCurrent,
                                       sharesPrevious, grossMarginCurrent, grossMarginPrevious,
                                       assetTurnoverCurrent, assetTurnoverPrevious))
         == Point(roaCurrent > 0.0) + Point(operatingCfCurrent > 0.0) + Point(roaCurrent > roaPrevious)
          + Point(operatingCfCurrent > netIncomeCurrent) + Point(longTermDebtCurrent < longTermDebtPrevious)
          + Point(currentRatioCurrent > currentRatioPrevious) + Point(sharesCurrent <= sharesPrevious)
          + Point(grossMarginCurrent > grossMarginPrevious) + Point(assetTurnoverCurrent > assetTurnoverPrevious)
  {
    CountOfNine(PiotroskiTests(roaCurrent, operatingCfCurrent, roaPrevious, operatingCfPrevious,
                       netIncomeCurrent, longTermDebtCurrent, longTermDebtPrevious,
                       currentRatioCurrent, currentRatioPrevious, sharesCurrent,
                       sharesPrevious, grossMarginCurrent, grossMarginPrevious,
                       assetTurnoverCurrent, assetTurnoverPrevious));
  }

  /** Counting one more test adds its point. */
  lemma CountPassedStep(tests: seq<bool>, k: nat)
    requires k < |tests|
    ensures CountPassed(tests[..k + 1]) == CountPassed(tests[..k]) + Point(tests[k])
  {
    assert tests[..k + 1][..k] == tests[..k];
  }

  /** The count of the first five tests, written out term by term. */
  lemma CountOfFirstFive(t: seq<bool>)
    requires |t| >= 5
    ensures CountPassed(t[..5]) == Point(t[0]) + Point(t[1]) + Point(t[2]) + Point(t[3]) + Point(t[4])
  {
    assert t[..0] == [];
    CountPassedStep(t, 0);
    CountPassedStep(t, 1);
    CountPassedStep(t, 2);
    CountPassedStep(t, 3);
    CountPassedStep(t, 4);
  }

  /** The count of nine tests, written out term by term. */
  lemma CountOfNine(t: seq<bool>)
    requires |t| == 9
    ensures CountPassed(t) == Point(t[0]) + Point(t[1]) + Point(t[2]) + Point(t[3]) + Point(t[4])
                            + Point(t[5]) + Point(t[6]) + Point(t[7]) + Point(t[8])
  {
    CountOfFirstFive(t);
    CountPassedStep(t, 5);
    CountPassedStep(t, 6);
    CountPassedStep(t, 7);
    CountPassedStep(t, 8);
    assert t[..9] == t;
  }

  /** When nothing changed from the previous year, the only comparison that scores is
      the share test: the score is the three level tests plus one. */
  lemma PiotroskiTieScoresShareTestOnly(roa: real, operatingCf: real, netIncome: real, longTermDebt: real,
                                        currentRatio: real, shares: real, grossMargin: real, assetTurnover: real)
    ensures CountPassed(PiotroskiTests(roa, operatingCf, roa, operatingCf, netIncome, longTermDebt, longTermDebt,
                                       currentRatio, currentRatio, shares, shares, grossMargin, grossMargin,
                                       assetTurnover, assetTurnover))
         == (if roa > 0.0 then 1 else 0) + (if operatingCf > 0.0 then 1 else 0)
          + (if operatingCf > netIncome then 1 else 0) + 1
  {
    var t := PiotroskiTests(roa, operatingCf, roa, operatingCf, netIncome, longTermDebt, longTermDebt,
                            currentRatio, currentRatio, shares, shares, grossMargin, grossMargin,
                            assetTurnover, assetTurnover);
    CountOfNine(t);
  }

  /** Beneish M-score, the eight-index linear model of earnings manipulation. */
  function BeneishMScore(dsri: real, gmi: real, aqi: real, sgi: real, depi: real,
                         sgai: real, tata: real, lvgi: real): real
  {
    -4.84 + 0.92 * dsri + 0.528 * gmi + 0.404 * aqi + 0.892 * sgi + 0.115 * depi - 0.172 * sgai
      + 4.679 * tata - 0.327 * lvgi
  }

  /** A company whose eight indices show no change (every index 1, no accruals) scores -2.48. */
  lemma BeneishNeutralCompany()
    ensures BeneishMScore(1.0, 1.0, 1.0, 1.0, 1.0, 1.0, 0.0, 1.0) == -2.48
  {
  }

  /** Higher accruals always raise the M-score, and a higher leverage index always lowers it. */
  lemma BeneishDirections(dsri: real, gmi: real, aqi: real, sgi: real, depi: real, sgai: real,
                          tata: real, lvgi: real, more: real)
    requires more > 0.0
    ensures BeneishMScore(dsri, gmi, aqi, sgi, depi, sgai, tata + more, lvgi)
          > BeneishMScore(dsri, gmi, aqi, sgi, depi, sgai, tata, lvgi)
    ensures BeneishMScore(dsri, gmi, aqi, sgi, depi, sgai, tata, lvgi + more)
          < BeneishMScore(dsri, gmi, aqi, sgi, depi, sgai, tata, lvgi)
  {
  }

  /** Market value added: market value of the firm less invested capital. */
  function MarketValueAdded(marketValueFirm: real, investedCapital: real): real
  {
    marketValueFirm - investedCapital
  }

  /** Market value added (alternative): market capitalisation less book equity. */
  function MvaAlt(marketCapitalization: real, bookValueEquity: real): real
  {
    marketCapitalization - bookValueEquity
  }

  /** When debt is valued at book in both the firm value and the invested capital, the two
      MVA formulas agree. */
  lemma MvaFormsAgree(marketCapitalization: real, bookValueEquity: real, debt: real)
    ensures MarketValueAdded(marketCapitalization + debt, bookValueEquity + debt)
         == MvaAlt(marketCapitalization, bookValueEquity)
  {
  }

  /** Shareholder value added: the return spread over the cost of capital on invested capital. */
  function ShareholderValueAdded(returnOnInvestment: real, costOfCapital: real, investedCapital: real): real
  {
    (returnOnInvestment - costOfCapital) * investedCapital
  }

  /** Shareholder value added is economic value added with the return on investment as ROIC,
      and so also EVA computed from NOPAT. */
  lemma SvaIsEva(returnOnInvestment: real, costOfCapital: real, investedCapital: real)
    ensures ShareholderValueAdded(returnOnInvestment, costOfCapital, investedCapital)
         == EvaAlt(returnOnInvestment, costOfCapital, investedCapital)
    ensures ShareholderValueAdded(returnOnInvestment, costOfCapital, investedCapital)
         == EconomicValueAdded(returnOnInvestment * investedCapital, costOfCapital, investedCapital)
  {
    EvaFormsAgree(returnOnInvestment, costOfCapital, investedCapital);
  }

  /** Jensen's alpha: the actual return less the CAPM expected return. */
  function JensensAlpha(actualReturn: real, riskFreeRate: real, beta: real, marketReturn: real): real
  {
    var expectedReturn := riskFreeRate + beta * (marketReturn - riskFreeRate);
    actualReturn - expectedReturn
  }

  /** Alpha is the excess of the actual return over the CAPM cost of equity; it is zero
      exactly when the return is what the CAPM expects, and a beta-1 portfolio earning the
      market return has none. */
  lemma AlphaIsExcessOverCapm(actualReturn: real, riskFreeRate: real, beta: real, marketReturn: real)
    ensures JensensAlpha(actualReturn, riskFreeRate, beta, marketReturn)
         == actualReturn - Dcf.CostOfEquityCapm(riskFreeRate, beta, marketReturn)
    ensures JensensAlpha(actualReturn, riskFreeRate, beta, marketReturn) == 0.0
        <==> actualReturn == Dcf.CostOfEquityCapm(riskFreeRate, beta, marketReturn)
    ensures JensensAlpha(marketReturn, riskFreeRate, 1.0, marketReturn) == 0.0
  {
  }
}
