/** Dividend metrics: yield, payout, coverage and retention. */
module Dividends {
  import opened Guards

  /** Dividend Yield (%). */
  function DividendYield(annualDividendsPerShare: real, currentStockPrice: real): (r: Result<real>)
    ensures IsScaledQuotient(r, 100.0, annualDividendsPerShare, currentStockPrice)
  {
    if currentStockPrice == 0.0 then Invalid else Ok((annualDividendsPerShare / currentStockPrice) * 100.0)
  }

  /** Dividend Payout Ratio (%). */
  function DividendPayoutRatio(dividendsPerShare: real, eps: real): (r: Result<real>)
    ensures IsScaledQuotient(r, 100.0, dividendsPerShare, eps)
  {
    if eps == 0.0 then Invalid else Ok((dividendsPerShare / eps) * 100.0)
  }

  /** Dividend Payout Ratio (Alternative). */
  function DividendPayoutRatioAlt(totalDividends: real, netIncome: real): (r: Result<real>)
    ensures IsScaledQuotient(r, 100.0, totalDividends, netIncome)
  {
    if netIncome == 0.0 then Invalid else Ok((totalDividends / netIncome) * 100.0)
  }

  /** Dividend Coverage Ratio. */
  function DividendCoverageRatio(eps: real, dividendsPerShare: real): (r: Result<real>)
    ensures IsQuotient(r, eps, dividendsPerShare)
  {
    if dividendsPerShare == 0.0 then Invalid else Ok(eps / dividendsPerShare)
  }

  /** Dividend Coverage Ratio (Alternative). */
  function DividendCoverageRatioAlt(netIncome: real, totalDividendsPaid: real): (r: Result<real>)
    ensures IsQuotient(r, netIncome, totalDividendsPaid)
  {
    if totalDividendsPaid == 0.0 then Invalid else Ok(netIncome / totalDividendsPaid)
  }

  /** Dividend Per Share (DPS). */
  function DividendPerShare(totalDividendsPaid: real, numberOfSharesOutstanding: real): (r: Result<real>)
    ensures IsQuotient(r, totalDividendsPaid, numberOfSharesOutstanding)
  {
    if numberOfSharesOutstanding == 0.0 then Invalid else Ok(totalDividendsPaid / numberOfSharesOutstanding)
  }

  /** Retention Ratio (Alternative). */
  function RetentionRatioFromIncome(netIncome: real, dividends: real): (r: Result<real>)
    ensures IsQuotient(r, netIncome - dividends, netIncome)
  {
    if netIncome == 0.0 then Invalid else Ok((netIncome - dividends) / netIncome)
  }

  /** Cash Dividend Payout Ratio. */
  function CashDividendPayoutRatio(cashDividendsPaid: real, operatingCashFlow: real): (r: Result<real>)
    ensures IsQuotient(r, cashDividendsPaid, operatingCashFlow)
  {
    if operatingCashFlow == 0.0 then Invalid else Ok(cashDividendsPaid / operatingCashFlow)
  }

  /** Retention (plowback) ratio from the payout ratio, both as fractions. */
  function RetentionRatioFromDividendPayout(dividendPayoutRatio: real): real
  {
    1.0 - dividendPayoutRatio
  }

  /** Retention from income is the complement of the payout ratio, once the payout
      percentage is brought back to a fraction; both fail exactly when net income is zero. */
  lemma RetentionComplementsPayout(netIncome: real, dividends: real)
    ensures RetentionRatioFromIncome(netIncome, dividends).Ok? <==> DividendPayoutRatioAlt(dividends, netIncome).Ok?
    ensures RetentionRatioFromIncome(netIncome, dividends).Ok?
        ==> RetentionRatioFromIncome(netIncome, dividends).value
            == RetentionRatioFromDividendPayout(DividendPayoutRatioAlt(dividends, netIncome).value / 100.0)
  {
    if netIncome != 0.0 {
      var r := RetentionRatioFromIncome(netIncome, dividends).value;
      var p := DividendPayoutRatioAlt(dividends, netIncome).value;
      assert p * netIncome == 100.0 * dividends;
      var s := 1.0 - p / 100.0;
      assert (p / 100.0) * netIncome == dividends;
      assert s * netIncome == netIncome - (p / 100.0) * netIncome;
      CancelFactor(r, s, netIncome);
    }
  }

  /** Dividend coverage is the reciprocal of the payout ratio (as a percentage). */
  lemma CoverageIsReciprocalOfPayout(netIncome: real, totalDividends: real)
    requires netIncome != 0.0 && totalDividends != 0.0
    ensures DividendCoverageRatioAlt(netIncome, totalDividends).Ok?
    ensures DividendPayoutRatioAlt(totalDividends, netIncome).Ok?
    ensures DividendCoverageRatioAlt(netIncome, totalDividends).value
          * DividendPayoutRatioAlt(totalDividends, netIncome).value == 100.0
  {
    var c := DividendCoverageRatioAlt(netIncome, totalDividends).value;
    var p := DividendPayoutRatioAlt(totalDividends, netIncome).value;
    assert c * totalDividends == netIncome;
    assert p * netIncome == 100.0 * totalDividends;
    assert (c * p) * netIncome == c * (p * netIncome);
    assert c * (100.0 * totalDividends) == 100.0 * (c * totalDividends);
    CancelFactor(c * p, 100.0, netIncome);
  }
}
