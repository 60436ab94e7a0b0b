/** Valuation ratios: price and enterprise-value multiples. */
module ValuationRatios {
  import opened Guards
  import Leverage

  /** Price-to-Earnings (P/E) Ratio. */
  function PriceToEarningsRatio(marketPricePerShare: real, eps: real): (r: Result<real>)
    ensures IsQuotient(r, marketPricePerShare, eps)
  {
    if eps == 0.0 then Invalid else Ok(marketPricePerShare / eps)
  }

  /** P/E Ratio using Market Capitalization. */
  function PriceToEarningsRatioMarketCap(marketCap: real, netIncome: real): (r: Result<real>)
    ensures IsQuotient(r, marketCap, netIncome)
  {
    if netIncome == 0.0 then Invalid else Ok(marketCap / netIncome)
  }

  /** Price-to-Book (P/B) Ratio. */
  function PriceToBookRatio(marketPricePerShare: real, bookValuePerShare: real): (r: Result<real>)
    ensures IsQuotient(r, marketPricePerShare, bookValuePerShare)
  {
    if bookValuePerShare == 0.0 then Invalid else Ok(marketPricePerShare / bookValuePerShare)
  }

  /** Book Value Per Share. */
  function BookValuePerShare(totalEquity: real, sharesOutstanding: real): (r: Result<real>)
    ensures IsQuotient(r, totalEquity, sharesOutstanding)
  {
    if sharesOutstanding == 0.0 then Invalid else Ok(totalEquity / sharesOutstanding)
  }

  /** Price-to-Sales (P/S) Ratio. */
  function PriceToSalesRatio(marketPricePerShare: real, revenuePerShare: real): (r: Result<real>)
    ensures IsQuotient(r, marketPricePerShare, revenuePerShare)
  {
    if revenuePerShare == 0.0 then Invalid else Ok(marketPricePerShare / revenuePerShare)
  }

  /** P/S Ratio using Market Capitalization. */
  function PriceToSalesRatioMarketCap(marketCap: real, totalRevenue: real): (r: Result<real>)
    ensures IsQuotient(r, marketCap, totalRevenue)
  {
    if totalRevenue == 0.0 then Invalid else Ok(marketCap / totalRevenue)
  }

  /** Price-to-Cash Flow (P/CF) Ratio. */
  function PriceToCashFlowRatio(marketPricePerShare: real, operatingCfPerShare: real): (r: Result<real>)
    ensures IsQuotient(r, marketPricePerShare, operatingCfPerShare)
  {
    if operatingCfPerShare == 0.0 then Invalid else Ok(marketPricePerShare / operatingCfPerShare)
  }

  /** PEG Ratio (Price/Earnings to Growth). */
  function PegRatio(peRatio: real, annualEpsGrowthRate: real): (r: Result<real>)
    ensures IsQuotient(r, peRatio, annualEpsGrowthRate)
  {
    if annualEpsGrowthRate == 0.0 then Invalid else Ok(peRatio / annualEpsGrowthRate)
  }

  /** Earnings-to-Price (E/P) Ratio (Earnings Yield). */
  function EarningsYield(eps: real, marketPricePerShare: real): (r: Result<real>)
    ensures IsQuotient(r, eps, marketPricePerShare)
  {
    if marketPricePerShare == 0.0 then Invalid else Ok(eps / marketPricePerShare)
  }

  /** Enterprise Value-to-EBITDA (EV/EBITDA). */
  function EvToEbitda(enterpriseValue: real, ebitda: real): (r: Result<real>)
    ensures IsQuotient(r, enterpriseValue, ebitda)
  {
    if ebitda == 0.0 then Invalid else Ok(enterpriseValue / ebitda)
  }

  /** Enterprise Value-to-EBIT (EV/EBIT). */
  function EvToEbit(enterpriseValue: real, ebit: real): (r: Result<real>)
    ensures IsQuotient(r, enterpriseValue, ebit)
  {
    if ebit == 0.0 then Invalid else Ok(enterpriseValue / ebit)
  }

  /** Enterprise Value-to-Sales (EV/Sales). */
  function EvToSales(enterpriseValue: real, totalRevenue: real): (r: Result<real>)
    ensures IsQuotient(r, enterpriseValue, totalRevenue)
  {
    if totalRevenue == 0.0 then Invalid else Ok(enterpriseValue / totalRevenue)
  }

  /** Enterprise Value-to-Free Cash Flow (EV/FCF). */
  function EvToFreeCashFlow(enterpriseValue: real, freeCashFlow: real): (r: Result<real>)
    ensures IsQuotient(r, enterpriseValue, freeCashFlow)
  {
    if freeCashFlow == 0.0 then Invalid else Ok(enterpriseValue / freeCashFlow)
  }

  /** Price-to-Tangible Book Value. */
  function PriceToTangibleBookValue(marketPricePerShare: real, tangibleBookValuePerShare: real): (r: Result<real>)
    ensures IsQuotient(r, marketPricePerShare, tangibleBookValuePerShare)
  {
    if tangibleBookValuePerShare == 0.0 then Invalid else Ok(marketPricePerShare / tangibleBookValuePerShare)
  }

  /** Tangible Book Value Per Share. */
  function TangibleBookValuePerShare(totalEquity: real, intangibleAssets: real, goodwill: real, sharesOutstanding: real): (r: Result<real>)
    ensures IsQuotient(r, totalEquity - intangibleAssets - goodwill, sharesOutstanding)
  {
    if sharesOutstanding == 0.0 then Invalid else Ok((totalEquity - intangibleAssets - goodwill) / sharesOutstanding)
  }

  /** Price-to-Free Cash Flow (P/FCF). */
  function PriceToFreeCashFlow(marketPricePerShare: real, fcfPerShare: real): (r: Result<real>)
    ensures IsQuotient(r, marketPricePerShare, fcfPerShare)
  {
    if fcfPerShare == 0.0 then Invalid else Ok(marketPricePerShare / fcfPerShare)
  }

  /** EV-to-Operating Income. */
  function EvToOperatingIncome(enterpriseValue: real, operatingIncome: real): (r: Result<real>)
    ensures IsQuotient(r, enterpriseValue, operatingIncome)
  {
    if operatingIncome == 0.0 then Invalid else Ok(enterpriseValue / operatingIncome)
  }

  /** Enterprise value: market capitalisation plus debt, minority interest and preferred equity, less cash. */
  function EnterpriseValue(marketCap: real, totalDebt: real, cashAndEquivalents: real,
                           minorityInterest: real := 0.0, preferredEquity: real := 0.0): real
  {
    marketCap + totalDebt + minorityInterest + preferredEquity - cashAndEquivalents
  }

  /** With no minority interest or preferred equity, EV/EBITDA splits into market cap over EBITDA plus
      net debt over EBITDA; both fail exactly when EBITDA is zero. */
  lemma EvToEbitdaSplitsAtNetDebt(marketCap: real, totalDebt: real, cashAndEquivalents: real, ebitda: real)
    ensures EvToEbitda(EnterpriseValue(marketCap, totalDebt, cashAndEquivalents), ebitda).Ok?
        <==> Leverage.NetDebtToEbitda(totalDebt, cashAndEquivalents, ebitda).Ok?
    ensures EvToEbitda(EnterpriseValue(marketCap, totalDebt, cashAndEquivalents), ebitda).Ok?
        ==> EvToEbitda(EnterpriseValue(marketCap, totalDebt, cashAndEquivalents), ebitda).value
            == marketCap / ebitda + Leverage.NetDebtToEbitda(totalDebt, cashAndEquivalents, ebitda).value
  {
    if ebitda != 0.0 {
      var ev := EvToEbitda(EnterpriseValue(marketCap, totalDebt, cashAndEquivalents), ebitda).value;
      var nd := Leverage.NetDebtToEbitda(totalDebt, cashAndEquivalents, ebitda).value;
      var m := marketCap / ebitda;
      assert m * ebitda == marketCap;
      assert nd * ebitda == totalDebt - cashAndEquivalents;
      Distribute(ebitda, m, nd);
      assert (m + nd) * ebitda == m * ebitda + nd * ebitda;
      CancelFactor(ev, m + nd, ebitda);
    }
  }

  /** P/E per share equals P/E on totals: scaling price and earnings by the share count changes nothing. */
  lemma PriceToEarningsPerShareOrTotal(marketPricePerShare: real, eps: real, sharesOutstanding: real)
    requires sharesOutstanding != 0.0
    ensures PriceToEarningsRatio(marketPricePerShare, eps)
         == PriceToEarningsRatioMarketCap(marketPricePerShare * sharesOutstanding, eps * sharesOutstanding)
  {
    var r := PriceToEarningsRatio(marketPricePerShare, eps);
    var s := PriceToEarningsRatioMarketCap(marketPricePerShare * sharesOutstanding, eps * sharesOutstanding);
    if eps != 0.0 {
      NonZeroProduct(eps, sharesOutstanding);
      assert (r.value * eps) * sharesOutstanding == r.value * (eps * sharesOutstanding);
      QuotientIsUnique(Ok(r.value), s, marketPricePerShare * sharesOutstanding, eps * sharesOutstanding);
    } else {
      assert eps * sharesOutstanding == 0.0;
    }
  }

  /** Earnings yield is the reciprocal of the P/E ratio. */
  lemma EarningsYieldIsReciprocalOfPe(eps: real, marketPricePerShare: real)
    requires eps != 0.0 && marketPricePerShare != 0.0
    ensures EarningsYield(eps, marketPricePerShare).Ok? && PriceToEarningsRatio(marketPricePerShare, eps).Ok?
    ensures EarningsYield(eps, marketPricePerShare).value * PriceToEarningsRatio(marketPricePerShare, eps).value == 1.0
  {
    var y := EarningsYield(eps, marketPricePerShare).value;
    var p := PriceToEarningsRatio(marketPricePerShare, eps).value;
    assert y * marketPricePerShare == eps;
    assert p * eps == marketPricePerShare;
    assert (y * p) * eps == y * (p * eps);
    CancelFactor(y * p, 1.0, eps);
  }
}
