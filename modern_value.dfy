/** Modern value-investing formulas: greenblatt, payout yields, distress score, momentum. */
module ModernValue {
  import opened Guards
  import Statistics
  import Growth
  import OtherMetrics

  /** Return on Retained Earnings. */
  function ReturnOnRetainedEarnings(changeInEps: real, cumulativeRetainedEarningsPerShare: real): (r: Result<real>)
    ensures IsQuotient(r, changeInEps, cumulativeRetainedEarningsPerShare)
  {
    if cumulativeRetainedEarningsPerShare == 0.0 then Invalid else Ok(changeInEps / cumulativeRetainedEarningsPerShare)
  }

  /** Return on Tangible Capital. */
  function ReturnOnTangibleCapital(nopat: real, netWorkingCapital: real, netFixedAssets: real): (r: Result<real>)
    ensures IsQuotient(r, nopat, netWorkingCapital + netFixedAssets)
  {
    var denominator := netWorkingCapital + netFixedAssets;
    if denominator == 0.0 then Invalid else Ok(nopat / denominator)
  }

  /** Earnings Yield (Greenblatt's Magic Formula). */
  function EarningsYieldGreenblatt(ebit: real, enterpriseValue: real): (r: Result<real>)
    ensures IsQuotient(r, ebit, enterpriseValue)
  {
    if enterpriseValue == 0.0 then Invalid else Ok(ebit / enterpriseValue)
  }

  /** Return on Capital (Greenblatt's Magic Formula). */
  function ReturnOnCapitalGreenblatt(ebit: real, netWorkingCapital: real, netFixedAssets: real): (r: Result<real>)
    ensures IsQuotient(r, ebit, netWorkingCapital + netFixedAssets)
  {
    var denominator := netWorkingCapital + netFixedAssets;
    if denominator == 0.0 then Invalid else Ok(ebit / denominator)
  }

  /** Acquirer's Multiple (Tobias Carlisle). */
  function AcquirersMultiple(enterpriseValue: real, operatingEarnings: real): (r: Result<real>)
    ensures IsQuotient(r, enterpriseValue, operatingEarnings)
  {
    if operatingEarnings == 0.0 then Invalid else Ok(enterpriseValue / operatingEarnings)
  }

  /** Shareholder Yield. */
  function ShareholderYield(dividends: real, buybacks: real, shareIssuance: real, marketCap: real): (r: Result<real>)
    ensures IsQuotient(r, (dividends + buybacks) - shareIssuance, marketCap)
  {
    if marketCap == 0.0 then Invalid else Ok(((dividends + buybacks) - shareIssuance) / marketCap)
  }

  /** Net Payout Yield. */
  function NetPayoutYield(dividends: real, netBuybacks: real, marketCap: real): (r: Result<real>)
    ensures IsQuotient(r, dividends + netBuybacks, marketCap)
  {
    if marketCap == 0.0 then Invalid else Ok((dividends + netBuybacks) / marketCap)
  }

  /** Total Payout Yield. */
  function TotalPayoutYield(dividends: real, buybacks: real, debtReduction: real, marketCap: real): (r: Result<real>)
    ensures IsQuotient(r, dividends + buybacks + debtReduction, marketCap)
  {
    if marketCap == 0.0 then Invalid else Ok((dividends + buybacks + debtReduction) / marketCap)
  }

  /** Gross Profitability. */
  function GrossProfitability(revenue: real, cogs: real, totalAssets: real): (r: Result<real>)
    ensures IsQuotient(r, revenue - cogs, totalAssets)
  {
    if totalAssets == 0.0 then Invalid else Ok((revenue - cogs) / totalAssets)
  }

  /** Asset Growth (Red Flag). */
  function AssetGrowth(currentTotalAssets: real, priorTotalAssets: real): (r: Result<real>)
    ensures IsQuotient(r, currentTotalAssets - priorTotalAssets, priorTotalAssets)
  {
    if priorTotalAssets == 0.0 then Invalid else Ok((currentTotalAssets - priorTotalAssets) / priorTotalAssets)
  }

  /** Accrual Ratio (Earnings Quality). */
  function AccrualRatioQuality(netIncome: real, operatingCashFlow: real, averageTotalAssets: real): (r: Result<real>)
    ensures IsQuotient(r, netIncome - operatingCashFlow, averageTotalAssets)
  {
    if averageTotalAssets == 0.0 then Invalid else Ok((netIncome - operatingCashFlow) / averageTotalAssets)
  }

  /** 52-Week High Ratio. */
  function Week52HighRatio(currentPrice: real, week52High: real): (r: Result<real>)
    ensures IsQuotient(r, currentPrice, week52High)
  {
    if week52High == 0.0 then Invalid else Ok(currentPrice / week52High)
  }

  /** Shiller P/E (CAPE Ratio). */
  function ShillerPe(currentPrice: real, avg10YearEarnings: real): (r: Result<real>)
    ensures IsQuotient(r, currentPrice, avg10YearEarnings)
  {
    if avg10YearEarnings == 0.0 then Invalid else Ok(currentPrice / avg10YearEarnings)
  }

  /** Graham & Dodd P/E. */
  function GrahamDoddPe(currentPrice: real, avg10YearEarnings: real): (r: Result<real>)
    ensures IsQuotient(r, currentPrice, avg10YearEarnings)
  {
    if avg10YearEarnings == 0.0 then Invalid else Ok(currentPrice / avg10YearEarnings)
  }

  /** Look-through earnings: reported earnings plus the share of investees' undistributed earnings. */
  function LookThroughEarnings(reportedEarnings: real, shareUndistributedEarnings: real): real
  {
    reportedEarnings + shareUndistributedEarnings
  }

  /** Look-through earnings exceed the reported earnings exactly when the investees kept back a
      positive share of earnings, and equal them when they kept back nothing. */
  lemma LookThroughAddsUndistributedShare(reportedEarnings: real, shareUndistributedEarnings: real)
    ensures LookThroughEarnings(reportedEarnings, shareUndistributedEarnings) > reportedEarnings
        <==> shareUndistributedEarnings > 0.0
    ensures shareUndistributedEarnings == 0.0 ==> LookThroughEarnings(reportedEarnings, shareUndistributedEarnings) == reportedEarnings
  {
  }

  /** Growth of intrinsic value: the retained share of earnings times the return earned on it. */
  function IntrinsicValueGrowthRate(dividendPayoutRatio: real, returnOnRetainedEarnings: real): real
  {
    (1.0 - dividendPayoutRatio) * returnOnRetainedEarnings
  }

  /** Intrinsic-value growth is the sustainable growth rate with the return on retained earnings in place of ROE. */
  lemma IntrinsicGrowthIsSustainableGrowth(dividendPayoutRatio: real, returnOnRetainedEarnings: real)
    ensures IntrinsicValueGrowthRate(dividendPayoutRatio, returnOnRetainedEarnings)
         == Growth.SustainableGrowthRate(returnOnRetainedEarnings, dividendPayoutRatio)
  {
  }

  /** Return spread: ROIC less the cost of capital. */
  function ReturnSpread(roic: real, wacc: real): real
  {
    roic - wacc
  }

  /** Economic value added is the return spread earned on the invested capital; it is positive
      on positive capital exactly when the spread is. */
  lemma EvaIsSpreadOnCapital(roic: real, wacc: real, investedCapital: real)
    ensures OtherMetrics.EvaAlt(roic, wacc, investedCapital) == ReturnSpread(roic, wacc) * investedCapital
    ensures investedCapital > 0.0 ==> (OtherMetrics.EvaAlt(roic, wacc, investedCapital) > 0.0 <==> ReturnSpread(roic, wacc) > 0.0)
  {
    var s := ReturnSpread(roic, wacc);
    ProductSign(s, investedCapital);
    if investedCapital > 0.0 && s <= 0.0 {
      ProductSign(-s, investedCapital);
      assert (-s) * investedCapital == -(s * investedCapital);
    }
  }

  /** Ohlson's O-score of distress from nine accounting inputs. */
  function OhlsonOScore(size: real, tlta: real, wcta: real, clca: real, oeneg: real,
                        nita: real, futl: real, intwo: real, chin: real): real
  {
    -1.32 - 0.407 * size + 6.03 * tlta - 1.43 * wcta + 0.076 * clca
      - 1.72 * oeneg - 2.37 * nita - 1.83 * futl + 0.285 * intwo - 0.521 * chin
  }

  /** With every input at zero the O-score is its intercept. */
  lemma OhlsonIntercept()
    ensures OhlsonOScore(0.0, 0.0, 0.0, 0.0, 0.0, 0.0, 0.0, 0.0, 0.0) == -1.32
  {
  }

  /** More leverage raises the O-score (more distress); more profitability lowers it. */
  lemma OhlsonDirections(size: real, tlta: real, wcta: real, clca: real, oeneg: real,
                         nita: real, futl: real, intwo: real, chin: real, more: real)
    requires more > 0.0
    ensures OhlsonOScore(size, tlta + more, wcta, clca, oeneg, nita, futl, intwo, chin)
          > OhlsonOScore(size, tlta, wcta, clca, oeneg, nita, futl, intwo, chin)
    ensures OhlsonOScore(size, tlta, wcta, clca, oeneg, nita + more, futl, intwo, chin)
          < OhlsonOScore(size, tlta, wcta, clca, oeneg, nita, futl, intwo, chin)
  {
  }

  /** Twelve-month price momentum: the price relative less one. */
  function PriceMomentum12Month(currentPrice: real, price12MonthsAgo: real): (r: Result<real>)
    ensures r.Invalid? <==> price12MonthsAgo == 0.0
    ensures r.Ok? ==> (r.value + 1.0) * price12MonthsAgo == currentPrice
  {
    if price12MonthsAgo == 0.0 then Invalid
    else
      RelativeLessOne(currentPrice, price12MonthsAgo);
      Ok((currentPrice / price12MonthsAgo) - 1.0)
  }

  /** One-month return, used as a short-term reversal signal. */
  function ShortTermReversal(currentPrice: real, price1MonthAgo: real): (r: Result<real>)
    ensures r.Invalid? <==> price1MonthAgo == 0.0
    ensures r.Ok? ==> (r.value + 1.0) * price1MonthAgo == currentPrice
  {
    if price1MonthAgo == 0.0 then Invalid
    else
      RelativeLessOne(currentPrice, price1MonthAgo);
      Ok((currentPrice / price1MonthAgo) - 1.0)
  }

  /** `(c / p - 1 + 1) p = c`. */
  lemma RelativeLessOne(c: real, p: real)
    requires p != 0.0
    ensures ((c / p) - 1.0 + 1.0) * p == c
  {
  }

  /** A price relative less one is the fractional change: momentum is asset-growth arithmetic applied to prices. */
  lemma MomentumIsFractionalChange(currentPrice: real, pastPrice: real)
    ensures PriceMomentum12Month(currentPrice, pastPrice) == AssetGrowth(currentPrice, pastPrice)
    ensures ShortTermReversal(currentPrice, pastPrice) == AssetGrowth(currentPrice, pastPrice)
  {
    var m := PriceMomentum12Month(currentPrice, pastPrice);
    if m.Ok? {
      assert m.value * pastPrice == currentPrice - pastPrice by {
        Distribute(pastPrice, m.value, 1.0);
        assert (m.value + 1.0) * pastPrice == m.value * pastPrice + pastPrice;
      }
    }
    QuotientIsUnique(m, AssetGrowth(currentPrice, pastPrice), currentPrice - pastPrice, pastPrice);
  }

  /** O'Shaughnessy's value composite: the average of six valuation percentiles. */
  function ValueCompositeOshaughnessy(pbPercentile: real, pePercentile: real, psPercentile: real,
                                      pcfPercentile: real, evEbitdaPercentile: real,
                                      shareholderYieldPercentile: real): real
  {
    (pbPercentile + pePercentile + psPercentile + pcfPercentile + evEbitdaPercentile + shareholderYieldPercentile) / 6.0
  }

  /** The composite is the arithmetic mean of the six percentiles. */
  lemma ValueCompositeIsArithmeticMean(pb: real, pe: real, ps: real, pcf: real, evEbitda: real, sy: real)
    ensures Statistics.ArithmeticMean([pb, pe, ps, pcf, evEbitda, sy])
         == Ok(ValueCompositeOshaughnessy(pb, pe, ps, pcf, evEbitda, sy))
  {
    var s := [pb, pe, ps, pcf, evEbitda, sy];
    assert Statistics.Sum([pb]) == pb by { assert [pb][..0] == []; }
    assert Statistics.Sum([pb, pe]) == pb + pe by { assert [pb, pe][..1] == [pb]; }
    assert Statistics.Sum([pb, pe, ps]) == pb + pe + ps by { assert [pb, pe, ps][..2] == [pb, pe]; }
    assert Statistics.Sum([pb, pe, ps, pcf]) == pb + pe + ps + pcf by {
      assert [pb, pe, ps, pcf][..3] == [pb, pe, ps];
    }
    assert Statistics.Sum([pb, pe, ps, pcf, evEbitda]) == pb + pe + ps + pcf + evEbitda by {
      assert [pb, pe, ps, pcf, evEbitda][..4] == [pb, pe, ps, pcf];
    }
    assert Statistics.Sum(s) == pb + pe + ps + pcf + evEbitda + sy by {
      assert s[..5] == [pb, pe, ps, pcf, evEbitda];
    }
    var m := Statistics.ArithmeticMean(s);
    CancelFactor(m.value, ValueCompositeOshaughnessy(pb, pe, ps, pcf, evEbitda, sy), 6.0);
  }
}
