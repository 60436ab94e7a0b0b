/** Growth metrics: period-over-period growth percentages. */
module Growth {
  import opened Guards

  /** Revenue Growth Rate (%). */
  function RevenueGrowthRate(currentRevenue: real, previousRevenue: real): (r: Result<real>)
    ensures IsScaledQuotient(r, 100.0, currentRevenue - previousRevenue, previousRevenue)
  {
    if previousRevenue == 0.0 then Invalid else Ok(((currentRevenue - previousRevenue) / previousRevenue) * 100.0)
  }

  /** Earnings Growth Rate (%). */
  function EarningsGrowthRate(currentEarnings: real, previousEarnings: real): (r: Result<real>)
    ensures IsScaledQuotient(r, 100.0, currentEarnings - previousEarnings, previousEarnings)
  {
    if previousEarnings == 0.0 then Invalid else Ok(((currentEarnings - previousEarnings) / previousEarnings) * 100.0)
  }

  /** EPS Growth Rate (%). */
  function EpsGrowthRate(currentEps: real, previousEps: real): (r: Result<real>)
    ensures IsScaledQuotient(r, 100.0, currentEps - previousEps, previousEps)
  {
    if previousEps == 0.0 then Invalid else Ok(((currentEps - previousEps) / previousEps) * 100.0)
  }

  /** Year-over-Year (YoY) Growth (%). */
  function YearOverYearGrowth(currentYearValue: real, previousYearValue: real): (r: Result<real>)
    ensures IsScaledQuotient(r, 100.0, currentYearValue - previousYearValue, previousYearValue)
  {
    if previousYearValue == 0.0 then Invalid else Ok(((currentYearValue - previousYearValue) / previousYearValue) * 100.0)
  }

  /** Quarter-over-Quarter (QoQ) Growth (%). */
  function QuarterOverQuarterGrowth(currentQuarterValue: real, previousQuarterValue: real): (r: Result<real>)
    ensures IsScaledQuotient(r, 100.0, currentQuarterValue - previousQuarterValue, previousQuarterValue)
  {
    if previousQuarterValue == 0.0 then Invalid else Ok(((currentQuarterValue - previousQuarterValue) / previousQuarterValue) * 100.0)
  }

  /** Internal Growth Rate (%). */
  function InternalGrowthRate(roa: real, retentionRatio: real): (r: Result<real>)
    ensures IsScaledQuotient(r, 100.0, roa * retentionRatio, 1.0 - roa * retentionRatio)
  {
    var denominator := 1.0 - roa * retentionRatio;
    if denominator == 0.0 then Invalid else Ok(((roa * retentionRatio) / denominator) * 100.0)
  }

  /** Dividend Growth Rate (%). */
  function DividendGrowthRate(currentDividend: real, previousDividend: real): (r: Result<real>)
    ensures IsScaledQuotient(r, 100.0, currentDividend - previousDividend, previousDividend)
  {
    if previousDividend == 0.0 then Invalid else Ok(((currentDividend - previousDividend) / previousDividend) * 100.0)
  }

  /** Book Value Growth Rate (%). */
  function BookValueGrowthRate(currentBookValue: real, previousBookValue: real): (r: Result<real>)
    ensures IsScaledQuotient(r, 100.0, currentBookValue - previousBookValue, previousBookValue)
  {
    if previousBookValue == 0.0 then Invalid else Ok(((currentBookValue - previousBookValue) / previousBookValue) * 100.0)
  }

  /** Retention ratio: the share of earnings not paid out. */
  function RetentionRatio(dividendPayoutRatio: real): real
  {
    1.0 - dividendPayoutRatio
  }

  /** Sustainable growth from return on equity and the payout ratio. */
  function SustainableGrowthRate(roe: real, dividendPayoutRatio: real): real
  {
    roe * (1.0 - dividendPayoutRatio)
  }

  /** Sustainable growth from return on equity and the retention ratio. */
  function SustainableGrowthRateAlt(roe: real, retentionRatio: real): real
  {
    roe * retentionRatio
  }

  /** The two sustainable-growth formulas agree through the retention ratio, and growth
      vanishes exactly when everything is paid out or equity earns nothing. */
  lemma SustainableGrowthFormsAgree(roe: real, dividendPayoutRatio: real)
    ensures SustainableGrowthRate(roe, dividendPayoutRatio)
         == SustainableGrowthRateAlt(roe, RetentionRatio(dividendPayoutRatio))
    ensures SustainableGrowthRate(roe, dividendPayoutRatio) == 0.0 <==> roe == 0.0 || dividendPayoutRatio == 1.0
  {
    ProductSign(roe, 1.0 - dividendPayoutRatio);
    if roe != 0.0 && dividendPayoutRatio != 1.0 {
      NonZeroProduct(roe, 1.0 - dividendPayoutRatio);
    }
  }
}
