/** Liquidity metrics: current, quick, cash and defensive-interval ratios. */
module Liquidity {
  import opened Guards

  /** Current Ratio. */
  function CurrentRatio(currentAssets: real, currentLiabilities: real): (r: Result<real>)
    ensures IsQuotient(r, currentAssets, currentLiabilities)
  {
    if currentLiabilities == 0.0 then Invalid else Ok(currentAssets / currentLiabilities)
  }

  /** Quick Ratio (Acid-Test Ratio). */
  function QuickRatio(currentAssets: real, inventory: real, currentLiabilities: real): (r: Result<real>)
    ensures IsQuotient(r, currentAssets - inventory, currentLiabilities)
  {
    if currentLiabilities == 0.0 then Invalid else Ok((currentAssets - inventory) / currentLiabilities)
  }

  /** Quick Ratio (Alternative). */
  function QuickRatioAlt(cash: real, marketableSecurities: real, accountsReceivable: real, currentLiabilities: real): (r: Result<real>)
    ensures IsQuotient(r, cash + marketableSecurities + accountsReceivable, currentLiabilities)
  {
    if currentLiabilities == 0.0 then Invalid else Ok((cash + marketableSecurities + accountsReceivable) / currentLiabilities)
  }

  /** Cash Ratio. */
  function CashRatio(cash: real, cashEquivalents: real, currentLiabilities: real): (r: Result<real>)
    ensures IsQuotient(r, cash + cashEquivalents, currentLiabilities)
  {
    if currentLiabilities == 0.0 then Invalid else Ok((cash + cashEquivalents) / currentLiabilities)
  }

  /** Net Working Capital Ratio. */
  function NetWorkingCapitalRatio(currentAssets: real, currentLiabilities: real, totalAssets: real): (r: Result<real>)
    ensures IsQuotient(r, currentAssets - currentLiabilities, totalAssets)
  {
    if totalAssets == 0.0 then Invalid else Ok((currentAssets - currentLiabilities) / totalAssets)
  }

  /** Defensive Interval Ratio. */
  function DefensiveIntervalRatio(cash: real, marketableSecurities: real, accountsReceivable: real, dailyOperatingExpenses: real): (r: Result<real>)
    ensures IsQuotient(r, cash + marketableSecurities + accountsReceivable, dailyOperatingExpenses)
  {
    if dailyOperatingExpenses == 0.0 then Invalid else Ok((cash + marketableSecurities + accountsReceivable) / dailyOperatingExpenses)
  }

  /** Cash Flow Coverage Ratio. */
  function CashFlowCoverageRatio(operatingCashFlow: real, totalDebt: real): (r: Result<real>)
    ensures IsQuotient(r, operatingCashFlow, totalDebt)
  {
    if totalDebt == 0.0 then Invalid else Ok(operatingCashFlow / totalDebt)
  }

  /** Operating Cash Flow to Current Liabilities. */
  function OperatingCashFlowToCurrentLiabilities(operatingCashFlow: real, currentLiabilities: real): (r: Result<real>)
    ensures IsQuotient(r, operatingCashFlow, currentLiabilities)
  {
    if currentLiabilities == 0.0 then Invalid else Ok(operatingCashFlow / currentLiabilities)
  }

  /** Working capital: current assets less current liabilities. */
  function WorkingCapital(currentAssets: real, currentLiabilities: real): real
  {
    currentAssets - currentLiabilities
  }

  /** Daily operating expenses, on a 365-day year. */
  function DailyOperatingExpenses(annualOperatingExpenses: real): real
  {
    annualOperatingExpenses / 365.0
  }

  /** With positive current liabilities, working capital is positive exactly when the
      current ratio exceeds one, and zero exactly when it equals one. */
  lemma WorkingCapitalMatchesCurrentRatio(currentAssets: real, currentLiabilities: real)
    requires currentLiabilities > 0.0
    ensures CurrentRatio(currentAssets, currentLiabilities).Ok?
    ensures WorkingCapital(currentAssets, currentLiabilities) > 0.0
        <==> CurrentRatio(currentAssets, currentLiabilities).value > 1.0
    ensures WorkingCapital(currentAssets, currentLiabilities) == 0.0
        <==> CurrentRatio(currentAssets, currentLiabilities).value == 1.0
  {
    var q := CurrentRatio(currentAssets, currentLiabilities).value;
    assert q * currentLiabilities == currentAssets;
    PositiveDivisorFacts(currentAssets, currentLiabilities);
    assert q == currentAssets / currentLiabilities;
    assert (q - 1.0) * currentLiabilities == currentAssets - currentLiabilities;
    ProductSign(q - 1.0, currentLiabilities);
  }

  /** The defensive interval over daily expenses is the number of days the liquid assets
      cover: 365 times liquid assets over annual expenses, failing when expenses are zero. */
  lemma DefensiveIntervalInDays(cash: real, marketableSecurities: real, accountsReceivable: real,
                                annualOperatingExpenses: real)
    ensures IsScaledQuotient(DefensiveIntervalRatio(cash, marketableSecurities, accountsReceivable,
                                                    DailyOperatingExpenses(annualOperatingExpenses)),
                             365.0, cash + marketableSecurities + accountsReceivable, annualOperatingExpenses)
  {
    var daily := DailyOperatingExpenses(annualOperatingExpenses);
    assert daily * 365.0 == annualOperatingExpenses;
    var r := DefensiveIntervalRatio(cash, marketableSecurities, accountsReceivable, daily);
    if r.Ok? {
      assert r.value * annualOperatingExpenses == (r.value * daily) * 365.0;
    }
  }
}
