/** Profitability metrics: earnings per share, margins and returns, most of them percentages. */
module Profitability {
  import opened Guards

  /** Earnings Per Share (EPS). */
  function EarningsPerShare(netIncome: real, preferredDividends: real, weightedAvgShares: real): (r: Result<real>)
    ensures IsQuotient(r, netIncome - preferredDividends, weightedAvgShares)
  {
    if weightedAvgShares == 0.0 then Invalid else Ok((netIncome - preferredDividends) / weightedAvgShares)
  }

  /** Diluted EPS. */
  function DilutedEps(netIncome: real, preferredDividends: real, weightedAvgShares: real, dilutiveSecurities: real): (r: Result<real>)
    ensures IsQuotient(r, netIncome - preferredDividends, weightedAvgShares + dilutiveSecurities)
  {
    var denominator := weightedAvgShares + dilutiveSecurities;
    if denominator == 0.0 then Invalid else Ok((netIncome - preferredDividends) / denominator)
  }

  /** Gross Profit Margin (%). */
  function GrossProfitMargin(grossProfit: real, totalRevenue: real): (r: Result<real>)
    ensures IsScaledQuotient(r, 100.0, grossProfit, totalRevenue)
  {
    if totalRevenue == 0.0 then Invalid else Ok((grossProfit / totalRevenue) * 100.0)
  }

  /** Operating Margin (%). */
  function OperatingMargin(operatingIncome: real, totalRevenue: real): (r: Result<real>)
    ensures IsScaledQuotient(r, 100.0, operatingIncome, totalRevenue)
  {
    if totalRevenue == 0.0 then Invalid else Ok((operatingIncome / totalRevenue) * 100.0)
  }

  /** Net Profit Margin (%). */
  function NetProfitMargin(netIncome: real, totalRevenue: real): (r: Result<real>)
    ensures IsScaledQuotient(r, 100.0, netIncome, totalRevenue)
  {
    if totalRevenue == 0.0 then Invalid else Ok((netIncome / totalRevenue) * 100.0)
  }

  /** EBITDA Margin (%). */
  function EbitdaMargin(ebitda: real, totalRevenue: real): (r: Result<real>)
    ensures IsScaledQuotient(r, 100.0, ebitda, totalRevenue)
  {
    if totalRevenue == 0.0 then Invalid else Ok((ebitda / totalRevenue) * 100.0)
  }

  /** Return on Assets (ROA) (%). */
  function ReturnOnAssets(netIncome: real, averageTotalAssets: real): (r: Result<real>)
    ensures IsScaledQuotient(r, 100.0, netIncome, averageTotalAssets)
  {
    if averageTotalAssets == 0.0 then Invalid else Ok((netIncome / averageTotalAssets) * 100.0)
  }

  /** Return on Equity (ROE) (%). */
  function ReturnOnEquity(netIncome: real, averageShareholdersEquity: real): (r: Result<real>)
    ensures IsScaledQuotient(r, 100.0, netIncome, averageShareholdersEquity)
  {
    if averageShareholdersEquity == 0.0 then Invalid else Ok((netIncome / averageShareholdersEquity) * 100.0)
  }

  /** Return on Investment (ROI) (%). */
  function ReturnOnInvestment(currentValue: real, costOfInvestment: real): (r: Result<real>)
    ensures IsScaledQuotient(r, 100.0, currentValue - costOfInvestment, costOfInvestment)
  {
    if costOfInvestment == 0.0 then Invalid else Ok(((currentValue - costOfInvestment) / costOfInvestment) * 100.0)
  }

  /** Return on Invested Capital (ROIC) (%). */
  function ReturnOnInvestedCapital(nopat: real, totalDebt: real, totalEquity: real): (r: Result<real>)
    ensures IsScaledQuotient(r, 100.0, nopat, totalDebt + totalEquity)
  {
    var investedCapital := totalDebt + totalEquity;
    if investedCapital == 0.0 then Invalid else Ok((nopat / investedCapital) * 100.0)
  }

  /** Return on Capital Employed (ROCE) (%). */
  function ReturnOnCapitalEmployed(ebit: real, totalAssets: real, currentLiabilities: real): (r: Result<real>)
    ensures IsScaledQuotient(r, 100.0, ebit, totalAssets - currentLiabilities)
  {
    var capitalEmployed := totalAssets - currentLiabilities;
    if capitalEmployed == 0.0 then Invalid else Ok((ebit / capitalEmployed) * 100.0)
  }

  /** Return on Net Assets (RONA) (%). */
  function ReturnOnNetAssets(netIncome: real, fixedAssets: real, netWorkingCapital: real): (r: Result<real>)
    ensures IsScaledQuotient(r, 100.0, netIncome, fixedAssets + netWorkingCapital)
  {
    var denominator := fixedAssets + netWorkingCapital;
    if denominator == 0.0 then Invalid else Ok((netIncome / denominator) * 100.0)
  }

  /** Pre-Tax Profit Margin (%). */
  function PreTaxProfitMargin(earningsBeforeTax: real, totalRevenue: real): (r: Result<real>)
    ensures IsScaledQuotient(r, 100.0, earningsBeforeTax, totalRevenue)
  {
    if totalRevenue == 0.0 then Invalid else Ok((earningsBeforeTax / totalRevenue) * 100.0)
  }

  /** After-Tax Margin (%). */
  function AfterTaxMargin(netIncomeAfterTax: real, totalRevenue: real): (r: Result<real>)
    ensures IsScaledQuotient(r, 100.0, netIncomeAfterTax, totalRevenue)
  {
    if totalRevenue == 0.0 then Invalid else Ok((netIncomeAfterTax / totalRevenue) * 100.0)
  }

  /** Cash Return on Assets (%). */
  function CashReturnOnAssets(operatingCashFlow: real, averageTotalAssets: real): (r: Result<real>)
    ensures IsScaledQuotient(r, 100.0, operatingCashFlow, averageTotalAssets)
  {
    if averageTotalAssets == 0.0 then Invalid else Ok((operatingCashFlow / averageTotalAssets) * 100.0)
  }

  /** Cash Return on Equity (%). */
  function CashReturnOnEquity(operatingCashFlow: real, averageShareholdersEquity: real): (r: Result<real>)
    ensures IsScaledQuotient(r, 100.0, operatingCashFlow, averageShareholdersEquity)
  {
    if averageShareholdersEquity == 0.0 then Invalid else Ok((operatingCashFlow / averageShareholdersEquity) * 100.0)
  }

  /** Net income as revenue less total expenses. */
  function NetIncome(totalRevenue: real, totalExpenses: real): real
  {
    totalRevenue - totalExpenses
  }

  /** Gross profit: revenue less the cost of goods sold. */
  function GrossProfit(totalRevenue: real, cogs: real): real
  {
    totalRevenue - cogs
  }

  /** Operating income: gross profit less operating expenses. */
  function OperatingIncome(grossProfit: real, operatingExpenses: real): real
  {
    grossProfit - operatingExpenses
  }

  /** EBITDA built up from operating income. */
  function Ebitda(operatingIncome: real, depreciation: real, amortization: real): real
  {
    operatingIncome + depreciation + amortization
  }

  /** EBITDA built up from net income. */
  function EbitdaFromNetIncome(netIncome: real, interest: real, taxes: real, depreciation: real,
                               amortization: real): real
  {
    netIncome + interest + taxes + depreciation + amortization
  }

  /** Net operating profit after tax. */
  function Nopat(ebit: real, taxRate: real): real
  {
    ebit * (1.0 - taxRate)
  }

  /** Operating income is revenue less both the cost of goods sold and the operating
      expenses: the income-statement steps compose. */
  lemma IncomeStatementCascades(totalRevenue: real, cogs: real, operatingExpenses: real)
    ensures OperatingIncome(GrossProfit(totalRevenue, cogs), operatingExpenses)
         == NetIncome(totalRevenue, cogs + operatingExpenses)
  {
  }

  /** The two EBITDA build-ups agree once operating income is net income plus interest
      and taxes. */
  lemma EbitdaFormsAgree(netIncome: real, interest: real, taxes: real, depreciation: real, amortization: real)
    ensures Ebitda(netIncome + interest + taxes, depreciation, amortization)
         == EbitdaFromNetIncome(netIncome, interest, taxes, depreciation, amortization)
  {
  }

  /** With a tax rate between 0 and 1, NOPAT of a non-negative EBIT lies between zero and EBIT. */
  lemma NopatBetweenZeroAndEbit(ebit: real, taxRate: real)
    requires ebit >= 0.0 && 0.0 <= taxRate <= 1.0
    ensures 0.0 <= Nopat(ebit, taxRate) <= ebit
  {
    assert ebit * (1.0 - taxRate) == ebit - ebit * taxRate;
    assert ebit * taxRate >= 0.0;
  }
}
