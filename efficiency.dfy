/** Efficiency and activity metrics: turnover ratios and days outstanding. */
module Efficiency {
  import opened Guards
  import Liquidity
  import Profitability

  /** Asset Turnover Ratio. */
  function AssetTurnoverRatio(netSales: real, averageTotalAssets: real): (r: Result<real>)
    ensures IsQuotient(r, netSales, averageTotalAssets)
  {
    if averageTotalAssets == 0.0 then Invalid else Ok(netSales / averageTotalAssets)
  }

  /** Inventory Turnover Ratio. */
  function InventoryTurnoverRatio(cogs: real, averageInventory: real): (r: Result<real>)
    ensures IsQuotient(r, cogs, averageInventory)
  {
    if averageInventory == 0.0 then Invalid else Ok(cogs / averageInventory)
  }

  /** Inventory Turnover Ratio (Alternative). */
  function InventoryTurnoverRatioAlt(netSales: real, averageInventory: real): (r: Result<real>)
    ensures IsQuotient(r, netSales, averageInventory)
  {
    if averageInventory == 0.0 then Invalid else Ok(netSales / averageInventory)
  }

  /** Receivables Turnover Ratio. */
  function ReceivablesTurnoverRatio(netCreditSales: real, averageAccountsReceivable: real): (r: Result<real>)
    ensures IsQuotient(r, netCreditSales, averageAccountsReceivable)
  {
    if averageAccountsReceivable == 0.0 then Invalid else Ok(netCreditSales / averageAccountsReceivable)
  }

  /** Days Sales Outstanding (DSO). */
  function DaysSalesOutstanding(accountsReceivable: real, totalCreditSales: real): (r: Result<real>)
    ensures IsScaledQuotient(r, 365.0, accountsReceivable, totalCreditSales)
  {
    if totalCreditSales == 0.0 then Invalid else Ok((accountsReceivable / totalCreditSales) * 365.0)
  }

  /** Days Sales Outstanding (Alternative). */
  function DaysSalesOutstandingAlt(receivablesTurnover: real): (r: Result<real>)
    ensures IsQuotient(r, 365.0, receivablesTurnover)
  {
    if receivablesTurnover == 0.0 then Invalid else Ok(365.0 / receivablesTurnover)
  }

  /** Days Inventory Outstanding (DIO). */
  function DaysInventoryOutstanding(averageInventory: real, cogs: real): (r: Result<real>)
    ensures IsScaledQuotient(r, 365.0, averageInventory, cogs)
  {
    if cogs == 0.0 then Invalid else Ok((averageInventory / cogs) * 365.0)
  }

  /** Days Inventory Outstanding (Alternative). */
  function DaysInventoryOutstandingAlt(inventoryTurnover: real): (r: Result<real>)
    ensures IsQuotient(r, 365.0, inventoryTurnover)
  {
    if inventoryTurnover == 0.0 then Invalid else Ok(365.0 / inventoryTurnover)
  }

  /** Days Payable Outstanding (DPO). */
  function DaysPayableOutstanding(accountsPayable: real, cogs: real): (r: Result<real>)
    ensures IsScaledQuotient(r, 365.0, accountsPayable, cogs)
  {
    if cogs == 0.0 then Invalid else Ok((accountsPayable / cogs) * 365.0)
  }

  /** Days Payable Outstanding (Alternative). */
  function DaysPayableOutstandingAlt(payablesTurnover: real): (r: Result<real>)
    ensures IsQuotient(r, 365.0, payablesTurnover)
  {
    if payablesTurnover == 0.0 then Invalid else Ok(365.0 / payablesTurnover)
  }

  /** Payables Turnover Ratio. */
  function PayablesTurnoverRatio(cogs: real, averageAccountsPayable: real): (r: Result<real>)
    ensures IsQuotient(r, cogs, averageAccountsPayable)
  {
    if averageAccountsPayable == 0.0 then Invalid else Ok(cogs / averageAccountsPayable)
  }

  /** Fixed Asset Turnover. */
  function FixedAssetTurnover(netSales: real, netFixedAssets: real): (r: Result<real>)
    ensures IsQuotient(r, netSales, netFixedAssets)
  {
    if netFixedAssets == 0.0 then Invalid else Ok(netSales / netFixedAssets)
  }

  /** Total Asset Turnover. */
  function TotalAssetTurnover(netSales: real, averageTotalAssets: real): (r: Result<real>)
    ensures IsQuotient(r, netSales, averageTotalAssets)
  {
    if averageTotalAssets == 0.0 then Invalid else Ok(netSales / averageTotalAssets)
  }

  /** Working Capital Turnover. */
  function WorkingCapitalTurnover(netSales: real, averageWorkingCapital: real): (r: Result<real>)
    ensures IsQuotient(r, netSales, averageWorkingCapital)
  {
    if averageWorkingCapital == 0.0 then Invalid else Ok(netSales / averageWorkingCapital)
  }

  /** Capital Employed Turnover. */
  function CapitalEmployedTurnover(revenue: real, capitalEmployed: real): (r: Result<real>)
    ensures IsQuotient(r, revenue, capitalEmployed)
  {
    if capitalEmployed == 0.0 then Invalid else Ok(revenue / capitalEmployed)
  }

  /** Net Working Capital Turnover. */
  function NetWorkingCapitalTurnover(revenue: real, netWorkingCapital: real): (r: Result<real>)
    ensures IsQuotient(r, revenue, netWorkingCapital)
  {
    if netWorkingCapital == 0.0 then Invalid else Ok(revenue / netWorkingCapital)
  }

  /** Equity Turnover. */
  function EquityTurnover(revenue: real, averageShareholdersEquity: real): (r: Result<real>)
    ensures IsQuotient(r, revenue, averageShareholdersEquity)
  {
    if averageShareholdersEquity == 0.0 then Invalid else Ok(revenue / averageShareholdersEquity)
  }

  /** Cash conversion cycle: days sales and inventory outstanding, less days payable outstanding. */
  function CashConversionCycle(dso: real, dio: real, dpo: real): real
  {
    dso + dio - dpo
  }

  /** The cash conversion cycle is the operating cycle, days of receivables plus days of
      inventory, less the days suppliers wait; each extra day of payables shortens it by a day. */
  lemma CashCycleIsOperatingCycleLessPayables(dso: real, dio: real, dpo: real, extraDays: real)
    ensures CashConversionCycle(dso, dio, dpo) + dpo == dso + dio
    ensures CashConversionCycle(dso, dio, dpo + extraDays) == CashConversionCycle(dso, dio, dpo) - extraDays
    ensures CashConversionCycle(dso, dio, dpo) <= 0.0 <==> dpo >= dso + dio
  {
  }

  /** `365 / (y / x) = (x / y) 365` for non-zero `x` and `y`. */
  lemma DaysOfReciprocal(x: real, y: real)
    requires x != 0.0 && y != 0.0
    ensures y / x != 0.0
    ensures 365.0 / (y / x) == (x / y) * 365.0
  {
    var t := y / x;
    assert t * x == y;
    var d := 365.0 / t;
    assert d * t == 365.0;
    assert d * y == (d * t) * x;
    assert ((x / y) * 365.0) * y == 365.0 * ((x / y) * y);
    CancelFactor(d, (x / y) * 365.0, y);
  }

  /** The days-outstanding figures agree with 365 over the matching turnover ratio. */
  lemma DaysOutstandingFromTurnover(balance: real, flow: real)
    requires balance != 0.0 && flow != 0.0
    ensures DaysSalesOutstandingAlt(ReceivablesTurnoverRatio(flow, balance).value) == DaysSalesOutstanding(balance, flow)
    ensures DaysInventoryOutstandingAlt(InventoryTurnoverRatio(flow, balance).value) == DaysInventoryOutstanding(balance, flow)
    ensures DaysPayableOutstandingAlt(PayablesTurnoverRatio(flow, balance).value) == DaysPayableOutstanding(balance, flow)
  {
    DaysOfReciprocal(balance, flow);
  }

  /** Net fixed assets: gross fixed assets less accumulated depreciation. */
  function NetFixedAssets(grossFixedAssets: real, accumulatedDepreciation: real): real
  {
    grossFixedAssets - accumulatedDepreciation
  }

  /** Capital employed: total assets less current liabilities. */
  function CapitalEmployed(totalAssets: real, currentLiabilities: real): real
  {
    totalAssets - currentLiabilities
  }

  /** Capital employed is the non-current assets plus the working capital. */
  lemma CapitalEmployedIsFixedPlusWorkingCapital(nonCurrentAssets: real, currentAssets: real,
                                                 currentLiabilities: real)
    ensures CapitalEmployed(nonCurrentAssets + currentAssets, currentLiabilities)
         == nonCurrentAssets + Liquidity.WorkingCapital(currentAssets, currentLiabilities)
  {
  }

  /** ROCE divides EBIT by capital employed, and fails exactly when capital employed is zero. */
  lemma RoceIsOnCapitalEmployed(ebit: real, totalAssets: real, currentLiabilities: real)
    ensures IsScaledQuotient(Profitability.ReturnOnCapitalEmployed(ebit, totalAssets, currentLiabilities),
                             100.0, ebit, CapitalEmployed(totalAssets, currentLiabilities))
  {
  }

  /** More accumulated depreciation never raises net fixed assets, and with positive sales
      and net fixed assets it never lowers the fixed asset turnover. */
  lemma DepreciationRaisesFixedAssetTurnover(netSales: real, grossFixedAssets: real, depreciation: real,
                                             laterDepreciation: real)
    requires depreciation <= laterDepreciation
    requires netSales > 0.0 && NetFixedAssets(grossFixedAssets, laterDepreciation) > 0.0
    ensures NetFixedAssets(grossFixedAssets, laterDepreciation) <= NetFixedAssets(grossFixedAssets, depreciation)
    ensures FixedAssetTurnover(netSales, NetFixedAssets(grossFixedAssets, depreciation)).Ok?
    ensures FixedAssetTurnover(netSales, NetFixedAssets(grossFixedAssets, laterDepreciation)).Ok?
    ensures FixedAssetTurnover(netSales, NetFixedAssets(grossFixedAssets, depreciation)).value
         <= FixedAssetTurnover(netSales, NetFixedAssets(grossFixedAssets, laterDepreciation)).value
  {
    var before := NetFixedAssets(grossFixedAssets, depreciation);
    var after := NetFixedAssets(grossFixedAssets, laterDepreciation);
    var qb := FixedAssetTurnover(netSales, before).value;
    var qa := FixedAssetTurnover(netSales, after).value;
    PositiveDivisorFacts(netSales, before);
    PositiveDivisorFacts(netSales, after);
    assert qb * before == netSales && qa * after == netSales;
    assert qb * after <= qb * before;
  }
}
