# Financial formulas and unit conversion, modelled in Dafny

This project is a verified model of a small Python toolkit for fundamental analysis. It has two parts.

* `financial_formulas.py` is a catalogue of stateless financial formulas:
  * valuation, profitability, liquidity, leverage, efficiency, growth, market, dividend and cash-flow ratios;
  * DuPont decompositions;
  * list statistics (variance, covariance, means, downside deviation);
  * discounted cash flow (WACC, present values, Gordon growth, APV);
  * scoring models (Altman, Piotroski, Beneish, Ohlson);
  * Damodaran's justified multiples and betas;
  * Graham's intrinsic-value formulas and buy rules;
  * a set of modern value-investing metrics.
* `input.py` is a console script. It collects statement figures in one magnitude unit (thousand, lakhs, million, crore, billion) and converts them to another.

All arithmetic is on exact `real`s. Each formula that raises `ValueError` returns `Guards.Result`: `Invalid` in the error case, `Ok(value)` otherwise. Three predicates in `Guards` describe the common results:

* `IsQuotient`: a guarded division. It fails exactly when the denominator is zero. Otherwise the result times the denominator is the numerator.
* `IsScaledQuotient`: the same, for results reported as a percentage (×100) or in days (×365).
* `IsPerpetuity`: a growth perpetuity. It fails exactly when the discount rate does not exceed the growth rate. Otherwise it divides by the positive spread between them.

`financial_formulas.py` maps to one Dafny module per section of the catalogue:

* `ValuationRatios`, `Profitability`, `Liquidity`, `Leverage`, `Efficiency`, `CashFlow`;
* `Growth`, `Market`, `Dividends`, `DuPont`, `Statistics`, `Dcf`;
* `OtherMetrics`, `Damodaran`, `Graham`, `ModernValue`.

`input.py` maps to two modules:

* `UnitConversion` (`units.dfy`): the factor and reference tables, the sorted menu, `ConvertUnits` and the menu choice.
* `DataEntry` (`data_entry.dfy`): the answer preprocessing, the retry loops and the conversion pass over the collected record.

The computing loops of the source are methods with loop invariants: `Dcf.PresentValueCashFlows`, `Dcf.PvTaxShieldChanging`, `UnitConversion.GetUnitChoice`, `DataEntry.GetValidatedFloat` and `DataEntry.ConvertRecord`. Each is proved equal to a specification function, and the properties are then proved about that function. `OtherMetrics.PiotroskiFScore` is a method too. It has no loop: like `piotroski_f_score`, it raises a running score by one for each of nine `if` tests, and it is proved to return the number of passed criteria.

The module-level tables of `input.py` are constants, so they have no row in the table below. Their properties are stated by the lemmas that do have rows:

* `UnitConversion.ConversionFactors` and `UnitConversion.UnitDetails` are `CONVERSION_FACTORS` and `UNIT_DETAILS` (`input.py` lines 6-21). `UnitConversion.UnitTablesAgree` relates them.
* `UnitConversion.SortedUnitKeys` is `SORTED_UNIT_KEYS` (`input.py` line 24). `UnitConversion.SortedUnitKeysSortsTheTable` and `UnitConversion.SortedListingIsUnique` describe it.
* `DataEntry.CollectedFields` lists the keys `collect_financial_data` fills (`input.py` lines 92-199), in order.
* `DataEntry.AbsoluteKeys` is the set of absolute-number keys that the conversion in `main` skips (`input.py` lines 250-258). `DataEntry.AbsoluteKeysAreCollected` relates the two.

In the table, plain formulas without a failure case name, in their third column, the lemmas that state what they mean.

## Model

| member | source | states |
|---|---|---|
| ValuationRatios.PriceToEarningsRatio | financial_formulas.py:42-49 | invalid input exactly when `eps` is zero; otherwise result × `eps` = `marketPricePerShare` |
| ValuationRatios.PriceToEarningsRatioMarketCap | financial_formulas.py:52-59 | invalid input exactly when `netIncome` is zero; otherwise result × `netIncome` = `marketCap` |
| ValuationRatios.PriceToBookRatio | financial_formulas.py:62-69 | invalid input exactly when `bookValuePerShare` is zero; otherwise result × `bookValuePerShare` = `marketPricePerShare` |
| ValuationRatios.BookValuePerShare | financial_formulas.py:72-79 | invalid input exactly when `sharesOutstanding` is zero; otherwise result × `sharesOutstanding` = `totalEquity` |
| ValuationRatios.PriceToSalesRatio | financial_formulas.py:82-89 | invalid input exactly when `revenuePerShare` is zero; otherwise result × `revenuePerShare` = `marketPricePerShare` |
| ValuationRatios.PriceToSalesRatioMarketCap | financial_formulas.py:92-99 | invalid input exactly when `totalRevenue` is zero; otherwise result × `totalRevenue` = `marketCap` |
| ValuationRatios.PriceToCashFlowRatio | financial_formulas.py:102-109 | invalid input exactly when `operatingCfPerShare` is zero; otherwise result × `operatingCfPerShare` = `marketPricePerShare` |
| ValuationRatios.PegRatio | financial_formulas.py:112-119 | invalid input exactly when `annualEpsGrowthRate` is zero; otherwise result × `annualEpsGrowthRate` = `peRatio` |
| ValuationRatios.EarningsYield | financial_formulas.py:122-129 | invalid input exactly when `marketPricePerShare` is zero; otherwise result × `marketPricePerShare` = `eps` |
| ValuationRatios.EvToEbitda | financial_formulas.py:141-148 | invalid input exactly when `ebitda` is zero; otherwise result × `ebitda` = `enterpriseValue` |
| ValuationRatios.EvToEbit | financial_formulas.py:151-158 | invalid input exactly when `ebit` is zero; otherwise result × `ebit` = `enterpriseValue` |
| ValuationRatios.EvToSales | financial_formulas.py:161-168 | invalid input exactly when `totalRevenue` is zero; otherwise result × `totalRevenue` = `enterpriseValue` |
| ValuationRatios.EvToFreeCashFlow | financial_formulas.py:171-178 | invalid input exactly when `freeCashFlow` is zero; otherwise result × `freeCashFlow` = `enterpriseValue` |
| ValuationRatios.PriceToTangibleBookValue | financial_formulas.py:181-188 | invalid input exactly when `tangibleBookValuePerShare` is zero; otherwise result × `tangibleBookValuePerShare` = `marketPricePerShare` |
| ValuationRatios.TangibleBookValuePerShare | financial_formulas.py:191-199 | invalid input exactly when `sharesOutstanding` is zero; otherwise result × `sharesOutstanding` = `totalEquity - intangibleAssets - goodwill` |
| ValuationRatios.PriceToFreeCashFlow | financial_formulas.py:202-209 | invalid input exactly when `fcfPerShare` is zero; otherwise result × `fcfPerShare` = `marketPricePerShare` |
| ValuationRatios.EvToOperatingIncome | financial_formulas.py:212-219 | invalid input exactly when `operatingIncome` is zero; otherwise result × `operatingIncome` = `enterpriseValue` |
| Profitability.EarningsPerShare | financial_formulas.py:267-275 | invalid input exactly when `weightedAvgShares` is zero; otherwise result × `weightedAvgShares` = `netIncome - preferredDividends` |
| Profitability.DilutedEps | financial_formulas.py:278-287 | invalid input exactly when `weightedAvgShares + dilutiveSecurities` is zero; otherwise result × `weightedAvgShares + dilutiveSecurities` = `netIncome - preferredDividends` |
| Profitability.GrossProfitMargin | financial_formulas.py:290-297 | invalid input exactly when `totalRevenue` is zero; otherwise result × `totalRevenue` = 100 × `grossProfit` (a percentage) |
| Profitability.OperatingMargin | financial_formulas.py:300-307 | invalid input exactly when `totalRevenue` is zero; otherwise result × `totalRevenue` = 100 × `operatingIncome` (a percentage) |
| Profitability.NetProfitMargin | financial_formulas.py:310-317 | invalid input exactly when `totalRevenue` is zero; otherwise result × `totalRevenue` = 100 × `netIncome` (a percentage) |
| Profitability.EbitdaMargin | financial_formulas.py:320-327 | invalid input exactly when `totalRevenue` is zero; otherwise result × `totalRevenue` = 100 × `ebitda` (a percentage) |
| Profitability.ReturnOnAssets | financial_formulas.py:330-337 | invalid input exactly when `averageTotalAssets` is zero; otherwise result × `averageTotalAssets` = 100 × `netIncome` (a percentage) |
| Profitability.ReturnOnEquity | financial_formulas.py:340-347 | invalid input exactly when `averageShareholdersEquity` is zero; otherwise result × `averageShareholdersEquity` = 100 × `netIncome` (a percentage) |
| Profitability.ReturnOnInvestment | financial_formulas.py:350-357 | invalid input exactly when `costOfInvestment` is zero; otherwise result × `costOfInvestment` = 100 × `currentValue - costOfInvestment` (a percentage) |
| Profitability.ReturnOnInvestedCapital | financial_formulas.py:368-376 | invalid input exactly when `totalDebt + totalEquity` is zero; otherwise result × `totalDebt + totalEquity` = 100 × `nopat` (a percentage) |
| Profitability.ReturnOnCapitalEmployed | financial_formulas.py:379-387 | invalid input exactly when `totalAssets - currentLiabilities` is zero; otherwise result × `totalAssets - currentLiabilities` = 100 × `ebit` (a percentage) |
| Profitability.ReturnOnNetAssets | financial_formulas.py:390-398 | invalid input exactly when `fixedAssets + netWorkingCapital` is zero; otherwise result × `fixedAssets + netWorkingCapital` = 100 × `netIncome` (a percentage) |
| Profitability.PreTaxProfitMargin | financial_formulas.py:401-408 | invalid input exactly when `totalRevenue` is zero; otherwise result × `totalRevenue` = 100 × `earningsBeforeTax` (a percentage) |
| Profitability.AfterTaxMargin | financial_formulas.py:411-418 | invalid input exactly when `totalRevenue` is zero; otherwise result × `totalRevenue` = 100 × `netIncomeAfterTax` (a percentage) |
| Profitability.CashReturnOnAssets | financial_formulas.py:421-428 | invalid input exactly when `averageTotalAssets` is zero; otherwise result × `averageTotalAssets` = 100 × `operatingCashFlow` (a percentage) |
| Profitability.CashReturnOnEquity | financial_formulas.py:431-438 | invalid input exactly when `averageShareholdersEquity` is zero; otherwise result × `averageShareholdersEquity` = 100 × `operatingCashFlow` (a percentage) |
| CashFlow.CashFlowPerShare | financial_formulas.py:506-513 | invalid input exactly when `sharesOutstanding` is zero; otherwise result × `sharesOutstanding` = `operatingCashFlow` |
| CashFlow.FreeCashFlowPerShare | financial_formulas.py:516-523 | invalid input exactly when `sharesOutstanding` is zero; otherwise result × `sharesOutstanding` = `freeCashFlow` |
| CashFlow.FreeCashFlowMargin | financial_formulas.py:526-533 | invalid input exactly when `totalRevenue` is zero; otherwise result × `totalRevenue` = 100 × `freeCashFlow` (a percentage) |
| CashFlow.CashFlowToDebtRatio | financial_formulas.py:536-543 | invalid input exactly when `totalDebt` is zero; otherwise result × `totalDebt` = `operatingCashFlow` |
| CashFlow.OperatingCashFlowRatio | financial_formulas.py:546-553 | invalid input exactly when `currentLiabilities` is zero; otherwise result × `currentLiabilities` = `operatingCashFlow` |
| CashFlow.CashFlowReturnOnInvestment | financial_formulas.py:556-563 | invalid input exactly when `grossInvestment` is zero; otherwise result × `grossInvestment` = 100 × `grossCashFlow` (a percentage) |
| Liquidity.CurrentRatio | financial_formulas.py:605-612 | invalid input exactly when `currentLiabilities` is zero; otherwise result × `currentLiabilities` = `currentAssets` |
| Liquidity.QuickRatio | financial_formulas.py:615-622 | invalid input exactly when `currentLiabilities` is zero; otherwise result × `currentLiabilities` = `currentAssets - inventory` |
| Liquidity.QuickRatioAlt | financial_formulas.py:625-633 | invalid input exactly when `currentLiabilities` is zero; otherwise result × `currentLiabilities` = `cash + marketableSecurities + accountsReceivable` |
| Liquidity.CashRatio | financial_formulas.py:636-643 | invalid input exactly when `currentLiabilities` is zero; otherwise result × `currentLiabilities` = `cash + cashEquivalents` |
| Liquidity.NetWorkingCapitalRatio | financial_formulas.py:654-662 | invalid input exactly when `totalAssets` is zero; otherwise result × `totalAssets` = `currentAssets - currentLiabilities` |
| Liquidity.DefensiveIntervalRatio | financial_formulas.py:665-673 | invalid input exactly when `dailyOperatingExpenses` is zero; otherwise result × `dailyOperatingExpenses` = `cash + marketableSecurities + accountsReceivable` |
| Liquidity.CashFlowCoverageRatio | financial_formulas.py:684-691 | invalid input exactly when `totalDebt` is zero; otherwise result × `totalDebt` = `operatingCashFlow` |
| Liquidity.OperatingCashFlowToCurrentLiabilities | financial_formulas.py:694-702 | invalid input exactly when `currentLiabilities` is zero; otherwise result × `currentLiabilities` = `operatingCashFlow` |
| Leverage.DebtToEquityRatio | financial_formulas.py:709-716 | invalid input exactly when `totalShareholdersEquity` is zero; otherwise result × `totalShareholdersEquity` = `totalDebt` |
| Leverage.DebtToAssetsRatio | financial_formulas.py:719-726 | invalid input exactly when `totalAssets` is zero; otherwise result × `totalAssets` = `totalDebt` |
| Leverage.DebtToEbitdaRatio | financial_formulas.py:729-736 | invalid input exactly when `ebitda` is zero; otherwise result × `ebitda` = `totalDebt` |
| Leverage.InterestCoverageRatio | financial_formulas.py:739-746 | invalid input exactly when `interestExpense` is zero; otherwise result × `interestExpense` = `ebit` |
| Leverage.DebtServiceCoverageRatio | financial_formulas.py:749-756 | invalid input exactly when `totalDebtService` is zero; otherwise result × `totalDebtService` = `netOperatingIncome` |
| Leverage.EquityMultiplier | financial_formulas.py:767-774 | invalid input exactly when `totalShareholdersEquity` is zero; otherwise result × `totalShareholdersEquity` = `totalAssets` |
| Leverage.FinancialLeverageRatio | financial_formulas.py:785-792 | invalid input exactly when `totalEquity` is zero; otherwise result × `totalEquity` = `totalAssets` |
| Leverage.TotalDebtRatio | financial_formulas.py:795-802 | invalid input exactly when `totalAssets` is zero; otherwise result × `totalAssets` = `totalDebt` |
| Leverage.LongTermDebtToEquity | financial_formulas.py:805-812 | invalid input exactly when `totalShareholdersEquity` is zero; otherwise result × `totalShareholdersEquity` = `longTermDebt` |
| Leverage.FixedChargeCoverageRatio | financial_formulas.py:815-823 | invalid input exactly when `fixedCharges + interestExpense` is zero; otherwise result × `fixedCharges + interestExpense` = `ebit + fixedCharges` |
| Leverage.TimesInterestEarned | financial_formulas.py:826-833 | invalid input exactly when `interestExpense` is zero; otherwise result × `interestExpense` = `ebit` |
| Leverage.DebtToCapitalRatio | financial_formulas.py:836-844 | invalid input exactly when `totalDebt + totalEquity` is zero; otherwise result × `totalDebt + totalEquity` = `totalDebt` |
| Leverage.NetDebtToEbitda | financial_formulas.py:847-854 | invalid input exactly when `ebitda` is zero; otherwise result × `ebitda` = `totalDebt - cashAndEquivalents` |
| Leverage.NetDebtToEquity | financial_formulas.py:857-865 | invalid input exactly when `totalEquity` is zero; otherwise result × `totalEquity` = `totalDebt - cashAndEquivalents` |
| Leverage.CapitalizationRatio | financial_formulas.py:868-876 | invalid input exactly when `longTermDebt + shareholdersEquity` is zero; otherwise result × `longTermDebt + shareholdersEquity` = `longTermDebt` |
| Efficiency.AssetTurnoverRatio | financial_formulas.py:883-890 | invalid input exactly when `averageTotalAssets` is zero; otherwise result × `averageTotalAssets` = `netSales` |
| Efficiency.InventoryTurnoverRatio | financial_formulas.py:893-900 | invalid input exactly when `averageInventory` is zero; otherwise result × `averageInventory` = `cogs` |
| Efficiency.InventoryTurnoverRatioAlt | financial_formulas.py:903-910 | invalid input exactly when `averageInventory` is zero; otherwise result × `averageInventory` = `netSales` |
| Efficiency.ReceivablesTurnoverRatio | financial_formulas.py:913-920 | invalid input exactly when `averageAccountsReceivable` is zero; otherwise result × `averageAccountsReceivable` = `netCreditSales` |
| Efficiency.DaysSalesOutstanding | financial_formulas.py:923-930 | invalid input exactly when `totalCreditSales` is zero; otherwise result × `totalCreditSales` = 365 × `accountsReceivable` (a days) |
| Efficiency.DaysSalesOutstandingAlt | financial_formulas.py:933-940 | invalid input exactly when `receivablesTurnover` is zero; otherwise result × `receivablesTurnover` = `365.0` |
| Efficiency.DaysInventoryOutstanding | financial_formulas.py:943-950 | invalid input exactly when `cogs` is zero; otherwise result × `cogs` = 365 × `averageInventory` (a days) |
| Efficiency.DaysInventoryOutstandingAlt | financial_formulas.py:953-960 | invalid input exactly when `inventoryTurnover` is zero; otherwise result × `inventoryTurnover` = `365.0` |
| Efficiency.DaysPayableOutstanding | financial_formulas.py:963-970 | invalid input exactly when `cogs` is zero; otherwise result × `cogs` = 365 × `accountsPayable` (a days) |
| Efficiency.DaysPayableOutstandingAlt | financial_formulas.py:973-980 | invalid input exactly when `payablesTurnover` is zero; otherwise result × `payablesTurnover` = `365.0` |
| Efficiency.PayablesTurnoverRatio | financial_formulas.py:991-998 | invalid input exactly when `averageAccountsPayable` is zero; otherwise result × `averageAccountsPayable` = `cogs` |
| Efficiency.FixedAssetTurnover | financial_formulas.py:1001-1008 | invalid input exactly when `netFixedAssets` is zero; otherwise result × `netFixedAssets` = `netSales` |
| Efficiency.TotalAssetTurnover | financial_formulas.py:1019-1026 | invalid input exactly when `averageTotalAssets` is zero; otherwise result × `averageTotalAssets` = `netSales` |
| Efficiency.WorkingCapitalTurnover | financial_formulas.py:1029-1036 | invalid input exactly when `averageWorkingCapital` is zero; otherwise result × `averageWorkingCapital` = `netSales` |
| Efficiency.CapitalEmployedTurnover | financial_formulas.py:1039-1046 | invalid input exactly when `capitalEmployed` is zero; otherwise result × `capitalEmployed` = `revenue` |
| Efficiency.NetWorkingCapitalTurnover | financial_formulas.py:1057-1064 | invalid input exactly when `netWorkingCapital` is zero; otherwise result × `netWorkingCapital` = `revenue` |
| Efficiency.EquityTurnover | financial_formulas.py:1067-1074 | invalid input exactly when `averageShareholdersEquity` is zero; otherwise result × `averageShareholdersEquity` = `revenue` |
| Growth.RevenueGrowthRate | financial_formulas.py:1081-1088 | invalid input exactly when `previousRevenue` is zero; otherwise result × `previousRevenue` = 100 × `currentRevenue - previousRevenue` (a percentage) |
| Growth.EarningsGrowthRate | financial_formulas.py:1091-1098 | invalid input exactly when `previousEarnings` is zero; otherwise result × `previousEarnings` = 100 × `currentEarnings - previousEarnings` (a percentage) |
| Growth.EpsGrowthRate | financial_formulas.py:1101-1108 | invalid input exactly when `previousEps` is zero; otherwise result × `previousEps` = 100 × `currentEps - previousEps` (a percentage) |
| Growth.YearOverYearGrowth | financial_formulas.py:1124-1131 | invalid input exactly when `previousYearValue` is zero; otherwise result × `previousYearValue` = 100 × `currentYearValue - previousYearValue` (a percentage) |
| Growth.QuarterOverQuarterGrowth | financial_formulas.py:1134-1142 | invalid input exactly when `previousQuarterValue` is zero; otherwise result × `previousQuarterValue` = 100 × `currentQuarterValue - previousQuarterValue` (a percentage) |
| Growth.InternalGrowthRate | financial_formulas.py:1161-1169 | invalid input exactly when `1.0 - roa * retentionRatio` is zero; otherwise result × `1.0 - roa * retentionRatio` = 100 × `roa * retentionRatio` (a percentage) |
| Growth.DividendGrowthRate | financial_formulas.py:1180-1187 | invalid input exactly when `previousDividend` is zero; otherwise result × `previousDividend` = 100 × `currentDividend - previousDividend` (a percentage) |
| Growth.BookValueGrowthRate | financial_formulas.py:1190-1197 | invalid input exactly when `previousBookValue` is zero; otherwise result × `previousBookValue` = 100 × `currentBookValue - previousBookValue` (a percentage) |
| Market.BookValuePerShareMarket | financial_formulas.py:1220-1228 | invalid input exactly when `commonSharesOutstanding` is zero; otherwise result × `commonSharesOutstanding` = `totalEquity - preferredEquity` |
| Market.MarketShare | financial_formulas.py:1239-1246 | invalid input exactly when `totalIndustrySales` is zero; otherwise result × `totalIndustrySales` = 100 × `companySales` (a percentage) |
| Market.SharesOutstandingFromCapital | financial_formulas.py:1274-1282 | invalid input exactly when `faceValuePerShare` is zero; otherwise result × `faceValuePerShare` = `paidUpEquityShareCapital` |
| Market.InstitutionalOwnershipPercentage | financial_formulas.py:1285-1293 | invalid input exactly when `totalSharesOutstanding` is zero; otherwise result × `totalSharesOutstanding` = 100 × `sharesHeldByInstitutions` (a percentage) |
| Dividends.DividendYield | financial_formulas.py:1300-1307 | invalid input exactly when `currentStockPrice` is zero; otherwise result × `currentStockPrice` = 100 × `annualDividendsPerShare` (a percentage) |
| Dividends.DividendPayoutRatio | financial_formulas.py:1310-1317 | invalid input exactly when `eps` is zero; otherwise result × `eps` = 100 × `dividendsPerShare` (a percentage) |
| Dividends.DividendPayoutRatioAlt | financial_formulas.py:1320-1327 | invalid input exactly when `netIncome` is zero; otherwise result × `netIncome` = 100 × `totalDividends` (a percentage) |
| Dividends.DividendCoverageRatio | financial_formulas.py:1330-1337 | invalid input exactly when `dividendsPerShare` is zero; otherwise result × `dividendsPerShare` = `eps` |
| Dividends.DividendCoverageRatioAlt | financial_formulas.py:1340-1347 | invalid input exactly when `totalDividendsPaid` is zero; otherwise result × `totalDividendsPaid` = `netIncome` |
| Dividends.DividendPerShare | financial_formulas.py:1350-1357 | invalid input exactly when `numberOfSharesOutstanding` is zero; otherwise result × `numberOfSharesOutstanding` = `totalDividendsPaid` |
| Dividends.RetentionRatioFromIncome | financial_formulas.py:1368-1375 | invalid input exactly when `netIncome` is zero; otherwise result × `netIncome` = `netIncome - dividends` |
| Dividends.CashDividendPayoutRatio | financial_formulas.py:1378-1385 | invalid input exactly when `operatingCashFlow` is zero; otherwise result × `operatingCashFlow` = `cashDividendsPaid` |
| DuPont.TaxBurden | financial_formulas.py:1421-1428 | invalid input exactly when `pretaxIncome` is zero; otherwise result × `pretaxIncome` = `netIncome` |
| DuPont.InterestBurden | financial_formulas.py:1431-1438 | invalid input exactly when `ebit` is zero; otherwise result × `ebit` = `pretaxIncome` |
| DuPont.EbitMargin | financial_formulas.py:1441-1448 | invalid input exactly when `revenue` is zero; otherwise result × `revenue` = `ebit` |
| DuPont.DupontAssetTurnover | financial_formulas.py:1451-1458 | invalid input exactly when `totalAssets` is zero; otherwise result × `totalAssets` = `revenue` |
| DuPont.DupontEquityMultiplier | financial_formulas.py:1461-1468 | invalid input exactly when `shareholdersEquity` is zero; otherwise result × `shareholdersEquity` = `totalAssets` |
| Statistics.CoefficientOfVariation | financial_formulas.py:1577-1584 | invalid input exactly when `mean` is zero; otherwise result × `mean` = 100 × `standardDeviation` (a percentage) |
| Statistics.Beta | financial_formulas.py:1587-1594 | invalid input exactly when `varianceRm` is zero; otherwise result × `varianceRm` = `covarianceRiRm` |
| Statistics.BetaAlt | financial_formulas.py:1597-1604 | invalid input exactly when `sigmaM` is zero; otherwise result × `sigmaM` = `correlation * sigmaI` |
| Statistics.SharpeRatio | financial_formulas.py:1607-1615 | invalid input exactly when `portfolioStdDev` is zero; otherwise result × `portfolioStdDev` = `portfolioReturn - riskFreeRate` |
| Statistics.TreynorRatio | financial_formulas.py:1618-1625 | invalid input exactly when `portfolioBeta` is zero; otherwise result × `portfolioBeta` = `portfolioReturn - riskFreeRate` |
| Statistics.InformationRatio | financial_formulas.py:1628-1636 | invalid input exactly when `trackingError` is zero; otherwise result × `trackingError` = `portfolioReturn - benchmarkReturn` |
| Statistics.SortinoRatio | financial_formulas.py:1650-1658 | invalid input exactly when `downsideDev` is zero; otherwise result × `downsideDev` = `portfolioReturn - riskFreeRate` |
| Dcf.FairValuePerShare | financial_formulas.py:1814-1821 | invalid input exactly when `sharesOutstanding` is zero; otherwise result × `sharesOutstanding` = `equityValue` |
| OtherMetrics.TobinsQRatio | financial_formulas.py:2052-2059 | invalid input exactly when `replacementCostAssets` is zero; otherwise result × `replacementCostAssets` = `marketValueFirm` |
| OtherMetrics.TobinsQRatioAlt | financial_formulas.py:2062-2069 | invalid input exactly when `totalAssets` is zero; otherwise result × `totalAssets` = `marketCap + totalDebt` |
| OtherMetrics.EarningsQualityRatio | financial_formulas.py:2072-2079 | invalid input exactly when `netIncome` is zero; otherwise result × `netIncome` = `operatingCashFlow` |
| OtherMetrics.AccrualsRatio | financial_formulas.py:2082-2089 | invalid input exactly when `totalAssets` is zero; otherwise result × `totalAssets` = `netIncome - operatingCashFlow` |
| Damodaran.CostOfDebt | financial_formulas.py:2107-2114 | invalid input exactly when `averageDebtOutstanding` is zero; otherwise result × `averageDebtOutstanding` = `interestExpense` |
| Damodaran.UnleveredBeta | financial_formulas.py:2133-2141 | invalid input exactly when `1.0 + (1.0 - taxRate) * debtToEquity` is zero; otherwise result × `1.0 + (1.0 - taxRate) * debtToEquity` = `leveredBeta` |
| Damodaran.ReinvestmentRate | financial_formulas.py:2215-2225 | invalid input exactly when `ebit * (1.0 - taxRate)` is zero; otherwise result × `ebit * (1.0 - taxRate)` = `(capex - depreciation) + changeInWc` |
| Damodaran.ReinvestmentRateAlt | financial_formulas.py:2228-2235 | invalid input exactly when `nopat` is zero; otherwise result × `nopat` = `netCapex + changeInWc` |
| Damodaran.PegRatioDamodaran | financial_formulas.py:2301-2308 | invalid input exactly when `expectedGrowthRate` is zero; otherwise result × `expectedGrowthRate` = `peRatio` |
| Graham.GrahamIntrinsicValueRevised | financial_formulas.py:2377-2385 | invalid input exactly when `currentAaaYield` is zero; otherwise result × `currentAaaYield` = `eps * (8.5 + 2.0 * growthRate) * 4.4` |
| Graham.NcavPerShare | financial_formulas.py:2388-2396 | invalid input exactly when `sharesOutstanding` is zero; otherwise result × `sharesOutstanding` = `currentAssets - totalLiabilities` |
| Graham.NetNetWorkingCapitalPerShare | financial_formulas.py:2424-2431 | invalid input exactly when `sharesOutstanding` is zero; otherwise result × `sharesOutstanding` = `netNetWc` |
| Graham.MarginOfSafety | financial_formulas.py:2434-2441 | invalid input exactly when `intrinsicValue` is zero; otherwise result × `intrinsicValue` = 100 × `intrinsicValue - marketPrice` (a percentage) |
| Graham.LiquidationValuePerShare | financial_formulas.py:2460-2468 | invalid input exactly when `commonShares` is zero; otherwise result × `commonShares` = `currentAssets - totalLiabilities - preferredStock` |
| Graham.EarningsPowerValue | financial_formulas.py:2480-2487 | invalid input exactly when `requiredRateOfReturn` is zero; otherwise result × `requiredRateOfReturn` = `adjustedEarnings` |
| ModernValue.ReturnOnRetainedEarnings | financial_formulas.py:2535-2543 | invalid input exactly when `cumulativeRetainedEarningsPerShare` is zero; otherwise result × `cumulativeRetainedEarningsPerShare` = `changeInEps` |
| ModernValue.ReturnOnTangibleCapital | financial_formulas.py:2554-2563 | invalid input exactly when `netWorkingCapital + netFixedAssets` is zero; otherwise result × `netWorkingCapital + netFixedAssets` = `nopat` |
| ModernValue.EarningsYieldGreenblatt | financial_formulas.py:2566-2573 | invalid input exactly when `enterpriseValue` is zero; otherwise result × `enterpriseValue` = `ebit` |
| ModernValue.ReturnOnCapitalGreenblatt | financial_formulas.py:2576-2585 | invalid input exactly when `netWorkingCapital + netFixedAssets` is zero; otherwise result × `netWorkingCapital + netFixedAssets` = `ebit` |
| ModernValue.AcquirersMultiple | financial_formulas.py:2588-2595 | invalid input exactly when `operatingEarnings` is zero; otherwise result × `operatingEarnings` = `enterpriseValue` |
| ModernValue.ShareholderYield | financial_formulas.py:2598-2606 | invalid input exactly when `marketCap` is zero; otherwise result × `marketCap` = `(dividends + buybacks) - shareIssuance` |
| ModernValue.NetPayoutYield | financial_formulas.py:2609-2616 | invalid input exactly when `marketCap` is zero; otherwise result × `marketCap` = `dividends + netBuybacks` |
| ModernValue.TotalPayoutYield | financial_formulas.py:2619-2627 | invalid input exactly when `marketCap` is zero; otherwise result × `marketCap` = `dividends + buybacks + debtReduction` |
| ModernValue.GrossProfitability | financial_formulas.py:2630-2637 | invalid input exactly when `totalAssets` is zero; otherwise result × `totalAssets` = `revenue - cogs` |
| ModernValue.AssetGrowth | financial_formulas.py:2640-2647 | invalid input exactly when `priorTotalAssets` is zero; otherwise result × `priorTotalAssets` = `currentTotalAssets - priorTotalAssets` |
| ModernValue.AccrualRatioQuality | financial_formulas.py:2650-2658 | invalid input exactly when `averageTotalAssets` is zero; otherwise result × `averageTotalAssets` = `netIncome - operatingCashFlow` |
| ModernValue.Week52HighRatio | financial_formulas.py:2690-2697 | invalid input exactly when `week52High` is zero; otherwise result × `week52High` = `currentPrice` |
| ModernValue.ShillerPe | financial_formulas.py:2710-2717 | invalid input exactly when `avg10YearEarnings` is zero; otherwise result × `avg10YearEarnings` = `currentPrice` |
| ModernValue.GrahamDoddPe | financial_formulas.py:2720-2727 | invalid input exactly when `avg10YearEarnings` is zero; otherwise result × `avg10YearEarnings` = `currentPrice` |
| Guards.QuotientIsUnique | financial_formulas.py:42-49 | a guarded quotient is determined: two results meeting the same quotient contract are equal |
| Guards.ScaledQuotientIsScaledRatio | financial_formulas.py:122-129 | a successful percentage-style result is the scale times numerator / denominator |
| Guards.PerpetuityRecurrence | financial_formulas.py:1844-1852 | a perpetuity value satisfies V·(1+rate) = numerator + V·(1+growth): one period of discounting rolls it forward |
| Guards.PerpetuityScales | financial_formulas.py:2267-2275 | scaling a perpetuity numerator by k leaves success unchanged and scales the value by k |
| Statistics.SampleVariance | financial_formulas.py:1475-1484 | invalid exactly for fewer than two points; otherwise non-negative and, times n−1, equals the sum of squared deviations from the mean |
| Statistics.PopulationVariance | financial_formulas.py:1487-1496 | invalid exactly for an empty list; otherwise non-negative and, times n, equals the sum of squared deviations from the mean |
| Statistics.SampleCovariance | financial_formulas.py:1532-1544 | invalid exactly on a length mismatch or fewer than two points; otherwise, times n−1, equals the sum of cross deviations |
| Statistics.PopulationCovariance | financial_formulas.py:1547-1559 | invalid exactly on a length mismatch or an empty list; otherwise, times n, equals the sum of cross deviations |
| Statistics.ArithmeticMean | financial_formulas.py:1670-1677 | invalid exactly for an empty list; otherwise the mean times n is the sum |
| Statistics.WeightedAverage | financial_formulas.py:1680-1693 | invalid exactly on a length mismatch, an empty list or zero total weight; otherwise the result times the total weight is the sum of value·weight |
| Statistics.Shortfall | financial_formulas.py:1639-1647 | the shortfall of one return below the minimum acceptable return is ≤ 0, and 0 exactly when the return reaches it |
| Statistics.DownsideDeviationSquared | financial_formulas.py:1639-1647 | invalid exactly for an empty list; otherwise non-negative and, times n, equals the sum of squared shortfalls below the minimum acceptable return |
| Statistics.SquaredDeviationsNonNegative | financial_formulas.py:1475-1484 | a sum of squared deviations is never negative |
| Statistics.ShortfallsNonNegative | financial_formulas.py:1639-1647 | a sum of squared shortfalls is never negative |
| Statistics.SampleAndPopulationVarianceAgree | financial_formulas.py:1475-1496 | for two or more points, sample variance·(n−1) = population variance·n |
| Statistics.CrossDeviationsWithItself | financial_formulas.py:1532-1559 | the cross deviations of a list with itself are its squared deviations |
| Statistics.CovarianceWithItselfIsVariance | financial_formulas.py:1532-1559 | cov(x, x) = var(x), for the sample and for the population forms, including their failure cases |
| Statistics.CrossDeviationsSymmetric | financial_formulas.py:1532-1544 | the sum of cross deviations does not depend on the order of the two lists |
| Statistics.CovarianceIsSymmetric | financial_formulas.py:1532-1559 | cov(x, y) = cov(y, x) for both forms, failures included |
| Statistics.SquaredDeviationsExpand | financial_formulas.py:1487-1496 | Σ(x−m)² = Σx² − 2mΣx + n·m² |
| Statistics.SumBetween | financial_formulas.py:1670-1677 | a sum of n values each within [lo, hi] lies within [n·lo, n·hi] |
| Statistics.MeanLiesBetweenBounds | financial_formulas.py:1670-1677 | the arithmetic mean of values within [lo, hi] lies within [lo, hi] |
| Statistics.SumOfConstant | financial_formulas.py:1670-1677 | the sum of n copies of c is n·c |
| Statistics.SumProductsByConstant | financial_formulas.py:1680-1693 | weighting every value by the same c multiplies the sum by c |
| Statistics.EqualWeightsGiveArithmeticMean | financial_formulas.py:1680-1693 | with equal non-zero weights the weighted average is the arithmetic mean |
| Statistics.NoShortfallIffNoneBelow | financial_formulas.py:1639-1647 | the squared shortfalls sum to zero exactly when no return is below the minimum acceptable return |
| Statistics.DownsideZeroIffNoReturnBelow | financial_formulas.py:1639-1647 | downside variance of a non-empty list is zero exactly when no return is below the minimum acceptable return |
| Statistics.PortfolioIsSymmetric | financial_formulas.py:1499-1505 | two-asset portfolio variance does not depend on which asset is named first |
| Statistics.SingleAssetPortfolio | financial_formulas.py:1499-1505 | all weight on the first asset gives that asset's variance |
| Statistics.PerfectlyCorrelatedPortfolio | financial_formulas.py:1499-1505 | with covariance σ1σ2 the portfolio variance is (w1σ1 + w2σ2)² |
| Statistics.SumSnoc | financial_formulas.py:1670-1677 | appending a value adds it to the sum |
| Statistics.SquaredDeviationsSnoc | financial_formulas.py:1475-1484 | appending a value adds its squared deviation |
| Statistics.VarianceExamples | financial_formulas.py:1475-1496 | for the list 2,4,4,4,5,5,7,9 the population variance is 4 and the sample variance 32/7 |
| Dcf.Wacc | financial_formulas.py:1713-1733 | invalid exactly when equity + debt + preferred is zero; otherwise the value-weighted cost of equity, after-tax cost of debt and, when preferred value is positive, cost of preferred |
| Dcf.AllEquityWaccIsCostOfEquity | financial_formulas.py:1713-1733 | a firm with no debt and no preferred stock has a WACC equal to its cost of equity |
| Dcf.WaccOfEqualCosts | financial_formulas.py:1713-1733 | when every source of capital costs k and there is no tax, the WACC is k: the weights add up to one |
| Dcf.WeightsAddUp | financial_formulas.py:1713-1733 | the capital weights e/v, d/v and p/v sum to one |
| Dcf.PowerNonZero | financial_formulas.py:1778-1783 | a discount factor (1+r)^t is non-zero when 1+r is |
| Dcf.PowerOfOne | financial_formulas.py:1778-1783 | with a zero rate every discount factor is one |
| Dcf.PresentValueCashFlow | financial_formulas.py:1778-1783 | for a period t ≥ 0 the present value times (1+r)^t gives back the cash flow; for a negative period the flow is compounded, cf·(1+r)^−t |
| Dcf.PresentValueCashFlows | financial_formulas.py:1786-1794 | the loop returns the sum of each flow discounted by its period, periods starting at 1 |
| Dcf.DiscountedSumOfNothing | financial_formulas.py:1786-1794 | the present value of no cash flows is zero |
| Dcf.DiscountedSumSnoc | financial_formulas.py:1786-1794 | appending a flow to n flows adds its value discounted over n+1 periods |
| Dcf.UndiscountedSumIsTotal | financial_formulas.py:1786-1794 | at a zero rate the present value is the plain sum of the flows |
| Dcf.PvTaxShieldChanging | financial_formulas.py:1891-1900 | the loop returns the tax rate times the discounted sum of the interest payments |
| Dcf.TerminalValueJoinsLastFlow | financial_formulas.py:1863-1871 | discounting the terminal value over the forecast horizon is the same as adding it to the last forecast flow |
| Dcf.TerminalValueAlone | financial_formulas.py:1863-1871 | with no forecast flows the APV value is the discounted terminal value |
| Dcf.TerminalValueGordonGrowth | financial_formulas.py:1744-1751 | invalid exactly when WACC ≤ growth; otherwise value·(WACC − growth) = next year's free cash flow |
| Dcf.FcfeTerminalValue | financial_formulas.py:1833-1841 | invalid exactly when cost of equity ≤ growth; otherwise value·(cost − growth) = next year's FCFE |
| Dcf.GordonGrowthModel | financial_formulas.py:1844-1852 | invalid exactly when cost of equity ≤ growth; otherwise price·(cost − growth) = next year's dividend |
| Dcf.GordonPriceRollsForward | financial_formulas.py:1844-1860 | today's Gordon price grown by the cost of equity equals next year's dividend plus next year's price |
| Dcf.PerpetuityFormulasAgree | financial_formulas.py:1833-1852 | the terminal-value, FCFE and Gordon formulas are the same perpetuity, failures included |
| DuPont.DupontRoe3StepDetailed | financial_formulas.py:1401-1409 | invalid exactly when revenue, total assets or equity is zero; otherwise net income / equity |
| DuPont.DetailedDupontIsReturnOnEquity | financial_formulas.py:1401-1409 | the detailed three-step product succeeds together with return on equity and is that percentage divided by 100 |
| DuPont.ThreeStepComponentsGiveReturnOnEquity | financial_formulas.py:1392-1398 | margin × asset turnover × equity multiplier built from the statements is net income / equity |
| DuPont.FiveStepComponentsGiveReturnOnEquity | financial_formulas.py:1412-1418 | the five-step product of tax burden, interest burden, EBIT margin, asset turnover and equity multiplier is net income / equity |
| DuPont.FiveStepRefinesThreeStep | financial_formulas.py:1412-1418 | tax burden × interest burden × EBIT margin is the net margin, so the five-step and three-step forms agree |
| OtherMetrics.EvaFormsAgree | financial_formulas.py:1916-1929 | EVA from NOPAT and EVA from the ROIC spread agree when NOPAT = ROIC × capital |
| OtherMetrics.AltmanIsUnitFree | financial_formulas.py:1957-1970 | scaling every statement input by the same non-zero factor leaves the Z-score unchanged |
| OtherMetrics.AltmanPrivateIsUnitFree | financial_formulas.py:1973-1987 | the private-firm Z'-score is likewise unchanged by a common scale factor |
| OtherMetrics.CommonFactorCancels | financial_formulas.py:1957-1970 | a common non-zero factor cancels from a ratio |
| OtherMetrics.PiotroskiTests | financial_formulas.py:1990-2028 | the nine F-score criteria, in order |
| OtherMetrics.CountPassed | financial_formulas.py:1990-2028 | the number of passed criteria lies between 0 and the number of criteria |
| OtherMetrics.CountPassedExtremes | financial_formulas.py:1990-2028 | the count is the maximum exactly when every criterion passes and 0 exactly when none does |
| OtherMetrics.PiotroskiFScore | financial_formulas.py:1990-2028 | the nine increments return the number of passed criteria, which lies in 0..9 |
| OtherMetrics.PiotroskiCount | financial_formulas.py:2002-2028 | the count of passed criteria is the sum of one point per satisfied comparison |
| OtherMetrics.CountPassedStep | financial_formulas.py:2002-2028 | extending the counted prefix by one criterion adds its point |
| OtherMetrics.CountOfFirstFive | financial_formulas.py:2005-2017 | the count of the first five criteria is the sum of their points |
| OtherMetrics.CountOfNine | financial_formulas.py:2002-2028 | the count of nine criteria is the sum of their nine points |
| OtherMetrics.PiotroskiTieScoresShareTestOnly | financial_formulas.py:1990-2028 | when this year equals last year, of the six year-over-year tests only the share test (≤) scores |
| OtherMetrics.BeneishNeutralCompany | financial_formulas.py:2031-2039 | a company whose eight indices are all neutral (1, and accruals 0) scores −2.48 |
| OtherMetrics.BeneishDirections | financial_formulas.py:2031-2039 | the M-score rises with total accruals and falls with leverage growth |
| Damodaran.UnleverAfterLever | financial_formulas.py:2125-2141 | unlevering a beta that was levered with the same tax rate and D/E returns the original beta |
| Damodaran.LeverAfterUnlever | financial_formulas.py:2125-2141 | unlevering fails exactly when 1 + (1−t)·D/E is zero; otherwise relevering gives back the levered beta |
| Damodaran.BottomUpBeta | financial_formulas.py:2152-2162 | invalid exactly when the weight and beta lists differ in length; otherwise the weighted sum of segment betas, relevered |
| Damodaran.SingleSegmentBottomUpBeta | financial_formulas.py:2152-2162 | a single segment of full weight gives that segment's beta relevered |
| Damodaran.CountryRiskPremium | financial_formulas.py:2165-2173 | invalid exactly when the bond volatility is zero; otherwise premium·σbond = spread·σequity |
| Damodaran.ScaledQuotientTimesDivisor | financial_formulas.py:2165-2173 | a·(b/c)·c = a·b for non-zero c |
| Damodaran.JustifiedPeStableGrowth | financial_formulas.py:2246-2254 | invalid exactly when cost of equity ≤ growth; otherwise P/E·(cost − growth) = payout·(1+g) |
| Damodaran.JustifiedPbRatio | financial_formulas.py:2257-2264 | invalid exactly when cost of equity ≤ growth; otherwise P/B·(cost − growth) = ROE − g |
| Damodaran.JustifiedPsRatio | financial_formulas.py:2267-2275 | invalid exactly when cost of equity ≤ growth; otherwise P/S·(cost − growth) = margin·payout·(1+g) |
| Damodaran.JustifiedEvEbitda | financial_formulas.py:2278-2286 | invalid exactly when WACC ≤ growth; otherwise EV/EBITDA·(WACC − g) = (1−t)(1−reinvestment)(1+g) |
| Damodaran.JustifiedEvSales | financial_formulas.py:2289-2298 | invalid exactly when WACC ≤ growth; otherwise EV/Sales·(WACC − g) = margin·(1−t)(1−reinvestment)(1+g) |
| Damodaran.JustifiedPeIsGordonPricePerEarnings | financial_formulas.py:2246-2254 | the justified P/E times EPS is the Gordon price of the paid-out dividend, and both fail together |
| Damodaran.EarningCostOfEquityMeansBookValue | financial_formulas.py:2257-2264 | a firm whose ROE equals its cost of equity is worth its book value (P/B = 1) |
| Damodaran.JustifiedPsIsMarginTimesPe | financial_formulas.py:2267-2275 | justified P/S is the profit margin times justified P/E, and both fail together |
| Damodaran.JustifiedEvSalesIsMarginTimesEvEbitda | financial_formulas.py:2289-2298 | justified EV/Sales is the operating margin times justified EV/EBITDA, and both fail together |
| Graham.RevisedFormulaRescalesOriginal | financial_formulas.py:2377-2385 | the revised formula is the original one rescaled by 4.4 / AAA yield, and equals it at a 4.4 yield |
| Graham.ConservativeNcavRuleIsStricter | financial_formulas.py:2399-2412 | for non-negative NCAV the one-half rule implies the two-thirds rule, and for non-positive NCAV the converse |
| Graham.NetNetWorkingCapital | financial_formulas.py:2415-2421 | with non-negative inventory, net-net working capital is at most current assets − liabilities, and equal exactly when inventory is zero |
| Graham.NetNetWithoutInventoryIsNcav | financial_formulas.py:2388-2431 | with no inventory, net-net working capital per share is NCAV per share, failures included |
| Graham.MosRulesMatchMarginOfSafety | financial_formulas.py:2434-2457 | for positive intrinsic value the 33% and 50% rules hold exactly when the margin of safety is ≥ 33% or ≥ 50%, and the 50% rule implies the 33% rule |
| Graham.ThresholdOnScaledQuotient | financial_formulas.py:2434-2441 | a quotient reaches a threshold exactly when its numerator reaches threshold × positive divisor |
| Graham.LiquidationValueConservative | financial_formulas.py:2471-2477 | with non-negative receivables and inventory the haircut value never exceeds the book liquidation value |
| Graham.WorkingCapitalRuleIsMonotone | financial_formulas.py:2498-2503 | more working capital or less debt never turns the rule from pass to fail |
| Graham.CentralValueCapitalisesAtEightPercent | financial_formulas.py:2506-2511 | the default multiplier 12.5 capitalises earning power at 8%: central value = assets + EPV at 8% |
| Growth.SustainableGrowthFormsAgree | financial_formulas.py:1145-1158 | the payout and retention forms agree through the retention ratio; growth is zero exactly when ROE is zero or everything is paid out |
| Dividends.RetentionComplementsPayout | financial_formulas.py:1368-1375 | retention from income is 1 − payout/100 and both fail exactly when net income is zero |
| Dividends.CoverageIsReciprocalOfPayout | financial_formulas.py:1340-1347 | coverage × payout percentage = 100 |
| Leverage.EquityMultiplierMatchesDebtEquity | financial_formulas.py:777-782 | assets/equity with assets = debt + equity is 1 + D/E, and both fail when equity is zero |
| Efficiency.DaysOfReciprocal | financial_formulas.py:933-940 | 365 / (y/x) = (x/y)·365 for non-zero x and y |
| Efficiency.DaysOutstandingFromTurnover | financial_formulas.py:923-998 | DSO, DIO and DPO computed from the turnover ratio equal the direct balance / flow × 365 forms |
| ModernValue.IntrinsicGrowthIsSustainableGrowth | financial_formulas.py:2526-2532 | Buffett's intrinsic value growth is sustainable growth with the return on retained earnings as ROE |
| ModernValue.EvaIsSpreadOnCapital | financial_formulas.py:2546-2551 | EVA is the return spread times invested capital; with positive capital it is positive exactly when the spread is |
| ModernValue.OhlsonIntercept | financial_formulas.py:2661-2669 | with every ratio at zero the O-score is its intercept −1.32 |
| ModernValue.OhlsonDirections | financial_formulas.py:2661-2669 | the O-score rises with liabilities/assets and falls with net income/assets |
| ModernValue.PriceMomentum12Month | financial_formulas.py:2680-2687 | invalid exactly when the past price is zero; otherwise (momentum + 1)·past price = current price |
| ModernValue.ShortTermReversal | financial_formulas.py:2700-2707 | invalid exactly when last month's price is zero; otherwise (reversal + 1)·that price = current price |
| ModernValue.RelativeLessOne | financial_formulas.py:2680-2687 | ((c/p) − 1 + 1)·p = c for non-zero p |
| ModernValue.MomentumIsFractionalChange | financial_formulas.py:2680-2707 | both momentum measures are the same fractional change as asset growth, failures included |
| ModernValue.ValueCompositeIsArithmeticMean | financial_formulas.py:2730-2739 | the composite is the arithmetic mean of the six percentiles |
| ValuationRatios.EvToEbitdaSplitsAtNetDebt | financial_formulas.py:141-148 | EV/EBITDA from the enterprise-value formula is market cap / EBITDA plus net debt / EBITDA, and both fail together |
| ValuationRatios.PriceToEarningsPerShareOrTotal | financial_formulas.py:42-59 | P/E from per-share figures equals P/E from totals for any non-zero share count |
| ValuationRatios.EarningsYieldIsReciprocalOfPe | financial_formulas.py:122-129 | earnings yield × P/E = 1 |
| UnitConversion.SortedIsIncreasing | input.py:24 | in a listing sorted by factor, a later key has a strictly larger factor |
| UnitConversion.SortedUnitKeysSortsTheTable | input.py:6-24 | thousand, lakhs, million, cr, billion lists exactly the table's keys in strictly increasing factor order |
| UnitConversion.SortedListingIsUnique | input.py:24 | any two listings sorted by factor of the same table are equal, so the menu order is the sorted order |
| UnitConversion.HeadsAgree | input.py:24 | two sorted listings of the same non-empty table start with the same key |
| UnitConversion.EmptyListingOfEmptyTable | input.py:24 | a sorted listing is empty exactly when the table is |
| UnitConversion.FirstIsLeast | input.py:24 | the first key of a sorted listing has the least factor |
| UnitConversion.TailSortsRest | input.py:24 | dropping the first key of a sorted listing sorts the rest of the table |
| UnitConversion.UnitTablesAgree | input.py:6-21 | every factor is positive, both tables have the same units, and 10^zeroes is the factor |
| UnitConversion.Factor | input.py:6-12 | every unit's factor is positive |
| UnitConversion.ConvertUnits | input.py:77-90 | the same unit returns the value; otherwise result × target factor = value × source factor |
| UnitConversion.ConversionIsDetermined | input.py:84-90 | the conversion is the only number r with r × target factor = value × source factor |
| UnitConversion.ConversionRoundTrip | input.py:77-90 | converting from a to b and back to a returns the value exactly |
| UnitConversion.ConversionComposes | input.py:84-90 | converting a → b → c is converting a → c |
| UnitConversion.ConversionToLargerUnitShrinks | input.py:84-90 | a non-negative value converted to a unit at least as large does not grow and stays non-negative |
| UnitConversion.UnitChoice | input.py:67-73 | a choice is accepted exactly when it is 1..5, and then names SORTED_UNIT_KEYS[n−1] |
| UnitConversion.EveryUnitHasOneChoice | input.py:62-73 | every unit is picked by exactly one menu number |
| UnitConversion.GetUnitChoice | input.py:65-75 | the retry loop stops at the first answer that is a number in range, returns its unit, and every earlier answer was refused |
| DataEntry.StripLeading | input.py:33 | drops exactly the leading whitespace: a suffix that starts with a non-space character |
| DataEntry.StripTrailing | input.py:33 | drops exactly the trailing whitespace: a prefix that ends with a non-space character |
| DataEntry.Strip | input.py:33 | the trimmed answer is one slice of the answer with only whitespace cut off before and after it, and it neither starts nor ends with whitespace |
| DataEntry.StripKeepsTrimmed | input.py:33 | an answer already trimmed is left as it is |
| DataEntry.StripIsIdempotent | input.py:33 | trimming twice is trimming once |
| DataEntry.StripEmptyIffAllSpace | input.py:33-35 | the trimmed answer is empty exactly when the answer is all whitespace |
| DataEntry.RemoveCommas | input.py:38 | the result holds no comma and is no longer than the answer |
| DataEntry.RemoveCommasKeepsCommaFree | input.py:38 | an answer without commas is unchanged |
| DataEntry.RemoveCommasOfConcat | input.py:38 | removing commas distributes over concatenation |
| DataEntry.RemoveCommasKeepsOthers | input.py:38 | every character other than a comma keeps its number of occurrences |
| DataEntry.Prepare | input.py:33-38 | an all-whitespace answer is blank; any other gives the trimmed answer with its commas removed |
| DataEntry.ValidatedFloat | input.py:33-39 | an all-whitespace answer is accepted as 0.0; any other is whatever the parser makes of the trimmed answer with its commas removed |
| DataEntry.CommasDoNotChangeTheNumber | input.py:38-39 | a thousands separator between two digit groups does not change the parsed number |
| DataEntry.PrepareTrimmed | input.py:33-38 | a trimmed non-blank answer is prepared by removing its commas only |
| DataEntry.RemoveInnerComma | input.py:38 | removing the one comma between two comma-free parts joins them |
| DataEntry.RemoveTrailingComma | input.py:38 | a trailing comma is removed |
| DataEntry.GetValidatedFloat | input.py:31-41 | the retry loop returns the value of the first answer that validates, and every earlier answer failed to parse |
| DataEntry.AbsoluteKeysAreCollected | input.py:111-199 | the four absolute-number keys are among the collected fields |
| DataEntry.ConvertedRecord | input.py:250-258 | keeps the key set, copies the four absolute-number keys and converts every other amount between the units |
| DataEntry.ConvertRecord | input.py:248-258 | the conversion loop builds exactly the converted record |
| DataEntry.RecordRoundTrip | input.py:248-258 | converting the record to the target unit and back gives the original record |
| DataEntry.RecordToSameUnit | input.py:244-245 | converting a record to its own unit leaves it unchanged |
| Profitability.IncomeStatementCascades | financial_formulas.py:234-247 | operating income from gross profit is revenue less the cost of goods sold and the operating expenses together |
| Profitability.EbitdaFormsAgree | financial_formulas.py:250-264 | EBITDA from operating income equals EBITDA from net income when operating income is net income plus interest and taxes |
| Profitability.NopatBetweenZeroAndEbit | financial_formulas.py:360-365 | for non-negative EBIT and a tax rate in [0, 1], NOPAT lies between 0 and EBIT |
| CashFlow.FcffFormsAgree | financial_formulas.py:480-495 | FCFF from EBIT, FCFF from NOPAT and unlevered free cash flow are the same amount |
| CashFlow.FcffFromCfoAgrees | financial_formulas.py:498-503 | FCFF from operating cash flow plus after-tax interest equals FCFF from EBIT for a firm taxed on EBIT less interest |
| CashFlow.AfterTaxSplit | financial_formulas.py:498-503 | (EBIT − interest)(1−t) + interest(1−t) = EBIT(1−t) |
| CashFlow.FcfeFromFcffAgrees | financial_formulas.py:1824-1830 | FCFE derived from FCFF (less after-tax interest, plus net borrowing) equals FCFE computed from net income |
| CashFlow.LeveredFreeCashFlowIsFcfe | financial_formulas.py:583-589 | levered free cash flow equals free cash flow to equity |
| CashFlow.OwnerEarningsAreFreeCashFlow | financial_formulas.py:592-598 | owner earnings are the free cash flow of the matching operating cash flow |
| CashFlow.OperatingCashFlowAltIsGrossLessWorkingCapital | financial_formulas.py:454-460 | operating cash flow from EBITDA is gross cash flow less the working-capital increase |
| Liquidity.WorkingCapitalMatchesCurrentRatio | financial_formulas.py:646-651 | with positive current liabilities, working capital is positive exactly when the current ratio exceeds 1, and zero exactly when it is 1 |
| Liquidity.DefensiveIntervalInDays | financial_formulas.py:665-681 | the defensive interval over daily expenses is 365 × liquid assets / annual expenses, failing exactly when expenses are zero |
| Market.BookValuePerShareOfBookValue | financial_formulas.py:1212-1228 | common book value per share is book value net of preferred stock per share, failing exactly when there are no shares |
| Market.FloatIsPartOfOutstanding | financial_formulas.py:1257-1271 | the free float never exceeds the shares outstanding, and equals it exactly when there are no restricted or insider shares |
| Market.MarketShareOfUnits | financial_formulas.py:1239-1254 | at a common non-zero price, market share by sales is market share by units |
| Market.MarketCapPeIsPerSharePe | financial_formulas.py:1204-1209 | P/E on market capitalisation and total earnings equals P/E per share |
| Efficiency.CapitalEmployedIsFixedPlusWorkingCapital | financial_formulas.py:1049-1054 | capital employed is non-current assets plus working capital |
| Efficiency.RoceIsOnCapitalEmployed | financial_formulas.py:379-387 | ROCE is EBIT over capital employed as a percentage, failing exactly when capital employed is zero |
| Efficiency.DepreciationRaisesFixedAssetTurnover | financial_formulas.py:1001-1016 | more accumulated depreciation lowers net fixed assets and never lowers fixed asset turnover |
| Dcf.CapmLine | financial_formulas.py:1736-1741 | the CAPM cost is the risk-free rate at beta 0 and the market return at beta 1, and rises with beta when the premium is positive |
| Dcf.ScaleGap | financial_formulas.py:1736-1741 | (a − b)·p = a·p − b·p |
| Dcf.UnleveredCostIsCapm | financial_formulas.py:1874-1880 | the unlevered cost of equity is the CAPM cost at the unlevered beta |
| Dcf.ApvIsEnterpriseValueOfParts | financial_formulas.py:1797-1802 | the APV unlevered firm value is the DCF enterprise value of the discounted flows and the discounted terminal value |
| Dcf.EquityBridgeUndoesEnterpriseValue | financial_formulas.py:1805-1811 | bridging back from enterprise value through net debt and preferred equity recovers the market capitalisation |
| Dcf.PerpetualShieldIsPerpetuity | financial_formulas.py:1883-1888 | the perpetual-debt tax shield t·D is the no-growth perpetuity of the yearly shield t·r·D |
| Dcf.ApvOfPerpetualDebt | financial_formulas.py:1903-1909 | with perpetual debt and no bankruptcy costs, APV is the unlevered value plus t·D |
| OtherMetrics.MvaFormsAgree | financial_formulas.py:1932-1945 | the two MVA formulas agree when debt enters both sides at book |
| OtherMetrics.SvaIsEva | financial_formulas.py:1948-1954 | shareholder value added equals EVA from the ROIC spread and EVA from NOPAT |
| OtherMetrics.AlphaIsExcessOverCapm | financial_formulas.py:2042-2049 | alpha is the return over the CAPM cost, zero exactly when the return is what the CAPM expects; the market itself has alpha 0 |
| Damodaran.BuildUpIsCapmPlusPremiums | financial_formulas.py:2096-2104 | without extra premiums the build-up cost is the beta-1 CAPM cost, and each premium adds one for one |
| Damodaran.AllDebtWaccIsAfterTaxCostOfDebt | financial_formulas.py:2117-2122 | the WACC of an all-debt firm is its after-tax cost of debt |
| Damodaran.AdjustedBetaShrinksTowardOne | financial_formulas.py:2144-2149 | the adjusted beta of 1 is 1, and any other beta keeps 67% of its distance from 1 |
| Damodaran.CountryRiskAddsToCapm | financial_formulas.py:2176-2183 | the country-risk cost of equity is the mature-market CAPM cost plus the country premium |
| Damodaran.FundamentalGrowthIsSustainableGrowth | financial_formulas.py:2186-2191 | fundamental equity growth is sustainable growth at payout ratio 1 − retention |
| Damodaran.FirmGrowthIsReinvestmentOverCapital | financial_formulas.py:2194-2199 | with NOPAT earned at the return on capital, firm growth × capital is the reinvestment |
| Damodaran.ReinvestmentRateFormsAgree | financial_formulas.py:2215-2235 | the reinvestment rate on EBIT and tax is the rate on net capex over NOPAT, failures included |
| Damodaran.StableFcffIsFcffFromNopat | financial_formulas.py:2238-2243 | stable-period FCFF at the reinvestment rate of the same capex and working-capital change is FCFF from NOPAT |
| Damodaran.JustifiedExitMultipleIsGordonValue | financial_formulas.py:1754-1759 | an EBITDA exit multiple at the justified EV/EBITDA gives the Gordon terminal value of the next year’s stable FCFF |
| Damodaran.JustifiedSalesMultipleIsGordonValue | financial_formulas.py:1770-1775 | a sales exit multiple at the justified EV/Sales gives the Gordon terminal value of the next year’s stable FCFF |
| Damodaran.MvaIsPresentValueOfEva | financial_formulas.py:2311-2316 | in the EVA model, market value added is the present value of expected EVA |
| Dcf.IntPower | financial_formulas.py:1778-1783 | Python's `**` with an int exponent: power 0 is 1, a non-zero base gives a non-zero power, and a negative power is the reciprocal of the positive one |
| Dcf.DiscountingUndoesCompounding | financial_formulas.py:1778-1783 | discounting over t periods and then over −t periods returns the flow, for every integer t |
| Dcf.ApvUnleveredFirmValue | financial_formulas.py:1863-1871 | the value beyond the discounted flows, grown over the n-period horizon, is the terminal value; a negative horizon compounds the terminal value instead |
| Damodaran.BottomUpBetaUnlevers | financial_formulas.py:2152-2162 | unlevering the bottom-up beta with the same tax rate and D/E gives back the segment-weighted unlevered beta |
| Damodaran.UniformSegmentsBottomUpBeta | financial_formulas.py:2152-2162 | when every segment has the same unlevered beta and the weights sum to 1, the bottom-up beta is that beta relevered |
| DataEntry.StripCutsSpaceOnly | input.py:33 | cutting whitespace off the front and then off the back keeps one slice of the answer and cuts only whitespace |
| Leverage.PrincipalLowersCoverage | financial_formulas.py:759-764 | without principal, debt service coverage is interest coverage; with positive principal and income it is strictly lower |
| Efficiency.CashCycleIsOperatingCycleLessPayables | financial_formulas.py:983-988 | the cycle plus the payables days is the operating cycle; each extra payables day shortens it by one; it is non-positive exactly when payables days cover the operating cycle |
| Graham.GrowthValueAddsToEpv | financial_formulas.py:2490-2495 | without growth value the full EPV is the EPV; otherwise value × required return = adjusted earnings + required return × growth value |
| ModernValue.LookThroughAddsUndistributedShare | financial_formulas.py:2518-2523 | look-through earnings exceed reported earnings exactly when the undistributed share is positive, and equal them when it is zero |
| ValuationRatios.EnterpriseValue | financial_formulas.py:132-138 | market cap plus debt, minority interest and preferred equity, less cash; EquityBridgeUndoesEnterpriseValue and EvToEbitdaSplitsAtNetDebt relate it to equity value and EV/EBITDA |
| Profitability.NetIncome | financial_formulas.py:226-231 | revenue less expenses; IncomeStatementCascades ties it to gross profit and operating income |
| Profitability.GrossProfit | financial_formulas.py:234-239 | revenue less cost of goods sold; IncomeStatementCascades |
| Profitability.OperatingIncome | financial_formulas.py:242-247 | gross profit less operating expenses; IncomeStatementCascades |
| Profitability.Ebitda | financial_formulas.py:250-255 | operating income plus depreciation and amortisation; EbitdaFormsAgree |
| Profitability.EbitdaFromNetIncome | financial_formulas.py:258-264 | net income plus interest, taxes, depreciation and amortisation; EbitdaFormsAgree |
| Profitability.Nopat | financial_formulas.py:360-365 | EBIT × (1 − tax rate); NopatBetweenZeroAndEbit bounds it |
| CashFlow.OperatingCashFlow | financial_formulas.py:445-451 | net income plus non-cash items plus the working-capital change; FcffFromCfoAgrees and OwnerEarningsAreFreeCashFlow |
| CashFlow.OperatingCashFlowAlt | financial_formulas.py:454-460 | EBITDA less taxes less the working-capital increase; OperatingCashFlowAltIsGrossLessWorkingCapital |
| CashFlow.FreeCashFlow | financial_formulas.py:463-468 | operating cash flow less capital expenditure; OwnerEarningsAreFreeCashFlow |
| CashFlow.FreeCashFlowToEquity | financial_formulas.py:471-477 | net income after reinvestment plus net borrowing; FcfeFromFcffAgrees and LeveredFreeCashFlowIsFcfe |
| CashFlow.FreeCashFlowToFirm | financial_formulas.py:480-486 | after-tax EBIT after reinvestment; FcffFormsAgree, FcffFromCfoAgrees and FcfeFromFcffAgrees |
| CashFlow.FcffFromNopat | financial_formulas.py:489-495 | NOPAT after reinvestment; FcffFormsAgree and StableFcffIsFcffFromNopat |
| CashFlow.FcffFromCfo | financial_formulas.py:498-503 | operating cash flow plus after-tax interest less capex; FcffFromCfoAgrees |
| CashFlow.GrossCashFlow | financial_formulas.py:566-571 | EBITDA less cash taxes; OperatingCashFlowAltIsGrossLessWorkingCapital |
| CashFlow.UnleveredFreeCashFlow | financial_formulas.py:574-580 | after-tax EBIT after reinvestment; FcffFormsAgree |
| CashFlow.LeveredFreeCashFlow | financial_formulas.py:583-589 | net income plus depreciation less capex, working-capital increase and repayments, plus new debt; LeveredFreeCashFlowIsFcfe |
| CashFlow.OwnerEarnings | financial_formulas.py:592-598 | net income plus depreciation and amortisation less capex and additional working capital; OwnerEarningsAreFreeCashFlow |
| Liquidity.WorkingCapital | financial_formulas.py:646-651 | current assets less current liabilities; WorkingCapitalMatchesCurrentRatio |
| Liquidity.DailyOperatingExpenses | financial_formulas.py:676-681 | annual operating expenses over 365; DefensiveIntervalInDays |
| Leverage.TotalDebtService | financial_formulas.py:759-764 | principal plus interest; PrincipalLowersCoverage |
| Leverage.EquityMultiplierFromDebtEquity | financial_formulas.py:777-782 | 1 + D/E; EquityMultiplierMatchesDebtEquity |
| Efficiency.CashConversionCycle | financial_formulas.py:983-988 | DSO + DIO − DPO; CashCycleIsOperatingCycleLessPayables |
| Efficiency.NetFixedAssets | financial_formulas.py:1011-1016 | gross fixed assets less accumulated depreciation; DepreciationRaisesFixedAssetTurnover |
| Efficiency.CapitalEmployed | financial_formulas.py:1049-1054 | total assets less current liabilities; CapitalEmployedIsFixedPlusWorkingCapital and RoceIsOnCapitalEmployed |
| Growth.SustainableGrowthRate | financial_formulas.py:1145-1150 | ROE × (1 − payout); SustainableGrowthFormsAgree |
| Growth.SustainableGrowthRateAlt | financial_formulas.py:1153-1158 | ROE × retention; SustainableGrowthFormsAgree |
| Growth.RetentionRatio | financial_formulas.py:1172-1177 | 1 − payout; SustainableGrowthFormsAgree |
| Market.MarketCapitalization | financial_formulas.py:1204-1209 | price × shares outstanding; MarketCapPeIsPerSharePe |
| Market.BookValue | financial_formulas.py:1212-1217 | assets less liabilities less preferred stock; BookValuePerShareOfBookValue |
| Market.MarketValue | financial_formulas.py:1231-1236 | price × quantity; no partner lemma, as recorded under Left out |
| Market.TotalAddressableMarket | financial_formulas.py:1249-1254 | annual market demand × average selling price; MarketShareOfUnits |
| Market.FloatShares | financial_formulas.py:1257-1263 | outstanding less restricted and insider shares; FloatIsPartOfOutstanding |
| Market.SharesOutstanding | financial_formulas.py:1266-1271 | issued less treasury shares; FloatIsPartOfOutstanding |
| Dividends.RetentionRatioFromDividendPayout | financial_formulas.py:1360-1365 | 1 − payout; RetentionComplementsPayout |
| DuPont.DupontRoe3Step | financial_formulas.py:1392-1398 | margin × turnover × multiplier; ThreeStepComponentsGiveReturnOnEquity and FiveStepRefinesThreeStep |
| DuPont.DupontRoe5Step | financial_formulas.py:1412-1418 | tax burden × interest burden × EBIT margin × turnover × multiplier; FiveStepComponentsGiveReturnOnEquity |
| Statistics.PortfolioVarianceTwoAssets | financial_formulas.py:1499-1505 | w1²σ1² + w2²σ2² + 2w1w2cov; PortfolioIsSymmetric, SingleAssetPortfolio and PerfectlyCorrelatedPortfolio |
| Dcf.Power | financial_formulas.py:1778-1783 | Python's `**` for a non-negative int exponent; PowerNonZero and PowerOfOne |
| Dcf.DiscountedSum | financial_formulas.py:1786-1794 | Σ cf_t/(1+r)^t with periods from 1, the specification the loop is proved against; DiscountedSumSnoc and UndiscountedSumIsTotal |
| Dcf.CostOfEquityCapm | financial_formulas.py:1736-1741 | rf + β(rm − rf); CapmLine |
| Dcf.TerminalValueExitMultipleEbitda | financial_formulas.py:1754-1759 | EBITDA × multiple; JustifiedExitMultipleIsGordonValue |
| Dcf.TerminalValueExitMultipleEbit | financial_formulas.py:1762-1767 | EBIT × multiple; no partner lemma, as recorded under Left out |
| Dcf.TerminalValueExitMultipleSales | financial_formulas.py:1770-1775 | sales × multiple; JustifiedSalesMultipleIsGordonValue |
| Dcf.EnterpriseValueDcf | financial_formulas.py:1797-1802 | PV of flows plus PV of terminal value; ApvIsEnterpriseValueOfParts |
| Dcf.EquityValueFromEv | financial_formulas.py:1805-1811 | EV less net debt and preferred stock plus non-operating assets; EquityBridgeUndoesEnterpriseValue |
| Dcf.FcfeFromFcff | financial_formulas.py:1824-1830 | FCFF less after-tax interest plus net borrowing; FcfeFromFcffAgrees |
| Dcf.DividendNextYear | financial_formulas.py:1855-1860 | D0 × (1 + g); GordonPriceRollsForward and JustifiedPeIsGordonPricePerEarnings |
| Dcf.UnleveredCostOfEquity | financial_formulas.py:1874-1880 | rf + βu × equity risk premium; UnleveredCostIsCapm |
| Dcf.PvTaxShieldPerpetual | financial_formulas.py:1883-1888 | tax rate × debt; PerpetualShieldIsPerpetuity |
| Dcf.AdjustedPresentValue | financial_formulas.py:1903-1909 | unlevered value plus tax shield less bankruptcy costs; ApvOfPerpetualDebt |
| OtherMetrics.EconomicValueAdded | financial_formulas.py:1916-1921 | NOPAT less capital charge; EvaFormsAgree and SvaIsEva |
| OtherMetrics.EvaAlt | financial_formulas.py:1924-1929 | (ROIC − WACC) × capital; EvaFormsAgree |
| OtherMetrics.MarketValueAdded | financial_formulas.py:1932-1937 | market value less invested capital; MvaFormsAgree and MvaIsPresentValueOfEva |
| OtherMetrics.MvaAlt | financial_formulas.py:1940-1945 | market capitalisation less book equity; MvaFormsAgree |
| OtherMetrics.ShareholderValueAdded | financial_formulas.py:1948-1954 | (return − cost of capital) × capital; SvaIsEva |
| OtherMetrics.AltmanZScore | financial_formulas.py:1957-1970 | the five-ratio Z-score with the source's coefficients; AltmanIsUnitFree |
| OtherMetrics.AltmanZScorePrivate | financial_formulas.py:1973-1987 | the private-firm Z'-score; AltmanPrivateIsUnitFree |
| OtherMetrics.Point | financial_formulas.py:2002-2028 | one point for a satisfied criterion; PiotroskiCount |
| OtherMetrics.BeneishMScore | financial_formulas.py:2031-2039 | the eight-index M-score; BeneishNeutralCompany and BeneishDirections |
| OtherMetrics.JensensAlpha | financial_formulas.py:2042-2049 | actual return less the CAPM return; AlphaIsExcessOverCapm |
| Damodaran.CostOfEquityBuildUp | financial_formulas.py:2096-2104 | risk-free rate plus the premiums; BuildUpIsCapmPlusPremiums |
| Damodaran.AfterTaxCostOfDebt | financial_formulas.py:2117-2122 | pre-tax cost × (1 − t); AllDebtWaccIsAfterTaxCostOfDebt |
| Damodaran.LeverageFactor | financial_formulas.py:2125-2130 | 1 + (1 − t)·D/E; UnleverAfterLever and LeverAfterUnlever |
| Damodaran.LeveredBeta | financial_formulas.py:2125-2130 | unlevered beta × leverage factor; UnleverAfterLever and LeverAfterUnlever |
| Damodaran.AdjustedBetaBloomberg | financial_formulas.py:2144-2149 | 0.67β + 0.33; AdjustedBetaShrinksTowardOne |
| Damodaran.CostOfEquityWithCountryRisk | financial_formulas.py:2176-2183 | rf + β × mature-market premium + country premium; CountryRiskAddsToCapm |
| Damodaran.FundamentalGrowthRateEquity | financial_formulas.py:2186-2191 | retention × ROE; FundamentalGrowthIsSustainableGrowth |
| Damodaran.FundamentalGrowthRateFirm | financial_formulas.py:2194-2199 | reinvestment rate × return on capital; FirmGrowthIsReinvestmentOverCapital |
| Damodaran.StablePeriodFcff | financial_formulas.py:2238-2243 | NOPAT × (1 − reinvestment rate); StableFcffIsFcffFromNopat |
| Damodaran.FirmValueEva | financial_formulas.py:2311-2316 | capital plus PV of EVA; MvaIsPresentValueOfEva |
| Graham.GrahamIntrinsicValueOriginal | financial_formulas.py:2369-2374 | EPS × (8.5 + 2g); RevisedFormulaRescalesOriginal |
| Graham.GrahamNcavBuyRule | financial_formulas.py:2399-2404 | price < ⅔ NCAV per share; ConservativeNcavRuleIsStricter |
| Graham.GrahamNcavBuyRuleConservative | financial_formulas.py:2407-2412 | price < ½ NCAV per share; ConservativeNcavRuleIsStricter |
| Graham.GrahamMinimumMos33 | financial_formulas.py:2444-2449 | price ≤ 0.67 × intrinsic value; MosRulesMatchMarginOfSafety |
| Graham.GrahamMinimumMos50 | financial_formulas.py:2452-2457 | price ≤ 0.5 × intrinsic value; MosRulesMatchMarginOfSafety |
| Graham.EpvWithGrowth | financial_formulas.py:2490-2495 | EPV plus PV of growth; GrowthValueAddsToEpv |
| Graham.GrahamWorkingCapitalRule | financial_formulas.py:2498-2503 | working capital ≥ ½ total debt; WorkingCapitalRuleIsMonotone |
| Graham.CentralValue | financial_formulas.py:2506-2511 | assets + multiplier × earning power; CentralValueCapitalisesAtEightPercent |
| ModernValue.LookThroughEarnings | financial_formulas.py:2518-2523 | reported plus undistributed share; LookThroughAddsUndistributedShare |
| ModernValue.IntrinsicValueGrowthRate | financial_formulas.py:2526-2532 | retention × return on retained earnings; IntrinsicGrowthIsSustainableGrowth |
| ModernValue.ReturnSpread | financial_formulas.py:2546-2551 | ROIC − WACC; EvaIsSpreadOnCapital |
| ModernValue.OhlsonOScore | financial_formulas.py:2661-2669 | the Ohlson O-score with the source's coefficients; OhlsonIntercept and OhlsonDirections |
| ModernValue.ValueCompositeOshaughnessy | financial_formulas.py:2730-2739 | sum of six percentiles over 6; ValueCompositeIsArithmeticMean |
| UnitConversion.IsUnit | input.py:6-12 | a key of CONVERSION_FACTORS; the conversion lemmas range over it |
| UnitConversion.SortsByFactor | input.py:24 | a listing of exactly the table's keys in strictly increasing factor, what `sorted(..., key=CONVERSION_FACTORS.get)` returns; SortedListingIsUnique |
| UnitConversion.Pow10 | input.py:15-21 | 10 to the `zeroes` of UNIT_DETAILS; UnitTablesAgree |
| UnitConversion.Refused | input.py:65-75 | an answer the menu rejects, not a number or outside 1..5; GetUnitChoice |
| DataEntry.IsSpace | input.py:33 | the ASCII characters `str.strip` removes; Strip |
| DataEntry.ConvertField | input.py:250-258 | one field of the converted record: an absolute field keeps its value, any other goes through ConvertUnits; ConvertedRecord |
| Statistics.Sum | financial_formulas.py:1670-1677 | Python's `sum` of a list, taken from the last element; SumSnoc, SumBetween and SumOfConstant |
| Statistics.Mean | financial_formulas.py:1475-1484 | the list mean `sum(data) / n` that the variance formulas compute first; ArithmeticMean fixes the same value |
| Statistics.SumSquaredDeviations | financial_formulas.py:1475-1496 | Σ(x − mean)², the numerator of both variances; SquaredDeviationsNonNegative and SquaredDeviationsExpand |
| Statistics.SumCrossDeviations | financial_formulas.py:1532-1559 | Σ(x − x̄)(y − ȳ), the numerator of both covariances; CrossDeviationsSymmetric and CrossDeviationsWithItself |
| Statistics.SumProducts | financial_formulas.py:1680-1693 | Σ value × weight; SumProductsByConstant |
| Statistics.SumSquaredShortfalls | financial_formulas.py:1639-1647 | Σ min(0, r − mar)²; ShortfallsNonNegative and NoShortfallIffNoneBelow |
| Statistics.SumOfSquares | financial_formulas.py:1487-1496 | Σx²; SquaredDeviationsExpand |

## Left out

- Square roots, exponentials, logarithms, the normal CDF and fractional powers have no exact `real` meaning, so these functions are not modelled: `sample_standard_deviation`, `population_standard_deviation`, `returns_standard_deviation`, `correlation_coefficient`, `geometric_mean`, `compound_annual_growth_rate`, `expected_growth_rate_historical`, `value_at_risk`, `graham_number`, `_norm_cdf`, `black_scholes_call`, `black_scholes_put` and `probability_of_bankruptcy`.
- Statistics.DownsideDeviationSquared: covers `downside_deviation` up to its final square root. The square root is left out for the same reason.
- Floating-point rounding is not modelled, since all arithmetic is exact. The optional SciPy and NumPy imports are not modelled either.
- Dcf.TerminalValueExitMultipleEbit: modelled as its product only. The source has no justified EV/EBIT multiple to pair it with, unlike the EBITDA and sales exit multiples.
- Market.MarketValue: modelled as its product only. It is the same product as `Market.MarketCapitalization`, applied to any holding.
- OtherMetrics.AltmanZScore: the source divides without a guard, which raises Python's `ZeroDivisionError` rather than `ValueError`. The non-zero total assets and liabilities are therefore preconditions.
- OtherMetrics.AltmanZScorePrivate: the same preconditions, for the same reason.
- Dcf.PresentValueCashFlow: a zero `1 + rate` raises `ZeroDivisionError` in the source, so the model excludes it by a precondition. So do `Dcf.PresentValueCashFlows`, `Dcf.PvTaxShieldChanging` and `Dcf.ApvUnleveredFirmValue`.
- Console I/O is not modelled: the prompts, the printing, the yes/no confirmation loop in `main`, `sys.exit`, the unit reference table and the field-by-field prompting in `collect_financial_data`. The collected field names are kept as `DataEntry.CollectedFields`.
- DataEntry.GetValidatedFloat: Python's `float()` parsing is a library call, so it is a parameter `parse` of the model. Only the trimming, the blank default and the comma removal around it are modelled.
- UnitConversion.GetUnitChoice: `int()` parsing is abstracted the same way, as an `Answer` that is either a number or not a number.
- DataEntry.GetValidatedFloat: the endless retry loops become loops over a finite sequence of answers. They report whether an acceptable answer came and how many answers were read.
- UnitConversion.GetUnitChoice: modelled over a finite sequence of answers in the same way.
- DataEntry.Strip: removes only the ASCII whitespace that `str.strip` removes. Unicode whitespace is not modelled.
- DataEntry.ConvertRecord: a `dict` is a `map`, so the insertion order of the converted record is not modelled. Only its contents are.
- `input.py` line 181 reads an undefined `base_input_name`, which raises `NameError` at that prompt. Prompts are not modelled, so neither is this error. The field it fills, `cfo_interest_income`, is kept in `DataEntry.CollectedFields`.
- `main`: when the base and target units are equal, the source only prints a message. `DataEntry.RecordToSameUnit` states that converting anyway would change nothing.
- Statistics.PopulationVariance: the identity "variance = mean of squares − square of mean" is only stated in its un-normalised form, `Statistics.SquaredDeviationsExpand`. The variance of a weighted combination of two series is not proved equal to `portfolio_variance_two_assets`. Algebraic facts about that formula are proved instead.
