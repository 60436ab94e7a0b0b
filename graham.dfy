/** Benjamin Graham formulas: intrinsic value, net current asset value and buy rules. */
module Graham {
  import opened Guards

  /** Revised Graham Formula (1974 - with bond yields). */
  function GrahamIntrinsicValueRevised(eps: real, growthRate: real, currentAaaYield: real): (r: Result<real>)
    ensures IsQuotient(r, eps * (8.5 + 2.0 * growthRate) * 4.4, currentAaaYield)
  {
    if currentAaaYield == 0.0 then Invalid else Ok((eps * (8.5 + 2.0 * growthRate) * 4.4) / currentAaaYield)
  }

  /** Net Current Asset Value (NCAV) Per Share. */
  function NcavPerShare(currentAssets: real, totalLiabilities: real, sharesOutstanding: real): (r: Result<real>)
    ensures IsQuotient(r, currentAssets - totalLiabilities, sharesOutstanding)
  {
    if sharesOutstanding == 0.0 then Invalid else Ok((currentAssets - totalLiabilities) / sharesOutstanding)
  }

  /** Net-Net Working Capital Per Share. */
  function NetNetWorkingCapitalPerShare(netNetWc: real, sharesOutstanding: real): (r: Result<real>)
    ensures IsQuotient(r, netNetWc, sharesOutstanding)
  {
    if sharesOutstanding == 0.0 then Invalid else Ok(netNetWc / sharesOutstanding)
  }

  /** Margin of Safety (Percentage). */
  function MarginOfSafety(intrinsicValue: real, marketPrice: real): (r: Result<real>)
    ensures IsScaledQuotient(r, 100.0, intrinsicValue - marketPrice, intrinsicValue)
  {
    if intrinsicValue == 0.0 then Invalid else Ok(((intrinsicValue - marketPrice) / intrinsicValue) * 100.0)
  }

  /** Liquidation Value Per Share. */
  function LiquidationValuePerShare(currentAssets: real, totalLiabilities: real, preferredStock: real, commonShares: real): (r: Result<real>)
    ensures IsQuotient(r, currentAssets - totalLiabilities - preferredStock, commonShares)
  {
    if commonShares == 0.0 then Invalid else Ok((currentAssets - totalLiabilities - preferredStock) / commonShares)
  }

  /** Earnings Power Value (EPV). */
  function EarningsPowerValue(adjustedEarnings: real, requiredRateOfReturn: real): (r: Result<real>)
    ensures IsQuotient(r, adjustedEarnings, requiredRateOfReturn)
  {
    if requiredRateOfReturn == 0.0 then Invalid else Ok(adjustedEarnings / requiredRateOfReturn)
  }

  /** Graham's original (1962) intrinsic value: `EPS × (8.5 + 2g)`. */
  function GrahamIntrinsicValueOriginal(eps: real, growthRate: real): real
  {
    eps * (8.5 + 2.0 * growthRate)
  }

  /** The revised formula is the original one rescaled by `4.4 / Y`; at a AAA yield of 4.4 the two agree. */
  lemma RevisedFormulaRescalesOriginal(eps: real, growthRate: real, currentAaaYield: real)
    ensures GrahamIntrinsicValueRevised(eps, growthRate, currentAaaYield).Ok?
        ==> GrahamIntrinsicValueRevised(eps, growthRate, currentAaaYield).value * currentAaaYield
            == 4.4 * GrahamIntrinsicValueOriginal(eps, growthRate)
    ensures GrahamIntrinsicValueRevised(eps, growthRate, 4.4) == Ok(GrahamIntrinsicValueOriginal(eps, growthRate))
  {
    var r := GrahamIntrinsicValueRevised(eps, growthRate, 4.4);
    CancelFactor(r.value, GrahamIntrinsicValueOriginal(eps, growthRate), 4.4);
  }

  /** The NCAV buy rule: the price is below two thirds of the net current asset value per share. */
  predicate GrahamNcavBuyRule(stockPrice: real, ncavPerShare: real)
  {
    stockPrice < (2.0 / 3.0) * ncavPerShare
  }

  /** The conservative NCAV buy rule: the price is below half the net current asset value per share. */
  predicate GrahamNcavBuyRuleConservative(stockPrice: real, ncavPerShare: real)
  {
    stockPrice < 0.5 * ncavPerShare
  }

  /** For a non-negative NCAV the conservative rule is the stricter one; for a negative NCAV the
      ordinary rule is. */
  lemma ConservativeNcavRuleIsStricter(stockPrice: real, ncavPerShare: real)
    ensures ncavPerShare >= 0.0 && GrahamNcavBuyRuleConservative(stockPrice, ncavPerShare)
        ==> GrahamNcavBuyRule(stockPrice, ncavPerShare)
    ensures ncavPerShare <= 0.0 && GrahamNcavBuyRule(stockPrice, ncavPerShare)
        ==> GrahamNcavBuyRuleConservative(stockPrice, ncavPerShare)
  {
  }

  /** Net-net working capital: current assets less all liabilities, with inventory written down by half. */
  function NetNetWorkingCapital(currentAssets: real, totalLiabilities: real, inventory: real): (r: real)
    ensures inventory >= 0.0 ==> r <= currentAssets - totalLiabilities
    ensures r == currentAssets - totalLiabilities <==> inventory == 0.0
  {
    (currentAssets - totalLiabilities) - (0.5 * inventory)
  }

  /** Without inventory, net-net working capital per share is the NCAV per share. */
  lemma NetNetWithoutInventoryIsNcav(currentAssets: real, totalLiabilities: real, sharesOutstanding: real)
    ensures NetNetWorkingCapitalPerShare(NetNetWorkingCapital(currentAssets, totalLiabilities, 0.0), sharesOutstanding)
         == NcavPerShare(currentAssets, totalLiabilities, sharesOutstanding)
  {
    var nn := NetNetWorkingCapital(currentAssets, totalLiabilities, 0.0);
    QuotientIsUnique(NetNetWorkingCapitalPerShare(nn, sharesOutstanding),
                     NcavPerShare(currentAssets, totalLiabilities, sharesOutstanding),
                     currentAssets - totalLiabilities, sharesOutstanding);
  }

  /** Graham's minimum margin of safety: the price is at most 67% of the intrinsic value. */
  predicate GrahamMinimumMos33(marketPrice: real, intrinsicValue: real)
  {
    marketPrice <= 0.67 * intrinsicValue
  }

  /** Graham's preferred margin of safety: the price is at most half the intrinsic value. */
  predicate GrahamMinimumMos50(marketPrice: real, intrinsicValue: real)
  {
    marketPrice <= 0.50 * intrinsicValue
  }

  /** For a positive intrinsic value, each buy rule holds exactly when the margin of safety
      reaches its threshold, so the 50% rule implies the 33% rule. */
  lemma MosRulesMatchMarginOfSafety(marketPrice: real, intrinsicValue: real)
    requires intrinsicValue > 0.0
    ensures MarginOfSafety(intrinsicValue, marketPrice).Ok?
    ensures GrahamMinimumMos33(marketPrice, intrinsicValue)
        <==> MarginOfSafety(intrinsicValue, marketPrice).value >= 33.0
    ensures GrahamMinimumMos50(marketPrice, intrinsicValue)
        <==> MarginOfSafety(intrinsicValue, marketPrice).value >= 50.0
    ensures GrahamMinimumMos50(marketPrice, intrinsicValue) ==> GrahamMinimumMos33(marketPrice, intrinsicValue)
  {
    var m := MarginOfSafety(intrinsicValue, marketPrice);
    assert m.value * intrinsicValue == 100.0 * (intrinsicValue - marketPrice);
    ThresholdOnScaledQuotient(m.value, intrinsicValue, 100.0 * (intrinsicValue - marketPrice), 33.0);
    ThresholdOnScaledQuotient(m.value, intrinsicValue, 100.0 * (intrinsicValue - marketPrice), 50.0);
  }

  /** For a positive divisor `k`, `q k = a` gives `q >= t <==> a >= t k`. */
  lemma ThresholdOnScaledQuotient(q: real, k: real, a: real, t: real)
    requires k > 0.0 && q * k == a
    ensures q >= t <==> a >= t * k
  {
    assert (q - t) * k == a - t * k;
    ProductSign(q - t, k);
    if q < t {
      assert (t - q) * k > 0.0 by { ProductSign(t - q, k); }
    }
  }

  /** Conservative liquidation value: receivables at 75%, inventory at 50%, cash in full, less all liabilities. */
  function LiquidationValueConservative(receivables: real, inventory: real, cash: real,
                                        totalLiabilities: real): (r: real)
    ensures receivables >= 0.0 && inventory >= 0.0 ==> r <= receivables + inventory + cash - totalLiabilities
  {
    (0.75 * receivables) + (0.5 * inventory) + cash - totalLiabilities
  }

  /** Full earnings power value: the no-growth value plus the present value of growth. */
  function EpvWithGrowth(epv: real, pvGrowth: real): real
  {
    epv + pvGrowth
  }

  /** Growth adds its present value to the earnings power value and nothing else: without it the
      value is the EPV, and the value times the required return is the adjusted earnings plus the
      required return on the growth value. */
  lemma GrowthValueAddsToEpv(adjustedEarnings: real, requiredRateOfReturn: real, pvGrowth: real)
    requires requiredRateOfReturn != 0.0
    ensures EarningsPowerValue(adjustedEarnings, requiredRateOfReturn).Ok?
    ensures EpvWithGrowth(EarningsPowerValue(adjustedEarnings, requiredRateOfReturn).value, 0.0)
         == EarningsPowerValue(adjustedEarnings, requiredRateOfReturn).value
    ensures EpvWithGrowth(EarningsPowerValue(adjustedEarnings, requiredRateOfReturn).value, pvGrowth) * requiredRateOfReturn
         == adjustedEarnings + pvGrowth * requiredRateOfReturn
  {
    var e := EarningsPowerValue(adjustedEarnings, requiredRateOfReturn).value;
    Distribute(requiredRateOfReturn, e, pvGrowth);
  }

  /** Graham's working-capital rule: net working capital covers at least half the total debt. */
  predicate GrahamWorkingCapitalRule(netWorkingCapital: real, totalDebt: real)
  {
    netWorkingCapital >= 0.5 * totalDebt
  }

  /** The rule is monotone: more working capital, or less debt, never turns a pass into a fail. */
  lemma WorkingCapitalRuleIsMonotone(nwc: real, nwc': real, debt: real, debt': real)
    requires nwc <= nwc' && debt' <= debt
    ensures GrahamWorkingCapitalRule(nwc, debt) ==> GrahamWorkingCapitalRule(nwc', debt')
  {
  }

  /** Graham's central value: assets plus a multiple (12.5 by default) of earning power. */
  function CentralValue(assets: real, earningPower: real, multiplier: real := 12.5): real
  {
    assets + (multiplier * earningPower)
  }

  /** Central value with the default multiplier is the assets plus the earnings-power value at 8%. */
  lemma CentralValueCapitalisesAtEightPercent(assets: real, earningPower: real)
    ensures EarningsPowerValue(earningPower, 0.08).Ok?
    ensures CentralValue(assets, earningPower) == assets + EarningsPowerValue(earningPower, 0.08).value
  {
    var e := EarningsPowerValue(earningPower, 0.08);
    CancelFactor(e.value, 12.5 * earningPower, 0.08);
  }
}
