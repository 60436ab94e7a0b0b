/** Discounted-cash-flow valuation: cost of capital, discounting and terminal values. */
module Dcf {
  import opened Guards
  import Statistics
  import ValuationRatios

  /** Fair Value Per Share. */
  function FairValuePerShare(equityValue: real, sharesOutstanding: real): (r: Result<real>)
    ensures IsQuotient(r, equityValue, sharesOutstanding)
  {
    if sharesOutstanding == 0.0 then Invalid else Ok(equityValue / sharesOutstanding)
  }

  /** Weighted average cost of capital. The preferred tranche enters the total value
      always, but contributes its cost only when its value is positive. */
  function Wacc(equityValue: real, debtValue: real, costOfEquity: real, costOfDebt: real, taxRate: real,
                preferredValue: real := 0.0, costOfPreferred: real := 0.0): (r: Result<real>)
    ensures r.Invalid? <==> equityValue + debtValue + preferredValue == 0.0
    ensures r.Ok? ==> r.value == (equityValue / (equityValue + debtValue + preferredValue)) * costOfEquity
                              + (debtValue / (equityValue + debtValue + preferredValue)) * costOfDebt * (1.0 - taxRate)
                              + (if preferredValue > 0.0
                                 then (preferredValue / (equityValue + debtValue + preferredValue)) * costOfPreferred
                                 else 0.0)
  {
    var totalValue := equityValue + debtValue + preferredValue;
    if totalValue == 0.0 then Invalid
    else
      var equityWeight := equityValue / totalValue;
      var debtWeight := debtValue / totalValue;
      var preferredWeight := if preferredValue > 0.0 then preferredValue / totalValue else 0.0;
      var waccValue := equityWeight * costOfEquity + debtWeight * costOfDebt * (1.0 - taxRate);
      Ok(if preferredValue > 0.0 then waccValue + preferredWeight * costOfPreferred else waccValue)
  }

  /** An all-equity firm's cost of capital is its cost of equity. */
  lemma AllEquityWaccIsCostOfEquity(equityValue: real, costOfEquity: real, costOfDebt: real, taxRate: real)
    requires equityValue != 0.0
    ensures Wacc(equityValue, 0.0, costOfEquity, costOfDebt, taxRate) == Ok(costOfEquity)
  {
    assert equityValue / (equityValue + 0.0 + 0.0) == 1.0;
  }

  /** When every source of capital costs the same `k` after tax, the weighted average
      is `k`: the weights add up to one. */
  lemma WaccOfEqualCosts(equityValue: real, debtValue: real, preferredValue: real, k: real)
    requires equityValue + debtValue + preferredValue != 0.0 && preferredValue >= 0.0
    ensures Wacc(equityValue, debtValue, k, k, 0.0, preferredValue, k) == Ok(k)
  {
    var v := equityValue + debtValue + preferredValue;
    WeightsAddUp(equityValue, debtValue, preferredValue, v, k);
    var w := Wacc(equityValue, debtValue, k, k, 0.0, preferredValue, k);
    assert w.Ok?;
    assert w.value == (equityValue / v) * k + (debtValue / v) * k * (1.0 - 0.0)
                    + (if preferredValue > 0.0 then (preferredValue / v) * k else 0.0);
  }

  /** The capital weights of a total add up to one, as pure algebra. */
  lemma WeightsAddUp(e: real, d: real, p: real, v: real, k: real)
    requires v != 0.0 && v == e + d + p && p >= 0.0
    ensures (e / v) * k + (d / v) * k * (1.0 - 0.0) + (if p > 0.0 then (p / v) * k else 0.0) == k
  {
    assert e / v + d / v + p / v == v / v;
    if p == 0.0 {
      assert (p / v) * k == 0.0;
    }
  }

  /** `base` raised to a non-negative whole power, as Python's `base ** n` for an `int` exponent. */
  function Power(base: real, n: nat): real
  {
    if n == 0 then 1.0 else Power(base, n - 1) * base
  }

  /** A power of a non-zero base is non-zero. */
  lemma {:induction false} PowerNonZero(base: real, n: nat)
    requires base != 0.0 || n == 0
    ensures Power(base, n) != 0.0
  {
    if n > 0 {
      PowerNonZero(base, n - 1);
      NonZeroProduct(Power(base, n - 1), base);
    }
  }

  /** Every power of one is one. */
  lemma {:induction false} PowerOfOne(n: nat)
    ensures Power(1.0, n) == 1.0
  {
    if n > 0 {
      PowerOfOne(n - 1);
    }
  }

  /** `base` raised to a whole power of either sign, as Python's `base ** n` for an `int`
      exponent: a negative exponent gives the reciprocal of the positive power, and a zero base
      with a negative exponent is a division by zero in the source. */
  function IntPower(base: real, n: int): (p: real)
    requires base != 0.0 || n >= 0
    ensures n == 0 ==> p == 1.0
    ensures base != 0.0 ==> p != 0.0
    ensures n < 0 ==> p * Power(base, -n) == 1.0
  {
    if n >= 0 then
      if base != 0.0 then PowerNonZero(base, n); Power(base, n) else Power(base, n)
    else
      PowerNonZero(base, -n); 1.0 / Power(base, -n)
  }

  /** Present value of one cash flow received after `period` periods; a negative period is a
      flow received that many periods ago, which the formula compounds forward instead. A zero
      power (a discount rate of -1) is a division by zero in the source, not an invalid-input failure. */
  function PresentValueCashFlow(cashFlow: real, discountRate: real, period: int): (r: real)
    requires discountRate != -1.0 || period == 0
    ensures period >= 0 ==> r * Power(1.0 + discountRate, period) == cashFlow
    ensures period < 0 ==> r == cashFlow * Power(1.0 + discountRate, -period)
  {
    var p := IntPower(1.0 + discountRate, period);
    if period < 0 then
      CompoundingIsDivisionByReciprocal(cashFlow, p, Power(1.0 + discountRate, -period)); cashFlow / p
    else
      cashFlow / p
  }

  /** Dividing by a reciprocal is multiplying, as pure algebra. */
  lemma CompoundingIsDivisionByReciprocal(a: real, p: real, q: real)
    requires p * q == 1.0
    ensures p != 0.0 && a / p == a * q
  {
    assert (a * q) * p == a;
  }

  /** Discounting a flow over `period` periods and then over `-period` periods gives the flow back,
      in either order: present and future value are inverse. */
  lemma DiscountingUndoesCompounding(cashFlow: real, discountRate: real, period: int)
    requires discountRate != -1.0
    ensures PresentValueCashFlow(PresentValueCashFlow(cashFlow, discountRate, period), discountRate, -period) == cashFlow
  {
    var x := PresentValueCashFlow(cashFlow, discountRate, period);
    var y := PresentValueCashFlow(x, discountRate, -period);
    if period > 0 {
      PowerNonZero(1.0 + discountRate, period);
      CancelFactor(y, cashFlow, Power(1.0 + discountRate, period));
    } else if period < 0 {
      PowerNonZero(1.0 + discountRate, -period);
      CancelFactor(y, cashFlow, Power(1.0 + discountRate, -period));
    }
  }

  /** The discounted total of a list of cash flows, the first received after one period:
      `Σ cf_t / (1 + r)^t` for `t = 1 .. n`. */
  function DiscountedSum(flows: seq<real>, rate: real): real
    requires rate != -1.0 || |flows| == 0
  {
    if |flows| == 0 then 0.0
    else
      DiscountedSum(flows[..|flows| - 1], rate) + PresentValueCashFlow(flows[|flows| - 1], rate, |flows|)
  }

  /** Present value of a list of cash flows, accumulated period by period as the source's loop does. */
  method PresentValueCashFlows(cashFlows: seq<real>, discountRate: real) returns (pv: real)
    requires discountRate != -1.0 || |cashFlows| == 0
    ensures pv == DiscountedSum(cashFlows, discountRate)
  {
    pv := 0.0;
    for i := 1 to |cashFlows| + 1
      invariant pv == DiscountedSum(cashFlows[..i - 1], discountRate)
    {
      assert cashFlows[..i][..i - 1] == cashFlows[..i - 1];
      pv := pv + PresentValueCashFlow(cashFlows[i - 1], discountRate, i);
    }
    assert cashFlows[..|cashFlows|] == cashFlows;
  }

  /** No cash flows are worth nothing. */
  lemma DiscountedSumOfNothing(rate: real)
    ensures DiscountedSum([], rate) == 0.0
  {
  }

  /** Appending a cash flow to a list of `n` adds its value discounted over `n + 1` periods. */
  lemma DiscountedSumSnoc(flows: seq<real>, cf: real, rate: real)
    requires rate != -1.0
    ensures DiscountedSum(flows + [cf], rate)
         == DiscountedSum(flows, rate) + PresentValueCashFlow(cf, rate, |flows| + 1)
  {
    assert (flows + [cf])[..|flows|] == flows;
  }

  /** At a zero discount rate the present value is the plain total. */
  lemma {:induction false} UndiscountedSumIsTotal(flows: seq<real>)
    ensures DiscountedSum(flows, 0.0) == Statistics.Sum(flows)
  {
    if |flows| > 0 {
      UndiscountedSumIsTotal(flows[..|flows| - 1]);
      PowerOfOne(|flows|);
    }
  }

  /** Present value of the tax shield of a changing debt, accumulated period by period
      as the source's loop does: each interest payment times the tax rate, discounted at the cost of debt. */
  method PvTaxShieldChanging(interestPayments: seq<real>, taxRate: real, costOfDebt: real) returns (pv: real)
    requires costOfDebt != -1.0 || |interestPayments| == 0
    ensures pv == taxRate * DiscountedSum(interestPayments, costOfDebt)
  {
    pv := 0.0;
    for i := 1 to |interestPayments| + 1
      invariant pv == taxRate * DiscountedSum(interestPayments[..i - 1], costOfDebt)
    {
      var prefix := interestPayments[..i];
      assert prefix[..i - 1] == interestPayments[..i - 1];
      PowerNonZero(1.0 + costOfDebt, i);
      var d, a, p := DiscountedSum(interestPayments[..i - 1], costOfDebt), interestPayments[i - 1], Power(1.0 + costOfDebt, i);
      assert DiscountedSum(prefix, costOfDebt) == d + a / p;
      ShieldStep(taxRate, d, a, p);
      pv := pv + (a * taxRate) / p;
    }
    assert interestPayments[..|interestPayments|] == interestPayments;
  }

  /** One discounting step of the tax shield, as pure algebra. */
  lemma ShieldStep(t: real, d: real, a: real, p: real)
    requires p != 0.0
    ensures t * d + (a * t) / p == t * (d + a / p)
  {
    Distribute(t, d, a / p);
  }

  /** Unlevered firm value for adjusted present value: the discounted cash flows plus the
      terminal value discounted over `nPeriods` periods. */
  function ApvUnleveredFirmValue(fcffFlows: seq<real>, unleveredCost: real, terminalValue: real,
                                 nPeriods: int): (r: real)
    requires unleveredCost != -1.0 || (|fcffFlows| == 0 && nPeriods == 0)
    ensures nPeriods >= 0 ==> (r - DiscountedSum(fcffFlows, unleveredCost)) * Power(1.0 + unleveredCost, nPeriods) == terminalValue
    ensures nPeriods < 0 ==> r - DiscountedSum(fcffFlows, unleveredCost) == terminalValue * Power(1.0 + unleveredCost, -nPeriods)
  {
    var pvFlows := DiscountedSum(fcffFlows, unleveredCost);
    var pvTv := terminalValue / IntPower(1.0 + unleveredCost, nPeriods);
    assert pvTv == PresentValueCashFlow(terminalValue, unleveredCost, nPeriods);
    pvFlows + pvTv
  }

  /** With the horizon equal to the number of flows, the terminal value is discounted
      exactly like an extra amount received with the last cash flow. */
  lemma TerminalValueJoinsLastFlow(fcffFlows: seq<real>, unleveredCost: real, terminalValue: real)
    requires unleveredCost != -1.0 && |fcffFlows| > 0
    ensures ApvUnleveredFirmValue(fcffFlows, unleveredCost, terminalValue, |fcffFlows|)
         == DiscountedSum(fcffFlows[..|fcffFlows| - 1] + [fcffFlows[|fcffFlows| - 1] + terminalValue], unleveredCost)
  {
    var n := |fcffFlows|;
    var front, last := fcffFlows[..n - 1], fcffFlows[n - 1];
    DiscountedSumSnoc(front, last + terminalValue, unleveredCost);
    PowerNonZero(1.0 + unleveredCost, n);
    SplitQuotient(last, terminalValue, Power(1.0 + unleveredCost, n));
    assert fcffFlows == front + [last];
  }

  /** Division distributes over a sum, as pure algebra. */
  lemma SplitQuotient(a: real, b: real, p: real)
    requires p != 0.0
    ensures (a + b) / p == a / p + b / p
  {
  }

  /** Without projected flows the unlevered value is the present value of the terminal value. */
  lemma TerminalValueAlone(unleveredCost: real, terminalValue: real, nPeriods: int)
    requires unleveredCost != -1.0 || nPeriods == 0
    ensures ApvUnleveredFirmValue([], unleveredCost, terminalValue, nPeriods)
         == PresentValueCashFlow(terminalValue, unleveredCost, nPeriods)
  {
  }

  /** Terminal value by the Gordon growth model: next year's cash flow over `wacc - g`. */
  function TerminalValueGordonGrowth(fcfNextYear: real, wacc: real, growthRate: real): (r: Result<real>)
    ensures IsPerpetuity(r, fcfNextYear, wacc, growthRate)
  {
    if wacc <= growthRate then Invalid
    else PositiveDivisorFacts(fcfNextYear, wacc - growthRate); Ok(fcfNextYear / (wacc - growthRate))
  }

  /** Terminal value of free cash flow to equity: next year's flow over `re - g`. */
  function FcfeTerminalValue(fcfeNextYear: real, costOfEquity: real, growthRate: real): (r: Result<real>)
    ensures IsPerpetuity(r, fcfeNextYear, costOfEquity, growthRate)
  {
    if costOfEquity <= growthRate then Invalid
    else PositiveDivisorFacts(fcfeNextYear, costOfEquity - growthRate); Ok(fcfeNextYear / (costOfEquity - growthRate))
  }

  /** Constant-growth dividend discount model: next year's dividend over `re - g`. */
  function GordonGrowthModel(dividendNextYear: real, costOfEquity: real, growthRate: real): (r: Result<real>)
    ensures IsPerpetuity(r, dividendNextYear, costOfEquity, growthRate)
  {
    if costOfEquity <= growthRate then Invalid
    else PositiveDivisorFacts(dividendNextYear, costOfEquity - growthRate); Ok(dividendNextYear / (costOfEquity - growthRate))
  }

  /** Next year's dividend from this year's and the growth rate. */
  function DividendNextYear(currentDividend: real, growthRate: real): real
  {
    currentDividend * (1.0 + growthRate)
  }

  /** A Gordon price is consistent over time: today's price, carried one year at the
      cost of equity, is next year's dividend plus next year's price (today's grown at `g`). */
  lemma GordonPriceRollsForward(currentDividend: real, costOfEquity: real, growthRate: real)
    requires costOfEquity > growthRate
    ensures GordonGrowthModel(DividendNextYear(currentDividend, growthRate), costOfEquity, growthRate).Ok?
    ensures var p := GordonGrowthModel(DividendNextYear(currentDividend, growthRate), costOfEquity, growthRate).value;
            p * (1.0 + costOfEquity) == DividendNextYear(currentDividend, growthRate) + DividendNextYear(p, growthRate)
  {
    var r := GordonGrowthModel(DividendNextYear(currentDividend, growthRate), costOfEquity, growthRate);
    PerpetuityRecurrence(r, DividendNextYear(currentDividend, growthRate), costOfEquity, growthRate);
  }

  /** The three perpetuity formulas of this section are one formula. */
  lemma PerpetuityFormulasAgree(next: real, rate: real, growthRate: real)
    ensures TerminalValueGordonGrowth(next, rate, growthRate) == FcfeTerminalValue(next, rate, growthRate)
    ensures FcfeTerminalValue(next, rate, growthRate) == GordonGrowthModel(next, rate, growthRate)
  {
  }

  /** Cost of equity by the CAPM: the risk-free rate plus beta times the market premium. */
  function CostOfEquityCapm(riskFreeRate: real, beta: real, marketReturn: real): real
  {
    riskFreeRate + beta * (marketReturn - riskFreeRate)
  }

  /** The CAPM line passes through the risk-free rate at beta 0 and the market return at
      beta 1, and rises with beta when the market premium is positive. */
  lemma CapmLine(riskFreeRate: real, marketReturn: real, beta: real, higherBeta: real)
    ensures CostOfEquityCapm(riskFreeRate, 0.0, marketReturn) == riskFreeRate
    ensures CostOfEquityCapm(riskFreeRate, 1.0, marketReturn) == marketReturn
    ensures marketReturn > riskFreeRate && beta < higherBeta
        ==> CostOfEquityCapm(riskFreeRate, beta, marketReturn) < CostOfEquityCapm(riskFreeRate, higherBeta, marketReturn)
  {
    if marketReturn > riskFreeRate && beta < higherBeta {
      var premium := marketReturn - riskFreeRate;
      ProductSign(higherBeta - beta, premium);
      ScaleGap(higherBeta, beta, premium);
    }
  }

  /** (a − b)·p = a·p − b·p. */
  lemma ScaleGap(a: real, b: real, p: real)
    ensures (a - b) * p == a * p - b * p
  {
  }

  /** Unlevered cost of equity: the risk-free rate plus the unlevered beta times the equity
      risk premium. */
  function UnleveredCostOfEquity(riskFreeRate: real, unleveredBeta: real, equityRiskPremium: real): real
  {
    riskFreeRate + unleveredBeta * equityRiskPremium
  }

  /** The unlevered cost of equity is the CAPM cost at the unlevered beta, the equity risk
      premium being the market return over the risk-free rate. */
  lemma UnleveredCostIsCapm(riskFreeRate: real, unleveredBeta: real, marketReturn: real)
    ensures UnleveredCostOfEquity(riskFreeRate, unleveredBeta, marketReturn - riskFreeRate)
         == CostOfEquityCapm(riskFreeRate, unleveredBeta, marketReturn)
  {
  }

  /** Terminal value as an exit multiple of final-year EBITDA. */
  function TerminalValueExitMultipleEbitda(exitMultiple: real, ebitdaN: real): real
  {
    exitMultiple * ebitdaN
  }

  /** Terminal value as an exit multiple of final-year EBIT. */
  function TerminalValueExitMultipleEbit(exitMultiple: real, ebitN: real): real
  {
    exitMultiple * ebitN
  }

  /** Terminal value as an exit multiple of final-year sales. */
  function TerminalValueExitMultipleSales(exitMultiple: real, salesN: real): real
  {
    exitMultiple * salesN
  }

  /** Enterprise value from a DCF: the discounted projection plus the discounted terminal value. */
  function EnterpriseValueDcf(pvFcff: real, pvTerminalValue: real): real
  {
    pvFcff + pvTerminalValue
  }

  /** The APV unlevered firm value is the DCF enterprise value of its two discounted parts. */
  lemma ApvIsEnterpriseValueOfParts(fcffFlows: seq<real>, unleveredCost: real, terminalValue: real,
                                    nPeriods: int)
    requires unleveredCost != -1.0
    ensures ApvUnleveredFirmValue(fcffFlows, unleveredCost, terminalValue, nPeriods)
         == EnterpriseValueDcf(DiscountedSum(fcffFlows, unleveredCost),
                               PresentValueCashFlow(terminalValue, unleveredCost, nPeriods))
  {
  }

  /** Equity value bridged from enterprise value. */
  function EquityValueFromEv(enterpriseValue: real, netDebt: real, preferredStock: real := 0.0,
                             nonOperatingAssets: real := 0.0): real
  {
    enterpriseValue - netDebt - preferredStock + nonOperatingAssets
  }

  /** Bridging back from the enterprise value of a firm without minority interest, through its
      net debt and preferred equity, recovers its market capitalisation. */
  lemma EquityBridgeUndoesEnterpriseValue(marketCap: real, totalDebt: real, cashAndEquivalents: real,
                                          preferredEquity: real)
    ensures EquityValueFromEv(ValuationRatios.EnterpriseValue(marketCap, totalDebt, cashAndEquivalents,
                                                               0.0, preferredEquity),
                              totalDebt - cashAndEquivalents, preferredEquity)
         == marketCap
  {
  }

  /** FCFE from FCFF: less after-tax interest, plus net borrowing. */
  function FcfeFromFcff(fcff: real, interestExpense: real, taxRate: real, netBorrowing: real): real
  {
    fcff - (interestExpense * (1.0 - taxRate)) + netBorrowing
  }

  /** Present value of the tax shield of perpetual debt. */
  function PvTaxShieldPerpetual(debt: real, taxRate: real): real
  {
    taxRate * debt
  }

  /** The perpetual-debt shield is the no-growth perpetuity of the yearly shield
      (tax rate times interest), discounted at the cost of debt. */
  lemma PerpetualShieldIsPerpetuity(debt: real, taxRate: real, costOfDebt: real)
    requires costOfDebt > 0.0
    ensures TerminalValueGordonGrowth(taxRate * (costOfDebt * debt), costOfDebt, 0.0)
         == Ok(PvTaxShieldPerpetual(debt, taxRate))
  {
    var r := TerminalValueGordonGrowth(taxRate * (costOfDebt * debt), costOfDebt, 0.0);
    assert r.value * costOfDebt == taxRate * (costOfDebt * debt);
    assert (taxRate * debt) * costOfDebt == taxRate * (costOfDebt * debt);
    CancelFactor(r.value, taxRate * debt, costOfDebt);
  }

  /** Adjusted present value: unlevered value plus the tax shield less bankruptcy costs. */
  function AdjustedPresentValue(unleveredValue: real, pvTaxShield: real, pvBankruptcyCosts: real := 0.0): real
  {
    unleveredValue + pvTaxShield - pvBankruptcyCosts
  }

  /** With perpetual debt and no bankruptcy costs, the APV is the unlevered value plus the
      tax rate times the debt. */
  lemma ApvOfPerpetualDebt(unleveredValue: real, debt: real, taxRate: real, costOfDebt: real)
    requires costOfDebt > 0.0
    ensures TerminalValueGordonGrowth(taxRate * (costOfDebt * debt), costOfDebt, 0.0).Ok?
    ensures AdjustedPresentValue(unleveredValue,
                                 TerminalValueGordonGrowth(taxRate * (costOfDebt * debt), costOfDebt, 0.0).value)
         == unleveredValue + taxRate * debt
  {
    PerpetualShieldIsPerpetuity(debt, taxRate, costOfDebt);
  }
}
