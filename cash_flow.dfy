/** Cash-flow metrics: per-share, margin and coverage ratios of operating and free cash flow. */
module CashFlow {
  import opened Guards
  import Profitability
  import Dcf

  /** Cash Flow Per Share. */
  function CashFlowPerShare(operatingCashFlow: real, sharesOutstanding: real): (r: Result<real>)
    ensures IsQuotient(r, operatingCashFlow, sharesOutstanding)
  {
    if sharesOutstanding == 0.0 then Invalid else Ok(operatingCashFlow / sharesOutstanding)
  }

  /** Free Cash Flow Per Share. */
  function FreeCashFlowPerShare(freeCashFlow: real, sharesOutstanding: real): (r: Result<real>)
    ensures IsQuotient(r, freeCashFlow, sharesOutstanding)
  {
    if sharesOutstanding == 0.0 then Invalid else Ok(freeCashFlow / sharesOutstanding)
  }

  /** Free Cash Flow Margin (%). */
  function FreeCashFlowMargin(freeCashFlow: real, totalRevenue: real): (r: Result<real>)
    ensures IsScaledQuotient(r, 100.0, freeCashFlow, totalRevenue)
  {
    if totalRevenue == 0.0 then Invalid else Ok((freeCashFlow / totalRevenue) * 100.0)
  }

  /** Cash Flow-to-Debt Ratio. */
  function CashFlowToDebtRatio(operatingCashFlow: real, totalDebt: real): (r: Result<real>)
    ensures IsQuotient(r, operatingCashFlow, totalDebt)
  {
    if totalDebt == 0.0 then Invalid else Ok(operatingCashFlow / totalDebt)
  }

  /** Operating Cash Flow Ratio. */
  function OperatingCashFlowRatio(operatingCashFlow: real, currentLiabilities: real): (r: Result<real>)
    ensures IsQuotient(r, operatingCashFlow, currentLiabilities)
  {
    if currentLiabilities == 0.0 then Invalid else Ok(operatingCashFlow / currentLiabilities)
  }

  /** Cash Flow Return on Investment (CFROI) (%). */
  function CashFlowReturnOnInvestment(grossCashFlow: real, grossInvestment: real): (r: Result<real>)
    ensures IsScaledQuotient(r, 100.0, grossCashFlow, grossInvestment)
  {
    if grossInvestment == 0.0 then Invalid else Ok((grossCashFlow / grossInvestment) * 100.0)
  }

  /** Operating cash flow (indirect method): net income, non-cash expenses and the change
      in working capital, each with the sign it is given. */
  function OperatingCashFlow(netIncome: real, nonCashExpenses: real, changeInWorkingCapital: real): real
  {
    netIncome + nonCashExpenses + changeInWorkingCapital
  }

  /** Operating cash flow from EBITDA. */
  function OperatingCashFlowAlt(ebitda: real, taxesPaid: real, changeInNetWorkingCapital: real): real
  {
    ebitda - taxesPaid - changeInNetWorkingCapital
  }

  /** Free cash flow: operating cash flow less capital expenditures. */
  function FreeCashFlow(operatingCashFlow: real, capitalExpenditures: real): real
  {
    operatingCashFlow - capitalExpenditures
  }

  /** Free cash flow to equity from net income. */
  function FreeCashFlowToEquity(netIncome: real, capex: real, depreciation: real, changeInNwc: real,
                                newDebt: real, debtRepayment: real): real
  {
    netIncome - (capex - depreciation) - changeInNwc + (newDebt - debtRepayment)
  }

  /** Free cash flow to the firm from EBIT. */
  function FreeCashFlowToFirm(ebit: real, taxRate: real, depreciation: real, capex: real,
                              changeInNwc: real): real
  {
    ebit * (1.0 - taxRate) + depreciation - capex - changeInNwc
  }

  /** Free cash flow to the firm from NOPAT. */
  function FcffFromNopat(nopat: real, depreciation: real, capex: real, changeInNwc: real): real
  {
    nopat + depreciation - capex - changeInNwc
  }

  /** Free cash flow to the firm from operating cash flow, adding back after-tax interest. */
  function FcffFromCfo(cfo: real, interestExpense: real, taxRate: real, capex: real): real
  {
    cfo + interestExpense * (1.0 - taxRate) - capex
  }

  /** Gross cash flow: EBITDA less cash taxes. */
  function GrossCashFlow(ebitda: real, cashTaxes: real): real
  {
    ebitda - cashTaxes
  }

  /** Unlevered free cash flow. */
  function UnleveredFreeCashFlow(ebit: real, taxRate: real, depreciation: real, capex: real,
                                 changeInNwc: real): real
  {
    ebit * (1.0 - taxRate) + depreciation - capex - changeInNwc
  }

  /** Levered free cash flow. */
  function LeveredFreeCashFlow(netIncome: real, depreciation: real, capex: real, changeInNwc: real,
                               debtRepayment: real, newDebt: real): real
  {
    netIncome + depreciation - capex - changeInNwc - debtRepayment + newDebt
  }

  /** Buffett's owner earnings. */
  function OwnerEarnings(netIncome: real, depreciationAmortization: real, capex: real,
                         additionalWorkingCapital: real): real
  {
    netIncome + depreciationAmortization - capex - additionalWorkingCapital
  }

  /** The three FCFF formulas built on operating profit agree: from EBIT, from NOPAT and
      the unlevered free cash flow. */
  lemma FcffFormsAgree(ebit: real, taxRate: real, depreciation: real, capex: real, changeInNwc: real)
    ensures FreeCashFlowToFirm(ebit, taxRate, depreciation, capex, changeInNwc)
         == FcffFromNopat(Profitability.Nopat(ebit, taxRate), depreciation, capex, changeInNwc)
    ensures UnleveredFreeCashFlow(ebit, taxRate, depreciation, capex, changeInNwc)
         == FreeCashFlowToFirm(ebit, taxRate, depreciation, capex, changeInNwc)
  {
  }

  /** FCFF from operating cash flow agrees with FCFF from EBIT, for a firm whose net income
      is its after-tax profit after interest and whose operating cash flow takes the increase
      in working capital out. */
  lemma FcffFromCfoAgrees(ebit: real, interestExpense: real, taxRate: real, depreciation: real,
                          capex: real, changeInNwc: real)
    ensures FcffFromCfo(OperatingCashFlow(Profitability.Nopat(ebit - interestExpense, taxRate), depreciation,
                                          -changeInNwc),
                        interestExpense, taxRate, capex)
         == FreeCashFlowToFirm(ebit, taxRate, depreciation, capex, changeInNwc)
  {
    AfterTaxSplit(ebit, interestExpense, taxRate);
  }

  /** Taxing EBIT less interest, then adding back after-tax interest, taxes EBIT. */
  lemma AfterTaxSplit(ebit: real, interestExpense: real, taxRate: real)
    ensures (ebit - interestExpense) * (1.0 - taxRate) + interestExpense * (1.0 - taxRate)
         == ebit * (1.0 - taxRate)
  {
  }

  /** FCFE derived from FCFF (less after-tax interest, plus net borrowing) is the FCFE
      computed from net income. */
  lemma FcfeFromFcffAgrees(ebit: real, interestExpense: real, taxRate: real, depreciation: real,
                           capex: real, changeInNwc: real, newDebt: real, debtRepayment: real)
    ensures Dcf.FcfeFromFcff(FreeCashFlowToFirm(ebit, taxRate, depreciation, capex, changeInNwc),
                             interestExpense, taxRate, newDebt - debtRepayment)
         == FreeCashFlowToEquity(Profitability.Nopat(ebit - interestExpense, taxRate), capex, depreciation,
                                 changeInNwc, newDebt, debtRepayment)
  {
    AfterTaxSplit(ebit, interestExpense, taxRate);
  }

  /** Levered free cash flow is free cash flow to equity. */
  lemma LeveredFreeCashFlowIsFcfe(netIncome: real, depreciation: real, capex: real, changeInNwc: real,
                                  debtRepayment: real, newDebt: real)
    ensures LeveredFreeCashFlow(netIncome, depreciation, capex, changeInNwc, debtRepayment, newDebt)
         == FreeCashFlowToEquity(netIncome, capex, depreciation, changeInNwc, newDebt, debtRepayment)
  {
  }

  /** Owner earnings are the free cash flow of an operating cash flow that adds back
      depreciation and takes out the additional working capital. */
  lemma OwnerEarningsAreFreeCashFlow(netIncome: real, depreciationAmortization: real, capex: real,
                                     additionalWorkingCapital: real)
    ensures FreeCashFlow(OperatingCashFlow(netIncome, depreciationAmortization, -additionalWorkingCapital), capex)
         == OwnerEarnings(netIncome, depreciationAmortization, capex, additionalWorkingCapital)
  {
  }

  /** Operating cash flow from EBITDA is gross cash flow less the working-capital increase. */
  lemma OperatingCashFlowAltIsGrossLessWorkingCapital(ebitda: real, taxesPaid: real,
                                                      changeInNetWorkingCapital: real)
    ensures OperatingCashFlowAlt(ebitda, taxesPaid, changeInNetWorkingCapital)
         == GrossCashFlow(ebitda, taxesPaid) - changeInNetWorkingCapital
  {
  }
}
