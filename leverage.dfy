/** Leverage and solvency metrics: debt, coverage and capital-structure ratios. */
module Leverage {
  import opened Guards

  /** Debt-to-Equity Ratio. */
  function DebtToEquityRatio(totalDebt: real, totalShareholdersEquity: real): (r: Result<real>)
    ensures IsQuotient(r, totalDebt, totalShareholdersEquity)
  {
    if totalShareholdersEquity == 0.0 then Invalid else Ok(totalDebt / totalShareholdersEquity)
  }

  /** Debt-to-Assets Ratio. */
  function DebtToAssetsRatio(totalDebt: real, totalAssets: real): (r: Result<real>)
    ensures IsQuotient(r, totalDebt, totalAssets)
  {
    if totalAssets == 0.0 then Invalid else Ok(totalDebt / totalAssets)
  }

  /** Debt-to-EBITDA Ratio. */
  function DebtToEbitdaRatio(totalDebt: real, ebitda: real): (r: Result<real>)
    ensures IsQuotient(r, totalDebt, ebitda)
  {
    if ebitda == 0.0 then Invalid else Ok(totalDebt / ebitda)
  }

  /** Interest Coverage Ratio. */
  function InterestCoverageRatio(ebit: real, interestExpense: real): (r: Result<real>)
    ensures IsQuotient(r, ebit, interestExpense)
  {
    if interestExpense == 0.0 then Invalid else Ok(ebit / interestExpense)
  }

  /** Debt Service Coverage Ratio (DSCR). */
  function DebtServiceCoverageRatio(netOperatingIncome: real, totalDebtService: real): (r: Result<real>)
    ensures IsQuotient(r, netOperatingIncome, totalDebtService)
  {
    if totalDebtService == 0.0 then Invalid else Ok(netOperatingIncome / totalDebtService)
  }

  /** Equity Multiplier. */
  function EquityMultiplier(totalAssets: real, totalShareholdersEquity: real): (r: Result<real>)
    ensures IsQuotient(r, totalAssets, totalShareholdersEquity)
  {
    if totalShareholdersEquity == 0.0 then Invalid else Ok(totalAssets / totalShareholdersEquity)
  }

  /** Financial Leverage Ratio. */
  function FinancialLeverageRatio(totalAssets: real, totalEquity: real): (r: Result<real>)
    ensures IsQuotient(r, totalAssets, totalEquity)
  {
    if totalEquity == 0.0 then Invalid else Ok(totalAssets / totalEquity)
  }

  /** Total Debt Ratio. */
  function TotalDebtRatio(totalDebt: real, totalAssets: real): (r: Result<real>)
    ensures IsQuotient(r, totalDebt, totalAssets)
  {
    if totalAssets == 0.0 then Invalid else Ok(totalDebt / totalAssets)
  }

  /** Long-term Debt to Equity. */
  function LongTermDebtToEquity(longTermDebt: real, totalShareholdersEquity: real): (r: Result<real>)
    ensures IsQuotient(r, longTermDebt, totalShareholdersEquity)
  {
    if totalShareholdersEquity == 0.0 then Invalid else Ok(longTermDebt / totalShareholdersEquity)
  }

  /** Fixed Charge Coverage Ratio. */
  function FixedChargeCoverageRatio(ebit: real, fixedCharges: real, interestExpense: real): (r: Result<real>)
    ensures IsQuotient(r, ebit + fixedCharges, fixedCharges + interestExpense)
  {
    var denominator := fixedCharges + interestExpense;
    if denominator == 0.0 then Invalid else Ok((ebit + fixedCharges) / denominator)
  }

  /** Times Interest Earned (TIE). */
  function TimesInterestEarned(ebit: real, interestExpense: real): (r: Result<real>)
    ensures IsQuotient(r, ebit, interestExpense)
  {
    if interestExpense == 0.0 then Invalid else Ok(ebit / interestExpense)
  }

  /** Debt-to-Capital Ratio. */
  function DebtToCapitalRatio(totalDebt: real, totalEquity: real): (r: Result<real>)
    ensures IsQuotient(r, totalDebt, totalDebt + totalEquity)
  {
    var totalCapital := totalDebt + totalEquity;
    if totalCapital == 0.0 then Invalid else Ok(totalDebt / totalCapital)
  }

  /** Net Debt-to-EBITDA. */
  function NetDebtToEbitda(totalDebt: real, cashAndEquivalents: real, ebitda: real): (r: Result<real>)
    ensures IsQuotient(r, totalDebt - cashAndEquivalents, ebitda)
  {
    if ebitda == 0.0 then Invalid else Ok((totalDebt - cashAndEquivalents) / ebitda)
  }

  /** Net Debt-to-Equity. */
  function NetDebtToEquity(totalDebt: real, cashAndEquivalents: real, totalEquity: real): (r: Result<real>)
    ensures IsQuotient(r, totalDebt - cashAndEquivalents, totalEquity)
  {
    if totalEquity == 0.0 then Invalid else Ok((totalDebt - cashAndEquivalents) / totalEquity)
  }

  /** Capitalization Ratio. */
  function CapitalizationRatio(longTermDebt: real, shareholdersEquity: real): (r: Result<real>)
    ensures IsQuotient(r, longTermDebt, longTermDebt + shareholdersEquity)
  {
    var totalCapitalization := longTermDebt + shareholdersEquity;
    if totalCapitalization == 0.0 then Invalid else Ok(longTermDebt / totalCapitalization)
  }

  /** Total debt service: principal plus interest. */
  function TotalDebtService(principalRepayment: real, interestPayments: real): real
  {
    principalRepayment + interestPayments
  }

  /** Repaying principal can only lower coverage: without principal the debt service coverage
      ratio is the interest coverage ratio, and with positive principal and positive income it is
      strictly below it. */
  lemma PrincipalLowersCoverage(netOperatingIncome: real, principalRepayment: real, interestPayments: real)
    requires interestPayments > 0.0 && principalRepayment >= 0.0
    ensures DebtServiceCoverageRatio(netOperatingIncome, TotalDebtService(principalRepayment, interestPayments)).Ok?
    ensures InterestCoverageRatio(netOperatingIncome, interestPayments).Ok?
    ensures principalRepayment == 0.0
        ==> DebtServiceCoverageRatio(netOperatingIncome, TotalDebtService(principalRepayment, interestPayments))
            == InterestCoverageRatio(netOperatingIncome, interestPayments)
    ensures principalRepayment > 0.0 && netOperatingIncome > 0.0
        ==> DebtServiceCoverageRatio(netOperatingIncome, TotalDebtService(principalRepayment, interestPayments)).value
            < InterestCoverageRatio(netOperatingIncome, interestPayments).value
  {
    var s := TotalDebtService(principalRepayment, interestPayments);
    var d := DebtServiceCoverageRatio(netOperatingIncome, s).value;
    var c := InterestCoverageRatio(netOperatingIncome, interestPayments).value;
    if principalRepayment > 0.0 && netOperatingIncome > 0.0 {
      assert d * s == netOperatingIncome && c * interestPayments == netOperatingIncome;
      PositiveDivisorFacts(netOperatingIncome, s);
      assert d > 0.0;
      Distribute(d, principalRepayment, interestPayments);
      ProductSign(d, principalRepayment);
      assert d * interestPayments < c * interestPayments;
      if d >= c {
        ProductSign(d - c, interestPayments);
      }
    }
  }


  /** Equity multiplier from the debt-to-equity ratio: `1 + D/E`. */
  function EquityMultiplierFromDebtEquity(debtToEquity: real): real
  {
    1.0 + debtToEquity
  }

  /** When assets are financed by debt and equity only, the equity multiplier is one plus
      the debt-to-equity ratio; both fail exactly when equity is zero. */
  lemma EquityMultiplierMatchesDebtEquity(totalDebt: real, totalShareholdersEquity: real)
    ensures EquityMultiplier(totalDebt + totalShareholdersEquity, totalShareholdersEquity).Ok?
        <==> DebtToEquityRatio(totalDebt, totalShareholdersEquity).Ok?
    ensures DebtToEquityRatio(totalDebt, totalShareholdersEquity).Ok?
        ==> EquityMultiplier(totalDebt + totalShareholdersEquity, totalShareholdersEquity).value
            == EquityMultiplierFromDebtEquity(DebtToEquityRatio(totalDebt, totalShareholdersEquity).value)
  {
    if totalShareholdersEquity != 0.0 {
      var m := EquityMultiplier(totalDebt + totalShareholdersEquity, totalShareholdersEquity).value;
      var d := DebtToEquityRatio(totalDebt, totalShareholdersEquity).value;
      assert d * totalShareholdersEquity == totalDebt;
      Distribute(totalShareholdersEquity, 1.0, d);
      assert (1.0 + d) * totalShareholdersEquity == totalShareholdersEquity + d * totalShareholdersEquity;
      CancelFactor(m, 1.0 + d, totalShareholdersEquity);
    }
  }
}
