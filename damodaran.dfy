/** Valuation formulas after Aswath Damodaran: betas, growth and justified multiples. */
module Damodaran {
  import opened Guards
  import Statistics
  import Dcf
  import Profitability
  import CashFlow
  import OtherMetrics
  import Growth

  /** Cost of Debt. */
  function CostOfDebt(interestExpense: real, averageDebtOutstanding: real): (r: Result<real>)
    ensures IsQuotient(r, interestExpense, averageDebtOutstanding)
  {
    if averageDebtOutstanding == 0.0 then Invalid else Ok(interestExpense / averageDebtOutstanding)
  }

  /** Unlevered Beta (Removing Financial Leverage). */
  function UnleveredBeta(leveredBeta: real, taxRate: real, debtToEquity: real): (r: Result<real>)
    ensures IsQuotient(r, leveredBeta, 1.0 + (1.0 - taxRate) * debtToEquity)
  {
    var denominator := 1.0 + (1.0 - taxRate) * debtToEquity;
    if denominator == 0.0 then Invalid else Ok(leveredBeta / denominator)
  }

  /** Reinvestment Rate. */
  function ReinvestmentRate(capex: real, depreciation: real, changeInWc: real, ebit: real, taxRate: real): (r: Result<real>)
    ensures IsQuotient(r, (capex - depreciation) + changeInWc, ebit * (1.0 - taxRate))
  {
    var numerator := (capex - depreciation) + changeInWc;
    var denominator := ebit * (1.0 - taxRate);
    if denominator == 0.0 then Invalid else Ok(numerator / denominator)
  }

  /** Reinvestment Rate (Alternative). */
  function ReinvestmentRateAlt(netCapex: real, changeInWc: real, nopat: real): (r: Result<real>)
    ensures IsQuotient(r, netCapex + changeInWc, nopat)
  {
    if nopat == 0.0 then Invalid else Ok((netCapex + changeInWc) / nopat)
  }

  /** PEG Ratio (Damodaran Version). */
  function PegRatioDamodaran(peRatio: real, expectedGrowthRate: real): (r: Result<real>)
    ensures IsQuotient(r, peRatio, expectedGrowthRate)
  {
    if expectedGrowthRate == 0.0 then Invalid else Ok(peRatio / expectedGrowthRate)
  }

  /** The leverage factor of the Hamada relation, `1 + (1 - T) D/E`. */
  function LeverageFactor(taxRate: real, debtToEquity: real): real
  {
    1.0 + (1.0 - taxRate) * debtToEquity
  }

  /** Levered beta: the unlevered beta times the leverage factor. */
  function LeveredBeta(unleveredBeta: real, taxRate: real, debtToEquity: real): real
  {
    unleveredBeta * LeverageFactor(taxRate, debtToEquity)
  }

  /** Unlevering a levered beta recovers the unlevered beta, whenever the leverage factor is not zero. */
  lemma UnleverAfterLever(unleveredBeta: real, taxRate: real, debtToEquity: real)
    requires LeverageFactor(taxRate, debtToEquity) != 0.0
    ensures UnleveredBeta(LeveredBeta(unleveredBeta, taxRate, debtToEquity), taxRate, debtToEquity) == Ok(unleveredBeta)
  {
    var f := LeverageFactor(taxRate, debtToEquity);
    var r := UnleveredBeta(LeveredBeta(unleveredBeta, taxRate, debtToEquity), taxRate, debtToEquity);
    CancelFactor(r.value, unleveredBeta, f);
  }

  /** Relevering an unlevered beta recovers the levered beta; unlevering fails exactly when the factor is zero. */
  lemma LeverAfterUnlever(leveredBeta: real, taxRate: real, debtToEquity: real)
    ensures UnleveredBeta(leveredBeta, taxRate, debtToEquity).Invalid? <==> LeverageFactor(taxRate, debtToEquity) == 0.0
    ensures UnleveredBeta(leveredBeta, taxRate, debtToEquity).Ok?
        ==> LeveredBeta(UnleveredBeta(leveredBeta, taxRate, debtToEquity).value, taxRate, debtToEquity) == leveredBeta
  {
  }

  /** Bottom-up beta: the segment-weighted unlevered beta, relevered; fails when the lists differ in length. */
  function BottomUpBeta(businessSegmentWeights: seq<real>, unleveredBetas: seq<real>, taxRate: real,
                        debtToEquity: real): (r: Result<real>)
    ensures r.Invalid? <==> |businessSegmentWeights| != |unleveredBetas|
    ensures r.Ok? ==> r.value == LeveredBeta(Statistics.SumProducts(businessSegmentWeights, unleveredBetas),
                                             taxRate, debtToEquity)
  {
    if |businessSegmentWeights| != |unleveredBetas| then Invalid
    else
      var weightedBeta := Statistics.SumProducts(businessSegmentWeights, unleveredBetas);
      Ok(weightedBeta * (1.0 + (1.0 - taxRate) * debtToEquity))
  }

  /** A firm with a single business segment carrying the whole weight has that segment's levered beta. */
  lemma SingleSegmentBottomUpBeta(unleveredBeta: real, taxRate: real, debtToEquity: real)
    ensures BottomUpBeta([1.0], [unleveredBeta], taxRate, debtToEquity)
         == Ok(LeveredBeta(unleveredBeta, taxRate, debtToEquity))
  {
    assert Statistics.SumProducts([1.0], [unleveredBeta]) == unleveredBeta by {
      assert [1.0][..0] == [] && [unleveredBeta][..0] == [];
    }
  }

  /** Unlevering a bottom-up beta with the firm's own tax rate and D/E gives back the
      segment-weighted unlevered beta, whenever the leverage factor is not zero. */
  lemma BottomUpBetaUnlevers(businessSegmentWeights: seq<real>, unleveredBetas: seq<real>, taxRate: real,
                             debtToEquity: real)
    requires |businessSegmentWeights| == |unleveredBetas|
    requires LeverageFactor(taxRate, debtToEquity) != 0.0
    ensures BottomUpBeta(businessSegmentWeights, unleveredBetas, taxRate, debtToEquity).Ok?
    ensures UnleveredBeta(BottomUpBeta(businessSegmentWeights, unleveredBetas, taxRate, debtToEquity).value,
                          taxRate, debtToEquity)
         == Ok(Statistics.SumProducts(businessSegmentWeights, unleveredBetas))
  {
    UnleverAfterLever(Statistics.SumProducts(businessSegmentWeights, unleveredBetas), taxRate, debtToEquity);
  }

  /** When every segment has the same unlevered beta and the weights add up to one, the
      bottom-up beta is that beta relevered: splitting the firm into segments changes nothing. */
  lemma UniformSegmentsBottomUpBeta(businessSegmentWeights: seq<real>, unleveredBetas: seq<real>,
                                    unleveredBeta: real, taxRate: real, debtToEquity: real)
    requires |businessSegmentWeights| == |unleveredBetas|
    requires forall i :: 0 <= i < |unleveredBetas| ==> unleveredBetas[i] == unleveredBeta
    requires Statistics.Sum(businessSegmentWeights) == 1.0
    ensures BottomUpBeta(businessSegmentWeights, unleveredBetas, taxRate, debtToEquity)
         == Ok(LeveredBeta(unleveredBeta, taxRate, debtToEquity))
  {
    Statistics.SumProductsByConstant(businessSegmentWeights, unleveredBetas, unleveredBeta);
    assert Statistics.SumProducts(businessSegmentWeights, unleveredBetas) == unleveredBeta * 1.0;
  }

  /** Country risk premium by relative volatility: the default spread scaled by `σ_equity / σ_bond`. */
  function CountryRiskPremium(countryDefaultSpread: real, sigmaEquityCountry: real,
                              sigmaBondCountry: real): (r: Result<real>)
    ensures IsQuotient(r, countryDefaultSpread * sigmaEquityCountry, sigmaBondCountry)
  {
    if sigmaBondCountry == 0.0 then Invalid
    else
      ScaledQuotientTimesDivisor(countryDefaultSpread, sigmaEquityCountry, sigmaBondCountry);
      Ok(countryDefaultSpread * (sigmaEquityCountry / sigmaBondCountry))
  }

  /** `a (b / c) c = a b`, as pure algebra. */
  lemma ScaledQuotientTimesDivisor(a: real, b: real, c: real)
    requires c != 0.0
    ensures (a * (b / c)) * c == a * b
  {
    var q := b / c;
    assert q * c == b;
    assert (a * q) * c == a * (q * c);
  }

  /** Justified P/E in stable growth: `payout (1 + g) / (re - g)`. */
  function JustifiedPeStableGrowth(payoutRatio: real, growthRate: real, costOfEquity: real): (r: Result<real>)
    ensures IsPerpetuity(r, payoutRatio * (1.0 + growthRate), costOfEquity, growthRate)
  {
    if costOfEquity <= growthRate then Invalid
    else
      PositiveDivisorFacts(payoutRatio * (1.0 + growthRate), costOfEquity - growthRate);
      Ok((payoutRatio * (1.0 + growthRate)) / (costOfEquity - growthRate))
  }

  /** Justified P/B: `(roe - g) / (re - g)`. */
  function JustifiedPbRatio(roe: real, growthRate: real, costOfEquity: real): (r: Result<real>)
    ensures IsPerpetuity(r, roe - growthRate, costOfEquity, growthRate)
  {
    if costOfEquity <= growthRate then Invalid
    else
      PositiveDivisorFacts(roe - growthRate, costOfEquity - growthRate);
      Ok((roe - growthRate) / (costOfEquity - growthRate))
  }

  /** Justified P/S: `margin × payout × (1 + g) / (re - g)`. */
  function JustifiedPsRatio(profitMargin: real, payoutRatio: real, growthRate: real,
                            costOfEquity: real): (r: Result<real>)
    ensures IsPerpetuity(r, profitMargin * payoutRatio * (1.0 + growthRate), costOfEquity, growthRate)
  {
    if costOfEquity <= growthRate then Invalid
    else
      PositiveDivisorFacts(profitMargin * payoutRatio * (1.0 + growthRate), costOfEquity - growthRate);
      Ok((profitMargin * payoutRatio * (1.0 + growthRate)) / (costOfEquity - growthRate))
  }

  /** Justified EV/EBITDA: `(1 - T)(1 - reinvestment)(1 + g) / (wacc - g)`. */
  function JustifiedEvEbitda(taxRate: real, reinvestmentRate: real, growthRate: real, wacc: real): (r: Result<real>)
    ensures IsPerpetuity(r, (1.0 - taxRate) * (1.0 - reinvestmentRate) * (1.0 + growthRate), wacc, growthRate)
  {
    if wacc <= growthRate then Invalid
    else
      PositiveDivisorFacts((1.0 - taxRate) * (1.0 - reinvestmentRate) * (1.0 + growthRate), wacc - growthRate);
      Ok(((1.0 - taxRate) * (1.0 - reinvestmentRate) * (1.0 + growthRate)) / (wacc - growthRate))
  }

  /** Justified EV/Sales: `margin (1 - T)(1 - reinvestment)(1 + g) / (wacc - g)`. */
  function JustifiedEvSales(operatingMargin: real, taxRate: real, reinvestmentRate: real, growthRate: real,
                            wacc: real): (r: Result<real>)
    ensures IsPerpetuity(r, operatingMargin * (1.0 - taxRate) * (1.0 - reinvestmentRate) * (1.0 + growthRate),
                         wacc, growthRate)
  {
    if wacc <= growthRate then Invalid
    else
      PositiveDivisorFacts(operatingMargin * (1.0 - taxRate) * (1.0 - reinvestmentRate) * (1.0 + growthRate),
                           wacc - growthRate);
      Ok((operatingMargin * (1.0 - taxRate) * (1.0 - reinvestmentRate) * (1.0 + growthRate)) / (wacc - growthRate))
  }

  /** The justified P/E is the Gordon price of the share divided by its earnings: the
      dividend is the paid-out share of earnings, grown one year. */
  lemma JustifiedPeIsGordonPricePerEarnings(eps: real, payoutRatio: real, growthRate: real, costOfEquity: real)
    ensures JustifiedPeStableGrowth(payoutRatio, growthRate, costOfEquity).Ok?
        <==> Dcf.GordonGrowthModel(Dcf.DividendNextYear(eps * payoutRatio, growthRate), costOfEquity, growthRate).Ok?
    ensures JustifiedPeStableGrowth(payoutRatio, growthRate, costOfEquity).Ok?
        ==> Dcf.GordonGrowthModel(Dcf.DividendNextYear(eps * payoutRatio, growthRate), costOfEquity, growthRate).value
            == eps * JustifiedPeStableGrowth(payoutRatio, growthRate, costOfEquity).value
  {
    var pe := JustifiedPeStableGrowth(payoutRatio, growthRate, costOfEquity);
    var price := Dcf.GordonGrowthModel(Dcf.DividendNextYear(eps * payoutRatio, growthRate), costOfEquity, growthRate);
    var n := payoutRatio * (1.0 + growthRate);
    assert Dcf.DividendNextYear(eps * payoutRatio, growthRate) == eps * n;
    PerpetuityScales(pe, price, n, eps, costOfEquity, growthRate);
  }

  /** A firm that earns exactly its cost of equity is worth its book value. */
  lemma EarningCostOfEquityMeansBookValue(growthRate: real, costOfEquity: real)
    requires costOfEquity > growthRate
    ensures JustifiedPbRatio(costOfEquity, growthRate, costOfEquity) == Ok(1.0)
  {
    var r := JustifiedPbRatio(costOfEquity, growthRate, costOfEquity);
    CancelFactor(r.value, 1.0, costOfEquity - growthRate);
  }

  /** Price to sales is the profit margin times price to earnings. */
  lemma JustifiedPsIsMarginTimesPe(profitMargin: real, payoutRatio: real, growthRate: real, costOfEquity: real)
    ensures JustifiedPsRatio(profitMargin, payoutRatio, growthRate, costOfEquity).Ok?
        <==> JustifiedPeStableGrowth(payoutRatio, growthRate, costOfEquity).Ok?
    ensures JustifiedPsRatio(profitMargin, payoutRatio, growthRate, costOfEquity).Ok?
        ==> JustifiedPsRatio(profitMargin, payoutRatio, growthRate, costOfEquity).value
            == profitMargin * JustifiedPeStableGrowth(payoutRatio, growthRate, costOfEquity).value
  {
    var n := payoutRatio * (1.0 + growthRate);
    assert profitMargin * payoutRatio * (1.0 + growthRate) == profitMargin * n;
    PerpetuityScales(JustifiedPeStableGrowth(payoutRatio, growthRate, costOfEquity),
                     JustifiedPsRatio(profitMargin, payoutRatio, growthRate, costOfEquity),
                     n, profitMargin, costOfEquity, growthRate);
  }

  /** EV to sales is the operating margin times EV to EBITDA. */
  lemma JustifiedEvSalesIsMarginTimesEvEbitda(operatingMargin: real, taxRate: real, reinvestmentRate: real,
                                              growthRate: real, wacc: real)
    ensures JustifiedEvSales(operatingMargin, taxRate, reinvestmentRate, growthRate, wacc).Ok?
        <==> JustifiedEvEbitda(taxRate, reinvestmentRate, growthRate, wacc).Ok?
    ensures JustifiedEvSales(operatingMargin, taxRate, reinvestmentRate, growthRate, wacc).Ok?
        ==> JustifiedEvSales(operatingMargin, taxRate, reinvestmentRate, growthRate, wacc).value
            == operatingMargin * JustifiedEvEbitda(taxRate, reinvestmentRate, growthRate, wacc).value
  {
    var n := (1.0 - taxRate) * (1.0 - reinvestmentRate) * (1.0 + growthRate);
    assert operatingMargin * (1.0 - taxRate) * (1.0 - reinvestmentRate) * (1.0 + growthRate) == operatingMargin * n;
    PerpetuityScales(JustifiedEvEbitda(taxRate, reinvestmentRate, growthRate, wacc),
                     JustifiedEvSales(operatingMargin, taxRate, reinvestmentRate, growthRate, wacc),
                     n, operatingMargin, wacc, growthRate);
  }

  /** Cost of equity by the build-up method: the risk-free rate plus the equity risk premium
      and any size, industry and company-specific premiums. */
  function CostOfEquityBuildUp(riskFreeRate: real, equityRiskPremium: real, sizePremium: real := 0.0,
                               industryRiskPremium: real := 0.0, companySpecificRisk: real := 0.0): real
  {
    riskFreeRate + equityRiskPremium + sizePremium + industryRiskPremium + companySpecificRisk
  }

  /** Without extra premiums the build-up cost is the CAPM cost of an average (beta 1) stock;
      each premium adds to it one for one. */
  lemma BuildUpIsCapmPlusPremiums(riskFreeRate: real, equityRiskPremium: real, sizePremium: real,
                                  industryRiskPremium: real, companySpecificRisk: real)
    ensures CostOfEquityBuildUp(riskFreeRate, equityRiskPremium)
         == Dcf.CostOfEquityCapm(riskFreeRate, 1.0, riskFreeRate + equityRiskPremium)
    ensures CostOfEquityBuildUp(riskFreeRate, equityRiskPremium, sizePremium, industryRiskPremium, companySpecificRisk)
         == CostOfEquityBuildUp(riskFreeRate, equityRiskPremium) + sizePremium + industryRiskPremium + companySpecificRisk
  {
  }

  /** After-tax cost of debt. */
  function AfterTaxCostOfDebt(costOfDebt: real, taxRate: real): real
  {
    costOfDebt * (1.0 - taxRate)
  }

  /** The WACC of a firm financed only by debt is its after-tax cost of debt. */
  lemma AllDebtWaccIsAfterTaxCostOfDebt(debtValue: real, costOfEquity: real, costOfDebt: real, taxRate: real)
    requires debtValue != 0.0
    ensures Dcf.Wacc(0.0, debtValue, costOfEquity, costOfDebt, taxRate) == Ok(AfterTaxCostOfDebt(costOfDebt, taxRate))
  {
    assert 0.0 / (0.0 + debtValue + 0.0) == 0.0;
    assert debtValue / (0.0 + debtValue + 0.0) == 1.0;
    var w := Dcf.Wacc(0.0, debtValue, costOfEquity, costOfDebt, taxRate);
    assert w.Ok?;
    assert w.value == (0.0 / (0.0 + debtValue + 0.0)) * costOfEquity
                    + (debtValue / (0.0 + debtValue + 0.0)) * costOfDebt * (1.0 - taxRate) + 0.0;
    assert w.value == 0.0 * costOfEquity + 1.0 * costOfDebt * (1.0 - taxRate) + 0.0;
    assert w.value == costOfDebt * (1.0 - taxRate);
  }

  /** Bloomberg's adjusted beta: two thirds raw beta, one third the market beta of one. */
  function AdjustedBetaBloomberg(rawBeta: real): real
  {
    (0.67 * rawBeta) + 0.33
  }

  /** The adjustment keeps a beta of one and pulls every other beta toward one, keeping
      67% of its distance. */
  lemma AdjustedBetaShrinksTowardOne(rawBeta: real)
    ensures AdjustedBetaBloomberg(1.0) == 1.0
    ensures AdjustedBetaBloomberg(rawBeta) - 1.0 == 0.67 * (rawBeta - 1.0)
  {
  }

  /** Cost of equity with a country risk premium added to the CAPM cost. */
  function CostOfEquityWithCountryRisk(riskFreeRate: real, beta: real, matureMarketErp: real,
                                       countryRiskPremium: real): real
  {
    riskFreeRate + beta * matureMarketErp + countryRiskPremium
  }

  /** The country-risk cost of equity is the CAPM cost in the mature market plus the
      country premium. */
  lemma CountryRiskAddsToCapm(riskFreeRate: real, beta: real, matureMarketErp: real, countryRiskPremium: real)
    ensures CostOfEquityWithCountryRisk(riskFreeRate, beta, matureMarketErp, countryRiskPremium)
         == Dcf.CostOfEquityCapm(riskFreeRate, beta, riskFreeRate + matureMarketErp) + countryRiskPremium
  {
  }

  /** Fundamental growth in equity earnings: ROE times the retention ratio. */
  function FundamentalGrowthRateEquity(roe: real, retentionRatio: real): real
  {
    roe * retentionRatio
  }

  /** Fundamental growth in operating income: return on capital times the reinvestment rate. */
  function FundamentalGrowthRateFirm(returnOnCapital: real, reinvestmentRate: real): real
  {
    returnOnCapital * reinvestmentRate
  }

  /** Fundamental equity growth is sustainable growth at the payout ratio one minus retention. */
  lemma FundamentalGrowthIsSustainableGrowth(roe: real, retentionRatio: real)
    ensures FundamentalGrowthRateEquity(roe, retentionRatio)
         == Growth.SustainableGrowthRate(roe, 1.0 - retentionRatio)
  {
  }

  /** With the reinvestment rate taken from net capex and the working-capital change over
      NOPAT, and NOPAT earned at the return on capital, firm growth times capital is the
      amount reinvested. */
  lemma FirmGrowthIsReinvestmentOverCapital(returnOnCapital: real, capital: real, netCapex: real,
                                            changeInWc: real, nopat: real)
    requires nopat != 0.0 && nopat == returnOnCapital * capital
    ensures ReinvestmentRateAlt(netCapex, changeInWc, nopat).Ok?
    ensures FundamentalGrowthRateFirm(returnOnCapital, ReinvestmentRateAlt(netCapex, changeInWc, nopat).value) * capital
         == netCapex + changeInWc
  {
    var rr := ReinvestmentRateAlt(netCapex, changeInWc, nopat).value;
    assert rr * nopat == netCapex + changeInWc;
    assert (returnOnCapital * rr) * capital == rr * (returnOnCapital * capital);
  }

  /** The reinvestment rate on EBIT and tax is the alternative rate on net capex and NOPAT. */
  lemma ReinvestmentRateFormsAgree(capex: real, depreciation: real, changeInWc: real, ebit: real, taxRate: real)
    ensures ReinvestmentRate(capex, depreciation, changeInWc, ebit, taxRate)
         == ReinvestmentRateAlt(capex - depreciation, changeInWc, Profitability.Nopat(ebit, taxRate))
  {
  }

  /** FCFF in stable growth: after-tax EBIT less the reinvested share. */
  function StablePeriodFcff(ebit: real, taxRate: real, reinvestmentRate: real): real
  {
    (ebit * (1.0 - taxRate)) * (1.0 - reinvestmentRate)
  }

  /** When the reinvestment rate is computed from the same net capex and working-capital
      change, stable-period FCFF is FCFF from NOPAT. */
  lemma StableFcffIsFcffFromNopat(ebit: real, taxRate: real, depreciation: real, capex: real, changeInWc: real)
    requires Profitability.Nopat(ebit, taxRate) != 0.0
    ensures ReinvestmentRateAlt(capex - depreciation, changeInWc, Profitability.Nopat(ebit, taxRate)).Ok?
    ensures StablePeriodFcff(ebit, taxRate,
                             ReinvestmentRateAlt(capex - depreciation, changeInWc, Profitability.Nopat(ebit, taxRate)).value)
         == CashFlow.FcffFromNopat(Profitability.Nopat(ebit, taxRate), depreciation, capex, changeInWc)
  {
    var n := Profitability.Nopat(ebit, taxRate);
    var rr := ReinvestmentRateAlt(capex - depreciation, changeInWc, n).value;
    assert rr * n == (capex - depreciation) + changeInWc;
    assert n * (1.0 - rr) == n - rr * n;
  }

  /** An exit multiple of EBITDA set at the justified EV/EBITDA gives the Gordon terminal
      value of next year's stable-period FCFF on that EBITDA. */
  lemma JustifiedExitMultipleIsGordonValue(ebitda: real, taxRate: real, reinvestmentRate: real,
                                           growthRate: real, wacc: real)
    requires wacc > growthRate
    ensures JustifiedEvEbitda(taxRate, reinvestmentRate, growthRate, wacc).Ok?
    ensures Dcf.TerminalValueGordonGrowth(StablePeriodFcff(ebitda, taxRate, reinvestmentRate) * (1.0 + growthRate),
                                          wacc, growthRate).Ok?
    ensures Dcf.TerminalValueExitMultipleEbitda(JustifiedEvEbitda(taxRate, reinvestmentRate, growthRate, wacc).value,
                                                ebitda)
         == Dcf.TerminalValueGordonGrowth(StablePeriodFcff(ebitda, taxRate, reinvestmentRate) * (1.0 + growthRate),
                                          wacc, growthRate).value
  {
    var m := (1.0 - taxRate) * (1.0 - reinvestmentRate) * (1.0 + growthRate);
    var next := StablePeriodFcff(ebitda, taxRate, reinvestmentRate) * (1.0 + growthRate);
    assert next == ebitda * m;
    PerpetuityScales(JustifiedEvEbitda(taxRate, reinvestmentRate, growthRate, wacc),
                     Dcf.TerminalValueGordonGrowth(next, wacc, growthRate), m, ebitda, wacc, growthRate);
  }

  /** Likewise, an exit multiple of sales set at the justified EV/Sales gives the Gordon
      terminal value of next year's stable-period FCFF on the operating profit of those sales. */
  lemma JustifiedSalesMultipleIsGordonValue(sales: real, operatingMargin: real, taxRate: real,
                                            reinvestmentRate: real, growthRate: real, wacc: real)
    requires wacc > growthRate
    ensures JustifiedEvSales(operatingMargin, taxRate, reinvestmentRate, growthRate, wacc).Ok?
    ensures Dcf.TerminalValueGordonGrowth(StablePeriodFcff(operatingMargin * sales, taxRate, reinvestmentRate)
                                          * (1.0 + growthRate), wacc, growthRate).Ok?
    ensures Dcf.TerminalValueExitMultipleSales(JustifiedEvSales(operatingMargin, taxRate, reinvestmentRate,
                                                                growthRate, wacc).value, sales)
         == Dcf.TerminalValueGordonGrowth(StablePeriodFcff(operatingMargin * sales, taxRate, reinvestmentRate)
                                          * (1.0 + growthRate), wacc, growthRate).value
  {
    var m := operatingMargin * (1.0 - taxRate) * (1.0 - reinvestmentRate) * (1.0 + growthRate);
    var next := StablePeriodFcff(operatingMargin * sales, taxRate, reinvestmentRate) * (1.0 + growthRate);
    assert next == sales * m;
    PerpetuityScales(JustifiedEvSales(operatingMargin, taxRate, reinvestmentRate, growthRate, wacc),
                     Dcf.TerminalValueGordonGrowth(next, wacc, growthRate), m, sales, wacc, growthRate);
  }

  /** Firm value in the EVA model: invested capital plus the present value of expected EVA. */
  function FirmValueEva(investedCapital: real, pvExpectedEva: real): real
  {
    investedCapital + pvExpectedEva
  }

  /** In the EVA model the market value added is exactly the present value of expected EVA. */
  lemma MvaIsPresentValueOfEva(investedCapital: real, pvExpectedEva: real)
    ensures OtherMetrics.MarketValueAdded(FirmValueEva(investedCapital, pvExpectedEva), investedCapital)
         == pvExpectedEva
  {
  }
}
