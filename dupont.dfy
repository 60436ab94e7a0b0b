/** DuPont analysis: return on equity as a product of component ratios. */
module DuPont {
  import opened Guards
  import Profitability

  /** Tax Burden (5-Step DuPont). */
  function TaxBurden(netIncome: real, pretaxIncome: real): (r: Result<real>)
    ensures IsQuotient(r, netIncome, pretaxIncome)
  {
    if pretaxIncome == 0.0 then Invalid else Ok(netIncome / pretaxIncome)
  }

  /** Interest Burden (5-Step DuPont). */
  function InterestBurden(pretaxIncome: real, ebit: real): (r: Result<real>)
    ensures IsQuotient(r, pretaxIncome, ebit)
  {
    if ebit == 0.0 then Invalid else Ok(pretaxIncome / ebit)
  }

  /** EBIT Margin (5-Step DuPont). */
  function EbitMargin(ebit: real, revenue: real): (r: Result<real>)
    ensures IsQuotient(r, ebit, revenue)
  {
    if revenue == 0.0 then Invalid else Ok(ebit / revenue)
  }

  /** Asset Turnover (DuPont). */
  function DupontAssetTurnover(revenue: real, totalAssets: real): (r: Result<real>)
    ensures IsQuotient(r, revenue, totalAssets)
  {
    if totalAssets == 0.0 then Invalid else Ok(revenue / totalAssets)
  }

  /** Equity Multiplier (DuPont). */
  function DupontEquityMultiplier(totalAssets: real, shareholdersEquity: real): (r: Result<real>)
    ensures IsQuotient(r, totalAssets, shareholdersEquity)
  {
    if shareholdersEquity == 0.0 then Invalid else Ok(totalAssets / shareholdersEquity)
  }

  /** 3-step DuPont: return on equity as net profit margin × asset turnover × equity multiplier. */
  function DupontRoe3Step(netProfitMargin: real, assetTurnover: real, equityMultiplier: real): real
  {
    netProfitMargin * assetTurnover * equityMultiplier
  }

  /** 5-step DuPont: tax burden × interest burden × EBIT margin × asset turnover × equity multiplier. */
  function DupontRoe5Step(taxBurden: real, interestBurden: real, ebitMargin: real,
                          assetTurnover: real, equityMultiplier: real): real
  {
    taxBurden * interestBurden * ebitMargin * assetTurnover * equityMultiplier
  }

  /** 3-step DuPont from the statement figures; the three component ratios cancel to net income over equity. */
  function DupontRoe3StepDetailed(netIncome: real, revenue: real, totalAssets: real, equity: real): (r: Result<real>)
    ensures r.Invalid? <==> revenue == 0.0 || totalAssets == 0.0 || equity == 0.0
    ensures r.Ok? ==> r.value == netIncome / equity
  {
    if revenue == 0.0 || totalAssets == 0.0 || equity == 0.0 then Invalid
    else
      QuotientsTelescope(netIncome, revenue, totalAssets);
      QuotientsTelescope(netIncome, totalAssets, equity);
      Ok((netIncome / revenue) * (revenue / totalAssets) * (totalAssets / equity))
  }

  /** The detailed 3-step DuPont product is the return on equity of the profitability
      section, which reports it as a percentage. */
  lemma DetailedDupontIsReturnOnEquity(netIncome: real, revenue: real, totalAssets: real, equity: real)
    requires revenue != 0.0 && totalAssets != 0.0
    ensures DupontRoe3StepDetailed(netIncome, revenue, totalAssets, equity).Ok?
        <==> Profitability.ReturnOnEquity(netIncome, equity).Ok?
    ensures DupontRoe3StepDetailed(netIncome, revenue, totalAssets, equity).Ok?
        ==> DupontRoe3StepDetailed(netIncome, revenue, totalAssets, equity).value * 100.0
            == Profitability.ReturnOnEquity(netIncome, equity).value
  {
  }

  /** The 3-step product of this section's asset turnover and equity multiplier with
      the net profit margin (a fraction, not the percentage) is net income over equity. */
  lemma ThreeStepComponentsGiveReturnOnEquity(netIncome: real, revenue: real, totalAssets: real, equity: real)
    requires revenue != 0.0 && totalAssets != 0.0 && equity != 0.0
    ensures DupontRoe3Step(netIncome / revenue, DupontAssetTurnover(revenue, totalAssets).value,
                           DupontEquityMultiplier(totalAssets, equity).value)
         == netIncome / equity
  {
    QuotientsTelescope(netIncome, revenue, totalAssets);
    QuotientsTelescope(netIncome, totalAssets, equity);
  }

  /** The five component ratios of this section multiply out to net income over equity. */
  lemma FiveStepComponentsGiveReturnOnEquity(netIncome: real, pretaxIncome: real, ebit: real, revenue: real,
                                             totalAssets: real, equity: real)
    requires pretaxIncome != 0.0 && ebit != 0.0 && revenue != 0.0 && totalAssets != 0.0 && equity != 0.0
    ensures DupontRoe5Step(TaxBurden(netIncome, pretaxIncome).value, InterestBurden(pretaxIncome, ebit).value,
                           EbitMargin(ebit, revenue).value, DupontAssetTurnover(revenue, totalAssets).value,
                           DupontEquityMultiplier(totalAssets, equity).value)
         == netIncome / equity
  {
    QuotientsTelescope(netIncome, pretaxIncome, ebit);
    QuotientsTelescope(netIncome, ebit, revenue);
    QuotientsTelescope(netIncome, revenue, totalAssets);
    QuotientsTelescope(netIncome, totalAssets, equity);
  }

  /** The 5-step formula refines the 3-step one: tax burden × interest burden × EBIT
      margin is the net profit margin. */
  lemma FiveStepRefinesThreeStep(netIncome: real, pretaxIncome: real, ebit: real, revenue: real,
                                 assetTurnover: real, equityMultiplier: real)
    requires pretaxIncome != 0.0 && ebit != 0.0 && revenue != 0.0
    ensures DupontRoe5Step(TaxBurden(netIncome, pretaxIncome).value, InterestBurden(pretaxIncome, ebit).value,
                           EbitMargin(ebit, revenue).value, assetTurnover, equityMultiplier)
         == DupontRoe3Step(netIncome / revenue, assetTurnover, equityMultiplier)
  {
    QuotientsTelescope(netIncome, pretaxIncome, ebit);
    QuotientsTelescope(netIncome, ebit, revenue);
  }
}
