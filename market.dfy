/** Market metrics: per-share book value, market share and ownership. */
module Market {
  import opened Guards
  import ValuationRatios

  /** Book Value Per Share. */
  function BookValuePerShareMarket(totalEquity: real, preferredEquity: real, commonSharesOutstanding: real): (r: Result<real>)
    ensures IsQuotient(r, totalEquity - preferredEquity, commonSharesOutstanding)
  {
    if commonSharesOutstanding == 0.0 then Invalid else Ok((totalEquity - preferredEquity) / commonSharesOutstanding)
  }

  /** Market Share (%). */
  function MarketShare(companySales: real, totalIndustrySales: real): (r: Result<real>)
    ensures IsScaledQuotient(r, 100.0, companySales, totalIndustrySales)
  {
    if totalIndustrySales == 0.0 then Invalid else Ok((companySales / totalIndustrySales) * 100.0)
  }

  /** Shares Outstanding (Alternative - from Capital Structure). */
  function SharesOutstandingFromCapital(paidUpEquityShareCapital: real, faceValuePerShare: real): (r: Result<real>)
    ensures IsQuotient(r, paidUpEquityShareCapital, faceValuePerShare)
  {
    if faceValuePerShare == 0.0 then Invalid else Ok(paidUpEquityShareCapital / faceValuePerShare)
  }

  /** Institutional Ownership Percentage (%). */
  function InstitutionalOwnershipPercentage(sharesHeldByInstitutions: real, totalSharesOutstanding: real): (r: Result<real>)
    ensures IsScaledQuotient(r, 100.0, sharesHeldByInstitutions, totalSharesOutstanding)
  {
    if totalSharesOutstanding == 0.0 then Invalid else Ok((sharesHeldByInstitutions / totalSharesOutstanding) * 100.0)
  }

  /** Market capitalisation: price times shares outstanding. */
  function MarketCapitalization(currentStockPrice: real, totalSharesOutstanding: real): real
  {
    currentStockPrice * totalSharesOutstanding
  }

  /** Book value: assets less liabilities and preferred stock. */
  function BookValue(totalAssets: real, totalLiabilities: real, preferredStock: real := 0.0): real
  {
    totalAssets - totalLiabilities - preferredStock
  }

  /** Market value of a holding: price times units. */
  function MarketValue(currentMarketPrice: real, numberOfUnits: real): real
  {
    currentMarketPrice * numberOfUnits
  }

  /** Total addressable market: demand times average selling price. */
  function TotalAddressableMarket(annualMarketDemand: real, averageSellingPrice: real): real
  {
    annualMarketDemand * averageSellingPrice
  }

  /** Free float: outstanding shares less restricted shares and insider holdings. */
  function FloatShares(sharesOutstanding: real, restrictedShares: real, insiderHoldings: real): real
  {
    sharesOutstanding - restrictedShares - insiderHoldings
  }

  /** Shares outstanding: issued shares less treasury shares. */
  function SharesOutstanding(issuedShares: real, treasuryShares: real): real
  {
    issuedShares - treasuryShares
  }

  /** Common book value per share is the book value net of preferred stock, per share. */
  lemma BookValuePerShareOfBookValue(totalAssets: real, totalLiabilities: real, preferredEquity: real,
                                     commonSharesOutstanding: real)
    ensures IsQuotient(BookValuePerShareMarket(BookValue(totalAssets, totalLiabilities), preferredEquity,
                                               commonSharesOutstanding),
                       BookValue(totalAssets, totalLiabilities, preferredEquity), commonSharesOutstanding)
  {
  }

  /** The free float never exceeds the shares outstanding when restricted and insider
      holdings are non-negative, and equals it exactly when both are zero. */
  lemma FloatIsPartOfOutstanding(issuedShares: real, treasuryShares: real, restrictedShares: real,
                                 insiderHoldings: real)
    requires restrictedShares >= 0.0 && insiderHoldings >= 0.0
    ensures FloatShares(SharesOutstanding(issuedShares, treasuryShares), restrictedShares, insiderHoldings)
         <= SharesOutstanding(issuedShares, treasuryShares)
    ensures FloatShares(SharesOutstanding(issuedShares, treasuryShares), restrictedShares, insiderHoldings)
         == SharesOutstanding(issuedShares, treasuryShares)
        <==> restrictedShares == 0.0 && insiderHoldings == 0.0
  {
  }

  /** At a common non-zero selling price, market share by sales is market share by units:
      the price cancels, and the share fails exactly when demand is zero. */
  lemma MarketShareOfUnits(unitsSold: real, annualMarketDemand: real, averageSellingPrice: real)
    requires averageSellingPrice != 0.0
    ensures IsScaledQuotient(MarketShare(unitsSold * averageSellingPrice,
                                         TotalAddressableMarket(annualMarketDemand, averageSellingPrice)),
                             100.0, unitsSold, annualMarketDemand)
  {
    var tam := TotalAddressableMarket(annualMarketDemand, averageSellingPrice);
    if annualMarketDemand != 0.0 {
      NonZeroProduct(annualMarketDemand, averageSellingPrice);
      var r := MarketShare(unitsSold * averageSellingPrice, tam).value;
      assert r * tam == 100.0 * (unitsSold * averageSellingPrice);
      assert (r * annualMarketDemand) * averageSellingPrice == (100.0 * unitsSold) * averageSellingPrice;
      CancelFactor(r * annualMarketDemand, 100.0 * unitsSold, averageSellingPrice);
    }
  }

  /** P/E on market capitalisation and total earnings is P/E per share. */
  lemma MarketCapPeIsPerSharePe(currentStockPrice: real, eps: real, totalSharesOutstanding: real)
    requires totalSharesOutstanding != 0.0
    ensures ValuationRatios.PriceToEarningsRatioMarketCap(MarketCapitalization(currentStockPrice, totalSharesOutstanding),
                                                          eps * totalSharesOutstanding)
         == ValuationRatios.PriceToEarningsRatio(currentStockPrice, eps)
  {
    ValuationRatios.PriceToEarningsPerShareOrTotal(currentStockPrice, eps, totalSharesOutstanding);
  }
}
