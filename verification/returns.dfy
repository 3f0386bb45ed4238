/**
 The first year's return on the cash invested: depreciation tax savings,
 appreciation, total return and ROI. The calculator fixes four assumptions as
 constants rather than inputs.
 */
module Returns {
  import opened RealMath

  /** Share of the price attributed to the building (the rest is land). */
  const StructureShare: real := 0.85
  /** Depreciation period of residential rental property, in years. */
  const DepreciationYears: real := 27.5
  /** Marginal income-tax rate applied to the depreciation deduction. */
  const MarginalTaxRate: real := 0.24
  /** Assumed yearly appreciation of the property. */
  const AppreciationRate: real := 0.03

  function StructureValue(salePrice: real): real
  {
    salePrice * StructureShare
  }

  function AnnualDepreciation(salePrice: real): real
  {
    StructureValue(salePrice) / DepreciationYears
  }

  function TaxSavings(salePrice: real): real
  {
    AnnualDepreciation(salePrice) * MarginalTaxRate
  }

  function ValueAfterOneYear(salePrice: real): real
  {
    salePrice * (1.0 + AppreciationRate)
  }

  function EquityGain(salePrice: real): real
  {
    ValueAfterOneYear(salePrice) - salePrice
  }

  /** The four parts of the year's return. */
  function TotalReturn(cashFlow: real, taxSavings: real, principalPaid: real, equityGain: real): real
  {
    cashFlow + taxSavings + principalPaid + equityGain
  }

  /** Total return as a percentage of the cash invested (the down payment). */
  function Roi(totalReturn: real, investment: real): (roi: real)
    requires investment != 0.0
    ensures roi * investment == 100.0 * totalReturn
    ensures investment > 0.0 ==> (roi >= 0.0 <==> totalReturn >= 0.0)
    ensures investment > 0.0 ==> (roi >= 100.0 <==> totalReturn >= investment)
  {
    var roi := (totalReturn / investment) * 100.0;
    assert roi * investment == 100.0 * totalReturn;
    if investment > 0.0 then
      assert (roi - 100.0) * investment == 100.0 * (totalReturn - investment);
      MulSign(roi, investment);
      MulSign(roi - 100.0, investment);
      roi
    else
      roi
  }

  /* Depreciation saves a fixed 51/6875 (about 0.742 %) of the price each year:
     0.85 * 0.24 / 27.5. */
  lemma TaxSavingsRate(salePrice: real)
    ensures TaxSavings(salePrice) == salePrice * 51.0 / 6875.0
  {
  }

  /* The equity gained in a year is exactly the appreciation rate times the price. */
  lemma EquityGainIsAppreciation(salePrice: real)
    ensures EquityGain(salePrice) == salePrice * AppreciationRate
  {
  }
}
