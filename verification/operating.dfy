/**
 Income and operating expenses: gross rent from the unit rent roll, the seven
 expense terms, net operating income (NOI), cash flow after debt service, cap rate
 and debt coverage ratio (DCR).
 */
module Operating {
  import opened RealMath

  /** Monthly rents of the units; the form never offers fewer than one unit. */
  type RentRoll = s: seq<real> | |s| >= 1 witness [0.0]

  /** Annual operating costs: two rates applied to gross rent and five fixed amounts. */
  datatype OperatingCosts = OperatingCosts(
    vacancyRate: real,
    taxes: real,
    insurance: real,
    repairs: real,
    mgmtFeeRate: real,
    utilities: real,
    reserves: real)

  /** Gross annual rent: twelve months of the whole rent roll. */
  function GrossRent(rents: seq<real>): real
  {
    Sum(rents) * 12.0
  }

  function VacancyLoss(grossRent: real, c: OperatingCosts): real
  {
    grossRent * c.vacancyRate
  }

  function ManagementFee(grossRent: real, c: OperatingCosts): real
  {
    grossRent * c.mgmtFeeRate
  }

  /** The five costs that do not depend on rent. */
  function FixedCosts(c: OperatingCosts): real
  {
    c.taxes + c.insurance + c.repairs + c.utilities + c.reserves
  }

  /** All seven expense terms, in the order the calculator adds them. */
  function TotalExpenses(grossRent: real, c: OperatingCosts): real
  {
    c.taxes + c.insurance + c.repairs + ManagementFee(grossRent, c)
    + c.utilities + c.reserves + VacancyLoss(grossRent, c)
  }

  function NetOperatingIncome(grossRent: real, c: OperatingCosts): real
  {
    grossRent - TotalExpenses(grossRent, c)
  }

  function CashFlow(noi: real, annualDebtService: real): real
  {
    noi - annualDebtService
  }

  /** NOI as a percentage of the sale price. */
  function CapRate(noi: real, salePrice: real): (rate: real)
    requires salePrice != 0.0
    ensures rate * salePrice == 100.0 * noi
    ensures salePrice > 0.0 ==> (rate >= 0.0 <==> noi >= 0.0)
  {
    var rate := (noi / salePrice) * 100.0;
    assert rate * salePrice == 100.0 * noi;
    if salePrice > 0.0 then
      MulSign(rate, salePrice);
      rate
    else
      rate
  }

  /** How many times NOI covers the annual debt service. */
  function DebtCoverage(noi: real, annualDebtService: real): (dcr: real)
    requires annualDebtService != 0.0
    ensures dcr * annualDebtService == noi
  {
    noi / annualDebtService
  }

  /** The operating statement of one year. */
  datatype Statement = Statement(
    grossRent: real,
    vacancyLoss: real,
    mgmtFee: real,
    expenses: real,
    noi: real,
    cashFlow: real,
    capRate: real,
    dcr: real)

  /** How the figures of a statement relate to the rent roll, the costs, the price and
      the debt service. */
  predicate StatementHolds(rents: seq<real>, c: OperatingCosts, salePrice: real,
                           annualDebtService: real, s: Statement)
  {
    && s.grossRent == 12.0 * Sum(rents)
    && s.vacancyLoss == s.grossRent * c.vacancyRate
    && s.mgmtFee == s.grossRent * c.mgmtFeeRate
    && s.expenses == FixedCosts(c) + s.vacancyLoss + s.mgmtFee
    && s.noi == s.grossRent - s.expenses
    && s.cashFlow == s.noi - annualDebtService
    && s.capRate * salePrice == 100.0 * s.noi
    && s.dcr * annualDebtService == s.noi
  }

  /** The statement the calculator reports; cap rate and DCR divide by the price and
      the debt service. */
  function Operate(rents: seq<real>, c: OperatingCosts, salePrice: real,
                   annualDebtService: real): (s: Statement)
    requires salePrice != 0.0 && annualDebtService != 0.0
    ensures StatementHolds(rents, c, salePrice, annualDebtService, s)
  {
    var gross := GrossRent(rents);
    var noi := NetOperatingIncome(gross, c);
    Statement(
      gross, VacancyLoss(gross, c), ManagementFee(gross, c), TotalExpenses(gross, c),
      noi, CashFlow(noi, annualDebtService),
      CapRate(noi, salePrice), DebtCoverage(noi, annualDebtService))
  }

  /* Adding units adds their gross rent. */
  lemma GrossRentAddsUnits(a: seq<real>, b: seq<real>)
    ensures GrossRent(a + b) == GrossRent(a) + GrossRent(b)
  {
    SumAppend(a, b);
  }

  /* A roll of n units all let at the same rent x grosses 12 * n * x a year. */
  lemma GrossRentUniform(rents: seq<real>, x: real)
    requires forall i :: 0 <= i < |rents| ==> rents[i] == x
    ensures GrossRent(rents) == 12.0 * |rents| as real * x
  {
    SumConstant(rents, x);
  }

  /* A roll of non-negative rents never grosses a negative amount. */
  lemma GrossRentNonNegative(rents: seq<real>)
    requires forall i :: 0 <= i < |rents| ==> rents[i] >= 0.0
    ensures GrossRent(rents) >= 0.0
  {
    SumNonNegative(rents);
  }

  /* NOI is the rent kept after vacancy and management, less the fixed costs. */
  lemma NoiSplitsVariableAndFixed(grossRent: real, c: OperatingCosts)
    ensures NetOperatingIncome(grossRent, c)
            == grossRent * (1.0 - c.vacancyRate - c.mgmtFeeRate) - FixedCosts(c)
  {
  }

  /* With positive debt service, the loan is covered (DCR at least one) exactly when
     the cash flow is not negative. */
  lemma CoverageMeansNonNegativeCashFlow(noi: real, annualDebtService: real)
    requires annualDebtService > 0.0
    ensures DebtCoverage(noi, annualDebtService) >= 1.0 <==> CashFlow(noi, annualDebtService) >= 0.0
  {
    var dcr := DebtCoverage(noi, annualDebtService);
    assert noi - annualDebtService == (dcr - 1.0) * annualDebtService;
    MulSign(dcr - 1.0, annualDebtService);
  }

  /* The calculator's default three-unit deal: $1,200 a unit, 5 % vacancy, 8 % management
     and $12,300 of fixed costs on a $250,000 price. */
  lemma DefaultDealIncome()
    ensures GrossRent([1200.0, 1200.0, 1200.0]) == 43200.0
    ensures TotalExpenses(43200.0, OperatingCosts(0.05, 7200.0, 1200.0, 1500.0, 0.08, 1800.0, 600.0))
            == 17916.0
    ensures NetOperatingIncome(43200.0, OperatingCosts(0.05, 7200.0, 1200.0, 1500.0, 0.08, 1800.0, 600.0))
            == 25284.0
    ensures CapRate(25284.0, 250000.0) == 10.1136
  {
    GrossRentUniform([1200.0, 1200.0, 1200.0], 1200.0);
  }
}
