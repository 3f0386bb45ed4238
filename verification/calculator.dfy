/**
 The deal analyzer: one evaluation from a deal's inputs to every figure the
 calculator reports, in the order the calculator computes them.

 Every division of the calculator aborts the whole evaluation when its divisor is
 zero, so an evaluation either yields all figures or fails with the first division
 that could not be carried out.
 */
module Calculator {
  import opened RealMath
  import opened Amortization
  import opened Operating
  import opened Returns
  import opened Projection

  /** The inputs of one analysis; percentages are already fractions. */
  datatype Deal = Deal(
    salePrice: real,
    downFraction: real,
    annualRate: real,
    loanYears: nat,
    rents: RentRoll,
    costs: OperatingCosts,
    rentGrowth: real)

  /** The divisions that can fail, in the order the calculator reaches them. */
  datatype CalcError =
    | PaymentUndefined   // (1 + r)^months is exactly 1, e.g. a zero rate or a zero term
    | ZeroSalePrice      // cap rate
    | ZeroDebtService    // debt coverage ratio
    | ZeroDownPayment    // ROI

  datatype Result<T> = Ok(value: T) | Err(error: CalcError)

  /** Every figure of one analysis. */
  datatype Analysis = Analysis(
    financing: Financing,
    monthlyPayment: real,
    annualDebtService: real,
    income: Statement,
    taxSavings: real,
    yearOne: Paydown,
    equityGain: real,
    totalReturn: real,
    roi: real,
    projection: seq<ProjectionRow>)

  function DealRate(d: Deal): real
  {
    MonthlyRate(d.annualRate)
  }

  function DealMonths(d: Deal): nat
  {
    Months(d.loanYears)
  }

  function DealFinancing(d: Deal): Financing
  {
    Finance(d.salePrice, d.downFraction)
  }

  /** The deal's monthly payment, where the payment formula is defined. */
  function DealPayment(d: Deal): real
    requires PaymentDefined(DealRate(d), DealMonths(d))
  {
    MonthlyPayment(DealFinancing(d).loanAmount, DealRate(d), DealMonths(d))
  }

  /** The relations between a deal and the figures of its complete analysis. */
  predicate Reconciles(d: Deal, a: Analysis)
  {
    var r := DealRate(d);
    var m := DealMonths(d);
    var loan := a.financing.loanAmount;
    // financing: the price is split between cash and loan, and the payment retires the loan
    && a.financing.downPayment == d.salePrice * d.downFraction
    && a.financing.downPayment + loan == d.salePrice
    && Walk(loan, r, a.monthlyPayment, m).balance == 0.0
    && a.annualDebtService == 12.0 * a.monthlyPayment
    // income and expenses
    && StatementHolds(d.rents, d.costs, d.salePrice, a.annualDebtService, a.income)
    // first-year return
    && a.taxSavings == d.salePrice * 51.0 / 6875.0
    && a.yearOne == Walk(loan, r, a.monthlyPayment, WalkMonths)
    && a.yearOne.principalPaid == loan - a.yearOne.balance
    && a.equityGain == d.salePrice * AppreciationRate
    && a.totalReturn == a.income.cashFlow + a.taxSavings + a.yearOne.principalPaid + a.equityGain
    && a.roi * a.financing.downPayment == 100.0 * a.totalReturn
    // rent growth table
    && TableHolds(Sum(d.rents), d.rentGrowth, a.projection)
  }

  /** The four divisors of the calculator are all nonzero. */
  predicate Computable(d: Deal)
  {
    && PaymentDefined(DealRate(d), DealMonths(d))
    && d.salePrice != 0.0
    && DealPayment(d) != 0.0
    && DealFinancing(d).downPayment != 0.0
  }

  /** One evaluation of the calculator. */
  function Evaluate(d: Deal): (res: Result<Analysis>)
    ensures res.Ok? <==> Computable(d)
    ensures !PaymentDefined(DealRate(d), DealMonths(d)) ==> res == Err(PaymentUndefined)
    ensures PaymentDefined(DealRate(d), DealMonths(d)) && d.salePrice == 0.0 ==>
              res == Err(ZeroSalePrice)
    ensures PaymentDefined(DealRate(d), DealMonths(d)) && d.salePrice != 0.0
            && DealPayment(d) == 0.0 ==>
              res == Err(ZeroDebtService)
    ensures PaymentDefined(DealRate(d), DealMonths(d)) && d.salePrice != 0.0
            && DealPayment(d) != 0.0 && DealFinancing(d).downPayment == 0.0 ==>
              res == Err(ZeroDownPayment)
    ensures res.Ok? ==> Reconciles(d, res.value)
  {
    if !PaymentDefined(DealRate(d), DealMonths(d)) then Err(PaymentUndefined)
    else if d.salePrice == 0.0 then Err(ZeroSalePrice)
    else if AnnualDebtService(DealPayment(d)) == 0.0 then Err(ZeroDebtService)
    else if DealFinancing(d).downPayment == 0.0 then Err(ZeroDownPayment)
    else Ok(Analyze(d))
  }

  /** The figures of a deal whose divisions all succeed, computed step by step. */
  function Analyze(d: Deal): (a: Analysis)
    requires Computable(d)
    ensures Reconciles(d, a)
  {
    var f := DealFinancing(d);
    var r := DealRate(d);
    var m := DealMonths(d);
    var pmt := MonthlyPayment(f.loanAmount, r, m);
    var ads := AnnualDebtService(pmt);
    var income := Operate(d.rents, d.costs, d.salePrice, ads);
    var yearOne := Walk(f.loanAmount, r, pmt, WalkMonths);
    var taxSavings := TaxSavings(d.salePrice);
    var equityGain := EquityGain(d.salePrice);
    var total := TotalReturn(income.cashFlow, taxSavings, yearOne.principalPaid, equityGain);
    PaymentRetiresLoan(f.loanAmount, r, m, pmt);
    WalkConservesPrincipal(f.loanAmount, r, pmt, WalkMonths);
    TaxSavingsRate(d.salePrice);
    EquityGainIsAppreciation(d.salePrice);
    RentProjectionHolds(Sum(d.rents), d.rentGrowth);
    Analysis(
      f, pmt, ads, income, taxSavings, yearOne, equityGain, total,
      Roi(total, f.downPayment),
      RentProjection(Sum(d.rents), d.rentGrowth))
  }

  /* A zero interest rate always makes the payment formula divide by zero. */
  lemma ZeroRateFails(d: Deal)
    requires d.annualRate == 0.0
    ensures Evaluate(d) == Err(PaymentUndefined)
  {
    PaymentDomain(DealRate(d), DealMonths(d));
  }

  /* An all-cash purchase borrows nothing, so its debt service is zero and the debt
     coverage ratio divides by zero. */
  lemma AllCashFails(d: Deal)
    requires d.downFraction == 1.0 && d.salePrice != 0.0
    requires PaymentDefined(DealRate(d), DealMonths(d))
    ensures Evaluate(d) == Err(ZeroDebtService)
  {
    assert DealFinancing(d).loanAmount == 0.0;
    MulZero(DealPayment(d), Growth(DealRate(d), DealMonths(d)) - 1.0);
  }

  /* A financed purchase at a positive rate over at least a year evaluates completely,
     with a positive payment and a down payment strictly below the price. */
  lemma FinancedDealEvaluates(d: Deal)
    requires d.salePrice > 0.0 && 0.0 < d.downFraction < 1.0
    requires d.annualRate > 0.0 && d.loanYears >= 1
    ensures Evaluate(d).Ok?
    ensures Evaluate(d).value.monthlyPayment > 0.0
    ensures 0.0 < Evaluate(d).value.financing.downPayment < d.salePrice
  {
    FinancedPaymentPositive(d);
  }

  /* For such a purchase the cash invested, the loan and the payment are all positive. */
  lemma FinancedPaymentPositive(d: Deal)
    requires d.salePrice > 0.0 && 0.0 < d.downFraction < 1.0
    requires d.annualRate > 0.0 && d.loanYears >= 1
    ensures PaymentDefined(DealRate(d), DealMonths(d))
    ensures DealFinancing(d).downPayment > 0.0 && DealFinancing(d).loanAmount > 0.0
    ensures DealPayment(d) > 0.0
  {
    var r := DealRate(d);
    var m := DealMonths(d);
    var loan := DealFinancing(d).loanAmount;
    assert loan == d.salePrice * (1.0 - d.downFraction);
    MulPositive(d.salePrice, 1.0 - d.downFraction);
    MulPositive(d.salePrice, d.downFraction);
    MulPositive(loan, r);
    PaymentCoversInterest(loan, r, m);
  }
}
