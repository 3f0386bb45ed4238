# Get2Million deal analyzer — a Dafny model

The Get2Million Real Estate Deal Analyzer is a one-screen calculator for a rental
property. It takes a purchase price, financing terms (down payment, interest rate,
term in years), the monthly rent of each unit and the yearly operating costs. From
these it computes:

- the down payment and the loan;
- the standard amortizing monthly payment and the annual debt service;
- gross rent, vacancy loss, management fee, total expenses, net operating income
  (NOI), cash flow, cap rate and debt coverage ratio (DCR);
- depreciation tax savings from three fixed assumptions: 85 % structure share,
  27.5-year life, 24 % tax rate;
- the principal paid down in the first year, from a twelve-month walk over the loan;
- equity from an assumed 3 % appreciation, total return and ROI on the down payment;
- a ten-year rent growth table.

This project models that arithmetic over exact `real` numbers. Each figure is a pure
function of an immutable `Deal` value. The model is split into modules:

- `RealMath` (`real_math.dfy`): natural powers and sums.
- `Amortization` (`amortization.dfy`): financing, the payment and the paydown walk.
- `Operating` (`operating.dfy`): income, expenses, NOI, cap rate and DCR.
- `Returns` (`returns.dfy`): tax savings, appreciation and ROI.
- `Projection` (`projection.dfy`): the rent table.
- `Calculator` (`calculator.dfy`): one whole evaluation.

The calculator divides by an amount that can be zero in four places:

- the payment formula, by `(1 + r)^months - 1`;
- the cap rate, by the price;
- the DCR, by the annual debt service;
- the ROI, by the down payment.

In the program, a zero divisor raises Python's `ZeroDivisionError`. That stops the
whole page before any figure is shown. The model has two levels for this:

- Each metric function carries a `requires` that its divisor is nonzero.
- `Calculator.Evaluate` returns either every figure or `Err` naming the first
  division, in program order, that failed.

Apart from requiring at least one unit (line 23), the program validates no input and
marks no metric as undefined: any zero divisor stops it. The model does the same. A zero interest rate always fails at the payment
(`ZeroRateFails`). An all-cash purchase at a nonzero price whose payment is defined
fails at the DCR, because its debt service is zero (`AllCashFails`).

For example, the tenth-year rent of a $3,600 roll growing 3 % a year is
3600 × 1.03⁹ ≈ $4,697.18 (`TenthYearExample`).

## Model

| member | source | states |
|---|---|---|
| Amortization.Finance | get2million_final_calculator.py:41-42 | down payment plus loan is exactly the sale price; for a fraction in [0, 1] of a non-negative price both lie between 0 and the price; the down payment is zero exactly when the price or the fraction is |
| Amortization.AnnualDebtService | get2million_final_calculator.py:46 | definition; properties in `YearOfDebtService` |
| Amortization.YearOfDebtService | get2million_final_calculator.py:46-69 | a year of debt service equals the first year's principal paid plus the interest charged over those twelve months |
| Amortization.MonthlyRate | get2million_final_calculator.py:43 | definition (line 43's `loan_rate / 12`); the rate of the payment and the walk in `Reconciles` |
| Amortization.Months | get2million_final_calculator.py:44 | definition; properties in `FinancedPaymentPositive` |
| Amortization.PaymentDefined | get2million_final_calculator.py:45 | `(1 + r)^months` is not 1, so the divisor of line 45 is nonzero; properties in `PaymentDomain` |
| Amortization.PaymentDomain | get2million_final_calculator.py:43-45 | the payment formula's denominator is nonzero only with a nonzero rate and at least one month, and is positive for a positive rate and at least one month |
| Amortization.MonthlyPayment | get2million_final_calculator.py:45 | the payment p satisfies the annuity equation p · ((1+r)^m − 1) = L · r · (1+r)^m, where it is defined |
| Amortization.PaymentRetiresLoan | get2million_final_calculator.py:45-69 | paying p for m months brings the balance to exactly zero if and only if p is the payment of line 45 |
| Amortization.PayMonth | get2million_final_calculator.py:66-69 | definition of one month of the loop; properties in `WalkConservesPrincipal`, `WalkSplitsPayments` and `BalanceDeclines` |
| Amortization.Walk | get2million_final_calculator.py:63-69 | definition of the loop over k months; properties in `WalkClosedForm`, `PaymentRetiresLoan` and `PaydownLoop` |
| Amortization.WalkConservesPrincipal | get2million_final_calculator.py:63-69 | after every month of the walk, principal paid equals the loan minus the open balance |
| Amortization.WalkSplitsPayments | get2million_final_calculator.py:66-69 | over k months, interest charged plus principal paid equals k payments |
| Amortization.WalkClosedForm | get2million_final_calculator.py:63-69 | the balance after k months satisfies r · B = r · L · (1+r)^k − p · ((1+r)^k − 1) |
| Amortization.PaymentCoversInterest | get2million_final_calculator.py:45-67 | at a positive rate, the payment on a non-negative loan is at least the first month's interest |
| Amortization.BalanceBelowLoan | get2million_final_calculator.py:63-68 | at a non-negative rate, when the payment covers interest on the loan, the balance never exceeds the loan |
| Amortization.BalanceDeclines | get2million_final_calculator.py:66-68 | under the same condition, one month never raises the balance |
| Amortization.BalanceAntitone | get2million_final_calculator.py:63-68 | under the same condition, a later balance is never above an earlier one |
| Amortization.YearOnePaydownBounds | get2million_final_calculator.py:63-69 | for a loan of at least a year at a positive rate, first-year principal paid lies between 0 and the loan |
| Amortization.YearOneClosedForm | get2million_final_calculator.py:63-69 | first-year principal paid in closed form: r · paid = (p − r · L) · ((1+r)^12 − 1) |
| Amortization.PaydownLoop | get2million_final_calculator.py:63-69 | the loop returns the walk's balance and principal paid, keeps principal paid = loan − balance as its invariant, and its principal plus the interest charged equals n payments |
| Operating.VacancyLoss | get2million_final_calculator.py:48 | definition; pinned by `StatementHolds` in `Operate` |
| Operating.ManagementFee | get2million_final_calculator.py:49 | definition; pinned by `StatementHolds` in `Operate` |
| Operating.GrossRent | get2million_final_calculator.py:28 | definition; properties in `GrossRentAddsUnits`, `GrossRentUniform` and `GrossRentNonNegative` |
| Operating.TotalExpenses | get2million_final_calculator.py:51 | definition; properties in `NoiSplitsVariableAndFixed` and `DefaultDealIncome` |
| Operating.NetOperatingIncome | get2million_final_calculator.py:52 | definition; properties in `NoiSplitsVariableAndFixed` and `DefaultDealIncome` |
| Operating.CashFlow | get2million_final_calculator.py:53 | definition; properties in `CoverageMeansNonNegativeCashFlow` |
| Operating.Operate | get2million_final_calculator.py:28-55 | gross rent is 12 times the rent roll; vacancy and management are those rates of gross rent; expenses are the five fixed costs plus those two; NOI is gross rent less expenses; cash flow is NOI less debt service; cap rate × price = 100 × NOI; DCR × debt service = NOI |
| Operating.CapRate | get2million_final_calculator.py:54 | cap rate × price = 100 × NOI, and for a positive price the cap rate is non-negative exactly when NOI is |
| Operating.DebtCoverage | get2million_final_calculator.py:55 | DCR × annual debt service = NOI |
| Operating.GrossRentAddsUnits | get2million_final_calculator.py:28 | the gross rent of two rent rolls together is the sum of their gross rents |
| Operating.GrossRentUniform | get2million_final_calculator.py:23-28 | n units all let at rent x gross 12 · n · x a year |
| Operating.GrossRentNonNegative | get2million_final_calculator.py:28 | non-negative rents give a non-negative gross rent |
| Operating.NoiSplitsVariableAndFixed | get2million_final_calculator.py:48-52 | NOI = gross rent × (1 − vacancy rate − management rate) − fixed costs |
| Operating.CoverageMeansNonNegativeCashFlow | get2million_final_calculator.py:53-55 | with positive debt service, DCR ≥ 1 exactly when cash flow ≥ 0 |
| Operating.DefaultDealIncome | get2million_final_calculator.py:23-54 | the default three-unit deal has gross rent 43,200, expenses 17,916, NOI 25,284 and cap rate 10.1136 % |
| Returns.StructureValue | get2million_final_calculator.py:58 | definition; properties in `TaxSavingsRate` |
| Returns.AnnualDepreciation | get2million_final_calculator.py:59 | definition; properties in `TaxSavingsRate` |
| Returns.TaxSavings | get2million_final_calculator.py:58-60 | definition; properties in `TaxSavingsRate` |
| Returns.ValueAfterOneYear | get2million_final_calculator.py:73 | definition; properties in `EquityGainIsAppreciation` |
| Returns.EquityGain | get2million_final_calculator.py:72-74 | definition; properties in `EquityGainIsAppreciation` |
| Returns.TotalReturn | get2million_final_calculator.py:77 | definition; the four parts are pinned in `Calculator.Analyze` |
| Returns.Roi | get2million_final_calculator.py:77-79 | ROI × down payment = 100 × total return; for a positive investment the ROI is non-negative exactly when the total return is, and at least 100 % exactly when the return covers the cash invested |
| Returns.TaxSavingsRate | get2million_final_calculator.py:58-60 | the tax savings are 51/6875 of the price, i.e. 0.85 × 0.24 / 27.5 |
| Returns.EquityGainIsAppreciation | get2million_final_calculator.py:72-74 | the equity gain is exactly 3 % of the price |
| Projection.RentProjection | get2million_final_calculator.py:101-106 | ten rows for years 1..10, each annual rent 12 times its monthly rent, the first month's rent the rent roll's total |
| Projection.ProjectionGrowsByRate | get2million_final_calculator.py:102 | each year's monthly rent is the previous year's times (1 + growth) |
| Projection.RentProjectionHolds | get2million_final_calculator.py:101-106 | the table has ten rows for years 1..10, its first monthly rent is the rent total, each later row is the previous one times (1 + growth), and each annual rent is 12 × the monthly rent |
| Projection.ProjectionNonDecreasing | get2million_final_calculator.py:101-102 | with a non-negative rent total and growth, no year's rent is below an earlier year's |
| Projection.TenthYearExample | get2million_final_calculator.py:100-102 | a $3,600 roll at 3 % growth has a tenth-year monthly rent between 4,697.18 and 4,697.19 |
| Calculator.Computable | get2million_final_calculator.py:45-79 | the four divisors of lines 45, 54, 55 and 79 are nonzero; `Evaluate` succeeds exactly when it holds |
| Calculator.Evaluate | get2million_final_calculator.py:41-106 | succeeds exactly when all four divisors are nonzero; otherwise names the first zero divisor in program order; every success satisfies the relations listed for `Analyze` |
| Calculator.Analyze | get2million_final_calculator.py:41-106 | the figures satisfy every relation above at once: split, payment retiring the loan, debt service, operating statement, tax savings, first-year walk, equity gain, total return as the sum of its four parts, ROI, and the rent table row by row (years 1..10, first row the rent total, each row the previous one times 1 + growth, annual = 12 × monthly) |
| Calculator.ZeroRateFails | get2million_final_calculator.py:43-45 | a zero interest rate always fails at the payment formula |
| Calculator.AllCashFails | get2million_final_calculator.py:41-55 | an all-cash purchase at a nonzero price whose payment is defined always fails at the DCR |
| Calculator.FinancedDealEvaluates | get2million_final_calculator.py:41-79 | a positive price, a down payment strictly between 0 and 100 %, a positive rate and a term of at least a year always evaluate, with a positive monthly payment and a down payment strictly below the price |
| Calculator.FinancedPaymentPositive | get2million_final_calculator.py:41-45 | for such a deal the down payment, the loan and the monthly payment are all positive |

## Left out

- The Streamlit page: configuration, title, the Actual / Pro Forma toggle, sidebar
  inputs, metric cards and the data frame. The toggle only changes the default
  unit rent (line 26). The inputs become the fields of `Deal`.
- Display formatting: the rounding in the f-strings (lines 84-96) and `.round(2)`
  (lines 105-106).
- The pandas and numpy wrappers. The rent table is a `seq<ProjectionRow>`.
- IEEE-754 floating point. The model computes with exact reals, so results differ
  from the program's in the last bits, and float overflow in `**` is not modelled.
  The set of failing inputs differs too: a nonzero rate so small that `1 + r` rounds
  to 1.0 makes line 45 divide by zero in the program, but evaluates in the model.
- The conversion of percentages to fractions (lines 18-19, 32, 36, 100). `Deal`
  holds the fractions.
- Negative loan terms. The term widget has no lower bound, but the model's term is
  a `nat`, so Python's negative powers are not modelled.
- The interest total `InterestPaid`. It is part of the model only, used to state
  how payments split. The program does not keep it.
