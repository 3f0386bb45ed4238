/**
 Loan financing: the down payment / loan split, the standard amortizing monthly
 payment, annual debt service, and the year-one principal paydown walk.

 A month of the walk charges interest on the open balance at the monthly rate;
 whatever the payment leaves after interest retires principal. The payment is the
 annuity payment, i.e. the one level payment that brings the balance to exactly
 zero after the loan's last month.
 */
module Amortization {
  import opened RealMath

  /** Payment periods per year; the annual rate and the term are both converted with it. */
  const MonthsPerYear: nat := 12

  /** Length of the paydown walk the calculator reports: the first year. */
  const WalkMonths: nat := 12

  /** How a sale price is financed. */
  datatype Financing = Financing(downPayment: real, loanAmount: real)

  /** Splits the sale price into the down payment (a fraction of it) and the loan. */
  function Finance(salePrice: real, downFraction: real): (f: Financing)
    ensures f.downPayment + f.loanAmount == salePrice
    ensures salePrice >= 0.0 && 0.0 <= downFraction <= 1.0 ==>
              0.0 <= f.downPayment <= salePrice && 0.0 <= f.loanAmount <= salePrice
    ensures f.downPayment == 0.0 <==> salePrice == 0.0 || downFraction == 0.0
  {
    var down := salePrice * downFraction;
    assert salePrice >= 0.0 && 0.0 <= downFraction <= 1.0 ==> 0.0 <= down <= salePrice by {
      if salePrice >= 0.0 && 0.0 <= downFraction <= 1.0 {
        FractionBounds(salePrice, downFraction);
      }
    }
    assert down == 0.0 ==> salePrice == 0.0 || downFraction == 0.0 by {
      if down == 0.0 {
        MulZero(salePrice, downFraction);
      }
    }
    Financing(down, salePrice - down)
  }

  function MonthlyRate(annualRate: real): real
  {
    annualRate / MonthsPerYear as real
  }

  function Months(loanYears: nat): nat
  {
    loanYears * MonthsPerYear
  }

  /** (1 + r)^m: what one unit owed grows to over m months at monthly rate r. */
  function Growth(r: real, m: nat): real
  {
    Pow(1.0 + r, m)
  }

  /** The payment formula divides by (1 + r)^m - 1; it is defined exactly when that is not zero. */
  predicate PaymentDefined(r: real, m: nat)
  {
    Growth(r, m) != 1.0
  }

  /* A defined payment needs a nonzero rate and at least one month; a positive rate and
     at least one month make the denominator positive. */
  lemma PaymentDomain(r: real, m: nat)
    ensures PaymentDefined(r, m) ==> r != 0.0 && m >= 1
    ensures r > 0.0 && m >= 1 ==> Growth(r, m) - 1.0 > 0.0
  {
    PowOfOne(m);
    if r > 0.0 && m >= 1 {
      PowAboveOne(1.0 + r, m);
    }
  }

  /** The level monthly payment of a loan of `principal` over m months at monthly rate r. */
  function MonthlyPayment(principal: real, r: real, m: nat): (p: real)
    requires PaymentDefined(r, m)
    ensures p * (Growth(r, m) - 1.0) == principal * r * Growth(r, m)
  {
    principal * (r * Growth(r, m)) / (Growth(r, m) - 1.0)
  }

  function AnnualDebtService(monthlyPayment: real): real
  {
    monthlyPayment * MonthsPerYear as real
  }

  /** State of the paydown walk: the open balance and the principal retired so far. */
  datatype Paydown = Paydown(balance: real, principalPaid: real)

  /** One month: interest on the balance, the rest of the payment retires principal. */
  function PayMonth(s: Paydown, r: real, p: real): Paydown
  {
    var interest := s.balance * r;
    var principal := p - interest;
    Paydown(s.balance - principal, s.principalPaid + principal)
  }

  /** The walk after k months, starting from the whole loan and nothing paid. */
  function Walk(loan: real, r: real, p: real, k: nat): Paydown
  {
    if k == 0 then Paydown(loan, 0.0) else PayMonth(Walk(loan, r, p, k - 1), r, p)
  }

  /** Interest charged over the first k months of the walk. */
  function InterestPaid(loan: real, r: real, p: real, k: nat): real
  {
    if k == 0 then 0.0 else InterestPaid(loan, r, p, k - 1) + Walk(loan, r, p, k - 1).balance * r
  }

  /* Principal paid is always exactly what the balance has come down by. */
  lemma {:induction false} WalkConservesPrincipal(loan: real, r: real, p: real, k: nat)
    ensures Walk(loan, r, p, k).principalPaid == loan - Walk(loan, r, p, k).balance
  {
    if k > 0 {
      WalkConservesPrincipal(loan, r, p, k - 1);
    }
  }

  /* Every payment splits into interest and principal: over k months the two add up to k payments. */
  lemma {:induction false} WalkSplitsPayments(loan: real, r: real, p: real, k: nat)
    ensures Walk(loan, r, p, k).principalPaid + InterestPaid(loan, r, p, k) == k as real * p
  {
    if k > 0 {
      WalkSplitsPayments(loan, r, p, k - 1);
    }
  }

  /* Closed form of the balance, scaled by r so that it also holds at r == 0:
     r * B_k == r * L * (1+r)^k - p * ((1+r)^k - 1). */
  lemma {:induction false} WalkClosedForm(loan: real, r: real, p: real, k: nat)
    ensures r * Walk(loan, r, p, k).balance == r * loan * Growth(r, k) - p * (Growth(r, k) - 1.0)
  {
    if k > 0 {
      WalkClosedForm(loan, r, p, k - 1);
      ClosedFormStep(loan, r, p, Walk(loan, r, p, k - 1).balance, Growth(r, k - 1),
                     Walk(loan, r, p, k).balance, Growth(r, k));
    }
  }

  /* One month of WalkClosedForm over plain numbers: the balance goes from b to b',
     the growth factor from g to g'. */
  lemma ClosedFormStep(loan: real, r: real, p: real, b: real, g: real, b': real, g': real)
    requires r * b == r * loan * g - p * (g - 1.0)
    requires b' == b - (p - b * r) && g' == (1.0 + r) * g
    ensures r * b' == r * loan * g' - p * (g' - 1.0)
  {
    calc {
      r * b';
      == r * (b * (1.0 + r) - p);
      == (r * b) * (1.0 + r) - r * p;
      == (r * loan * g - p * (g - 1.0)) * (1.0 + r) - r * p;
      == r * loan * g' - p * (g' - 1.0);
    }
  }

  /* A payment retires the loan in m months if and only if it is the annuity payment. */
  lemma PaymentRetiresLoan(loan: real, r: real, m: nat, p: real)
    requires PaymentDefined(r, m)
    ensures Walk(loan, r, p, m).balance == 0.0 <==> p == MonthlyPayment(loan, r, m)
  {
    var b := Walk(loan, r, p, m).balance;
    WalkClosedForm(loan, r, p, m);
    FinalBalance(loan, r, m, p, b);
    assert b == 0.0 <==> p == MonthlyPayment(loan, r, m);
  }

  /* PaymentRetiresLoan for any final balance b that satisfies the closed form. */
  lemma FinalBalance(loan: real, r: real, m: nat, p: real, b: real)
    requires PaymentDefined(r, m)
    requires r * b == r * loan * Growth(r, m) - p * (Growth(r, m) - 1.0)
    ensures b == 0.0 <==> p == MonthlyPayment(loan, r, m)
  {
    var g := Growth(r, m);
    var q := MonthlyPayment(loan, r, m);
    assert r * b == (q - p) * (g - 1.0) by {
      AnnuityGap(loan, r, g, p, q, b);
    }
    assert r != 0.0 by {
      PaymentDomain(r, m);
    }
    ZeroFactor(r, b, q - p, g - 1.0);
  }

  /* The algebra behind FinalBalance, over plain numbers: g stands for (1+r)^m and q for
     the annuity payment. */
  lemma AnnuityGap(loan: real, r: real, g: real, p: real, q: real, b: real)
    requires q * (g - 1.0) == loan * r * g
    requires r * b == r * loan * g - p * (g - 1.0)
    ensures r * b == (q - p) * (g - 1.0)
  {
  }

  /* With a positive rate, the annuity payment covers at least the first month's interest. */
  lemma PaymentCoversInterest(loan: real, r: real, m: nat)
    requires r > 0.0 && m >= 1 && loan >= 0.0
    ensures PaymentDefined(r, m)
    ensures MonthlyPayment(loan, r, m) >= loan * r
  {
    PaymentDomain(r, m);
    var g := Growth(r, m);
    var q := MonthlyPayment(loan, r, m);
    assert (q - loan * r) * (g - 1.0) == loan * r;
    assert loan * r >= 0.0;
    MulSign(q - loan * r, g - 1.0);
  }

  /* When each payment covers the interest on the original loan, the balance never
     exceeds the loan ... */
  lemma {:induction false} BalanceBelowLoan(loan: real, r: real, p: real, k: nat)
    requires r >= 0.0 && p >= loan * r
    ensures Walk(loan, r, p, k).balance <= loan
  {
    if k > 0 {
      BalanceBelowLoan(loan, r, p, k - 1);
      BalanceDeclines(loan, r, p, k - 1);
    }
  }

  /* ... and never rises from one month to the next. */
  lemma BalanceDeclines(loan: real, r: real, p: real, k: nat)
    requires r >= 0.0 && p >= loan * r && Walk(loan, r, p, k).balance <= loan
    ensures Walk(loan, r, p, k + 1).balance <= Walk(loan, r, p, k).balance
  {
    DeclineStep(loan, r, p, Walk(loan, r, p, k).balance, Walk(loan, r, p, k + 1).balance);
  }

  /* BalanceDeclines over plain numbers: the balance goes from b to b'. */
  lemma DeclineStep(loan: real, r: real, p: real, b: real, b': real)
    requires r >= 0.0 && p >= loan * r && b <= loan
    requires b' == b - (p - b * r)
    ensures b' <= b
  {
    ScaleMonotone(r, b, loan);
    assert b * r == r * b;
  }

  /* Under the same condition, a later balance is never above an earlier one. */
  lemma {:induction false} BalanceAntitone(loan: real, r: real, p: real, j: nat, k: nat)
    requires r >= 0.0 && p >= loan * r && j <= k
    ensures Walk(loan, r, p, k).balance <= Walk(loan, r, p, j).balance
  {
    if j < k {
      BalanceAntitone(loan, r, p, j, k - 1);
      BalanceBelowLoan(loan, r, p, k - 1);
      BalanceDeclines(loan, r, p, k - 1);
    }
  }

  /* For a loan of at least a year at a positive rate, the first year's principal paid
     lies between nothing and the whole loan. */
  lemma YearOnePaydownBounds(loan: real, r: real, m: nat)
    requires r > 0.0 && m >= WalkMonths && loan >= 0.0
    ensures PaymentDefined(r, m)
    ensures 0.0 <= Walk(loan, r, MonthlyPayment(loan, r, m), WalkMonths).principalPaid <= loan
  {
    PaymentCoversInterest(loan, r, m);
    var p := MonthlyPayment(loan, r, m);
    PaymentRetiresLoan(loan, r, m, p);
    BalanceBelowLoan(loan, r, p, WalkMonths);
    BalanceAntitone(loan, r, p, WalkMonths, m);
    WalkConservesPrincipal(loan, r, p, WalkMonths);
  }

  /* First-year principal in closed form: r * principalPaid == (p - r * L) * ((1+r)^12 - 1). */
  lemma YearOneClosedForm(loan: real, r: real, p: real)
    ensures r * Walk(loan, r, p, WalkMonths).principalPaid
            == (p - r * loan) * (Growth(r, WalkMonths) - 1.0)
  {
    WalkClosedForm(loan, r, p, WalkMonths);
    WalkConservesPrincipal(loan, r, p, WalkMonths);
    var g := Growth(r, WalkMonths);
    var b := Walk(loan, r, p, WalkMonths).balance;
    assert r * (loan - b) == r * loan - r * b;
  }

  /* A year's debt service is exactly the first year's principal paid plus its interest. */
  lemma YearOfDebtService(loan: real, r: real, p: real)
    ensures Walk(loan, r, p, WalkMonths).principalPaid + InterestPaid(loan, r, p, WalkMonths)
            == AnnualDebtService(p)
  {
    WalkSplitsPayments(loan, r, p, WalkMonths);
  }

  /** The paydown walk as a loop over n months (the calculator runs it for WalkMonths),
      returning the final balance and the principal paid. */
  method PaydownLoop(loan: real, r: real, p: real, n: nat) returns (balance: real, principalPaid: real)
    ensures Paydown(balance, principalPaid) == Walk(loan, r, p, n)
    ensures principalPaid == loan - balance
    ensures principalPaid + InterestPaid(loan, r, p, n) == n as real * p
  {
    balance := loan;
    principalPaid := 0.0;
    var k: nat := 0;
    while k < n
      invariant k <= n
      invariant Paydown(balance, principalPaid) == Walk(loan, r, p, k)
      invariant principalPaid == loan - balance
    {
      var interest := balance * r;
      var principal := p - interest;
      balance := balance - principal;
      principalPaid := principalPaid + principal;
      k := k + 1;
    }
    WalkSplitsPayments(loan, r, p, n);
  }
}
