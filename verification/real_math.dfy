/**
 Exact arithmetic shared by the calculator: natural powers (Python's `**` with an
 integer exponent) and sums of sequences (Python's `sum`), with the facts about
 them that the financial lemmas rely on.
 */
module RealMath {

  /** x raised to the natural power n; x^0 == 1 even for x == 0, as in Python. */
  function Pow(x: real, n: nat): real
  {
    if n == 0 then 1.0 else x * Pow(x, n - 1)
  }

  /** Sum of a sequence, accumulated from the left as Python's `sum` does. */
  function Sum(s: seq<real>): real
  {
    if |s| == 0 then 0.0 else Sum(s[..|s| - 1]) + s[|s| - 1]
  }

  /* Any power of one is one. */
  lemma {:induction false} PowOfOne(n: nat)
    ensures Pow(1.0, n) == 1.0
  {
    if n > 0 {
      PowOfOne(n - 1);
    }
  }

  /* Powers of a base of at least one are at least one, and grow with the exponent. */
  lemma {:induction false} PowStep(x: real, n: nat)
    requires x >= 1.0
    ensures 1.0 <= Pow(x, n) <= Pow(x, n + 1)
  {
    if n > 0 {
      PowStep(x, n - 1);
    }
    var y := Pow(x, n);
    assert y >= 1.0;
    assert x * y - y == (x - 1.0) * y;
    assert (x - 1.0) * y >= 0.0;
  }

  /* A base above one raised to a positive power is above one. */
  lemma {:induction false} PowAboveOne(x: real, n: nat)
    requires x > 1.0 && n >= 1
    ensures Pow(x, n) > 1.0
  {
    PowStep(x, n - 1);
    var y := Pow(x, n - 1);
    assert x * y - y == (x - 1.0) * y;
    assert (x - 1.0) * y > 0.0;
    assert Pow(x, n) == x * y;
  }

  /* For a base of at least one, Pow is monotone in the exponent. */
  lemma {:induction false} PowMonotone(x: real, i: nat, j: nat)
    requires x >= 1.0 && i <= j
    ensures Pow(x, i) <= Pow(x, j)
  {
    if i < j {
      PowMonotone(x, i, j - 1);
      PowStep(x, j - 1);
    }
  }

  /* Summing a concatenation sums the parts. */
  lemma {:induction false} SumAppend(a: seq<real>, b: seq<real>)
    ensures Sum(a + b) == Sum(a) + Sum(b)
  {
    if |b| > 0 {
      var b' := b[..|b| - 1];
      assert (a + b)[..|a + b| - 1] == a + b';
      SumAppend(a, b');
    } else {
      assert a + b == a;
    }
  }

  /* A sequence whose every element is x sums to its length times x. */
  lemma {:induction false} SumConstant(s: seq<real>, x: real)
    requires forall i :: 0 <= i < |s| ==> s[i] == x
    ensures Sum(s) == |s| as real * x
  {
    if |s| > 0 {
      SumConstant(s[..|s| - 1], x);
    }
  }

  /* A sequence of non-negative elements has a non-negative sum. */
  lemma {:induction false} SumNonNegative(s: seq<real>)
    requires forall i :: 0 <= i < |s| ==> s[i] >= 0.0
    ensures Sum(s) >= 0.0
  {
    if |s| > 0 {
      SumNonNegative(s[..|s| - 1]);
    }
  }

  /* A product is zero only when a factor is. */
  lemma MulZero(a: real, b: real)
    requires a * b == 0.0
    ensures a == 0.0 || b == 0.0
  {
  }

  /* Multiplying by a positive number keeps the sign. */
  lemma MulSign(a: real, b: real)
    requires b > 0.0
    ensures a * b >= 0.0 <==> a >= 0.0
  {
    if a >= 0.0 {
      ScaleMonotone(b, 0.0, a);
    }
  }

  /* Scaling by a non-negative factor preserves order. */
  lemma ScaleMonotone(c: real, a: real, b: real)
    requires c >= 0.0 && a <= b
    ensures c * a <= c * b
  {
    assert c * b - c * a == c * (b - a);
  }

  /* A product of positive numbers is positive. */
  lemma MulPositive(a: real, b: real)
    requires a > 0.0 && b > 0.0
    ensures a * b > 0.0
  {
  }

  /* A fraction of a non-negative amount lies between nothing and the amount. */
  lemma FractionBounds(x: real, f: real)
    requires x >= 0.0 && 0.0 <= f <= 1.0
    ensures 0.0 <= x * f <= x
  {
    ScaleMonotone(x, 0.0, f);
    ScaleMonotone(x, f, 1.0);
    assert x * 1.0 == x;
  }

  /* When a * b == c * d with a and d nonzero, b and c are zero together. */
  lemma ZeroFactor(a: real, b: real, c: real, d: real)
    requires a * b == c * d && a != 0.0 && d != 0.0
    ensures b == 0.0 <==> c == 0.0
  {
    if b == 0.0 {
      MulZero(c, d);
    }
    if c == 0.0 {
      MulZero(a, b);
    }
  }
}
