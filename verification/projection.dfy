/**
 The ten-year rent growth table: for each year y in 1..10 the total monthly rent
 grown at a constant yearly rate for y - 1 years, and twelve times that as the
 annual rent.
 */
module Projection {
  import opened RealMath

  const ProjectionYears: nat := 10

  datatype ProjectionRow = ProjectionRow(year: nat, monthlyRent: real, annualRent: real)

  /** Rows for years 1..ProjectionYears from this year's total monthly rent. */
  function RentProjection(monthlyTotal: real, growth: real): (rows: seq<ProjectionRow>)
    ensures |rows| == ProjectionYears
    ensures forall i :: 0 <= i < |rows| ==>
              rows[i].year == i + 1 && rows[i].annualRent == 12.0 * rows[i].monthlyRent
    ensures rows[0].monthlyRent == monthlyTotal
  {
    seq(ProjectionYears, (i: nat) =>
      var monthly := monthlyTotal * Pow(1.0 + growth, i);
      ProjectionRow(i + 1, monthly, monthly * 12.0))
  }

  /* Each year's rent is the previous year's grown by the rate. */
  lemma ProjectionGrowsByRate(monthlyTotal: real, growth: real, i: nat)
    requires 1 <= i < ProjectionYears
    ensures RentProjection(monthlyTotal, growth)[i].monthlyRent
            == RentProjection(monthlyTotal, growth)[i - 1].monthlyRent * (1.0 + growth)
  {
    var x := Pow(1.0 + growth, i - 1);
    assert Pow(1.0 + growth, i) == (1.0 + growth) * x;
    assert monthlyTotal * ((1.0 + growth) * x) == (monthlyTotal * x) * (1.0 + growth);
  }

  /** How the rows of a rent table relate to the rent total and the growth rate. */
  predicate TableHolds(monthlyTotal: real, growth: real, rows: seq<ProjectionRow>)
  {
    && |rows| == ProjectionYears
    && rows[0].monthlyRent == monthlyTotal
    && (forall i :: 0 <= i < |rows| ==>
          rows[i].year == i + 1 && rows[i].annualRent == 12.0 * rows[i].monthlyRent)
    && (forall i :: 1 <= i < |rows| ==>
          rows[i].monthlyRent == rows[i - 1].monthlyRent * (1.0 + growth))
  }

  /* The table the calculator builds: years 1..10 from the rent total, each year's rent
     the previous year's grown by the rate. */
  lemma RentProjectionHolds(monthlyTotal: real, growth: real)
    ensures TableHolds(monthlyTotal, growth, RentProjection(monthlyTotal, growth))
  {
    forall i | 1 <= i < ProjectionYears
      ensures RentProjection(monthlyTotal, growth)[i].monthlyRent
              == RentProjection(monthlyTotal, growth)[i - 1].monthlyRent * (1.0 + growth)
    {
      ProjectionGrowsByRate(monthlyTotal, growth, i);
    }
  }

  /* With non-negative rents and growth, no year's rent is below an earlier year's. */
  lemma ProjectionNonDecreasing(monthlyTotal: real, growth: real)
    requires monthlyTotal >= 0.0 && growth >= 0.0
    ensures forall i, j :: 0 <= i <= j < ProjectionYears ==>
              RentProjection(monthlyTotal, growth)[i].monthlyRent
              <= RentProjection(monthlyTotal, growth)[j].monthlyRent
  {
    forall i, j | 0 <= i <= j < ProjectionYears
      ensures RentProjection(monthlyTotal, growth)[i].monthlyRent
              <= RentProjection(monthlyTotal, growth)[j].monthlyRent
    {
      RowsOrdered(monthlyTotal, growth, i, j);
    }
  }

  /* One pair of years of ProjectionNonDecreasing. */
  lemma RowsOrdered(monthlyTotal: real, growth: real, i: nat, j: nat)
    requires monthlyTotal >= 0.0 && growth >= 0.0 && i <= j < ProjectionYears
    ensures RentProjection(monthlyTotal, growth)[i].monthlyRent
            <= RentProjection(monthlyTotal, growth)[j].monthlyRent
  {
    PowMonotone(1.0 + growth, i, j);
    ScaleMonotone(monthlyTotal, Pow(1.0 + growth, i), Pow(1.0 + growth, j));
  }

  /* A $3,600 roll growing 3 % a year reaches about $4,697.18 a month in year ten. */
  lemma TenthYearExample()
    ensures 4697.18 <= RentProjection(3600.0, 0.03)[9].monthlyRent <= 4697.19
  {
    var x := 1.03;
    assert Pow(x, 9) == x * x * x * x * x * x * x * x * x;
  }
}
