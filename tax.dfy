/**
 * The six-bracket progressive withholding tax of payrollService.calculateWithholdingTax:
 * annualise the period's gross (x 12), apply the annual table, divide by 12. The code's
 * comments attribute the table to the Philippine TRAIN Law.
 */
module Tax {

  const MonthsPerYear: real := 12.0

  /** The annual tax, as the if / else-if chain states it: nothing up to the exempt 250,000, something above it. */
  function AnnualTax(annualGross: real): (tax: real)
    ensures tax >= 0.0
    ensures tax == 0.0 <==> annualGross <= 250000.0
  {
    if annualGross <= 250000.0 then 0.0
    else if annualGross <= 400000.0 then (annualGross - 250000.0) * 0.15
    else if annualGross <= 800000.0 then 22500.0 + (annualGross - 400000.0) * 0.20
    else if annualGross <= 2000000.0 then 102500.0 + (annualGross - 800000.0) * 0.25
    else if annualGross <= 8000000.0 then 402500.0 + (annualGross - 2000000.0) * 0.30
    else 2202500.0 + (annualGross - 8000000.0) * 0.35
  }

  /** calculateWithholdingTax: the monthly share of the annual tax on twelve times the gross. */
  function WithholdingTax(monthlyGross: real): (tax: real)
    ensures tax >= 0.0
    ensures monthlyGross * MonthsPerYear <= 250000.0 ==> tax == 0.0
    ensures monthlyGross >= 0.0 ==> tax <= 0.35 * monthlyGross
  {
    AnnualTaxBounds(monthlyGross * MonthsPerYear);
    AnnualTax(monthlyGross * MonthsPerYear) / MonthsPerYear
  }

  lemma AnnualTaxBounds(a: real)
    ensures 0.0 <= AnnualTax(a)
    ensures a >= 0.0 ==> AnnualTax(a) <= 0.35 * a
  {
  }

  // ---------------------------------------------------------------- the table as data

  /** A bracket: income above `lower` is taxed at `rate`, up to the next bracket's lower bound. */
  datatype Bracket = Bracket(lower: real, rate: real)

  const Brackets: seq<Bracket> := [
    Bracket(250000.0, 0.15),
    Bracket(400000.0, 0.20),
    Bracket(800000.0, 0.25),
    Bracket(2000000.0, 0.30),
    Bracket(8000000.0, 0.35)
  ]

  /** The part of `income` that lies between lo and hi. */
  function Slice(income: real, lo: real, hi: real): real
    requires lo <= hi
  {
    if income <= lo then 0.0 else if income >= hi then hi - lo else income - lo
  }

  /**
   * The marginal-rate reading of a bracket table: each bracket taxes the slice of income
   * between its lower bound and the next bracket's, the last one everything above it.
   */
  function MarginalTax(income: real, table: seq<Bracket>): real
    requires forall i :: 0 <= i < |table| - 1 ==> table[i].lower <= table[i + 1].lower
    decreases |table|
  {
    if table == [] then 0.0
    else if |table| == 1 then
      table[0].rate * (if income <= table[0].lower then 0.0 else income - table[0].lower)
    else
      table[0].rate * Slice(income, table[0].lower, table[1].lower) + MarginalTax(income, table[1..])
  }

  /**
   * The chain's base amounts (22500, 102500, 402500, 2202500) are exactly the tax accumulated
   * by the lower brackets: the chain is the marginal-rate table.
   */
  lemma {:induction false} AnnualTaxIsMarginal(a: real)
    ensures AnnualTax(a) == MarginalTax(a, Brackets)
  {
    var t4 := MarginalTax(a, Brackets[4..]);
    assert t4 == 0.35 * (if a <= 8000000.0 then 0.0 else a - 8000000.0);
    var t3 := MarginalTax(a, Brackets[3..]);
    assert Brackets[3..][1..] == Brackets[4..];
    assert t3 == 0.30 * Slice(a, 2000000.0, 8000000.0) + t4;
    var t2 := MarginalTax(a, Brackets[2..]);
    assert Brackets[2..][1..] == Brackets[3..];
    assert t2 == 0.25 * Slice(a, 800000.0, 2000000.0) + t3;
    var t1 := MarginalTax(a, Brackets[1..]);
    assert Brackets[1..][1..] == Brackets[2..];
    assert t1 == 0.20 * Slice(a, 400000.0, 800000.0) + t2;
    assert MarginalTax(a, Brackets) == 0.15 * Slice(a, 250000.0, 400000.0) + t1;
  }

  /** The tax at each bracket boundary; the monthly figure is the annual one over twelve. */
  lemma BracketBoundaries()
    ensures AnnualTax(250000.0) == 0.0
    ensures AnnualTax(400000.0) == 22500.0
    ensures AnnualTax(800000.0) == 102500.0
    ensures AnnualTax(2000000.0) == 402500.0
    ensures AnnualTax(8000000.0) == 2202500.0
    ensures WithholdingTax(400000.0 / 12.0) == 22500.0 / 12.0
  {
  }

  /**
   * More income never means less tax, and each extra unit is taxed at most at the top rate;
   * so the tax is continuous across the bracket boundaries.
   */
  lemma AnnualTaxMonotone(a: real, b: real)
    requires a <= b
    ensures AnnualTax(a) <= AnnualTax(b)
    ensures AnnualTax(b) - AnnualTax(a) <= 0.35 * (b - a)
  {
  }

  lemma WithholdingTaxMonotone(g: real, h: real)
    requires g <= h
    ensures WithholdingTax(g) <= WithholdingTax(h)
  {
    AnnualTaxMonotone(g * MonthsPerYear, h * MonthsPerYear);
  }
}
