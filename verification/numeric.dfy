/** Real-number helpers shared by the cashflow engine: power, min and max. */
module Numeric {

  /** x raised to a natural power, as Python's `x ** k` on floats. */
  function Pow(x: real, k: nat): real
  {
    if k == 0 then 1.0 else x * Pow(x, k - 1)
  }

  /** Python's `min(a, b)`. */
  function Min(a: real, b: real): (m: real)
    ensures m <= a && m <= b
    ensures m == a || m == b
  {
    if b < a then b else a
  }

  /** Python's `max(a, b)`. */
  function Max(a: real, b: real): (m: real)
    ensures m >= a && m >= b
    ensures m == a || m == b
  {
    if b > a then b else a
  }

  lemma {:induction false} PowAboveOne(x: real, k: nat)
    requires x > 1.0 && k >= 1
    ensures Pow(x, k) >= x
  {
    if k > 1 {
      PowAboveOne(x, k - 1);
      assert x * Pow(x, k - 1) >= x * x;
      assert x * x > x;
    }
  }

  lemma {:induction false} PowBelowOne(x: real, k: nat)
    requires 0.0 < x < 1.0
    ensures 0.0 < Pow(x, k) <= 1.0
    ensures k >= 1 ==> Pow(x, k) < 1.0
  {
    if k > 0 {
      PowBelowOne(x, k - 1);
      ProductBelow(x, Pow(x, k - 1));
    }
  }

  lemma ProductBelow(a: real, b: real)
    requires 0.0 < a < 1.0 && 0.0 < b <= 1.0
    ensures 0.0 < a * b < 1.0
  {
    assert a * b <= a * 1.0;
  }

  /** The annuity denominator `(1 + r) ** k - 1` never vanishes for a rate above -100% other than 0. */
  lemma PowAwayFromOne(r: real, k: nat)
    requires r > -1.0 && r != 0.0 && k >= 1
    ensures Pow(1.0 + r, k) != 1.0
    ensures r > 0.0 ==> Pow(1.0 + r, k) >= 1.0 + r
    ensures r < 0.0 ==> 0.0 < Pow(1.0 + r, k) < 1.0
  {
    if r > 0.0 {
      PowAboveOne(1.0 + r, k);
    } else {
      PowBelowOne(1.0 + r, k);
    }
  }

  /** The quotient dividend / divisor, a named value for proofs to refer to. */
  function Quotient(dividend: real, divisor: real): real
    requires divisor != 0.0
  {
    dividend / divisor
  }

  /** A quotient is the one number that times the divisor gives the dividend. */
  lemma DivisionCharacterization(dividend: real, divisor: real, x: real)
    requires divisor != 0.0
    ensures x == Quotient(dividend, divisor) <==> x * divisor == dividend
  {
  }

  /** k * x == (k - 1) * x + x. */
  lemma ScaleStep(k: nat, x: real)
    requires k >= 1
    ensures (k as real) * x == ((k - 1) as real) * x + x
  {
  }
}
