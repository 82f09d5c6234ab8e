/**
 * What the month-by-month recurrence guarantees: how the columns of a row
 * relate, running sums, the offset balance in closed form, the no-offset
 * special case, the bound on principal paid, the payment staying level while
 * the cap does not bind, and the interest the capped final payment leaves
 * unpaid.
 */
module RepaymentProperties {
  import opened Numeric
  import opened Repayments

  /** Sum of the principal payments of months 0..k-1. */
  function PrincipalPaymentsBefore(inp: Inputs, k: nat): real
    requires WellFormed(inp) && k <= |inp.monthlyRate|
  {
    if k == 0 then 0.0 else PrincipalPaymentsBefore(inp, k - 1) + MonthRow(inp, k - 1).principalPayment
  }

  /** Sum of the repayments (loan payment plus fee) of months 0..k-1. */
  function RepaymentsBefore(inp: Inputs, k: nat): real
    requires WellFormed(inp) && k <= |inp.monthlyRate|
  {
    if k == 0 then 0.0 else RepaymentsBefore(inp, k - 1) + MonthRow(inp, k - 1).repayment
  }

  /** Sum of the first k entries of a series. */
  function SumBefore(s: seq<real>, k: nat): real
    requires k <= |s|
  {
    if k == 0 then 0.0 else SumBefore(s, k - 1) + s[k - 1]
  }

  /** All monthly rates strictly positive, as a positive annual rate gives. */
  predicate PositiveRates(inp: Inputs)
  {
    forall i :: 0 <= i < |inp.monthlyRate| ==> inp.monthlyRate[i] > 0.0
  }

  /** The loan as the engine runs it without an offset account: offset never moved from 0. */
  predicate WithoutOffset(inp: Inputs)
  {
    !inp.withOffsetAccount && inp.startOffset == 0.0
  }

  /**
   * The columns of month i: the loan payment splits into principal and
   * interest, the repayment adds the fee, the fee is charged exactly when the
   * loan payment is positive, the payment never exceeds the principal still
   * owed nor the annuity, and the principal paid and offset are the carry
   * handed to month i + 1.
   */
  lemma RowIdentities(inp: Inputs, i: nat)
    requires WellFormed(inp) && i < |inp.monthlyRate|
    ensures var c, row, payment := CarryBefore(inp, i), MonthRow(inp, i), LoanPayment(inp, CarryBefore(inp, i), i);
      && row.principalPayment + row.interest == payment
      && row.repayment == payment + row.fee
      && row.fee == (if payment > 0.0 then inp.monthlyFee else 0.0)
      && payment <= inp.principal - c.principalPaid
      && payment <= Annuity(inp.principal - c.principalPaidNoOffset, inp.monthlyRate[i], |inp.monthlyRate| - i)
      && row.interest == InterestOn(inp.principal - c.offset - c.principalPaid, inp.monthlyRate[i])
      && row.principalPaid == CarryBefore(inp, i + 1).principalPaid
      && row.offset == CarryBefore(inp, i + 1).offset
      && row.principalPaid == c.principalPaid + row.principalPayment
  {
  }

  /** Principal paid after k months is the running sum of the principal payments. */
  lemma {:induction false} PrincipalPaidIsRunningSum(inp: Inputs, k: nat)
    requires WellFormed(inp) && k <= |inp.monthlyRate|
    ensures CarryBefore(inp, k).principalPaid == PrincipalPaymentsBefore(inp, k)
  {
    if k > 0 {
      PrincipalPaidIsRunningSum(inp, k - 1);
      RowIdentities(inp, k - 1);
    }
  }

  /** k months' worth of a monthly amount, added up month by month. */
  function Repeated(x: real, k: nat): (total: real)
  {
    if k == 0 then 0.0 else Repeated(x, k - 1) + x
  }

  /** Adding up k months of the same amount gives k times that amount. */
  lemma {:induction false} RepeatedIsProduct(x: real, k: nat)
    ensures Repeated(x, k) == (k as real) * x
  {
    if k > 0 {
      RepeatedIsProduct(x, k - 1);
      ScaleStep(k, x);
    }
  }

  /** One month of the offset account: income in; costs, repayment and the month's expense out. */
  lemma OffsetStep(inp: Inputs, i: nat)
    requires WellFormed(inp) && inp.withOffsetAccount && i < |inp.monthlyRate|
    ensures CarryBefore(inp, i + 1).offset
      == CarryBefore(inp, i).offset + inp.monthlyIncome - inp.monthlyCosts - MonthRow(inp, i).repayment - inp.expenses[i]
  {
  }

  /**
   * With an offset account the balance after k months is the starting
   * offset plus k months of income net of costs (k times that amount, by
   * `RepeatedIsProduct`), less every repayment and every expense so far.
   */
  lemma {:induction false} OffsetBalance(inp: Inputs, k: nat)
    requires WellFormed(inp) && inp.withOffsetAccount && k <= |inp.monthlyRate|
    ensures CarryBefore(inp, k).offset
      == inp.startOffset + Repeated(inp.monthlyIncome - inp.monthlyCosts, k)
         - RepaymentsBefore(inp, k) - SumBefore(inp.expenses, k)
  {
    if k > 0 {
      OffsetBalance(inp, k - 1);
      OffsetStep(inp, k - 1);
    }
  }

  /**
   * Without an offset account the offset stays 0 and the principal paid is
   * the shadow principal paid in every month.
   */
  lemma {:induction false} NoOffsetCarry(inp: Inputs, k: nat)
    requires WellFormed(inp) && WithoutOffset(inp) && k <= |inp.monthlyRate|
    ensures CarryBefore(inp, k).offset == 0.0
    ensures CarryBefore(inp, k).principalPaid == CarryBefore(inp, k).principalPaidNoOffset
  {
    if k > 0 {
      NoOffsetCarry(inp, k - 1);
    }
  }

  /**
   * Without an offset account every row has a zero offset, interest equal to
   * the interest the shadow balance bears, and principal paid equal to the
   * shadow principal paid.
   */
  lemma NoOffsetRows(inp: Inputs, i: nat)
    requires WellFormed(inp) && WithoutOffset(inp) && i < |inp.monthlyRate|
    ensures MonthRow(inp, i).offset == 0.0
    ensures MonthRow(inp, i).interest == InterestNoOffset(inp, CarryBefore(inp, i), i)
    ensures MonthRow(inp, i).principalPaid == CarryBefore(inp, i + 1).principalPaidNoOffset
  {
    NoOffsetCarry(inp, i);
    NoOffsetCarry(inp, i + 1);
  }

  /** Interest at a positive rate is never negative. */
  lemma InterestNonNegative(owed: real, r: real)
    requires r > 0.0
    ensures InterestOn(owed, r) >= 0.0
  {
  }

  /** Interest at a positive rate on a positive amount is positive. */
  lemma InterestPositive(owed: real, r: real)
    requires r > 0.0 && owed > 0.0
    ensures InterestOn(owed, r) > 0.0
  {
  }

  /**
   * With positive rates the principal paid after any month never exceeds
   * the principal: the payment is capped at what is owed and the interest
   * taken out of it is never negative.
   */
  lemma PrincipalPaidAtMostPrincipal(inp: Inputs, i: nat)
    requires WellFormed(inp) && PositiveRates(inp) && i < |inp.monthlyRate|
    ensures MonthRow(inp, i).principalPaid <= inp.principal
  {
    var c := CarryBefore(inp, i);
    InterestNonNegative(inp.principal - c.offset - c.principalPaid, inp.monthlyRate[i]);
  }

  /**
   * Without an offset account and with positive rates, a positive principal
   * is never fully repaid: each month's interest on the positive balance is
   * taken out of a payment capped at that balance.
   */
  lemma {:induction false} NeverFullyRepaid(inp: Inputs, k: nat)
    requires WellFormed(inp) && WithoutOffset(inp) && PositiveRates(inp)
    requires inp.principal > 0.0 && k <= |inp.monthlyRate|
    ensures CarryBefore(inp, k).principalPaid < inp.principal
  {
    if k > 0 {
      NeverFullyRepaid(inp, k - 1);
      NoOffsetCarry(inp, k - 1);
      var c := CarryBefore(inp, k - 1);
      InterestPositive(inp.principal - c.offset - c.principalPaid, inp.monthlyRate[k - 1]);
    }
  }

  /** The annuity is the payment x with x * ((1 + r)^k - 1) == balance * r * (1 + r)^k. */
  lemma AnnuityEquation(balance: real, r: real, periods: nat, x: real)
    requires RateInDomain(r) && periods >= 1
    ensures x == Annuity(balance, r, periods)
        <==> x * (Pow(1.0 + r, periods) - 1.0) == balance * r * Pow(1.0 + r, periods)
  {
    PowAwayFromOne(r, periods);
    var p := Pow(1.0 + r, periods);
    DivisionCharacterization(balance * r * p, p - 1.0, x);
  }

  /** Over a single remaining month the annuity is the balance plus one month's interest. */
  lemma AnnuityOneMonth(balance: real, r: real)
    requires RateInDomain(r)
    ensures Annuity(balance, r, 1) == balance * (1.0 + r)
    ensures balance >= 0.0 && r > 0.0 ==> Annuity(balance, r, 1) >= balance
  {
    assert Pow(1.0 + r, 1) == 1.0 + r;
    AnnuityEquation(balance, r, 1, balance * (1.0 + r));
    if balance >= 0.0 && r > 0.0 {
      assert balance * r >= 0.0;
    }
  }

  /**
   * Without an offset account and with positive rates, the last month's
   * payment is the whole balance still owed, yet that month's interest is
   * taken out of it, so exactly that interest, which is positive, is left
   * unpaid when the loan ends.
   */
  lemma LastMonthLeavesInterest(inp: Inputs)
    requires WellFormed(inp) && WithoutOffset(inp) && PositiveRates(inp)
    requires inp.principal > 0.0 && |inp.monthlyRate| >= 1
    ensures var n := |inp.monthlyRate|;
      var row := MonthRow(inp, n - 1);
      && row.principalPayment + row.interest == inp.principal - CarryBefore(inp, n - 1).principalPaid
      && inp.principal - CarryBefore(inp, n).principalPaid == row.interest
      && row.interest > 0.0
  {
    var n := |inp.monthlyRate|;
    var c := CarryBefore(inp, n - 1);
    NeverFullyRepaid(inp, n - 1);
    NoOffsetCarry(inp, n - 1);
    AnnuityOneMonth(inp.principal - c.principalPaidNoOffset, inp.monthlyRate[n - 1]);
    InterestPositive(inp.principal - c.offset - c.principalPaid, inp.monthlyRate[n - 1]);
  }

  /**
   * Re-amortising keeps the payment level: after one month in which the
   * annuity is paid and the balance bears interest at the same rate, the
   * annuity over the remaining months is unchanged.
   */
  lemma AnnuityLevel(balance: real, r: real, periods: nat)
    requires RateInDomain(r) && periods >= 2
    ensures Annuity(balance * (1.0 + r) - Annuity(balance, r, periods), r, periods - 1) == Annuity(balance, r, periods)
  {
    var q := 1.0 + r;
    var whole, rest := Pow(q, periods), Pow(q, periods - 1);
    assert whole == q * rest;
    var a := Annuity(balance, r, periods);
    AnnuityEquation(balance, r, periods, a);
    assert a * (whole - 1.0) == balance * r * whole;
    var next := balance * q - a;
    calc {
      next * r * rest;
      balance * r * (q * rest) - a * r * rest;
      balance * r * whole - a * r * rest;
      a * (whole - 1.0) - a * r * rest;
      { assert whole == rest + r * rest; }
      a * (rest - 1.0);
    }
    AnnuityEquation(next, r, periods - 1, a);
    assert next == balance * (1.0 + r) - Annuity(balance, r, periods);
  }

  /**
   * The annuity step in the engine's terms: a non-negative balance that pays
   * the annuity, of which the interest at the same rate is interest, leaves a
   * balance whose annuity over one month fewer is the same payment.
   */
  lemma ReAmortise(balance: real, r: real, periods: nat, interest: real, next: real)
    requires RateInDomain(r) && periods >= 2 && balance >= 0.0
    requires interest == InterestOn(balance, r)
    requires next == balance - (Annuity(balance, r, periods) - interest)
    ensures Annuity(next, r, periods - 1) == Annuity(balance, r, periods)
  {
    assert next == balance * (1.0 + r) - Annuity(balance, r, periods);
    AnnuityLevel(balance, r, periods);
  }

  /**
   * Why the annuity is computed on the shadow balance: while the cap does not
   * bind, the shadow balance moves exactly as an amortising loan does, so the
   * next month's payment at the same rate equals this month's, whatever the
   * offset account does to the actual interest.
   */
  lemma LevelPayment(inp: Inputs, i: nat)
    requires WellFormed(inp) && i + 1 < |inp.monthlyRate|
    requires inp.monthlyRate[i + 1] == inp.monthlyRate[i]
    requires inp.principal - CarryBefore(inp, i).principalPaidNoOffset >= 0.0
    requires var c := CarryBefore(inp, i);
      Annuity(inp.principal - c.principalPaidNoOffset, inp.monthlyRate[i], |inp.monthlyRate| - i)
        <= inp.principal - c.principalPaid
    ensures var n, c, c' := |inp.monthlyRate|, CarryBefore(inp, i), CarryBefore(inp, i + 1);
      Annuity(inp.principal - c'.principalPaidNoOffset, inp.monthlyRate[i + 1], n - (i + 1))
        == Annuity(inp.principal - c.principalPaidNoOffset, inp.monthlyRate[i], n - i)
  {
    var c := CarryBefore(inp, i);
    ReAmortise(inp.principal - c.principalPaidNoOffset, inp.monthlyRate[i], |inp.monthlyRate| - i,
      InterestNoOffset(inp, c, i), inp.principal - CarryBefore(inp, i + 1).principalPaidNoOffset);
  }
}
