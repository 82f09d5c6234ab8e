/**
 * The month-by-month loan recurrence. Each month re-derives the annuity that
 * would repay the loan over the months left, caps it at the principal still
 * owed, charges interest on the principal net of the offset balance, charges
 * the fee while a payment is made, and moves the offset balance by income,
 * costs, repayment and one-off expenses.
 *
 * `CarryBefore` and `MonthRow` specify the recurrence month by month;
 * `CalculateRepayments` fills preallocated arrays in one loop and is proved
 * to produce exactly those rows.
 */
module Repayments {
  import opened Numeric

  /** Everything the recurrence reads; month i uses monthlyRate[i] and expenses[i]. */
  datatype Inputs = Inputs(
    monthlyRate: seq<real>,
    startOffset: real,
    principal: real,
    monthlyFee: real,
    monthlyIncome: real,
    monthlyCosts: real,
    expenses: seq<real>,
    withOffsetAccount: bool)

  /**
   * A monthly rate the model computes with: not zero (a zero rate divides
   * zero by zero, which raises) and above -100%, so that 1 + r > 0.
   */
  predicate RateInDomain(r: real)
  {
    r > -1.0 && r != 0.0
  }

  predicate WellFormed(inp: Inputs)
  {
    && |inp.expenses| == |inp.monthlyRate|
    && forall i :: 0 <= i < |inp.monthlyRate| ==> RateInDomain(inp.monthlyRate[i])
  }

  /**
   * What one month hands to the next: the offset balance, the principal paid,
   * and the principal that would have been paid without the offset account
   * (the "shadow" on which the annuity is computed).
   */
  datatype Carry = Carry(offset: real, principalPaid: real, principalPaidNoOffset: real)

  /** One month of the engine's output. */
  datatype Row = Row(
    principalPaid: real,
    offset: real,
    principalPayment: real,
    interest: real,
    fee: real,
    repayment: real)

  /** The level monthly payment that repays `balance` at monthly rate `r` over `periods` months. */
  function Annuity(balance: real, r: real, periods: nat): real
    requires RateInDomain(r) && periods >= 1
  {
    PowAwayFromOne(r, periods);
    Quotient(balance * r * Pow(1.0 + r, periods), Pow(1.0 + r, periods) - 1.0)
  }

  /** This month's loan payment: the annuity on the shadow balance over the months left, capped at the principal owed. */
  function LoanPayment(inp: Inputs, c: Carry, i: nat): real
    requires WellFormed(inp) && i < |inp.monthlyRate|
  {
    Min(Annuity(inp.principal - c.principalPaidNoOffset, inp.monthlyRate[i], |inp.monthlyRate| - i),
        inp.principal - c.principalPaid)
  }

  /** A month's interest at rate r on an amount owed, never on a negative amount. */
  function InterestOn(owed: real, r: real): real
  {
    Max(0.0, owed) * r
  }

  /** Interest on the principal owed net of the offset balance. */
  function Interest(inp: Inputs, c: Carry, i: nat): real
    requires i < |inp.monthlyRate|
  {
    InterestOn(inp.principal - c.offset - c.principalPaid, inp.monthlyRate[i])
  }

  /** Interest the shadow balance would bear. */
  function InterestNoOffset(inp: Inputs, c: Carry, i: nat): real
    requires i < |inp.monthlyRate|
  {
    InterestOn(inp.principal - c.principalPaidNoOffset, inp.monthlyRate[i])
  }

  /** The fee is charged only in a month with a positive loan payment. */
  function Fee(inp: Inputs, c: Carry, i: nat): real
    requires WellFormed(inp) && i < |inp.monthlyRate|
  {
    if LoanPayment(inp, c, i) > 0.0 then inp.monthlyFee else 0.0
  }

  /** The carry after month i. Without an offset account the offset is never moved from 0. */
  function Next(inp: Inputs, c: Carry, i: nat): Carry
    requires WellFormed(inp) && i < |inp.monthlyRate|
  {
    var loanPayment := LoanPayment(inp, c, i);
    Carry(
      if inp.withOffsetAccount
      then c.offset + inp.monthlyIncome - loanPayment - inp.monthlyCosts - Fee(inp, c, i) - inp.expenses[i]
      else 0.0,
      c.principalPaid + loanPayment - Interest(inp, c, i),
      c.principalPaidNoOffset + loanPayment - InterestNoOffset(inp, c, i))
  }

  /** The carry entering month i (i == |monthlyRate| is the state after the last month). */
  function CarryBefore(inp: Inputs, i: nat): Carry
    requires WellFormed(inp) && i <= |inp.monthlyRate|
    decreases i
  {
    if i == 0 then Carry(inp.startOffset, 0.0, 0.0)
    else Next(inp, CarryBefore(inp, i - 1), i - 1)
  }

  /** The output row of the month i entered with carry c. */
  function RowOf(inp: Inputs, c: Carry, i: nat): Row
    requires WellFormed(inp) && i < |inp.monthlyRate|
  {
    var loanPayment := LoanPayment(inp, c, i);
    var interest := Interest(inp, c, i);
    var fee := Fee(inp, c, i);
    var after := Next(inp, c, i);
    Row(after.principalPaid, after.offset, loanPayment - interest, interest, fee, loanPayment + fee)
  }

  /** The output row of month i. */
  function MonthRow(inp: Inputs, i: nat): Row
    requires WellFormed(inp) && i < |inp.monthlyRate|
  {
    RowOf(inp, CarryBefore(inp, i), i)
  }

  /**
   * The body of the kernel's loop for month i, entered with the previous
   * month's offset, principal paid and shadow principal paid: it yields the
   * month's output row and the new shadow principal paid.
   */
  method Month(inp: Inputs, offset: real, principalPaid: real, principalPaidNoOffset: real, i: nat)
    returns (row: Row, newPrincipalPaidNoOffset: real)
    requires WellFormed(inp) && i < |inp.monthlyRate|
    ensures var c := Carry(offset, principalPaid, principalPaidNoOffset);
      row == RowOf(inp, c, i) && newPrincipalPaidNoOffset == Next(inp, c, i).principalPaidNoOffset
  {
    var n := |inp.monthlyRate|;
    var amortisationPayment := Annuity(inp.principal - principalPaidNoOffset, inp.monthlyRate[i], n - i);
    var loanPayment := Min(amortisationPayment, inp.principal - principalPaid);
    var interest := InterestOn(inp.principal - offset - principalPaid, inp.monthlyRate[i]);
    var interestNoOffset := InterestOn(inp.principal - principalPaidNoOffset, inp.monthlyRate[i]);
    var fee := if loanPayment > 0.0 then inp.monthlyFee else 0.0;
    var newOffset := if inp.withOffsetAccount
      then offset + inp.monthlyIncome - loanPayment - inp.monthlyCosts - fee - inp.expenses[i]
      else 0.0;
    row := Row(principalPaid + loanPayment - interest, newOffset, loanPayment - interest, interest, fee, loanPayment + fee);
    newPrincipalPaidNoOffset := principalPaidNoOffset + loanPayment - interestNoOffset;
  }

  /**
   * The numerical kernel: zero-filled arrays are filled month by month, each
   * month reading the previous month's offset, principal paid and shadow
   * principal paid back out of the arrays and running `Month` on them. The
   * six output columns are kept as one array of rows, the shadow column as
   * an array of its own.
   */
  method CalculateRepayments(
    monthlyRate: seq<real>,
    startOffset: real,
    principal: real,
    monthlyFee: real,
    monthlyIncome: real,
    monthlyCosts: real,
    expenses: seq<real>,
    withOffsetAccount: bool)
    returns (principalPaidCol: seq<real>, offsetCol: seq<real>, principalPaymentCol: seq<real>,
             interestCol: seq<real>, feeCol: seq<real>, repaymentCol: seq<real>)
    requires WellFormed(Inputs(monthlyRate, startOffset, principal, monthlyFee, monthlyIncome, monthlyCosts, expenses, withOffsetAccount))
    ensures |principalPaidCol| == |offsetCol| == |principalPaymentCol| == |monthlyRate|
    ensures |interestCol| == |feeCol| == |repaymentCol| == |monthlyRate|
    ensures forall i :: 0 <= i < |monthlyRate| ==>
      var row := MonthRow(Inputs(monthlyRate, startOffset, principal, monthlyFee, monthlyIncome, monthlyCosts, expenses, withOffsetAccount), i);
      && principalPaidCol[i] == row.principalPaid
      && offsetCol[i] == row.offset
      && principalPaymentCol[i] == row.principalPayment
      && interestCol[i] == row.interest
      && feeCol[i] == row.fee
      && repaymentCol[i] == row.repayment
  {
    var inp := Inputs(monthlyRate, startOffset, principal, monthlyFee, monthlyIncome, monthlyCosts, expenses, withOffsetAccount);
    var n := |monthlyRate|;
    var rows := new Row[n](_ => Row(0.0, 0.0, 0.0, 0.0, 0.0, 0.0));
    var principalPaidNoOffsetArr := new real[n](_ => 0.0);

    for i := 0 to n
      invariant forall j :: 0 <= j < i ==>
        rows[j] == MonthRow(inp, j) && principalPaidNoOffsetArr[j] == CarryBefore(inp, j + 1).principalPaidNoOffset
    {
      var offset, principalPaid, principalPaidNoOffset;
      if i == 0 {
        offset, principalPaid, principalPaidNoOffset := startOffset, 0.0, 0.0;
      } else {
        offset, principalPaid, principalPaidNoOffset := rows[i - 1].offset, rows[i - 1].principalPaid, principalPaidNoOffsetArr[i - 1];
      }
      assert Carry(offset, principalPaid, principalPaidNoOffset) == CarryBefore(inp, i);
      var row, newPrincipalPaidNoOffset := Month(inp, offset, principalPaid, principalPaidNoOffset, i);
      assert row == MonthRow(inp, i);
      rows[i] := row;
      principalPaidNoOffsetArr[i] := newPrincipalPaidNoOffset;
    }
    principalPaidCol := seq(n, j requires 0 <= j < n reads rows => rows[j].principalPaid);
    offsetCol := seq(n, j requires 0 <= j < n reads rows => rows[j].offset);
    principalPaymentCol := seq(n, j requires 0 <= j < n reads rows => rows[j].principalPayment);
    interestCol := seq(n, j requires 0 <= j < n reads rows => rows[j].interest);
    feeCol := seq(n, j requires 0 <= j < n reads rows => rows[j].fee);
    repaymentCol := seq(n, j requires 0 <= j < n reads rows => rows[j].repayment);
  }
}
