/**
 * The comparison table: four figures reduced from each offer's timeseries
 * rows. Month 120 is the first month of year 11, so "at year 10" reads the
 * 121st row. Where pandas would raise (a row past the end) or produce NaN or
 * infinity (a mean of nothing, a division by zero) the figure is None.
 */
module ComparisonSummary {
  import opened Wrappers
  import opened Numeric
  import opened Repayments
  import opened LoanTimeseries
  import RepaymentProperties

  /** The row read for the "at year 10" figures. */
  const YearTenRow: nat := 10 * 12

  /** What a month costs: principal payment, interest and fee. */
  function Outlay(row: LoanRow): real
  {
    row.principalPayment + row.interest + row.fee
  }

  function InterestAndFees(row: LoanRow): real
  {
    row.interest + row.fee
  }

  /** The number of months with a positive outlay. */
  function PayingMonths(rows: seq<LoanRow>): nat
  {
    if |rows| == 0 then 0
    else PayingMonths(rows[..|rows| - 1]) + (if Outlay(rows[|rows| - 1]) > 0.0 then 1 else 0)
  }

  /** The total of the positive monthly outlays. */
  function PaidTotal(rows: seq<LoanRow>): real
  {
    if |rows| == 0 then 0.0
    else PaidTotal(rows[..|rows| - 1]) + (if Outlay(rows[|rows| - 1]) > 0.0 then Outlay(rows[|rows| - 1]) else 0.0)
  }

  /** The paid total is positive exactly when some month has a positive outlay. */
  lemma {:induction false} PaidTotalPositive(rows: seq<LoanRow>)
    ensures PaidTotal(rows) >= 0.0
    ensures PaidTotal(rows) > 0.0 <==> PayingMonths(rows) > 0
  {
    if |rows| > 0 {
      PaidTotalPositive(rows[..|rows| - 1]);
    }
  }

  /** "Monthly Repayment": the mean outlay over the months with a positive outlay. */
  function MonthlyRepayment(rows: seq<LoanRow>): (mean: Option<real>)
    ensures mean.None? <==> PayingMonths(rows) == 0
    ensures mean.Some? ==> mean.value * (PayingMonths(rows) as real) == PaidTotal(rows)
    ensures mean.Some? ==> mean.value > 0.0
  {
    PaidTotalPositive(rows);
    if PayingMonths(rows) == 0 then None
    else
      DivisionCharacterization(PaidTotal(rows), PayingMonths(rows) as real, Quotient(PaidTotal(rows), PayingMonths(rows) as real));
      Some(Quotient(PaidTotal(rows), PayingMonths(rows) as real))
  }

  /** When every paying month costs the same x, the paid total is x once per paying month. */
  lemma {:induction false} LevelOutlayTotal(rows: seq<LoanRow>, x: real)
    requires x > 0.0
    requires forall i :: 0 <= i < |rows| ==> Outlay(rows[i]) == x || Outlay(rows[i]) <= 0.0
    ensures PaidTotal(rows) == (PayingMonths(rows) as real) * x
  {
    if |rows| > 0 {
      LevelOutlayTotal(rows[..|rows| - 1], x);
      if Outlay(rows[|rows| - 1]) > 0.0 {
        ScaleStep(PayingMonths(rows), x);
      }
    }
  }

  /** When every paying month costs the same x, x is the monthly repayment. */
  lemma LevelOutlayIsMean(rows: seq<LoanRow>, x: real)
    requires x > 0.0
    requires forall i :: 0 <= i < |rows| ==> Outlay(rows[i]) == x || Outlay(rows[i]) <= 0.0
    requires PayingMonths(rows) > 0
    ensures MonthlyRepayment(rows) == Some(x)
  {
    LevelOutlayTotal(rows, x);
    DivisionCharacterization(PaidTotal(rows), PayingMonths(rows) as real, x);
  }

  /** The running sum of interest and fees, as `cumsum`: one entry per row. */
  function CumulativeInterestFees(rows: seq<LoanRow>): (c: seq<real>)
    ensures |c| == |rows|
    ensures |rows| > 0 ==> c[0] == InterestAndFees(rows[0])
    ensures forall i :: 0 < i < |rows| ==> c[i] == c[i - 1] + InterestAndFees(rows[i])
  {
    if |rows| == 0 then []
    else
      var before := CumulativeInterestFees(rows[..|rows| - 1]);
      assert forall i :: 0 <= i < |rows| - 1 ==> rows[..|rows| - 1][i] == rows[i];
      before + [(if |rows| == 1 then 0.0 else before[|rows| - 2]) + InterestAndFees(rows[|rows| - 1])]
  }

  /** Interest and fees over the first k rows. */
  function InterestFeesOver(rows: seq<LoanRow>, k: nat): real
    requires k <= |rows|
  {
    if k == 0 then 0.0 else InterestFeesOver(rows, k - 1) + InterestAndFees(rows[k - 1])
  }

  /** Entry i of the running sum is the interest and fees of rows 0 to i inclusive. */
  lemma {:induction false} CumulativeIsPrefixSum(rows: seq<LoanRow>, i: nat)
    requires i < |rows|
    ensures CumulativeInterestFees(rows)[i] == InterestFeesOver(rows, i + 1)
  {
    if i > 0 {
      CumulativeIsPrefixSum(rows, i - 1);
    }
  }

  /** "Interest & Fees paid @ year 10": the running sum at row 120; a shorter series has no such row. */
  function InterestFeesAtYearTen(rows: seq<LoanRow>): (r: Option<real>)
    ensures r.Some? <==> |rows| > YearTenRow
  {
    if |rows| > YearTenRow then Some(CumulativeInterestFees(rows)[YearTenRow]) else None
  }

  /** "Interest & Fees paid @ loan end": the last entry of the running sum; an empty series has none. */
  function TotalInterestFees(rows: seq<LoanRow>): (r: Option<real>)
    ensures r.Some? <==> |rows| > 0
  {
    if |rows| > 0 then Some(CumulativeInterestFees(rows)[|rows| - 1]) else None
  }

  /** The two interest figures are sums of rows 0 to 120 and of all rows. */
  lemma InterestFiguresAreSums(rows: seq<LoanRow>)
    ensures |rows| > YearTenRow ==> InterestFeesAtYearTen(rows) == Some(InterestFeesOver(rows, YearTenRow + 1))
    ensures |rows| > 0 ==> TotalInterestFees(rows) == Some(InterestFeesOver(rows, |rows|))
  {
    if |rows| > YearTenRow {
      CumulativeIsPrefixSum(rows, YearTenRow);
    }
    if |rows| > 0 {
      CumulativeIsPrefixSum(rows, |rows| - 1);
    }
  }

  /** With no negative interest or fee, the sum over more rows is no smaller. */
  lemma {:induction false} InterestFeesOverMonotone(rows: seq<LoanRow>, j: nat, k: nat)
    requires j <= k <= |rows|
    requires forall i :: 0 <= i < |rows| ==> InterestAndFees(rows[i]) >= 0.0
    ensures InterestFeesOver(rows, j) <= InterestFeesOver(rows, k)
  {
    if j < k {
      InterestFeesOverMonotone(rows, j, k - 1);
    }
  }

  /**
   * With no negative interest or fee, the interest and fees paid by year 10
   * are at most those paid by the end of the loan, and equal to them for a
   * series of exactly 121 months.
   */
  lemma YearTenAtMostTotal(rows: seq<LoanRow>)
    requires |rows| > YearTenRow
    requires forall i :: 0 <= i < |rows| ==> InterestAndFees(rows[i]) >= 0.0
    ensures InterestFeesAtYearTen(rows).value <= TotalInterestFees(rows).value
    ensures |rows| == YearTenRow + 1 ==> InterestFeesAtYearTen(rows) == TotalInterestFees(rows)
  {
    InterestFiguresAreSums(rows);
    InterestFeesOverMonotone(rows, YearTenRow + 1, |rows|);
  }

  /** What is owned at year 10 and at the end: principal paid plus the deposit of the first month. */
  function OwnedAtYearTen(rows: seq<LoanRow>): real
    requires |rows| > YearTenRow
  {
    rows[YearTenRow].principalPaid + rows[0].deposit
  }

  function OwnedAtEnd(rows: seq<LoanRow>): real
    requires |rows| > 0
  {
    rows[|rows| - 1].principalPaid + rows[0].deposit
  }

  /** "Percent Owned @ year 10": owned at year 10 as a percentage of owned at the end. */
  function PercentOwnedAtYearTen(rows: seq<LoanRow>): (pct: Option<real>)
    ensures pct.Some? <==> |rows| > YearTenRow && OwnedAtEnd(rows) != 0.0
    ensures pct.Some? ==> pct.value * OwnedAtEnd(rows) == OwnedAtYearTen(rows) * 100.0
  {
    if |rows| > YearTenRow && OwnedAtEnd(rows) != 0.0
    then Some(OwnedAtYearTen(rows) / OwnedAtEnd(rows) * 100.0)
    else None
  }

  /**
   * When the owned amount at year 10 lies between 0 and the owned amount at
   * the end, the percentage lies between 0 and 100; for a series of exactly
   * 121 months it is 100.
   */
  lemma PercentOwnedBounds(rows: seq<LoanRow>)
    requires |rows| > YearTenRow && OwnedAtEnd(rows) > 0.0
    ensures 0.0 <= OwnedAtYearTen(rows) <= OwnedAtEnd(rows) ==> 0.0 <= PercentOwnedAtYearTen(rows).value <= 100.0
    ensures |rows| == YearTenRow + 1 ==> PercentOwnedAtYearTen(rows) == Some(100.0)
  {
    var pct := PercentOwnedAtYearTen(rows).value;
    if 0.0 <= OwnedAtYearTen(rows) <= OwnedAtEnd(rows) {
      assert pct * OwnedAtEnd(rows) <= 100.0 * OwnedAtEnd(rows);
    }
    if |rows| == YearTenRow + 1 {
      assert OwnedAtYearTen(rows) == OwnedAtEnd(rows);
      assert OwnedAtYearTen(rows) / OwnedAtEnd(rows) == 1.0;
    }
  }

  /** On the engine's rows a month's outlay is its repayment, the column the engine reports. */
  lemma OutlayIsRepayment(inp: Inputs, deposit: real, stampDuty: real, i: nat)
    requires WellFormed(inp) && i < |inp.monthlyRate|
    ensures Outlay(Frame(inp, deposit, stampDuty)[i]) == Frame(inp, deposit, stampDuty)[i].repayment
  {
    RepaymentProperties.RowIdentities(inp, i);
  }
}
