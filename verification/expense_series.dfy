/**
 * The monthly expense series: each one-off expense is moved to the next
 * month start (always the next one, even for an expense dated on the 1st)
 * and the sparse list is laid out over the loan's months, with 0 where no
 * expense lands and expenses outside the horizon dropped.
 */
module ExpenseSeries {
  import opened Calendar
  import opened DataModels

  /** Two expenses landing on the same month start are rejected. */
  predicate DistinctMonths(expenses: seq<Expense>)
  {
    forall i, j :: 0 <= i < j < |expenses| ==> MonthNumber(expenses[i].date) != MonthNumber(expenses[j].date)
  }

  /** Month number of the month start an expense is moved to. */
  function LandingMonth(e: Expense): int
  {
    MonthNumber(e.date) + 1
  }

  /** Loan month an expense lands in; outside 0..n-1 it is dropped. */
  function LandingIndex(e: Expense, settlement: Date): int
  {
    LandingMonth(e) - FirstMonth(settlement)
  }

  /** The amount landing at month number m. */
  function ExpenseAt(expenses: seq<Expense>, m: int): real
  {
    if |expenses| == 0 then 0.0
    else if LandingMonth(expenses[0]) == m then expenses[0].value
    else ExpenseAt(expenses[1..], m)
  }

  /**
   * What lands at month m: nothing when no expense is moved there, and with
   * distinct months the one expense that is.
   */
  lemma {:induction false} ExpenseAtLanding(expenses: seq<Expense>, m: int)
    ensures (forall e :: e in expenses ==> LandingMonth(e) != m) ==> ExpenseAt(expenses, m) == 0.0
    ensures DistinctMonths(expenses) ==>
      forall k :: 0 <= k < |expenses| && LandingMonth(expenses[k]) == m ==> ExpenseAt(expenses, m) == expenses[k].value
  {
    if |expenses| > 0 {
      ExpenseAtLanding(expenses[1..], m);
      assert forall e :: e in expenses[1..] ==> e in expenses;
      if DistinctMonths(expenses) {
        assert DistinctMonths(expenses[1..]) by {
          forall i, j | 0 <= i < j < |expenses| - 1
            ensures MonthNumber(expenses[1..][i].date) != MonthNumber(expenses[1..][j].date)
          {
            assert expenses[1..][i] == expenses[i + 1] && expenses[1..][j] == expenses[j + 1];
          }
        }
        forall k | 0 <= k < |expenses| && LandingMonth(expenses[k]) == m
          ensures ExpenseAt(expenses, m) == expenses[k].value
        {
          if k > 0 {
            assert expenses[1..][k - 1] == expenses[k];
          }
        }
      }
    }
  }

  /** The series over the n loan months starting at the first month start on or after settlement. */
  function ExpensesSeries(expenses: seq<Expense>, settlement: Date, n: nat): (s: seq<real>)
    ensures |s| == n
  {
    seq(n, i requires 0 <= i < n => ExpenseAt(expenses, FirstMonth(settlement) + i))
  }

  /**
   * Every expense landing inside the horizon appears at its landing index
   * with its value, and every month where no expense lands holds 0.
   */
  lemma ExpensesSeriesContents(expenses: seq<Expense>, settlement: Date, n: nat)
    requires DistinctMonths(expenses)
    ensures var s := ExpensesSeries(expenses, settlement, n);
      && (forall k :: 0 <= k < |expenses| && 0 <= LandingIndex(expenses[k], settlement) < n ==>
            s[LandingIndex(expenses[k], settlement)] == expenses[k].value)
      && (forall i :: 0 <= i < n && (forall e :: e in expenses ==> LandingIndex(e, settlement) != i) ==> s[i] == 0.0)
  {
    var s := ExpensesSeries(expenses, settlement, n);
    forall k | 0 <= k < |expenses| && 0 <= LandingIndex(expenses[k], settlement) < n
      ensures s[LandingIndex(expenses[k], settlement)] == expenses[k].value
    {
      ExpenseAtLanding(expenses, LandingMonth(expenses[k]));
    }
    forall i | 0 <= i < n && (forall e :: e in expenses ==> LandingIndex(e, settlement) != i)
      ensures s[i] == 0.0
    {
      ExpenseAtLanding(expenses, FirstMonth(settlement) + i);
    }
  }

  /**
   * An expense dated on the settlement day lands in loan month 1 when
   * settlement is on the 1st (month 0 is the settlement month itself) and in
   * loan month 0 otherwise.
   */
  lemma ExpenseOnSettlementDay(settlement: Date, value: real, n: nat)
    requires n >= 2
    ensures var s := ExpensesSeries([Expense(settlement, value)], settlement, n);
      && (IsMonthStart(settlement) ==> s[0] == 0.0 && s[1] == value)
      && (!IsMonthStart(settlement) ==> s[0] == value && s[1] == 0.0)
  {
    var expenses := [Expense(settlement, value)];
    var first := FirstMonth(settlement);
    ExpenseAtLanding(expenses, first);
    ExpenseAtLanding(expenses, first + 1);
    assert ExpensesSeries(expenses, settlement, n)[0] == ExpenseAt(expenses, first);
    assert ExpensesSeries(expenses, settlement, n)[1] == ExpenseAt(expenses, first + 1);
  }
}
