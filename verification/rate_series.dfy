/**
 * The monthly rate series: the offer's annual rate plus the latest forecast
 * change in force at each month start, overridden by the fixed rate during
 * the fixed-rate window, and divided by 12 and by 100.
 *
 * A change is in force from its month only when it is dated on the 1st:
 * changes are resampled to month starts, which keeps a value only where one
 * is dated exactly there, and then forward-filled, so a later change
 * replaces an earlier one instead of adding to it.
 */
module RateSeries {
  import opened Wrappers
  import opened Calendar
  import opened DataModels

  /** Rate changes are keyed by date; two changes on one date are rejected. */
  predicate DistinctDates(changes: seq<RateDelta>)
  {
    forall i, j :: 0 <= i < j < |changes| ==> changes[i].date != changes[j].date
  }

  predicate ValidDates(changes: seq<RateDelta>)
  {
    forall i :: 0 <= i < |changes| ==> ValidDate(changes[i].date)
  }

  /** A change that survives resampling and is in force at month number m. */
  predicate InForce(c: RateDelta, m: int)
  {
    IsMonthStart(c.date) && MonthNumber(c.date) <= m
  }

  /** The change in force at month number m: the latest one dated on a month start no later than m. */
  function LatestChange(changes: seq<RateDelta>, m: int): Option<RateDelta>
  {
    if |changes| == 0 then None
    else
      var rest := LatestChange(changes[1..], m);
      var first := changes[0];
      if InForce(first, m) && (rest.None? || MonthNumber(rest.value.date) < MonthNumber(first.date))
      then Some(first)
      else rest
  }

  /**
   * What `LatestChange` finds: a change in force, at least as late as every
   * other change in force, and nothing exactly when no change is in force.
   */
  lemma {:induction false} LatestChangeIsLatest(changes: seq<RateDelta>, m: int)
    ensures var r := LatestChange(changes, m);
      && (r.Some? ==> r.value in changes && InForce(r.value, m))
      && (r.Some? ==> forall c :: c in changes && InForce(c, m) ==> MonthNumber(c.date) <= MonthNumber(r.value.date))
      && (r.None? <==> forall c :: c in changes ==> !InForce(c, m))
  {
    if |changes| > 0 {
      LatestChangeIsLatest(changes[1..], m);
      assert forall c :: c in changes ==> c == changes[0] || c in changes[1..];
    }
  }

  /** The forward-filled change at month number m, 0 before the first change. */
  function Adjustment(changes: seq<RateDelta>, m: int): real
  {
    match LatestChange(changes, m)
    case None => 0.0
    case Some(c) => c.value
  }

  /**
   * Forward fill, not a running sum: the adjustment at month m is exactly the
   * value of the change in force with no later one before m.
   */
  lemma ForwardFill(changes: seq<RateDelta>, m: int, k: nat)
    requires DistinctDates(changes) && ValidDates(changes)
    requires k < |changes| && InForce(changes[k], m)
    requires forall c :: c in changes && InForce(c, m) ==> MonthNumber(c.date) <= MonthNumber(changes[k].date)
    ensures Adjustment(changes, m) == changes[k].value
  {
    LatestChangeIsLatest(changes, m);
    var latest := LatestChange(changes, m).value;
    var j :| 0 <= j < |changes| && changes[j] == latest;
    SameMonthStart(changes[j].date, changes[k].date);
  }

  /** A month with no change dated on its 1st keeps the previous month's change in force. */
  lemma {:induction false} CarriedForward(changes: seq<RateDelta>, m: int)
    requires forall c :: c in changes ==> !(IsMonthStart(c.date) && MonthNumber(c.date) == m + 1)
    ensures LatestChange(changes, m + 1) == LatestChange(changes, m)
    ensures Adjustment(changes, m + 1) == Adjustment(changes, m)
  {
    if |changes| > 0 {
      assert forall c :: c in changes[1..] ==> c in changes;
      CarriedForward(changes[1..], m);
    }
  }

  /** Without forecast changes every month has the base rate. */
  lemma NoChanges(m: int)
    ensures Adjustment([], m) == 0.0
  {
  }

  /**
   * The annual rate of loan month i (0 is the first month start on or after
   * settlement): the fixed rate inside the window of 12 months per year of
   * fixed rate, otherwise the base rate plus the adjustment in force.
   */
  function AnnualRate(rate: real, changes: seq<RateDelta>, withFixedRate: bool, fixedRate: Option<real>,
                      fixedRateDuration: Option<int>, settlement: Date, i: nat): real
    requires withFixedRate ==> fixedRate.Some? && fixedRateDuration.Some?
  {
    if withFixedRate && i < 12 * fixedRateDuration.value then fixedRate.value
    else rate + Adjustment(changes, FirstMonth(settlement) + i)
  }

  /** The month start of month number m. */
  function MonthStartDate(m: int): (d: Date)
    ensures ValidDate(d) && IsMonthStart(d) && MonthNumber(d) == m
  {
    Date(m / 12, m % 12 + 1, 1)
  }

  /** A month start lies before date b when its month is earlier, or is b's month and b is not the 1st. */
  lemma MonthStartBefore(a: Date, b: Date)
    requires ValidDate(a) && ValidDate(b) && IsMonthStart(a)
    ensures Before(a, b) <==> MonthNumber(a) < MonthNumber(b) || (MonthNumber(a) == MonthNumber(b) && b.day > 1)
  {
  }

  /**
   * The fixed-rate window: the loan's month starts up to the day before the
   * settlement anniversary `duration` years on are exactly the first
   * 12 * duration months, none when the duration is 0 or negative.
   */
  lemma FixedRateWindow(settlement: Date, duration: int, i: nat)
    requires ValidDate(settlement)
    ensures var anniversary := Date(settlement.year + duration, settlement.month, settlement.day);
      Before(MonthStartDate(FirstMonth(settlement) + i), anniversary) <==> i < 12 * duration
  {
    var anniversary := Date(settlement.year + duration, settlement.month, settlement.day);
    MonthStartBefore(MonthStartDate(FirstMonth(settlement) + i), anniversary);
  }

  /**
   * The series as the source builds it: a per-month series at the base rate,
   * the forward-filled changes added to it when there are any, the fixed
   * rate written over the window, then the division by 12 and by 100.
   */
  method MonthlyRateSeries(n: nat, rate: real, changes: seq<RateDelta>, withFixedRate: bool,
                           fixedRate: Option<real>, fixedRateDuration: Option<int>, settlement: Date)
    returns (monthlyRate: seq<real>)
    requires withFixedRate ==> fixedRate.Some? && fixedRateDuration.Some?
    requires DistinctDates(changes)
    ensures |monthlyRate| == n
    ensures forall i :: 0 <= i < n ==>
      monthlyRate[i] == AnnualRate(rate, changes, withFixedRate, fixedRate, fixedRateDuration, settlement, i) / 12.0 / 100.0
  {
    var first := FirstMonth(settlement);
    var ratePct := new real[n](_ => rate);
    if |changes| > 0 {
      for i := 0 to n
        invariant forall j :: 0 <= j < i ==> ratePct[j] == rate + Adjustment(changes, first + j)
        invariant forall j :: i <= j < n ==> ratePct[j] == rate
      {
        ratePct[i] := ratePct[i] + Adjustment(changes, first + i);
      }
    }
    if withFixedRate {
      // the window is a prefix of the series: 12 months per year, clipped to the horizon
      var windowMonths := 12 * fixedRateDuration.value;
      var windowEnd := if windowMonths < 0 then 0 else if windowMonths > n then n else windowMonths;
      for i := 0 to windowEnd
        invariant forall j :: 0 <= j < i ==> ratePct[j] == fixedRate.value
        invariant forall j :: i <= j < n ==> ratePct[j] == rate + Adjustment(changes, first + j)
      {
        ratePct[i] := fixedRate.value;
      }
    }
    monthlyRate := seq(n, i requires 0 <= i < n reads ratePct => ratePct[i] / 12.0 / 100.0);
  }

  /** Historical changes come grouped by date, in increasing date order. */
  predicate StrictlyIncreasingDates(past: seq<RateDelta>)
  {
    forall i, j :: 0 <= i < j < |past| ==> Before(past[i].date, past[j].date)
  }

  /** The running total of the first j + 1 historical changes. */
  function Cumulative(past: seq<RateDelta>, j: nat): real
    requires j < |past|
  {
    if j == 0 then past[0].value else Cumulative(past, j - 1) + past[j].value
  }

  /** Position of the first historical change dated on or after the settlement date. */
  function FirstOnOrAfter(past: seq<RateDelta>, settlement: Date): (k: Option<nat>)
    ensures k.Some? ==> k.value < |past| && !Before(past[k.value].date, settlement)
    ensures k.Some? ==> forall j :: 0 <= j < k.value ==> Before(past[j].date, settlement)
    ensures k.None? <==> forall j :: 0 <= j < |past| ==> Before(past[j].date, settlement)
  {
    if |past| == 0 then None
    else if !Before(past[0].date, settlement) then Some(0)
    else match FirstOnOrAfter(past[1..], settlement)
      case None => None
      case Some(k) => Some(k + 1)
  }

  /**
   * Re-baselining the history on the settlement date: each change becomes
   * the running total up to it, less the running total at the first change
   * on or after settlement. With no change on or after settlement there is
   * nothing to subtract and the computation fails.
   */
  function Rebaseline(past: seq<RateDelta>, settlement: Date): (r: Option<seq<RateDelta>>)
    requires StrictlyIncreasingDates(past)
    ensures r.None? <==> FirstOnOrAfter(past, settlement).None?
    ensures r.Some? ==> |r.value| == |past| && forall j :: 0 <= j < |past| ==> r.value[j].date == past[j].date
    ensures r.Some? ==> r.value[FirstOnOrAfter(past, settlement).value].value == 0.0
    ensures r.Some? ==> forall j :: 0 < j < |past| ==> r.value[j].value - r.value[j - 1].value == past[j].value
  {
    match FirstOnOrAfter(past, settlement)
    case None => None
    case Some(k) =>
      Some(seq(|past|, j requires 0 <= j < |past| => RateDelta(past[j].date, Cumulative(past, j) - Cumulative(past, k))))
  }

  /**
   * The changes the series is built from: for a settlement date before
   * today, the re-baselined history followed by the forecast; otherwise the
   * forecast alone. The history is passed in rather than fetched.
   */
  function ChangesInEffect(forecast: seq<RateDelta>, settlement: Date, today: Date, past: seq<RateDelta>)
    : (r: Option<seq<RateDelta>>)
    requires StrictlyIncreasingDates(past)
    ensures !Before(settlement, today) ==> r == Some(forecast)
    ensures Before(settlement, today) ==> (r.None? <==> FirstOnOrAfter(past, settlement).None?)
    ensures Before(settlement, today) && r.Some? ==>
      |r.value| == |past| + |forecast| && r.value[|past|..] == forecast
    ensures Before(settlement, today) && r.Some? ==>
      r.value[..|past|] == Rebaseline(past, settlement).value
  {
    if Before(settlement, today) then
      match Rebaseline(past, settlement)
      case None => None
      case Some(rebased) => Some(rebased + forecast)
    else Some(forecast)
  }
}
