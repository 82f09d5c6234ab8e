/**
 * Assembling one offer's monthly timeseries: principal, starting offset and
 * monthly fee are derived from the project and the offer, the rate and
 * expense series are built over the loan's months, the recurrence is run,
 * and the one-time deposit and stamp duty are written into the first month.
 * The feasibility flag says whether the starting capital covers deposit and
 * stamp duty.
 */
module LoanTimeseries {
  import opened Wrappers
  import opened Calendar
  import opened DataModels
  import opened Repayments
  import opened RateSeries
  import opened ExpenseSeries
  import RepaymentProperties

  /** One month of the timeseries: the six engine columns and the two one-time costs. */
  datatype LoanRow = LoanRow(
    principalPaid: real,
    offset: real,
    principalPayment: real,
    interest: real,
    fee: real,
    repayment: real,
    deposit: real,
    stampDuty: real)

  datatype Timeseries = Timeseries(rows: seq<LoanRow>, feasible: bool)

  /** The amount borrowed. */
  function Principal(p: Project, o: Offer): real
  {
    p.propertyValue * o.borrowedShare / 100.0
  }

  /** The part of the price not borrowed. */
  function Deposit(p: Project, o: Offer): real
  {
    p.propertyValue * (100.0 - o.borrowedShare) / 100.0
  }

  function StampDuty(p: Project): real
  {
    p.propertyValue * p.stampDutyRate / 100.0
  }

  /** Cash needed at settlement, computed in one expression as the source does. */
  function UpfrontCost(p: Project, o: Offer): real
  {
    p.propertyValue * (100.0 - o.borrowedShare + p.stampDutyRate) / 100.0
  }

  /** What is left in the offset account after settlement; 0 without an offset account. */
  function StartOffset(p: Project, o: Offer): real
  {
    if o.withOffsetAccount then p.startCapital - UpfrontCost(p, o) else 0.0
  }

  function MonthlyFee(o: Offer): real
  {
    o.yearlyFees / 12.0
  }

  predicate Feasible(p: Project, o: Offer)
  {
    p.startCapital >= UpfrontCost(p, o)
  }

  /** The upfront cost is the deposit plus the stamp duty. */
  lemma UpfrontCostSplits(p: Project, o: Offer)
    ensures UpfrontCost(p, o) == Deposit(p, o) + StampDuty(p)
  {
    assert p.propertyValue * (100.0 - o.borrowedShare + p.stampDutyRate)
      == p.propertyValue * (100.0 - o.borrowedShare) + p.propertyValue * p.stampDutyRate;
  }

  /** An offer is feasible exactly when the starting capital covers deposit and stamp duty. */
  lemma FeasibleIffCapitalCovers(p: Project, o: Offer)
    ensures Feasible(p, o) <==> p.startCapital >= Deposit(p, o) + StampDuty(p)
  {
    UpfrontCostSplits(p, o);
  }

  /** More starting capital never makes a feasible offer infeasible. */
  lemma FeasibleMonotone(p: Project, o: Offer, moreCapital: real)
    requires Feasible(p, o) && moreCapital >= p.startCapital
    ensures Feasible(p.(startCapital := moreCapital), o)
  {
    var q := p.(startCapital := moreCapital);
    assert q.propertyValue == p.propertyValue && q.stampDutyRate == p.stampDutyRate;
    assert UpfrontCost(q, o) == UpfrontCost(p, o);
  }

  /**
   * With an offset account the starting offset is the capital left after
   * deposit and stamp duty, negative exactly when the offer is infeasible.
   */
  lemma StartOffsetIsShortfall(p: Project, o: Offer)
    requires o.withOffsetAccount
    ensures StartOffset(p, o) == p.startCapital - Deposit(p, o) - StampDuty(p)
    ensures StartOffset(p, o) >= 0.0 <==> Feasible(p, o)
  {
    UpfrontCostSplits(p, o);
  }

  /** The engine's inputs for a project and an offer over given rate and expense series. */
  function EngineInputs(p: Project, o: Offer, monthlyRate: seq<real>, expenses: seq<real>): Inputs
  {
    Inputs(monthlyRate, StartOffset(p, o), Principal(p, o), MonthlyFee(o), p.monthlyIncome, p.monthlyCosts,
           expenses, o.withOffsetAccount)
  }

  /**
   * Without an offset account the engine starts and stays at a zero offset,
   * so every month's interest is the shadow balance's interest.
   */
  lemma NoOffsetAccountRows(p: Project, o: Offer, monthlyRate: seq<real>, expenses: seq<real>, i: nat)
    requires !o.withOffsetAccount
    requires WellFormed(EngineInputs(p, o, monthlyRate, expenses)) && i < |monthlyRate|
    ensures var inp := EngineInputs(p, o, monthlyRate, expenses);
      && MonthRow(inp, i).offset == 0.0
      && MonthRow(inp, i).interest == InterestNoOffset(inp, CarryBefore(inp, i), i)
      && MonthRow(inp, i).principalPaid == CarryBefore(inp, i + 1).principalPaidNoOffset
  {
    RepaymentProperties.NoOffsetRows(EngineInputs(p, o, monthlyRate, expenses), i);
  }

  /** The monthly rates of the n loan months. */
  function MonthlyRates(o: Offer, changes: seq<RateDelta>, settlement: Date, n: nat): (rates: seq<real>)
    requires ValidOffer(o)
    ensures |rates| == n
  {
    seq(n, i requires 0 <= i < n =>
      AnnualRate(o.rate, changes, o.withFixedRate, o.fixedRate, o.fixedRateDuration, settlement, i) / 12.0 / 100.0)
  }

  /**
   * When the source produces a timeseries: the history re-baselines, dates
   * are not duplicated, the horizon is not empty and every monthly rate is
   * one the annuity formula is defined for.
   */
  predicate Computable(p: Project, o: Offer, forecast: seq<RateDelta>, expenses: seq<Expense>, n: nat,
                       today: Date, past: seq<RateDelta>)
    requires ValidOffer(o) && StrictlyIncreasingDates(past)
  {
    var changes := ChangesInEffect(forecast, p.settlementDate, today, past);
    && changes.Some?
    && DistinctDates(changes.value)
    && DistinctMonths(expenses)
    && n > 0
    && forall i :: 0 <= i < n ==> RateInDomain(MonthlyRates(o, changes.value, p.settlementDate, n)[i])
  }

  /** The timeseries rows: the engine's rows, with deposit and stamp duty in the first month and 0 after. */
  function Frame(inp: Inputs, deposit: real, stampDuty: real): (rows: seq<LoanRow>)
    requires WellFormed(inp)
    ensures |rows| == |inp.monthlyRate|
  {
    seq(|inp.monthlyRate|, i requires 0 <= i < |inp.monthlyRate| =>
      var row := MonthRow(inp, i);
      LoanRow(row.principalPaid, row.offset, row.principalPayment, row.interest, row.fee, row.repayment,
              if i == 0 then deposit else 0.0, if i == 0 then stampDuty else 0.0))
  }

  /**
   * Running the recurrence and laying its columns out as a frame whose
   * one-time columns start at 0, then writing deposit and stamp duty into
   * the first month's cells.
   */
  method BuildFrame(inp: Inputs, deposit: real, stampDuty: real) returns (rows: seq<LoanRow>)
    requires WellFormed(inp) && |inp.monthlyRate| > 0
    ensures rows == Frame(inp, deposit, stampDuty)
  {
    var n := |inp.monthlyRate|;
    var principalPaid, offset, principalPayment, interest, fee, repayment :=
      CalculateRepayments(inp.monthlyRate, inp.startOffset, inp.principal, inp.monthlyFee, inp.monthlyIncome,
                          inp.monthlyCosts, inp.expenses, inp.withOffsetAccount);
    var data := new LoanRow[n](i requires 0 <= i < n =>
      LoanRow(principalPaid[i], offset[i], principalPayment[i], interest[i], fee[i], repayment[i], 0.0, 0.0));
    data[0] := data[0].(deposit := deposit);
    data[0] := data[0].(stampDuty := stampDuty);
    rows := data[..];
  }

  /** Deposit and stamp duty are paid in the first month and in no other. */
  lemma OneTimeCostsInFirstMonth(inp: Inputs, deposit: real, stampDuty: real, i: nat)
    requires WellFormed(inp) && i < |inp.monthlyRate|
    ensures var rows := Frame(inp, deposit, stampDuty);
      && (i == 0 ==> rows[i].deposit == deposit && rows[i].stampDuty == stampDuty)
      && (i > 0 ==> rows[i].deposit == 0.0 && rows[i].stampDuty == 0.0)
  {
  }

  /** A project built with the default stamp duty rate pays no stamp duty in any month. */
  lemma DefaultProjectPaysNoStampDuty(propertyValue: real, startCapital: real, monthlyIncome: real, monthlyCosts: real,
                                      today: Date, inp: Inputs, deposit: real, i: nat)
    requires WellFormed(inp) && i < |inp.monthlyRate|
    ensures var p := DefaultProject(propertyValue, startCapital, monthlyIncome, monthlyCosts, today);
      Frame(inp, deposit, StampDuty(p))[i].stampDuty == 0.0
  {
  }

  /**
   * The timeseries of one offer over the n loan months. Duplicate dates, a
   * history with nothing on or after settlement, an empty horizon and a
   * zero monthly rate (0 / 0 in the annuity) make the source raise; these
   * give None. A monthly rate at or below -100% also gives None: the source
   * computes a frame there, but the model's proofs need 1 + r > 0.
   */
  method ComputeLoanTimeseries(p: Project, o: Offer, forecast: seq<RateDelta>, expenses: seq<Expense>, n: nat,
                               today: Date, past: seq<RateDelta>)
    returns (result: Option<Timeseries>)
    requires ValidOffer(o) && StrictlyIncreasingDates(past)
    ensures result.Some? <==> Computable(p, o, forecast, expenses, n, today, past)
    ensures result.Some? ==>
      var changes := ChangesInEffect(forecast, p.settlementDate, today, past).value;
      var inp := EngineInputs(p, o, MonthlyRates(o, changes, p.settlementDate, n), ExpensesSeries(expenses, p.settlementDate, n));
      result.value == Timeseries(Frame(inp, Deposit(p, o), StampDuty(p)), Feasible(p, o))
  {
    var changes := ChangesInEffect(forecast, p.settlementDate, today, past);
    if changes.None? || !DistinctDates(changes.value) || !DistinctMonths(expenses) {
      return None;
    }
    var monthlyRate := MonthlyRateSeries(n, o.rate, changes.value, o.withFixedRate, o.fixedRate, o.fixedRateDuration,
                                         p.settlementDate);
    assert monthlyRate == MonthlyRates(o, changes.value, p.settlementDate, n);
    if n == 0 || !(forall i :: 0 <= i < n ==> RateInDomain(monthlyRate[i])) {
      return None;
    }
    var expensesSeries := ExpensesSeries(expenses, p.settlementDate, n);
    var rows := BuildFrame(EngineInputs(p, o, monthlyRate, expensesSeries), Deposit(p, o), StampDuty(p));
    var feasible := p.startCapital >= UpfrontCost(p, o);
    result := Some(Timeseries(rows, feasible));
  }

  /**
   * A concrete project: a 780000 property, 70% borrowed, 5.5% stamp duty
   * and 300000 of capital is feasible, with a 234000 deposit, 42900 of
   * stamp duty and 546000 borrowed.
   */
  lemma WorkedExample(o: Offer, settlement: Date)
    requires o.borrowedShare == 70.0
    ensures var p := Project(780000.0, 300000.0, 13500.0, 6000.0, settlement, 5.5);
      && Feasible(p, o)
      && UpfrontCost(p, o) == 276900.0
      && Deposit(p, o) == 234000.0
      && StampDuty(p) == 42900.0
      && Principal(p, o) == 546000.0
  {
  }
}
