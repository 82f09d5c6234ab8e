/**
 * The input records of the calculator: a project (the purchase shared by all
 * offers), a loan offer, dated rate changes and dated one-off expenses, with
 * the field bounds and the fixed-rate rule that construction enforces.
 */
module DataModels {
  import opened Wrappers
  import opened Calendar

  /** A forecast change of the annual rate, in percentage points, effective from `date`. */
  datatype RateDelta = RateDelta(date: Date, value: real)

  /** A one-off expense paid out of the offset account. */
  datatype Expense = Expense(date: Date, value: real)

  datatype Offer = Offer(
    name: string,
    rate: real,                     // annual %, in [0, 100]
    borrowedShare: real,            // %, in [0, 100]
    loanDuration: real,             // years, at least 1
    yearlyFees: real,               // $, at least 0
    withFixedRate: bool,
    fixedRate: Option<real>,        // annual %, unbounded
    fixedRateDuration: Option<int>, // whole years, unbounded
    withOffsetAccount: bool)

  datatype Project = Project(
    propertyValue: real,
    startCapital: real,
    monthlyIncome: real,
    monthlyCosts: real,
    settlementDate: Date,
    stampDutyRate: real)            // %, in [0, 100]

  /** One reason for rejecting a record at construction. */
  datatype FieldError =
    | RateOutOfRange
    | BorrowedShareOutOfRange
    | LoanDurationTooShort
    | NegativeYearlyFees
    | FixedRateIncomplete
    | StampDutyRateOutOfRange

  predicate OfferBoundsHold(o: Offer)
  {
    && 0.0 <= o.rate <= 100.0
    && 0.0 <= o.borrowedShare <= 100.0
    && o.loanDuration >= 1.0
    && o.yearlyFees >= 0.0
  }

  /** The fixed-rate rule: a fixed-rate offer names both its rate and its duration. */
  predicate FixedRateComplete(o: Offer)
  {
    o.withFixedRate ==> o.fixedRate.Some? && o.fixedRateDuration.Some?
  }

  predicate ValidOffer(o: Offer)
  {
    OfferBoundsHold(o) && FixedRateComplete(o)
  }

  /** The bound violations of an offer's fields, in declaration order. */
  function OfferFieldErrors(o: Offer): seq<FieldError>
  {
    (if 0.0 <= o.rate <= 100.0 then [] else [RateOutOfRange])
    + (if 0.0 <= o.borrowedShare <= 100.0 then [] else [BorrowedShareOutOfRange])
    + (if o.loanDuration >= 1.0 then [] else [LoanDurationTooShort])
    + (if o.yearlyFees >= 0.0 then [] else [NegativeYearlyFees])
  }

  /**
   * Constructing an offer: field bounds are checked first and all their
   * violations reported together; only an offer whose fields pass reaches
   * the fixed-rate validator.
   */
  function ValidateOffer(o: Offer): (r: Result<Offer, seq<FieldError>>)
    ensures r.Success? <==> ValidOffer(o)
    ensures r.Success? ==> r.value == o
    ensures r.Failure? ==> |r.error| > 0
    ensures r.Failure? && FixedRateIncomplete in r.error <==> OfferBoundsHold(o) && !FixedRateComplete(o)
    ensures !o.withFixedRate && OfferBoundsHold(o) ==> r == Success(o)
  {
    var errors := OfferFieldErrors(o);
    if errors != [] then Failure(errors)
    else if o.withFixedRate && (o.fixedRate.None? || o.fixedRateDuration.None?) then Failure([FixedRateIncomplete])
    else Success(o)
  }

  /** An offer with every field at its default: 3%, 80% borrowed, 25 years, no fees, no fixed rate, no offset account. */
  function DefaultOffer(name: string): (o: Offer)
    ensures ValidOffer(o) && o.name == name
    ensures !o.withFixedRate && !o.withOffsetAccount && o.yearlyFees == 0.0
    ensures o.rate == 3.0 && o.borrowedShare == 80.0 && o.loanDuration == 25.0
    ensures o.fixedRate.None? && o.fixedRateDuration.None?
  {
    Offer(name, 3.0, 80.0, 25.0, 0.0, false, None, None, false)
  }

  predicate ValidProject(p: Project)
  {
    0.0 <= p.stampDutyRate <= 100.0
  }

  /** Constructing a project: only the stamp duty rate is bounded. */
  function ValidateProject(p: Project): (r: Result<Project, seq<FieldError>>)
    ensures r.Success? <==> ValidProject(p)
    ensures r.Success? ==> r.value == p
    ensures r.Failure? ==> r.error == [StampDutyRateOutOfRange]
  {
    if 0.0 <= p.stampDutyRate <= 100.0 then Success(p) else Failure([StampDutyRateOutOfRange])
  }

  /**
   * A project built from its four required amounts; the settlement date
   * defaults to the current day, passed in as `today`, and the stamp duty
   * rate defaults to 0.
   */
  function DefaultProject(propertyValue: real, startCapital: real, monthlyIncome: real, monthlyCosts: real, today: Date): (p: Project)
    ensures ValidProject(p) && p.stampDutyRate == 0.0 && p.settlementDate == today
    ensures p.propertyValue == propertyValue && p.startCapital == startCapital
    ensures p.monthlyIncome == monthlyIncome && p.monthlyCosts == monthlyCosts
  {
    Project(propertyValue, startCapital, monthlyIncome, monthlyCosts, today, 0.0)
  }
}
