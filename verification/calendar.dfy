/**
 * Calendar dates reduced to what the loan model needs: counting months.
 * The loan's months are the month starts on or after the settlement date,
 * so loan month 0 is the settlement month when settlement falls on the 1st
 * and the following month otherwise.
 */
module Calendar {

  datatype Date = Date(year: int, month: int, day: int)

  /** Month in 1..12 and day in 1..31; month lengths are not checked. */
  predicate ValidDate(d: Date)
  {
    1 <= d.month <= 12 && 1 <= d.day <= 31
  }

  /** Months elapsed since January of year 0. */
  function MonthNumber(d: Date): int
  {
    d.year * 12 + (d.month - 1)
  }

  predicate IsMonthStart(d: Date)
  {
    d.day == 1
  }

  /** Chronological order on dates. */
  predicate Before(a: Date, b: Date)
  {
    a.year < b.year || (a.year == b.year && (a.month < b.month || (a.month == b.month && a.day < b.day)))
  }

  /** Month number of the first month start on or after the settlement date. */
  function FirstMonth(settlement: Date): int
  {
    if IsMonthStart(settlement) then MonthNumber(settlement) else MonthNumber(settlement) + 1
  }

  /** Two valid dates in the same month are equal when both are month starts. */
  lemma SameMonthStart(a: Date, b: Date)
    requires ValidDate(a) && ValidDate(b) && IsMonthStart(a) && IsMonthStart(b)
    requires MonthNumber(a) == MonthNumber(b)
    ensures a == b
  {
  }
}
