/** Gregorian calendar dates without a time of day, as the budget code uses them:
    `new Date(y, m, 0)` (the last day of a month), `setDate(getDate() + 1)`
    (the next day), `setMonth(getMonth() + 3)` (months ahead, with JavaScript's
    overflow of surplus days) and comparisons of dates. Months are numbered
    1..12 here; JavaScript's `getMonth` numbers them 0..11. */
module Calendar {

  datatype Date = Date(year: int, month: int, day: int)

  predicate IsLeapYear(year: int) {
    year % 4 == 0 && (year % 100 != 0 || year % 400 == 0)
  }

  function DaysInMonth(year: int, month: int): (n: int)
    requires 1 <= month <= 12
    ensures 28 <= n <= 31
    ensures month == 2 ==> (n == 29 <==> IsLeapYear(year))
  {
    if month == 2 then (if IsLeapYear(year) then 29 else 28)
    else if month == 4 || month == 6 || month == 9 || month == 11 then 30
    else 31
  }

  predicate Valid(d: Date) {
    1 <= d.month <= 12 && 1 <= d.day <= DaysInMonth(d.year, d.month)
  }

  /** A date that exists on the proleptic Gregorian calendar. */
  type CalendarDate = d: Date | Valid(d) witness Date(1970, 1, 1)

  /** Chronological order: `a` is strictly earlier than `b`. */
  predicate Before(a: Date, b: Date) {
    a.year < b.year
    || (a.year == b.year && (a.month < b.month || (a.month == b.month && a.day < b.day)))
  }

  /** `a` is on or before `b`. */
  predicate NotAfter(a: Date, b: Date) {
    !Before(b, a)
  }

  /** Chronological order is a total order: two dates neither before the other are the same date. */
  lemma SameDate(a: Date, b: Date)
    requires NotAfter(a, b) && NotAfter(b, a)
    ensures a == b
  {
  }

  /** `Math.min` and `Math.max` of two dates. */
  function MinDate(a: CalendarDate, b: CalendarDate): (r: CalendarDate)
    ensures NotAfter(r, a) && NotAfter(r, b) && (r == a || r == b)
  {
    if Before(b, a) then b else a
  }

  function MaxDate(a: CalendarDate, b: CalendarDate): (r: CalendarDate)
    ensures NotAfter(a, r) && NotAfter(b, r) && (r == a || r == b)
  {
    if Before(a, b) then b else a
  }

  /** A strictly increasing numbering of dates (not a day count); it measures
      the walk of the balance projection towards its end date. */
  function DayKey(d: Date): int {
    d.year * 372 + (d.month - 1) * 31 + d.day
  }

  lemma DayKeyOrder(a: CalendarDate, b: CalendarDate)
    ensures Before(a, b) <==> DayKey(a) < DayKey(b)
  {
  }

  /** Months counted from January of year 0: `getFullYear() * 12 + getMonth()`. */
  function MonthIndex(d: Date): int {
    d.year * 12 + d.month - 1
  }

  /** The last day of the month with the given month index. */
  function LastDayOfMonthIndex(k: int): (r: CalendarDate)
    ensures MonthIndex(r) == k
    ensures IsMonthEnd(r)
  {
    Date(k / 12, k % 12 + 1, DaysInMonth(k / 12, k % 12 + 1))
  }

  /** `getEndOfMonth(year, month)`, that is `new Date(year, month + 1, 0)`, with
      `month` counted from 0 and allowed outside 0..11 as JavaScript allows. */
  function EndOfMonth(year: int, month0: int): (r: CalendarDate)
    ensures MonthIndex(r) == year * 12 + month0
    ensures IsMonthEnd(r)
  {
    LastDayOfMonthIndex(year * 12 + month0)
  }

  /** The following calendar day. */
  function NextDay(d: CalendarDate): (r: CalendarDate)
    ensures Before(d, r)
    ensures DayKey(d) < DayKey(r)
    ensures MonthIndex(r) == MonthIndex(d) || (MonthIndex(r) == MonthIndex(d) + 1 && r.day == 1)
  {
    if d.day < DaysInMonth(d.year, d.month) then Date(d.year, d.month, d.day + 1)
    else if d.month < 12 then Date(d.year, d.month + 1, 1)
    else Date(d.year + 1, 1, 1)
  }

  /** The last day of its month. */
  predicate IsMonthEnd(d: Date)
    requires 1 <= d.month <= 12
  {
    d.day == DaysInMonth(d.year, d.month)
  }

  /** The projection's test for the end of a month, "the next day falls in
      another month", holds exactly on the last day of a month, which is then
      the last day of its month index, and the next day opens the next month. */
  lemma MonthEndTest(d: CalendarDate)
    ensures NextDay(d).month != d.month <==> IsMonthEnd(d)
    ensures MonthIndex(NextDay(d)) == MonthIndex(d) + (if IsMonthEnd(d) then 1 else 0)
    ensures IsMonthEnd(d) ==> LastDayOfMonthIndex(MonthIndex(d)) == d
  {
    var k := MonthIndex(d);
    assert k / 12 == d.year && k % 12 + 1 == d.month;
  }

  /** No date lies strictly between a date and the next day. */
  lemma NextDayIsSuccessor(a: CalendarDate, b: CalendarDate)
    requires Before(a, b)
    ensures NotAfter(NextDay(a), b)
  {
  }

  /** An earlier month index means an earlier date. */
  lemma MonthIndexOrder(a: Date, b: Date)
    requires 1 <= a.month <= 12 && 1 <= b.month <= 12
    requires MonthIndex(a) < MonthIndex(b)
    ensures Before(a, b)
  {
  }

  /** `setMonth(getMonth() + k)`: the same day of the month `k` months later;
      when that month is too short, JavaScript carries the surplus days into
      the month after it (30 November plus 3 months is 2 March in a common
      year). */
  function AddMonths(d: CalendarDate, k: nat): (r: CalendarDate)
    ensures var target := MonthIndex(d) + k;
            (MonthIndex(r) == target && r.day == d.day)
            || (MonthIndex(r) == target + 1 && r.day == d.day - DaysInMonth(target / 12, target % 12 + 1) && r.day <= 3)
    ensures k > 0 ==> Before(d, r)
  {
    var target := MonthIndex(d) + k;
    var y, m := target / 12, target % 12 + 1;
    if d.day <= DaysInMonth(y, m) then Date(y, m, d.day)
    else
      var after := target + 1;
      Date(after / 12, after % 12 + 1, d.day - DaysInMonth(y, m))
  }

  lemma AddMonthsExamples()
    ensures AddMonths(Date(2025, 11, 30), 3) == Date(2026, 3, 2)
    ensures AddMonths(Date(2023, 11, 30), 3) == Date(2024, 3, 1)
    ensures AddMonths(Date(2024, 3, 15), 3) == Date(2024, 6, 15)
  {
  }
}
