/** The calendar arithmetic of src/lib/date-utils.ts on proleptic Gregorian
    dates written as (year, 0-based month, day). The source obtains month
    lengths and weekdays from the platform's `Date`; here they are computed
    from the leap-year rule and a day count from 0001-01-01, a Monday. The
    current date, which the source reads from the clock, is a parameter. */
module DateUtils {
  import opened Common

  /** A local calendar date, with the month counted from 0 as `getMonth()`
      does. */
  datatype Date = Ymd(year: int, month0: int, day: int)

  predicate IsLeapYear(year: int) {
    (year % 4 == 0 && year % 100 != 0) || year % 400 == 0
  }

  /** `getDaysInMonth`: the day before the 1st of the next month. */
  function DaysInMonth(year: int, month0: int): (n: int)
    requires 0 <= month0 < 12
    ensures 28 <= n <= 31
    ensures month0 == 1 ==> (n == 29 <==> IsLeapYear(year)) && (n == 28 <==> !IsLeapYear(year))
    ensures month0 == 3 || month0 == 5 || month0 == 8 || month0 == 10 ==> n == 30
    ensures month0 != 1 && month0 != 3 && month0 != 5 && month0 != 8 && month0 != 10 ==> n == 31
  {
    if month0 == 1 then (if IsLeapYear(year) then 29 else 28)
    else if month0 == 3 || month0 == 5 || month0 == 8 || month0 == 10 then 30
    else 31
  }

  /** A date that a `Date` object can hold: a real month and a day inside it. */
  predicate ValidDate(d: Date) {
    0 <= d.month0 < 12 && 1 <= d.day <= DaysInMonth(d.year, d.month0)
  }

  // ---------------------------------------------------------------------------
  // Weekdays

  /** The days from 0001-01-01 to the 1st of January of `year`. */
  function DaysBeforeYear(year: int): int {
    365 * (year - 1) + (year - 1) / 4 - (year - 1) / 100 + (year - 1) / 400
  }

  /** Days from the 1st of January to the 1st of month `month0`; month 12
      stands for the next 1st of January. */
  function DaysBeforeMonth(year: int, month0: int): int
    requires 0 <= month0 <= 12
  {
    [0, 31, 59, 90, 120, 151, 181, 212, 243, 273, 304, 334, 365][month0]
      + (if month0 >= 2 && IsLeapYear(year) then 1 else 0)
  }

  /** Days since 0001-01-01, which is day 0. */
  function DayNumber(d: Date): int
    requires 0 <= d.month0 < 12
  {
    DaysBeforeYear(d.year) + DaysBeforeMonth(d.year, d.month0) + d.day - 1
  }

  /** `getDay()`: 0 for Sunday up to 6 for Saturday. Day 0 was a Monday. */
  function Weekday(d: Date): (w: int)
    requires 0 <= d.month0 < 12
    ensures 0 <= w < 7
  {
    (DayNumber(d) + 1) % 7
  }

  /** `getFirstDayOfMonth`: the weekday of the 1st. */
  function FirstDayOfMonth(year: int, month0: int): (w: int)
    requires 0 <= month0 < 12
    ensures 0 <= w < 7
  {
    Weekday(Ymd(year, month0, 1))
  }

  /** Moving from `y - 1` to `y` raises the quotient by one exactly when
      the divisor divides `y`, for each divisor of the leap-year rule. */
  lemma QuotientSteps(y: int)
    ensures y / 4 - (y - 1) / 4 == if y % 4 == 0 then 1 else 0
    ensures y / 100 - (y - 1) / 100 == if y % 100 == 0 then 1 else 0
    ensures y / 400 - (y - 1) / 400 == if y % 400 == 0 then 1 else 0
  {
  }

  /** A year has 366 days exactly when it is a leap year. */
  lemma YearLength(year: int)
    ensures DaysBeforeYear(year + 1) - DaysBeforeYear(year) == if IsLeapYear(year) then 366 else 365
  {
    QuotientSteps(year);
    assert DaysBeforeYear(year + 1) == 365 * year + year / 4 - year / 100 + year / 400;
  }

  /** The cumulative table agrees with the month lengths. */
  lemma DaysBeforeNextMonth(year: int, month0: int)
    requires 0 <= month0 < 12
    ensures DaysBeforeMonth(year, month0 + 1) == DaysBeforeMonth(year, month0) + DaysInMonth(year, month0)
  {
  }

  /** Month (year, month0) is followed by `NextMonth(year, month0)`. */
  function NextMonth(year: int, month0: int): (r: (int, int))
    requires 0 <= month0 < 12
    ensures 0 <= r.1 < 12
    ensures 12 * r.0 + r.1 == 12 * year + month0 + 1
  {
    if month0 == 11 then (year + 1, 0) else (year, month0 + 1)
  }

  lemma ModSevenShift(a: int, d: int)
    ensures (a % 7 + d) % 7 == (a + d) % 7
  {
  }

  /** The 1st of the next month falls `DaysInMonth` days later in the week. */
  lemma NextFirstDay(year: int, month0: int)
    requires 0 <= month0 < 12
    ensures var (ny, nm) := NextMonth(year, month0);
      FirstDayOfMonth(ny, nm) == (FirstDayOfMonth(year, month0) + DaysInMonth(year, month0)) % 7
  {
    var (ny, nm) := NextMonth(year, month0);
    var n, len := DayNumber(Ymd(year, month0, 1)), DaysInMonth(year, month0);
    DaysBeforeNextMonth(year, month0);
    if month0 == 11 {
      YearLength(year);
      assert DaysBeforeMonth(year, 12) == DaysBeforeYear(year + 1) - DaysBeforeYear(year);
      assert DayNumber(Ymd(year + 1, 0, 1)) == DaysBeforeYear(year + 1);
    } else {
      assert DayNumber(Ymd(year, month0 + 1, 1)) == DaysBeforeYear(year) + DaysBeforeMonth(year, month0 + 1);
    }
    assert DayNumber(Ymd(ny, nm, 1)) == n + len;
    ModSevenShift(n + 1, len);
  }

  /** Two known weekdays: 2024-01-01 was a Monday and 2026-10-01 a Thursday. */
  lemma WeekdayExamples()
    ensures FirstDayOfMonth(2024, 0) == 1
    ensures FirstDayOfMonth(2026, 9) == 4
  {
  }

  // ---------------------------------------------------------------------------
  // Keys

  /** `formatDateKey`: year, '-', two-digit month, '-', two-digit day. */
  function FormatDateKey(d: Date): (key: string)
    requires ValidDate(d)
    ensures |key| == |IntToString(d.year)| + 6
    ensures key[..|key| - 6] == IntToString(d.year)
    ensures key[|key| - 6] == '-' && key[|key| - 3] == '-'
    ensures key[|key| - 5..|key| - 3] == Pad2(NatToString(d.month0 + 1))
    ensures key[|key| - 2..] == Pad2(NatToString(d.day))
  {
    Pad2Length(d.month0 + 1);
    Pad2Length(d.day);
    IntToString(d.year) + "-" + Pad2(NatToString(d.month0 + 1)) + "-" + Pad2(NatToString(d.day))
  }

  /** Distinct dates have distinct keys, so each date has its own entry list. */
  lemma FormatDateKeyInjective(a: Date, b: Date)
    requires ValidDate(a) && ValidDate(b)
    requires FormatDateKey(a) == FormatDateKey(b)
    ensures a == b
  {
    var k := FormatDateKey(a);
    IntToStringInjective(a.year, b.year);
    Pad2Injective(a.month0 + 1, b.month0 + 1);
    Pad2Injective(a.day, b.day);
  }

  /** A four-digit year gives the ten-character ISO form "YYYY-MM-DD". */
  lemma FourDigitYearKeyLength(d: Date)
    requires ValidDate(d) && 1000 <= d.year <= 9999
    ensures |FormatDateKey(d)| == 10
  {
    var y: nat := d.year;
    assert |NatToString(y / 10 / 10)| == 2;
    assert |NatToString(y / 10)| == 3;
  }

  const MonthNames: seq<string> := [
    "January", "February", "March", "April", "May", "June",
    "July", "August", "September", "October", "November", "December"]

  /** Twelve month names, indexed by the 0-based month. */
  lemma MonthNamesAreTwelve()
    ensures |MonthNames| == 12
    ensures MonthNames[0] == "January" && MonthNames[1] == "February" && MonthNames[11] == "December"
  {
  }

  // ---------------------------------------------------------------------------
  // Past, today, future

  /** Chronological order of dates: year, then month, then day. */
  predicate Before(a: Date, b: Date) {
    a.year < b.year || (a.year == b.year && (a.month0 < b.month0 || (a.month0 == b.month0 && a.day < b.day)))
  }

  /** `isDatePast(date, day)`: day `day` of `date`'s month is strictly before
      `today` (both at midnight). */
  function IsDatePast(date: Date, day: int, today: Date): (r: bool)
    requires ValidDate(Ymd(date.year, date.month0, day)) && ValidDate(today)
    ensures r <==> Before(Ymd(date.year, date.month0, day), today)
  {
    Before(Ymd(date.year, date.month0, day), today)
  }

  /** `isDateFuture(date, day)`: strictly after `today`. */
  function IsDateFuture(date: Date, day: int, today: Date): (r: bool)
    requires ValidDate(Ymd(date.year, date.month0, day)) && ValidDate(today)
    ensures r <==> Before(today, Ymd(date.year, date.month0, day))
  {
    Before(today, Ymd(date.year, date.month0, day))
  }

  /** `isDateToday(date, day)` compares the two keys; that is the same as
      the two dates being equal. */
  function IsDateToday(date: Date, day: int, today: Date): (r: bool)
    requires ValidDate(Ymd(date.year, date.month0, day)) && ValidDate(today)
    ensures r <==> Ymd(date.year, date.month0, day) == today
  {
    var check := Ymd(date.year, date.month0, day);
    if FormatDateKey(today) == FormatDateKey(check) then
      FormatDateKeyInjective(today, check);
      true
    else
      false
  }

  /** Every day of a month is exactly one of past, today and future. */
  lemma ExactlyOneOfPastTodayFuture(date: Date, day: int, today: Date)
    requires ValidDate(Ymd(date.year, date.month0, day)) && ValidDate(today)
    ensures var p, t, f := IsDatePast(date, day, today), IsDateToday(date, day, today), IsDateFuture(date, day, today);
      (p || t || f) && !(p && t) && !(p && f) && !(t && f)
  {
  }
}
