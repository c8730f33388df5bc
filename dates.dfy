/**
 * `java.time.LocalDate` restricted to what the application uses: a proleptic
 * Gregorian (year, month, day), `isBefore`, `withYear`, `plusYears`,
 * `plusDays(1)` and `ChronoUnit.DAYS.between`, the last one through a day
 * count from 1 January of year 0.
 */
module Dates {

  datatype Date = Date(year: int, month: int, day: int)

  predicate IsLeapYear(y: int) {
    y % 4 == 0 && (y % 100 != 0 || y % 400 == 0)
  }

  function DaysInYear(y: int): int {
    if IsLeapYear(y) then 366 else 365
  }

  function DaysInMonth(y: int, m: int): (n: int)
    requires 1 <= m <= 12
    ensures 28 <= n <= 31
  {
    if m == 2 then (if IsLeapYear(y) then 29 else 28)
    else if m == 4 || m == 6 || m == 9 || m == 11 then 30
    else 31
  }

  /** A date `LocalDate.of` accepts. */
  predicate Valid(d: Date) {
    1 <= d.month <= 12 && 1 <= d.day <= DaysInMonth(d.year, d.month)
  }

  /** A `LocalDate` value: only real calendar dates exist. */
  type CalendarDate = d: Date | Valid(d) witness Date(1970, 1, 1)

  /** `a.isBefore(b)`: year, then month, then day. */
  predicate IsBefore(a: Date, b: Date) {
    a.year < b.year
    || (a.year == b.year && a.month < b.month)
    || (a.year == b.year && a.month == b.month && a.day < b.day)
  }

  /** `d.withYear(y)`: 29 February becomes the 28th when `y` is not a leap year. */
  function WithYear(d: Date, y: int): (r: Date)
    requires Valid(d)
    ensures Valid(r) && r.year == y && r.month == d.month
    ensures r.day == d.day || (d.month == 2 && d.day == 29 && r.day == 28 && !IsLeapYear(y))
  {
    var last := DaysInMonth(y, d.month);
    Date(y, d.month, if d.day <= last then d.day else last)
  }

  /** `d.plusYears(n)`: the same clamping as `withYear`. */
  function PlusYears(d: Date, n: int): (r: Date)
    requires Valid(d)
    ensures Valid(r) && r.year == d.year + n && r.month == d.month
  {
    WithYear(d, d.year + n)
  }

  /** `d.plusDays(1)` */
  function NextDay(d: Date): (r: Date)
    requires Valid(d)
    ensures Valid(r)
  {
    if d.day < DaysInMonth(d.year, d.month) then Date(d.year, d.month, d.day + 1)
    else if d.month < 12 then Date(d.year, d.month + 1, 1)
    else Date(d.year + 1, 1, 1)
  }

  /** `d.minusDays(1)` */
  function PrevDay(d: Date): (r: Date)
    requires Valid(d)
    ensures Valid(r)
  {
    if d.day > 1 then Date(d.year, d.month, d.day - 1)
    else if d.month > 1 then Date(d.year, d.month - 1, DaysInMonth(d.year, d.month - 1))
    else Date(d.year - 1, 12, 31)
  }

  /** `d.plusDays(n)`, one day at a time. */
  function PlusDays(d: Date, n: int): (r: Date)
    requires Valid(d)
    ensures Valid(r)
    decreases if n < 0 then -n else n
  {
    if n == 0 then d
    else if n > 0 then PlusDays(NextDay(d), n - 1)
    else PlusDays(PrevDay(d), n + 1)
  }

  /** Days in the years 0 .. y-1 (negative for negative `y`). */
  function DaysBeforeYear(y: int): int {
    365 * y + (y + 3) / 4 - (y + 99) / 100 + (y + 399) / 400
  }

  /** Days in the months 1 .. m-1 of year `y`. */
  function DaysBeforeMonth(y: int, m: int): int
    requires 1 <= m <= 12
  {
    [0, 31, 59, 90, 120, 151, 181, 212, 243, 273, 304, 334][m - 1]
    + (if m > 2 && IsLeapYear(y) then 1 else 0)
  }

  /** The number of days from 0000-01-01 to `d`, the scale `ChronoUnit.DAYS` counts on. */
  function EpochDay(d: Date): int
    requires Valid(d)
  {
    DaysBeforeYear(d.year) + DaysBeforeMonth(d.year, d.month) + d.day - 1
  }

  /** `ChronoUnit.DAYS.between(a, b)` */
  function DaysBetween(a: Date, b: Date): int
    requires Valid(a) && Valid(b)
  {
    EpochDay(b) - EpochDay(a)
  }

  /** The closed form for the days before a year agrees with the length of each year. */
  lemma YearLength(y: int)
    ensures DaysBeforeYear(y + 1) == DaysBeforeYear(y) + DaysInYear(y)
  {
    // each count of multiples below the year grows by one exactly at a multiple
    assert (y + 4) / 4 == (y + 3) / 4 + (if y % 4 == 0 then 1 else 0);
    assert (y + 100) / 100 == (y + 99) / 100 + (if y % 100 == 0 then 1 else 0);
    assert (y + 400) / 400 == (y + 399) / 400 + (if y % 400 == 0 then 1 else 0);
  }

  /** The month table agrees with the length of each month. */
  lemma MonthLength(y: int, m: int)
    requires 1 <= m <= 12
    ensures m < 12 ==> DaysBeforeMonth(y, m + 1) == DaysBeforeMonth(y, m) + DaysInMonth(y, m)
    ensures m == 12 ==> DaysBeforeMonth(y, m) + DaysInMonth(y, m) == DaysInYear(y)
  {
  }

  lemma {:induction false} DaysBeforeYearMonotone(a: int, b: int)
    requires a < b
    ensures DaysBeforeYear(a) + DaysInYear(a) <= DaysBeforeYear(b)
    decreases b - a
  {
    YearLength(a);
    if a + 1 < b {
      DaysBeforeYearMonotone(a + 1, b);
    }
  }

  lemma DaysBeforeMonthMonotone(y: int, m1: int, m2: int)
    requires 1 <= m1 < m2 <= 12
    ensures DaysBeforeMonth(y, m1) + DaysInMonth(y, m1) <= DaysBeforeMonth(y, m2)
  {
  }

  /** A date's day count lies within its year. */
  lemma EpochDayInYear(d: Date)
    requires Valid(d)
    ensures DaysBeforeYear(d.year) <= EpochDay(d) < DaysBeforeYear(d.year) + DaysInYear(d.year)
  {
  }

  /** The day count orders dates as `isBefore` does, and tells them apart. */
  lemma EpochDayOrder(a: Date, b: Date)
    requires Valid(a) && Valid(b)
    ensures IsBefore(a, b) <==> EpochDay(a) < EpochDay(b)
    ensures a == b <==> EpochDay(a) == EpochDay(b)
  {
    EpochDayInYear(a);
    EpochDayInYear(b);
    if a.year < b.year {
      DaysBeforeYearMonotone(a.year, b.year);
    } else if b.year < a.year {
      DaysBeforeYearMonotone(b.year, a.year);
    } else if a.month < b.month {
      DaysBeforeMonthMonotone(a.year, a.month, b.month);
    } else if b.month < a.month {
      DaysBeforeMonthMonotone(a.year, b.month, a.month);
    }
  }

  /** `plusDays(1)` moves the day count by exactly one. */
  lemma NextDayCount(d: Date)
    requires Valid(d)
    ensures EpochDay(NextDay(d)) == EpochDay(d) + 1
    ensures IsBefore(d, NextDay(d))
  {
    MonthLength(d.year, d.month);
    if d.day == DaysInMonth(d.year, d.month) && d.month == 12 {
      YearLength(d.year);
    }
  }

  /** One year on, with `plusYears` clamping, is at most 366 days later. */
  lemma PlusOneYearSpan(d: Date)
    requires Valid(d)
    ensures 365 <= EpochDay(PlusYears(d, 1)) - EpochDay(d) <= 366
  {
    YearLength(d.year);
  }

  /** `plusDays(-1)` moves the day count back by exactly one. */
  lemma PrevDayCount(d: Date)
    requires Valid(d)
    ensures EpochDay(PrevDay(d)) == EpochDay(d) - 1
  {
    if d.day == 1 && d.month > 1 {
      MonthLength(d.year, d.month - 1);
    } else if d.day == 1 {
      YearLength(d.year - 1);
    }
  }

  /** `plusDays(n)` moves the day count by exactly `n`. */
  lemma {:induction false} PlusDaysCount(d: Date, n: int)
    requires Valid(d)
    ensures EpochDay(PlusDays(d, n)) == EpochDay(d) + n
    decreases if n < 0 then -n else n
  {
    if n > 0 {
      NextDayCount(d);
      PlusDaysCount(NextDay(d), n - 1);
    } else if n < 0 {
      PrevDayCount(d);
      PlusDaysCount(PrevDay(d), n + 1);
    }
  }
}
