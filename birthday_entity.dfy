/**
 * The `Birthday` entity and its date arithmetic, with "today" passed in
 * instead of read from the clock.
 */
module BirthdayEntity {
  import opened Wrappers
  import opened Users
  import opened Dates

  datatype Birthday = Birthday(
    id: int,
    owner: UserId,
    categoryId: Option<int>,
    friendName: string,
    birthDate: CalendarDate,
    friendEmail: Option<string>,
    notes: Option<string>,
    isActive: bool)

  /** `calculateAge()`: the difference of the calendar years only. */
  function CalculateAge(b: Birthday, today: CalendarDate): int {
    today.year - b.birthDate.year
  }

  /** `getUpcomingBirthday()`: this year's anniversary, or next year's when it has passed. */
  function UpcomingBirthday(b: Birthday, today: CalendarDate): (r: CalendarDate)
    ensures !IsBefore(r, today)
    ensures r.year == today.year || r.year == today.year + 1
    ensures r.month == b.birthDate.month
    ensures !(b.birthDate.month == 2 && b.birthDate.day == 29) ==> r.day == b.birthDate.day
    ensures b.birthDate.month == 2 && b.birthDate.day == 29 ==>
      (r.day == 29 <==> r.year == today.year && IsLeapYear(today.year)) && 28 <= r.day
  {
    var thisYear := WithYear(b.birthDate, today.year);
    if IsBefore(thisYear, today) then PlusYears(thisYear, 1) else thisYear
  }

  /** `getDaysUntilBirthday()`: whole days from today to the upcoming birthday. */
  function DaysUntilBirthday(b: Birthday, today: CalendarDate): (n: int)
    ensures 0 <= n <= 365
    ensures n == 0 <==> WithYear(b.birthDate, today.year) == today
  {
    UpcomingDistance(b, today);
    DaysBetween(today, UpcomingBirthday(b, today))
  }

  lemma UpcomingDistance(b: Birthday, today: CalendarDate)
    ensures var n := DaysBetween(today, UpcomingBirthday(b, today));
      0 <= n <= 365 && (n == 0 <==> WithYear(b.birthDate, today.year) == today)
  {
    var up := UpcomingBirthday(b, today);
    EpochDayOrder(up, today);
    var thisYear := WithYear(b.birthDate, today.year);
    EpochDayOrder(thisYear, today);
    if IsBefore(thisYear, today) {
      PlusOneYearSpan(thisYear);
    } else {
      EpochDayInYear(today);
      EpochDayInYear(up);
    }
  }

  /** An anniversary of `b` in year `y`, as `withYear` computes it. */
  predicate IsAnniversary(b: Birthday, d: Date)
  {
    d == WithYear(b.birthDate, d.year)
  }

  /**
   * No anniversary on or after today comes before the upcoming birthday, and
   * the upcoming birthday is itself an anniversary, except for a 29 February
   * birth date whose anniversary in a leap year is reached through `plusYears`
   * from a non-leap year: that yields 28 February.
   */
  lemma UpcomingIsNextAnniversary(b: Birthday, today: CalendarDate, d: Date)
    requires Valid(d)
    requires IsAnniversary(b, d) && !IsBefore(d, today)
    ensures !IsBefore(d, UpcomingBirthday(b, today))
    ensures IsAnniversary(b, UpcomingBirthday(b, today))
      || (b.birthDate.month == 2 && b.birthDate.day == 29 && UpcomingBirthday(b, today).day == 28
          && IsLeapYear(UpcomingBirthday(b, today).year))
  {
    var thisYear := WithYear(b.birthDate, today.year);
    if d.year == today.year {
      assert d == thisYear;
    }
  }

  /** The 29 February case: born 2000-02-29, on 2023-03-01 the upcoming birthday is 2024-02-28. */
  lemma LeapDayExample()
    ensures var b := Birthday(1, 1, None, "Ann", Date(2000, 2, 29), None, None, true);
      UpcomingBirthday(b, Date(2023, 3, 1)) == Date(2024, 2, 28)
      && DaysUntilBirthday(b, Date(2023, 3, 1)) == 364
  {
    var b := Birthday(1, 1, None, "Ann", Date(2000, 2, 29), None, None, true);
    YearLength(2023);
  }

  /**
   * The age computed by `calculateAge()` is the age reached at the upcoming
   * birthday when that is this year, and one less when it is next year.
   */
  lemma AgeAtUpcoming(b: Birthday, today: CalendarDate)
    ensures UpcomingBirthday(b, today).year - b.birthDate.year
      == CalculateAge(b, today) + (if IsBefore(WithYear(b.birthDate, today.year), today) then 1 else 0)
  {
  }

  /** Birthdays are ordered by days until their next occurrence as by that occurrence's date. */
  lemma DaysUntilOrdersUpcoming(b1: Birthday, b2: Birthday, today: CalendarDate)
    ensures DaysUntilBirthday(b1, today) < DaysUntilBirthday(b2, today)
      <==> IsBefore(UpcomingBirthday(b1, today), UpcomingBirthday(b2, today))
  {
    EpochDayOrder(UpcomingBirthday(b1, today), UpcomingBirthday(b2, today));
  }
}
