/**
 * What the React pages receive from the API and what they render for a
 * birthday: the record as the list pages read it, the outcome of a request,
 * and the text of the "days until" badge shared by the Birthdays and the
 * Dashboard pages.
 */
module PageViews {
  import opened Wrappers
  import opened Numbers

  /** The fields of a `BirthdayResponse` the list pages read. */
  datatype BirthdayView = BirthdayView(id: int, friendName: string, categoryId: Option<int>, daysUntilBirthday: int)

  /** The fields of a `CategoryResponse` the Settings page keeps. */
  datatype CategoryView = CategoryView(id: int, name: string, color: string, icon: string)

  /**
   * How an awaited API call ends: rejected (caught by the page), or resolved
   * with a `data.data` payload that may be `null`.
   */
  datatype Fetch<T> = Failed | Loaded(data: Option<T>)

  /** The sort key of the list pages: `daysUntilBirthday`. */
  function DaysKey(b: BirthdayView): int {
    b.daysUntilBirthday
  }

  /** A badge: its text and its CSS classes. */
  datatype DaysLabel = DaysLabel(text: string, className: string)

  const TodayClass: string := "text-accent-400 bg-accent-500/20"
  const TomorrowClass: string := "text-primary-400 bg-primary-500/20"

  /** The badge text of both `getDaysLabel`s: "Today!", "Tomorrow", or `${days} days`. */
  function DaysText(days: int): (r: string)
    ensures days == 0 ==> r == "Today!"
    ensures days == 1 ==> r == "Tomorrow"
    ensures days != 0 && days != 1 ==> |r| > 5 && r[..|r| - 5] == IntToString(days) && r[|r| - 5..] == " days"
  {
    if days == 0 then "Today!" else if days == 1 then "Tomorrow" else IntToString(days) + " days"
  }

  /** Different day counts get different badge texts. */
  lemma DaysTextInjective(a: int, b: int)
    requires DaysText(a) == DaysText(b)
    ensures a == b
  {
    if a != 0 && a != 1 && b != 0 && b != 1 {
      var sa, sb := IntToString(a), IntToString(b);
      assert |sa| == |sb|;
      assert sa == (sa + " days")[..|sa|];
      assert sb == (sb + " days")[..|sb|];
      IntToStringInjective(a, b);
    }
  }
}
