/**
 * The Settings page: the reminder-day toggles, the summary sentence under
 * them, the label of the chosen time, and the category list kept in step with
 * the category dialog.
 */
module SettingsPageModel {
  import opened Wrappers
  import opened Text
  import opened Numbers
  import opened Seqs
  import opened PageViews
  import opened NotificationSettingsEntity
  import opened NotificationSettingsServiceModel
  import opened SchedulerModel

  /** The day buttons the page offers. */
  const AvailableDays: seq<int> := [0, 1, 2, 3, 5, 7, 14, 21, 30]

  /** The sort key of `sort((a, b) => b - a)`: largest first. */
  function Descending(d: int): int {
    -d
  }

  /** `days.filter(d => d !== day)`. */
  function Without(days: seq<int>, day: int): seq<int> {
    Filter(days, (d: int) => d != day)
  }

  /**
   * `toggleNotificationDay`: a missing list counts as empty; a day in the
   * list is removed, every occurrence of it; a day not in it is added and the
   * list sorted largest first.
   */
  function ToggleNotificationDay(days: Option<seq<int>>, day: int): seq<int> {
    var ds := days.GetOr([]);
    if day in ds then Without(ds, day) else SortBy(ds + [day], Descending)
  }

  /** Toggling a present day drops every occurrence of it and keeps every other day, in order, as often as it was there. */
  lemma ToggleRemoves(ds: seq<int>, day: int, x: int)
    requires day in ds
    ensures ToggleNotificationDay(Some(ds), day) == Without(ds, day)
    ensures day !in ToggleNotificationDay(Some(ds), day)
    ensures x != day ==> multiset(ToggleNotificationDay(Some(ds), day))[x] == multiset(ds)[x]
  {
    FilterMultiset(ds, (d: int) => d != day, x);
    FilterMultiset(ds, (d: int) => d != day, day);
  }

  /** Toggling an absent day adds it once, keeps the others, and leaves the list largest first. */
  lemma ToggleAdds(ds: seq<int>, day: int)
    requires day !in ds
    ensures multiset(ToggleNotificationDay(Some(ds), day)) == multiset(ds) + multiset{day}
    ensures SortedBy(ToggleNotificationDay(Some(ds), day), Descending)
  {
    SortByProperties(ds + [day], Descending);
  }

  /** The days of a toggled list: those before, with the toggled day flipped in or out. */
  lemma ToggleElements(ds: seq<int>, day: int, x: int)
    ensures x in ToggleNotificationDay(Some(ds), day) <==> (if x == day then day !in ds else x in ds)
  {
    if day in ds {
      ToggleRemoves(ds, day, x);
      assert x in ds <==> multiset(ds)[x] > 0;
    } else {
      ToggleAdds(ds, day);
      assert x in ds + [day] <==> multiset(ds + [day])[x] > 0;
    }
  }

  /** Toggling the same day twice gives back the same set of days. */
  lemma ToggleTwice(ds: seq<int>, day: int)
    ensures forall x :: x in ToggleNotificationDay(Some(ToggleNotificationDay(Some(ds), day)), day) <==> x in ds
  {
    var once := ToggleNotificationDay(Some(ds), day);
    forall x ensures x in ToggleNotificationDay(Some(once), day) <==> x in ds {
      ToggleElements(ds, day, x);
      ToggleElements(ds, day, day);
      ToggleElements(once, day, x);
    }
  }

  /** Every offered day lies in the range the back end accepts. */
  lemma AvailableDaysInRange()
    ensures DaysInRange(AvailableDays)
  {
  }

  /** Toggling offered days gives offered days only, so saving them passes the back end's range check. */
  lemma ToggleStaysAvailable(ds: seq<int>, day: int, enabled: Option<bool>, template: Option<string>, time: Option<string>)
    requires forall i :: 0 <= i < |ds| ==> ds[i] in AvailableDays
    requires day in AvailableDays
    ensures forall i :: 0 <= i < |ToggleNotificationDay(Some(ds), day)| ==> ToggleNotificationDay(Some(ds), day)[i] in AvailableDays
    ensures Accepted(NotificationSettingsRequest(Some(ToggleNotificationDay(Some(ds), day)), enabled, template, time))
  {
    var r := ToggleNotificationDay(Some(ds), day);
    forall i | 0 <= i < |r| ensures r[i] in AvailableDays && 0 <= r[i] <= 30 {
      ToggleElements(ds, day, r[i]);
    }
  }

  /** A list kept largest first stays so under toggling. */
  lemma ToggleKeepsDescending(ds: seq<int>, day: int)
    requires SortedBy(ds, Descending)
    ensures SortedBy(ToggleNotificationDay(Some(ds), day), Descending)
  {
    if day in ds {
      FilterSorted(ds, (d: int) => d != day, Descending);
    } else {
      ToggleAdds(ds, day);
    }
  }

  /** The phrase for one day in the summary sentence. */
  function DayPhrase(d: int): string {
    if d == 0 then "on the day" else if d == 1 then "1 day before" else IntToString(d) + " days before"
  }

  function Phrases(ds: seq<int>): (r: seq<string>)
    ensures |r| == |ds| && forall i :: 0 <= i < |ds| ==> r[i] == DayPhrase(ds[i])
  {
    if ds == [] then [] else [DayPhrase(ds[0])] + Phrases(ds[1..])
  }

  const SummaryLead: string := "You'll receive notifications "
  const NoDaysText: string := "No notification days selected."

  /** The summary sentence for a non-empty list of days, in list order. */
  function SummaryText(ds: seq<int>): string {
    SummaryLead + Join(Phrases(ds), ", ") + "."
  }

  /** Sorting largest first a second time changes nothing, so the render's sort settles after one pass. */
  lemma RenderSortSettles(ds: seq<int>)
    ensures SortBy(SortBy(ds, Descending), Descending) == SortBy(ds, Descending)
  {
    SortByProperties(ds, Descending);
    SortBySorted(SortBy(ds, Descending), Descending);
  }

  /** On a list kept largest first, as toggling keeps it, the render's sort changes nothing. */
  lemma RenderSortAfterToggle(ds: seq<int>, day: int)
    requires SortedBy(ds, Descending)
    ensures SortBy(ToggleNotificationDay(Some(ds), day), Descending) == ToggleNotificationDay(Some(ds), day)
  {
    ToggleKeepsDescending(ds, day);
    SortBySorted(ToggleNotificationDay(Some(ds), day), Descending);
  }

  /** The default days of the page, `[7, 3, 1]`, are largest first. */
  lemma InitialDaysDescending()
    ensures SortedBy([7, 3, 1], Descending)
  {
  }

  /** `Number(s)` as far as the page needs it: a string of decimal digits (the empty one gives 0), or NaN. */
  datatype JsNumber = Num(value: nat) | NaN

  function ToNumber(s: string): JsNumber {
    if AllDigits(s) then Num(DigitsValue(s)) else NaN
  }

  /** `hours >= 12 ? 'PM' : 'AM'`: NaN compares false. */
  function Period(hours: JsNumber): string {
    if hours.Num? && hours.value >= 12 then "PM" else "AM"
  }

  /** `hours % 12 || 12`: 0 and NaN are falsy. */
  function DisplayHour(hours: JsNumber): (r: nat)
    ensures 1 <= r <= 12
  {
    if hours.Num? && hours.value % 12 != 0 then hours.value % 12 else 12
  }

  /** `minutes.toString().padStart(2, '0')`. */
  function MinutesText(minutes: JsNumber): string {
    match minutes
    case NaN => "NaN"
    case Num(v) => PadLeft(NatToString(v), 2, '0')
  }

  const FallbackTimeLabel: string := "8:00 AM"

  /**
   * `getTimeLabel`: no time gives the fallback label; so does a time with no
   * `:`, where reading the missing minutes throws and the page catches it.
   */
  function GetTimeLabel(time: Option<string>): (r: string)
    ensures time.None? || time == Some("") ==> r == FallbackTimeLabel
  {
    if time.None? || time.value == [] then FallbackTimeLabel
    else
      var parts := Split(time.value, ':');
      if |parts| < 2 then FallbackTimeLabel
      else
        var hours, minutes := ToNumber(parts[0]), ToNumber(parts[1]);
        NatToString(DisplayHour(hours)) + (":" + (MinutesText(minutes) + (" " + Period(hours))))
  }

  /**
   * For a well-formed `HH:MM`: the label shows the hour on the twelve-hour
   * clock (0 as 12), the minutes as two digits, and PM exactly from 12 on;
   * that hour is also the one the scheduler mails at.
   */
  lemma WellFormedTimeLabel(h: nat, m: nat)
    requires h <= 23 && m <= 59
    ensures GetTimeLabel(Some(FormatZeroPadded(h, 2) + ":" + FormatZeroPadded(m, 2))) ==
      NatToString(if h % 12 == 0 then 12 else h % 12) + (":" + (FormatZeroPadded(m, 2) + (" " + (if h >= 12 then "PM" else "AM"))))
    ensures ParseNotificationHour(Some(FormatZeroPadded(h, 2) + ":" + FormatZeroPadded(m, 2))) == h
  {
    var hh, mm := FormatZeroPadded(h, 2), FormatZeroPadded(m, 2);
    assert Pow10(2) == 100;
    FormatZeroPaddedFixedWidth(h, 2);
    FormatZeroPaddedFixedWidth(m, 2);
    assert ':' !in hh && ':' !in mm by {
      assert !IsDigit(':');
    }
    SplitJoin([hh, mm], ':');
    assert Join([hh, mm], [':']) == hh + ":" + mm;
    assert ToNumber(hh) == Num(h);
    assert ToNumber(mm) == Num(m);
    HourOfFormattedTime(h, m);
  }

  /** The stored default time `08:00` shows as the fallback label. */
  lemma DefaultTimeLabel()
    ensures GetTimeLabel(Some(DefaultTime)) == FallbackTimeLabel
  {
    DefaultTimeParts();
    EightOClockLabel(DefaultTime);
  }

  lemma DefaultTimeParts()
    ensures FormatZeroPadded(8, 2) == "08" && FormatZeroPadded(0, 2) == "00" && NatToString(8) == "8"
    ensures DefaultTime == FormatZeroPadded(8, 2) + ":" + FormatZeroPadded(0, 2)
    ensures FallbackTimeLabel == NatToString(8) + (":" + (FormatZeroPadded(0, 2) + (" " + "AM")))
  {
  }

  lemma EightOClockLabel(t: string)
    requires t == FormatZeroPadded(8, 2) + ":" + FormatZeroPadded(0, 2)
    requires FallbackTimeLabel == NatToString(8) + (":" + (FormatZeroPadded(0, 2) + (" " + "AM")))
    ensures GetTimeLabel(Some(t)) == FallbackTimeLabel
  {
    WellFormedTimeLabel(8, 0);
  }

  /** `prev.map(c => c.id === cat.id ? cat : c)`. */
  function ReplaceById(cs: seq<CategoryView>, cat: CategoryView): (r: seq<CategoryView>)
    ensures |r| == |cs|
    ensures forall i :: 0 <= i < |cs| ==> r[i] == if cs[i].id == cat.id then cat else cs[i]
  {
    if cs == [] then [] else [if cs[0].id == cat.id then cat else cs[0]] + ReplaceById(cs[1..], cat)
  }

  /** Saving an edit of a category no longer in the list leaves the list as it was. */
  lemma ReplaceMissingId(cs: seq<CategoryView>, cat: CategoryView)
    requires forall i :: 0 <= i < |cs| ==> cs[i].id != cat.id
    ensures ReplaceById(cs, cat) == cs
  {
  }

  /** Saving the same edit twice has the effect of saving it once. */
  lemma ReplaceIdempotent(cs: seq<CategoryView>, cat: CategoryView)
    ensures ReplaceById(ReplaceById(cs, cat), cat) == ReplaceById(cs, cat)
  {
  }

  class SettingsPage {
    /** `settings.notificationDays`; `None` stands for `null`. */
    var notificationDays: Option<seq<int>>
    var categories: seq<CategoryView>
    var editingCategory: Option<CategoryView>
    var showCategoryModal: bool

    constructor()
      ensures notificationDays == Some([7, 3, 1]) && categories == [] && editingCategory == None && !showCategoryModal
    {
      notificationDays := Some([7, 3, 1]);
      categories := [];
      editingCategory := None;
      showCategoryModal := false;
    }

    /** A day button: the settings take the toggled list. */
    method ToggleDay(day: int)
      modifies this
      ensures notificationDays == Some(ToggleNotificationDay(old(notificationDays), day))
      ensures categories == old(categories) && editingCategory == old(editingCategory)
      ensures showCategoryModal == old(showCategoryModal)
    {
      notificationDays := Some(ToggleNotificationDay(notificationDays, day));
    }

    /**
     * The summary under the day buttons. Rendering a non-empty list sorts the
     * settings' own list largest first, in place, before phrasing it.
     */
    method RenderDaysSummary() returns (text: string)
      modifies this
      ensures old(notificationDays).Some? && |old(notificationDays).value| > 0 ==>
        && notificationDays == Some(SortBy(old(notificationDays).value, Descending))
        && text == SummaryText(notificationDays.value)
      ensures !(old(notificationDays).Some? && |old(notificationDays).value| > 0) ==>
        notificationDays == old(notificationDays) && text == NoDaysText
      ensures categories == old(categories) && editingCategory == old(editingCategory)
      ensures showCategoryModal == old(showCategoryModal)
    {
      if notificationDays.Some? && |notificationDays.value| > 0 {
        notificationDays := Some(SortBy(notificationDays.value, Descending));
        text := SummaryText(notificationDays.value);
      } else {
        text := NoDaysText;
      }
    }

    /** The category dialog's `onSave`: an edit replaces by id, a new category is appended; the dialog closes. */
    method OnSave(cat: CategoryView)
      modifies this
      ensures categories == if old(editingCategory).Some? then ReplaceById(old(categories), cat) else old(categories) + [cat]
      ensures !showCategoryModal
      ensures notificationDays == old(notificationDays) && editingCategory == old(editingCategory)
    {
      if editingCategory.Some? {
        categories := ReplaceById(categories, cat);
      } else {
        categories := categories + [cat];
      }
      showCategoryModal := false;
    }
  }
}
