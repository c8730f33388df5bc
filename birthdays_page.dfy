/**
 * The Birthdays page: the list the user filters by a name search, a category
 * and the "upcoming" switch, shown soonest first, with a delete action and the
 * import dialog.
 */
module BirthdaysPageModel {
  import opened Wrappers
  import opened Text
  import opened Seqs
  import opened PageViews
  import opened ImportDialog

  /** The time filter buttons: 'all' or 'upcoming'. */
  datatype TimeFilter = All | Upcoming

  /** `selectedCategory` is truthy: a category id other than `0`. */
  predicate CategoryActive(selected: Option<int>) {
    selected.Some? && selected.value != 0
  }

  predicate NameMatches(b: BirthdayView, query: string) {
    Contains(Lower(b.friendName), Lower(query))
  }

  predicate IsUpcoming(b: BirthdayView) {
    b.daysUntilBirthday <= 30
  }

  /** The search step of `filterBirthdays`. */
  function ByName(bs: seq<BirthdayView>, query: string): seq<BirthdayView> {
    Filter(bs, b => NameMatches(b, query))
  }

  /** The category step: `b.categoryId === selectedCategory`, where a missing category never matches. */
  function ByCategory(bs: seq<BirthdayView>, category: int): seq<BirthdayView> {
    Filter(bs, (b: BirthdayView) => b.categoryId == Some(category))
  }

  /** The time step. */
  function ByTime(bs: seq<BirthdayView>): seq<BirthdayView> {
    Filter(bs, IsUpcoming)
  }

  /** The search control passes a record: no search, or its name matches. */
  predicate PassesSearch(b: BirthdayView, query: string) {
    query != [] ==> NameMatches(b, query)
  }

  /** The category control passes a record: no category selected, or the record is in it. */
  predicate PassesCategory(b: BirthdayView, selected: Option<int>) {
    CategoryActive(selected) ==> b.categoryId == Some(selected.value)
  }

  /** The time control passes a record: 'all', or the birthday is at most 30 days away. */
  predicate PassesTime(b: BirthdayView, filter: TimeFilter) {
    filter == Upcoming ==> IsUpcoming(b)
  }

  /** Whether a record is on screen: every control passes it. */
  predicate Shown(b: BirthdayView, query: string, selected: Option<int>, filter: TimeFilter) {
    PassesSearch(b, query) && PassesCategory(b, selected) && PassesTime(b, filter)
  }

  /** The records on screen, in list order. */
  function Visible(bs: seq<BirthdayView>, query: string, selected: Option<int>, filter: TimeFilter): seq<BirthdayView> {
    Filter(bs, b => Shown(b, query, selected, filter))
  }

  /** What `filterBirthdays` puts on screen: the visible records, soonest first. */
  function Filtered(bs: seq<BirthdayView>, query: string, selected: Option<int>, filter: TimeFilter): seq<BirthdayView> {
    SortBy(Visible(bs, query, selected, filter), DaysKey)
  }

  lemma SearchStep(bs: seq<BirthdayView>, query: string)
    ensures (if query != [] then ByName(bs, query) else bs) == Filter(bs, (b: BirthdayView) => PassesSearch(b, query))
  {
    if query != [] {
      FilterSame(bs, (b: BirthdayView) => NameMatches(b, query), (b: BirthdayView) => PassesSearch(b, query));
    } else {
      FilterAll(bs, (b: BirthdayView) => PassesSearch(b, query));
    }
  }

  lemma CategoryStep(bs: seq<BirthdayView>, selected: Option<int>)
    ensures (if CategoryActive(selected) then ByCategory(bs, selected.value) else bs) ==
      Filter(bs, (b: BirthdayView) => PassesCategory(b, selected))
  {
    if CategoryActive(selected) {
      FilterSame(bs, (b: BirthdayView) => b.categoryId == Some(selected.value), (b: BirthdayView) => PassesCategory(b, selected));
    } else {
      FilterAll(bs, (b: BirthdayView) => PassesCategory(b, selected));
    }
  }

  lemma TimeStep(bs: seq<BirthdayView>, filter: TimeFilter)
    ensures (if filter == Upcoming then ByTime(bs) else bs) == Filter(bs, (b: BirthdayView) => PassesTime(b, filter))
  {
    if filter == Upcoming {
      FilterSame(bs, IsUpcoming, (b: BirthdayView) => PassesTime(b, filter));
    } else {
      FilterAll(bs, (b: BirthdayView) => PassesTime(b, filter));
    }
  }

  /** The three filter steps, each applied only when its control is set, keep exactly the visible records. */
  lemma StepsKeepVisible(bs: seq<BirthdayView>, query: string, selected: Option<int>, filter: TimeFilter)
    ensures
      var s1 := if query != [] then ByName(bs, query) else bs;
      var s2 := if CategoryActive(selected) then ByCategory(s1, selected.value) else s1;
      var s3 := if filter == Upcoming then ByTime(s2) else s2;
      s3 == Visible(bs, query, selected, filter)
  {
    var s1 := if query != [] then ByName(bs, query) else bs;
    var s2 := if CategoryActive(selected) then ByCategory(s1, selected.value) else s1;
    SearchStep(bs, query);
    CategoryStep(s1, selected);
    TimeStep(s2, filter);
    FilterConj(bs, (b: BirthdayView) => PassesSearch(b, query), (b: BirthdayView) => PassesCategory(b, selected),
      (b: BirthdayView) => PassesSearch(b, query) && PassesCategory(b, selected));
    FilterConj(bs, (b: BirthdayView) => PassesSearch(b, query) && PassesCategory(b, selected),
      (b: BirthdayView) => PassesTime(b, filter), (b: BirthdayView) => Shown(b, query, selected, filter));
  }

  /** The list is sorted soonest first and holds nothing the page did not load. */
  lemma FilteredSortedSubset(bs: seq<BirthdayView>, query: string, selected: Option<int>, filter: TimeFilter)
    ensures SortedBy(Filtered(bs, query, selected, filter), DaysKey)
    ensures multiset(Filtered(bs, query, selected, filter)) <= multiset(bs)
  {
    SortByProperties(Visible(bs, query, selected, filter), DaysKey);
    FilterSubMultiset(bs, b => Shown(b, query, selected, filter));
  }

  /** Each record shows up exactly as often as it was loaded when it passes the filters, and never otherwise. */
  lemma FilteredExactly(bs: seq<BirthdayView>, query: string, selected: Option<int>, filter: TimeFilter, x: BirthdayView)
    ensures multiset(Filtered(bs, query, selected, filter))[x] ==
      if Shown(x, query, selected, filter) then multiset(bs)[x] else 0
  {
    SortByProperties(Visible(bs, query, selected, filter), DaysKey);
    FilterMultiset(bs, b => Shown(b, query, selected, filter), x);
  }

  /** With no search, no category and 'all', every loaded record is on screen. */
  lemma NoFilterPermutation(bs: seq<BirthdayView>)
    ensures multiset(Filtered(bs, "", None, All)) == multiset(bs)
  {
    FilterAll(bs, b => Shown(b, "", None, All));
    SortByProperties(Visible(bs, "", None, All), DaysKey);
  }

  /** Records with the same number of days keep the order in which they were loaded. */
  lemma FilteredStable(bs: seq<BirthdayView>, query: string, selected: Option<int>, filter: TimeFilter, days: int)
    ensures WithKey(Filtered(bs, query, selected, filter), DaysKey, days) ==
      WithKey(Visible(bs, query, selected, filter), DaysKey, days)
  {
    SortByStable(Visible(bs, query, selected, filter), DaysKey, days);
  }

  /** Filtering the shown list again with the same controls shows the same list. */
  lemma FilteredIdempotent(bs: seq<BirthdayView>, query: string, selected: Option<int>, filter: TimeFilter)
    ensures Filtered(Filtered(bs, query, selected, filter), query, selected, filter) == Filtered(bs, query, selected, filter)
  {
    var p: BirthdayView -> bool := b => Shown(b, query, selected, filter);
    var v := Visible(bs, query, selected, filter);
    var r := SortBy(v, DaysKey);
    SortByProperties(v, DaysKey);
    forall i | 0 <= i < |r| ensures p(r[i]) {
      assert r[i] in multiset(v);
    }
    FilterAll(r, p);
    SortBySorted(r, DaysKey);
  }

  /** The records without the given id, in their order. */
  function WithoutId(bs: seq<BirthdayView>, id: int): seq<BirthdayView> {
    Filter(bs, (b: BirthdayView) => b.id != id)
  }

  /** A delete drops every record with the id and keeps each other record as often as it was there. */
  lemma WithoutIdExactly(bs: seq<BirthdayView>, id: int, x: BirthdayView)
    ensures multiset(WithoutId(bs, id))[x] == if x.id != id then multiset(bs)[x] else 0
    ensures x in WithoutId(bs, id) <==> x in bs && x.id != id
  {
    FilterMultiset(bs, (b: BirthdayView) => b.id != id, x);
  }

  /** The remaining records keep their order: dropping distributes over the parts of the list. */
  lemma WithoutIdKeepsOrder(a: seq<BirthdayView>, b: seq<BirthdayView>, id: int)
    ensures WithoutId(a + b, id) == WithoutId(a, id) + WithoutId(b, id)
  {
    FilterAppend(a, b, (r: BirthdayView) => r.id != id);
  }

  /** The Birthdays page's badge classes for two to seven days, up to 30 days, and later. */
  const WeekClass: string := "text-green-400 bg-green-500/20"
  const MonthClass: string := "text-yellow-400 bg-yellow-500/20"
  const LaterClass: string := "text-dark-300 bg-dark-600"

  /** The Birthdays page's `getDaysLabel`. */
  function GetDaysLabel(days: int): (r: DaysLabel)
    ensures r.text == DaysText(days)
  {
    if days == 0 then DaysLabel("Today!", TodayClass)
    else if days == 1 then DaysLabel("Tomorrow", TomorrowClass)
    else if days <= 7 then DaysLabel(DaysText(days), WeekClass)
    else if days <= 30 then DaysLabel(DaysText(days), MonthClass)
    else DaysLabel(DaysText(days), LaterClass)
  }

  /** Past "Tomorrow", the three ranges each get their own class and all read "N days". */
  lemma LabelRanges(days: int)
    requires days != 0 && days != 1
    ensures GetDaysLabel(days).text[|GetDaysLabel(days).text| - 5..] == " days"
    ensures GetDaysLabel(days).className == WeekClass <==> days <= 7
    ensures GetDaysLabel(days).className == MonthClass <==> 7 < days <= 30
    ensures GetDaysLabel(days).className == LaterClass <==> 30 < days
  {
    assert WeekClass[5] != MonthClass[5] && WeekClass[5] != LaterClass[5] && MonthClass[5] != LaterClass[5];
  }

  class BirthdaysPage {
    var birthdays: seq<BirthdayView>
    var filteredBirthdays: seq<BirthdayView>
    var searchQuery: string
    var filter: TimeFilter
    var selectedCategory: Option<int>
    /** The id whose delete confirmation is open. */
    var showDeleteModal: Option<int>

    constructor()
      ensures birthdays == [] && filteredBirthdays == [] && searchQuery == [] && filter == All
      ensures selectedCategory == None && showDeleteModal == None
    {
      birthdays, filteredBirthdays := [], [];
      searchQuery, filter, selectedCategory := [], All, None;
      showDeleteModal := None;
    }

    /**
     * `filterBirthdays`: starting from a copy of the loaded list, each set
     * control narrows it in turn, then the list is sorted by days, stably.
     */
    method FilterBirthdays()
      modifies this
      ensures filteredBirthdays == Filtered(birthdays, searchQuery, selectedCategory, filter)
      ensures birthdays == old(birthdays) && searchQuery == old(searchQuery) && filter == old(filter)
      ensures selectedCategory == old(selectedCategory) && showDeleteModal == old(showDeleteModal)
    {
      var filtered := birthdays;
      if searchQuery != [] {
        filtered := ByName(filtered, searchQuery);
      }
      if CategoryActive(selectedCategory) {
        filtered := ByCategory(filtered, selectedCategory.value);
      }
      if filter == Upcoming {
        filtered := ByTime(filtered);
      }
      StepsKeepVisible(birthdays, searchQuery, selectedCategory, filter);
      filtered := SortBy(filtered, DaysKey);
      filteredBirthdays := filtered;
    }

    /**
     * `handleDelete`: when the delete request succeeds (`deleted`), the
     * records with that id leave the list; either way the confirmation closes.
     */
    method HandleDelete(id: int, deleted: bool)
      modifies this
      ensures birthdays == if deleted then WithoutId(old(birthdays), id) else old(birthdays)
      ensures showDeleteModal == None
      ensures filteredBirthdays == old(filteredBirthdays) && searchQuery == old(searchQuery)
      ensures filter == old(filter) && selectedCategory == old(selectedCategory)
    {
      if deleted {
        birthdays := WithoutId(birthdays, id);
      }
      showDeleteModal := None;
    }

    /** The import button: this page's dialog also takes files named `*.csv`. */
    method OpenImportModal() returns (m: ImportModal)
      ensures fresh(m) && m.lenient && m.file == None && m.result == None && !m.importing
    {
      m := new ImportModal(true);
    }
  }
}
