/**
 * `BirthdayService` over an in-memory birthday table: create, update and
 * delete, the upcoming-birthdays query, the CSV import, the iCalendar export
 * and the dashboard analytics. The category table is read, never written.
 */
module BirthdayServiceModel {
  import opened Wrappers
  import opened Text
  import opened Numbers
  import opened Dates
  import opened Seqs
  import opened Users
  import opened CategoryEntity
  import opened BirthdayEntity
  import opened BirthdayRequestRules
  import opened CsvImport
  import opened ICalendar
  import opened Analytics

  // --------------------------------------------------------------- queries

  /** `categoryRepository.findByIdAndUser(id, user).orElse(null)`, reduced to the id it yields. */
  function OwnedCategory(categories: seq<Category>, id: Option<int>, user: UserId): (r: Option<int>)
    ensures r.Some? <==> id.Some? && exists c :: c in categories && c.id == id.value && c.owner == user
    ensures r.Some? ==> r == id
  {
    if id.Some? && exists c :: c in categories && c.id == id.value && c.owner == user then id else None
  }

  /** The name of the category with id `id`, found by a search of the table (`CategoryNameOfSpec`). */
  function CategoryNameOf(categories: seq<Category>, id: Option<int>): Option<string> {
    if id.None? || categories == [] then None
    else if categories[0].id == id.value then Some(categories[0].name)
    else CategoryNameOf(categories[1..], id)
  }

  /** A name is given exactly when the table holds the id, and it is the name of a category with that id. */
  lemma {:induction false} CategoryNameOfSpec(categories: seq<Category>, id: Option<int>)
    ensures var r := CategoryNameOf(categories, id);
      && (r.Some? <==> id.Some? && exists c :: c in categories && c.id == id.value)
      && (r.Some? ==> exists c :: c in categories && Some(c.id) == id && c.name == r.value)
  {
    if id.Some? && categories != [] && categories[0].id != id.value {
      CategoryNameOfSpec(categories[1..], id);
      assert forall c :: c in categories && c.id == id.value ==> c in categories[1..];
    }
  }

  /** `findByIdAndUser(id, user)` on the birthday table: the position of the record. */
  function IndexOf(bs: seq<Birthday>, id: int, user: UserId): (r: Option<nat>)
    ensures r.Some? ==> r.value < |bs| && bs[r.value].id == id && bs[r.value].owner == user
    ensures r.None? ==> forall i :: 0 <= i < |bs| ==> !(bs[i].id == id && bs[i].owner == user)
  {
    if bs == [] then None
    else if bs[0].id == id && bs[0].owner == user then Some(0)
    else match IndexOf(bs[1..], id, user)
      case Some(i) => Some(i + 1)
      case None => None
  }

  /** Removing one record of a table whose ids are distinct and below `nextId` keeps that so, and leaves no record with its id. */
  lemma RemoveAt(bs: seq<Birthday>, i: nat, nextId: int)
    requires i < |bs|
    requires forall k :: 0 <= k < |bs| ==> 1 <= bs[k].id < nextId
    requires forall k, l :: 0 <= k < l < |bs| ==> bs[k].id != bs[l].id
    ensures var r := bs[..i] + bs[i + 1..];
      && (forall k :: 0 <= k < |r| ==> 1 <= r[k].id < nextId)
      && (forall k, l :: 0 <= k < l < |r| ==> r[k].id != r[l].id)
      && (forall b :: b in r ==> b.id != bs[i].id)
  {
    var r := bs[..i] + bs[i + 1..];
    forall k | 0 <= k < |r| ensures r[k] == bs[if k < i then k else k + 1] {
    }
    forall b | b in r ensures b.id != bs[i].id {
      var k :| 0 <= k < |r| && r[k] == b;
    }
  }

  /** `findByUserOrderByBirthDateAsc` */
  function OwnedByBirthDate(bs: seq<Birthday>, user: UserId): seq<Birthday> {
    SortBy(Filter(bs, (b: Birthday) => b.owner == user), (b: Birthday) => EpochDay(b.birthDate))
  }

  /** `findByUserAndIsActiveTrueOrderByBirthDateAsc` */
  function ActiveByBirthDate(bs: seq<Birthday>, user: UserId): seq<Birthday> {
    SortBy(Filter(bs, (b: Birthday) => b.owner == user && b.isActive), (b: Birthday) => EpochDay(b.birthDate))
  }

  /** Whether the upcoming birthday lies in `[today, end]`, the test of `getUpcomingBirthdays`. */
  predicate InWindow(b: Birthday, today: CalendarDate, end: CalendarDate) {
    !IsBefore(UpcomingBirthday(b, today), today) && !IsBefore(end, UpcomingBirthday(b, today))
  }

  /**
   * `getUpcomingBirthdays(user, days)`: the user's active birthdays whose next
   * occurrence is at most `days` days away, nearest first.
   */
  function Upcoming(bs: seq<Birthday>, user: UserId, days: int, today: CalendarDate): seq<Birthday> {
    var end := PlusDays(today, days);
    SortBy(Filter(ActiveByBirthDate(bs, user), (b: Birthday) => InWindow(b, today, end)),
           (b: Birthday) => DaysUntilBirthday(b, today))
  }

  /** The date window is exactly "at most `days` days away". */
  lemma InWindowIffDays(b: Birthday, today: CalendarDate, days: int)
    ensures InWindow(b, today, PlusDays(today, days)) <==> DaysUntilBirthday(b, today) <= days
  {
    var up := UpcomingBirthday(b, today);
    var end := PlusDays(today, days);
    PlusDaysCount(today, days);
    EpochDayOrder(end, up);
  }

  /**
   * The upcoming list holds exactly the user's active birthdays at most `days`
   * days away, each once per record, sorted by days until the birthday.
   */
  lemma UpcomingSpec(bs: seq<Birthday>, user: UserId, days: int, today: CalendarDate)
    ensures forall b :: b in Upcoming(bs, user, days, today) <==>
      b in bs && b.owner == user && b.isActive && DaysUntilBirthday(b, today) <= days
    ensures SortedBy(Upcoming(bs, user, days, today), (b: Birthday) => DaysUntilBirthday(b, today))
    ensures multiset(Upcoming(bs, user, days, today)) <= multiset(bs)
  {
    var end := PlusDays(today, days);
    var owned := Filter(bs, (b: Birthday) => b.owner == user && b.isActive);
    var active := ActiveByBirthDate(bs, user);
    var window := Filter(active, (b: Birthday) => InWindow(b, today, end));
    SortByProperties(owned, (b: Birthday) => EpochDay(b.birthDate));
    SortByProperties(window, (b: Birthday) => DaysUntilBirthday(b, today));
    FilterSubMultiset(bs, (b: Birthday) => b.owner == user && b.isActive);
    FilterSubMultiset(active, (b: Birthday) => InWindow(b, today, end));
    forall b ensures b in Upcoming(bs, user, days, today) <==>
      b in bs && b.owner == user && b.isActive && DaysUntilBirthday(b, today) <= days
    {
      InWindowIffDays(b, today, days);
      assert b in Upcoming(bs, user, days, today) <==> b in window by {
        assert b in multiset(Upcoming(bs, user, days, today)) <==> b in multiset(window);
      }
      assert b in active <==> b in owned by {
        assert b in multiset(active) <==> b in multiset(owned);
      }
    }
  }

  /** Records as saved: the `k`-th one gets the id `firstId + k`. */
  function WithIds(records: seq<Birthday>, firstId: int): (r: seq<Birthday>)
    ensures |r| == |records|
    ensures forall k :: 0 <= k < |records| ==> r[k] == records[k].(id := firstId + k)
  {
    if records == [] then [] else [records[0].(id := firstId)] + WithIds(records[1..], firstId + 1)
  }

  lemma WithIdsSnoc(records: seq<Birthday>, b: Birthday, firstId: int)
    ensures WithIds(records + [b], firstId) == WithIds(records, firstId) + [b.(id := firstId + |records|)]
  {
    assert |WithIds(records + [b], firstId)| == |records| + 1;
  }

  /** The category names in the order of `bs`, one per birthday (`CategoryNamesAt`). */
  function CategoryNames(categories: seq<Category>, bs: seq<Birthday>): (r: seq<Option<string>>)
    ensures |r| == |bs|
  {
    if bs == [] then [] else [CategoryNameOf(categories, bs[0].categoryId)] + CategoryNames(categories, bs[1..])
  }

  /** One more birthday adds the name of its category at the end. */
  lemma {:induction false} CategoryNamesSnoc(categories: seq<Category>, bs: seq<Birthday>, b: Birthday)
    ensures CategoryNames(categories, bs + [b]) == CategoryNames(categories, bs) + [CategoryNameOf(categories, b.categoryId)]
  {
    if bs != [] {
      assert (bs + [b])[1..] == bs[1..] + [b];
      CategoryNamesSnoc(categories, bs[1..], b);
    }
  }

  /** The key of the category distribution for one birthday. */
  function CategoryLabel(categories: seq<Category>, b: Birthday): string {
    match CategoryNameOf(categories, b.categoryId)
    case Some(name) => name
    case None => "Uncategorized"
  }

  function CategoryLabels(categories: seq<Category>, bs: seq<Birthday>): (r: seq<string>)
    ensures |r| == |bs|
    ensures forall k :: 0 <= k < |bs| ==> r[k] == CategoryLabel(categories, bs[k])
  {
    if bs == [] then [] else [CategoryLabel(categories, bs[0])] + CategoryLabels(categories, bs[1..])
  }

  /** The map `importFromCsv` returns. */
  datatype ImportResult = ImportResult(imported: seq<Birthday>, importedCount: nat, errors: seq<string>, errorCount: nat)

  /** The map `getAnalytics` returns; the two ordered maps are lists of (key, count) pairs. */
  datatype AnalyticsResult = AnalyticsResult(
    monthlyDistribution: seq<(string, nat)>,
    categoryDistribution: map<string, nat>,
    upcomingIn7Days: nat,
    upcomingIn30Days: nat,
    upcomingIn90Days: nat,
    totalBirthdays: nat,
    activeBirthdays: nat,
    ageDistribution: seq<(string, nat)>)

  function Values(d: seq<(string, nat)>): (r: seq<nat>)
    ensures |r| == |d| && forall k :: 0 <= k < |d| ==> r[k] == d[k].1
  {
    if d == [] then [] else [d[0].1] + Values(d[1..])
  }

  /** An insertion-ordered map from `keys` to `counts`, as a list of pairs. */
  function Distribution(keys: seq<string>, counts: seq<nat>): (d: seq<(string, nat)>)
    requires |keys| == |counts|
    ensures |d| == |keys| && forall k :: 0 <= k < |keys| ==> d[k] == (keys[k], counts[k])
  {
    seq(|keys|, k requires 0 <= k < |keys| => (keys[k], counts[k]))
  }

  /** The figures `getAnalytics` reports for the birthdays `bs` of a user. */
  function Analyze(bs: seq<Birthday>, categories: seq<Category>, today: CalendarDate): AnalyticsResult {
    AnalyticsResult(
      Distribution(MonthNames, MonthCounts(bs)),
      CategoryCounts(CategoryLabels(categories, bs)),
      UpcomingCount(bs, today, 7),
      UpcomingCount(bs, today, 30),
      UpcomingCount(bs, today, 90),
      |bs|,
      ActiveCount(bs),
      Distribution(AgeBrackets, AgeCounts(bs, today)))
  }

  /**
   * The month distribution lists the twelve months in calendar order, each with
   * the number of birthdays in it, and so adds up to the total.
   */
  lemma MonthlySpec(bs: seq<Birthday>, categories: seq<Category>, today: CalendarDate)
    ensures var a := Analyze(bs, categories, today);
      && |a.monthlyDistribution| == 12
      && (forall k :: 0 <= k < 12 ==>
            a.monthlyDistribution[k].0 == MonthNames[k] && a.monthlyDistribution[k].1 == Count(bs, (b: Birthday) => MonthIndex(b) == k))
      && Sum(Values(a.monthlyDistribution)) == a.totalBirthdays == |bs|
  {
    var d := Distribution(MonthNames, MonthCounts(bs));
    DistributionsSum(bs, today);
    assert Values(d) == MonthCounts(bs);
    forall k | 0 <= k < 12 ensures MonthCounts(bs)[k] == Count(bs, (b: Birthday) => MonthIndex(b) == k) {
      TallyCount(bs, MonthIndex, 12, k, (b: Birthday) => MonthIndex(b) == k);
    }
  }

  /**
   * The age distribution lists the five brackets in order, each with the
   * number of birthdays whose current age falls in it, and so adds up to the total.
   */
  lemma AgeSpec(bs: seq<Birthday>, categories: seq<Category>, today: CalendarDate)
    ensures var a := Analyze(bs, categories, today);
      && |a.ageDistribution| == 5
      && (forall k :: 0 <= k < 5 ==>
            a.ageDistribution[k].0 == AgeBrackets[k] && a.ageDistribution[k].1 == Count(bs, (b: Birthday) => AgeBracket(CalculateAge(b, today)) == k))
      && Sum(Values(a.ageDistribution)) == a.totalBirthdays == |bs|
  {
    var d := Distribution(AgeBrackets, AgeCounts(bs, today));
    DistributionsSum(bs, today);
    assert Values(d) == AgeCounts(bs, today);
    forall k | 0 <= k < 5 ensures AgeCounts(bs, today)[k] == Count(bs, (b: Birthday) => AgeBracket(CalculateAge(b, today)) == k) {
      TallyCount(bs, (b: Birthday) => AgeBracket(CalculateAge(b, today)), 5, k,
                 (b: Birthday) => AgeBracket(CalculateAge(b, today)) == k);
    }
  }

  /**
   * The category map has "Uncategorized" and the name of every category in
   * use as keys, each counted as often as it occurs.
   */
  lemma CategorySpec(bs: seq<Birthday>, categories: seq<Category>, today: CalendarDate, key: string)
    ensures var a := Analyze(bs, categories, today);
      && (key in a.categoryDistribution <==> key == "Uncategorized" || key in CategoryLabels(categories, bs))
      && (key in a.categoryDistribution ==> a.categoryDistribution[key] == Count(CategoryLabels(categories, bs), x => x == key))
  {
    CategoryCountsSpec(CategoryLabels(categories, bs), key);
  }

  /** The 7/30/90-day windows nest within the active count, itself within the total. */
  lemma WindowsSpec(bs: seq<Birthday>, categories: seq<Category>, today: CalendarDate)
    ensures var a := Analyze(bs, categories, today);
      a.upcomingIn7Days <= a.upcomingIn30Days <= a.upcomingIn90Days <= a.activeBirthdays <= a.totalBirthdays
  {
    UpcomingNested(bs, today);
  }

  /** The total counts exactly the user's birthdays. */
  lemma OwnedCount(bs: seq<Birthday>, user: UserId)
    ensures |OwnedByBirthDate(bs, user)| == Count(bs, (b: Birthday) => b.owner == user)
  {
    SortByProperties(Filter(bs, (b: Birthday) => b.owner == user), (b: Birthday) => EpochDay(b.birthDate));
  }

  /** Every line processed by an import adds one record or one error. */
  lemma ImportAccounts(lines: seq<string>, user: UserId, categories: seq<Category>, parsers: seq<DateParser>)
    ensures var outcomes := Outcomes(DataLines(lines), user, categories, parsers);
      |Records(outcomes)| + |Errors(outcomes)| == |DataLines(lines)|
  {
    OneEntryPerLine(Outcomes(DataLines(lines), user, categories, parsers));
  }

  // ----------------------------------------------------------------- table

  class BirthdayService {
    /** The birthday table, every user's records together. */
    var birthdays: seq<Birthday>
    /** The category table, read for lookups. */
    const categories: seq<Category>
    /** The id the next saved record receives. */
    var nextId: int

    /**
     * Ids are positive, below `nextId` and distinct; the category table keeps
     * each user's names distinct ignoring case, as the category service does.
     */
    predicate Valid()
      reads this
    {
      && UniqueNamesPerUser(categories)
      && nextId >= 1
      && (forall i :: 0 <= i < |birthdays| ==> 1 <= birthdays[i].id < nextId)
      && (forall i, j :: 0 <= i < j < |birthdays| ==> birthdays[i].id != birthdays[j].id)
    }

    constructor(categories: seq<Category>)
      requires UniqueNamesPerUser(categories)
      ensures Valid()
      ensures this.birthdays == [] && this.categories == categories && nextId == 1
    {
      this.birthdays := [];
      this.categories := categories;
      nextId := 1;
    }

    /** `birthdayRepository.save` of a new record: it receives the next id. */
    method Save(b: Birthday) returns (saved: Birthday)
      requires Valid()
      modifies this
      ensures Valid()
      ensures saved == b.(id := old(nextId))
      ensures birthdays == old(birthdays) + [saved] && nextId == old(nextId) + 1
    {
      saved := b.(id := nextId);
      birthdays := birthdays + [saved];
      nextId := nextId + 1;
    }

    /** `getBirthdayById`: the record with that id when the user owns it. */
    function GetBirthdayById(id: int, user: UserId): (r: Result<Birthday>)
      reads this
      ensures r.Success? ==> r.value in birthdays && r.value.id == id && r.value.owner == user
      ensures r.Failure? ==> (r.error == ResourceNotFound("Birthday", id)
                               && forall b :: b in birthdays ==> !(b.id == id && b.owner == user))
    {
      match IndexOf(birthdays, id, user)
      case Some(i) => Success(birthdays[i])
      case None => Failure(ResourceNotFound("Birthday", id))
    }

    /**
     * `createBirthday`: the request's fields, the category only when the user
     * owns it, and `isActive` true unless the request says otherwise.
     */
    method CreateBirthday(request: BirthdayRequest, user: UserId) returns (created: Birthday)
      requires Valid() && ValidBirthdayRequest(request)
      modifies this
      ensures Valid()
      ensures birthdays == old(birthdays) + [created] && nextId == old(nextId) + 1
      ensures created.id == old(nextId) && created.owner == user
      ensures created.friendName == request.friendName.value && created.birthDate == request.birthDate.value
      ensures created.friendEmail == request.friendEmail && created.notes == request.notes
      ensures created.categoryId == OwnedCategory(categories, request.categoryId, user)
      ensures created.isActive == request.isActive.GetOr(true)
    {
      var category: Option<int> := None;
      if request.categoryId.Some? {
        category := OwnedCategory(categories, request.categoryId, user);
      }
      var b := Birthday(0, user, category, request.friendName.value, request.birthDate.value,
                        request.friendEmail, request.notes, request.isActive.GetOr(true));
      created := Save(b);
    }

    /**
     * `updateBirthday`: name, date, email and notes are replaced; the category
     * is cleared when the request has none or one the user does not own;
     * `isActive` changes only when the request holds a value.
     */
    method UpdateBirthday(id: int, request: BirthdayRequest, user: UserId) returns (r: Result<Birthday>)
      requires Valid() && ValidBirthdayRequest(request)
      modifies this
      ensures Valid()
      ensures nextId == old(nextId)
      ensures match IndexOf(old(birthdays), id, user)
        case None =>
          r == Failure(ResourceNotFound("Birthday", id)) && birthdays == old(birthdays)
        case Some(i) =>
          var before := old(birthdays)[i];
          && r.Success? && birthdays == old(birthdays)[i := r.value]
          && r.value.id == before.id && r.value.owner == before.owner
          && r.value.friendName == request.friendName.value && r.value.birthDate == request.birthDate.value
          && r.value.friendEmail == request.friendEmail && r.value.notes == request.notes
          && r.value.categoryId == OwnedCategory(categories, request.categoryId, user)
          && r.value.isActive == request.isActive.GetOr(before.isActive)
    {
      var found := IndexOf(birthdays, id, user);
      if found.None? {
        return Failure(ResourceNotFound("Birthday", id));
      }
      var i := found.value;
      var b := birthdays[i];
      b := b.(friendName := request.friendName.value, birthDate := request.birthDate.value,
              friendEmail := request.friendEmail, notes := request.notes);
      if request.categoryId.Some? {
        b := b.(categoryId := OwnedCategory(categories, request.categoryId, user));
      } else {
        b := b.(categoryId := None);
      }
      if request.isActive.Some? {
        b := b.(isActive := request.isActive.value);
      }
      birthdays := birthdays[i := b];
      r := Success(b);
    }

    /** `deleteBirthday`: the user's record with that id is removed, the others keep their order. */
    method DeleteBirthday(id: int, user: UserId) returns (r: Option<Error>)
      requires Valid()
      modifies this
      ensures Valid()
      ensures nextId == old(nextId)
      ensures match IndexOf(old(birthdays), id, user)
        case None => r == Some(ResourceNotFound("Birthday", id)) && birthdays == old(birthdays)
        case Some(i) => r.None? && birthdays == old(birthdays)[..i] + old(birthdays)[i + 1..]
      ensures forall b :: b in birthdays ==> !(b.id == id && b.owner == user)
    {
      var found := IndexOf(birthdays, id, user);
      if found.None? {
        return Some(ResourceNotFound("Birthday", id));
      }
      var i := found.value;
      RemoveAt(birthdays, i, nextId);
      birthdays := birthdays[..i] + birthdays[i + 1..];
      r := None;
    }

    /**
     * `importFromCsv` over the lines of the file: every data line is saved as a
     * record or reported as an error, in file order.
     */
    method ImportFromCsv(lines: seq<string>, user: UserId, parsers: seq<DateParser>) returns (result: ImportResult)
      requires Valid()
      modifies this
      ensures Valid()
      ensures result.imported == WithIds(FileRecords(lines, user, categories, parsers), old(nextId))
      ensures result.errors == FileErrors(lines, user, categories, parsers)
      ensures result.importedCount == |result.imported| && result.errorCount == |result.errors|
      ensures birthdays == old(birthdays) + result.imported && nextId == old(nextId) + |result.imported|
    {
      var imported, errors := ImportLines(lines, user, parsers);
      result := ImportResult(imported, |imported|, errors, |errors|);
    }

    /** The line loop of `importFromCsv`: every line in order, the records saved as they are built. */
    method ImportLines(lines: seq<string>, user: UserId, parsers: seq<DateParser>)
      returns (imported: seq<Birthday>, errors: seq<string>)
      requires Valid()
      modifies this
      ensures Valid()
      ensures imported == WithIds(FileRecords(lines, user, categories, parsers), old(nextId))
      ensures errors == FileErrors(lines, user, categories, parsers)
      ensures birthdays == old(birthdays) + imported && nextId == old(nextId) + |imported|
    {
      imported, errors := [], [];
      var isHeader := true;
      for lineNumber := 0 to |lines|
        invariant Valid()
        invariant isHeader == AllBlank(lines[..lineNumber], IsBlank)
        invariant imported == WithIds(FileRecords(lines[..lineNumber], user, categories, parsers), old(nextId))
        invariant errors == FileErrors(lines[..lineNumber], user, categories, parsers)
        invariant birthdays == old(birthdays) + imported && nextId == old(nextId) + |imported|
      {
        isHeader, imported, errors := ImportLine(lines, lineNumber, isHeader, user, parsers, old(birthdays), old(nextId), imported, errors);
      }
      TakeAll(lines);
    }

    /** One pass of the import loop, over line `lineNumber` (counted from 0). */
    method ImportLine(lines: seq<string>, lineNumber: nat, isHeader: bool, user: UserId, parsers: seq<DateParser>,
                      ghost stored: seq<Birthday>, ghost firstId: int, imported: seq<Birthday>, errors: seq<string>)
      returns (isHeader': bool, imported': seq<Birthday>, errors': seq<string>)
      requires lineNumber < |lines|
      requires Valid()
      requires isHeader == AllBlank(lines[..lineNumber], IsBlank)
      requires imported == WithIds(FileRecords(lines[..lineNumber], user, categories, parsers), firstId)
      requires errors == FileErrors(lines[..lineNumber], user, categories, parsers)
      requires birthdays == stored + imported && nextId == firstId + |imported|
      modifies this
      ensures Valid()
      ensures isHeader' == AllBlank(lines[..lineNumber + 1], IsBlank)
      ensures imported' == WithIds(FileRecords(lines[..lineNumber + 1], user, categories, parsers), firstId)
      ensures errors' == FileErrors(lines[..lineNumber + 1], user, categories, parsers)
      ensures birthdays == stored + imported' && nextId == firstId + |imported'|
    {
      ghost var prefix := lines[..lineNumber];
      var line := lines[lineNumber];
      ghost var next := lines[..lineNumber + 1];
      assert next == prefix + [line];
      var outcome;
      outcome, isHeader' := ReadLine(prefix, next, lineNumber + 1, line, isHeader, user, parsers);
      imported', errors' := KeepOutcome(prefix, next, line, outcome, user, parsers, stored, firstId, imported, errors);
    }

    /** The end of one pass of the import loop: a record is saved and counted, a message is added to the errors. */
    method KeepOutcome(ghost prefix: seq<string>, ghost next: seq<string>, line: string, outcome: Option<LineOutcome>, user: UserId, parsers: seq<DateParser>,
                       ghost stored: seq<Birthday>, ghost firstId: int, imported: seq<Birthday>, errors: seq<string>)
      returns (imported': seq<Birthday>, errors': seq<string>)
      requires Valid()
      requires imported == WithIds(FileRecords(prefix, user, categories, parsers), firstId)
      requires errors == FileErrors(prefix, user, categories, parsers)
      requires birthdays == stored + imported && nextId == firstId + |imported|
      requires next == prefix + [line]
      requires FileRecords(next, user, categories, parsers)
        == FileRecords(prefix, user, categories, parsers) + (if outcome.Some? && outcome.value.Imported? then [outcome.value.record] else [])
      requires FileErrors(next, user, categories, parsers)
        == FileErrors(prefix, user, categories, parsers) + (if outcome.Some? && outcome.value.Rejected? then [outcome.value.message] else [])
      modifies this
      ensures Valid()
      ensures imported' == WithIds(FileRecords(next, user, categories, parsers), firstId)
      ensures errors' == FileErrors(next, user, categories, parsers)
      ensures birthdays == stored + imported' && nextId == firstId + |imported'|
    {
      imported', errors' := imported, errors;
      match outcome
      case None =>
        assert FileRecords(prefix, user, categories, parsers) + [] == FileRecords(prefix, user, categories, parsers);
        assert FileErrors(prefix, user, categories, parsers) + [] == FileErrors(prefix, user, categories, parsers);
      case Some(Rejected(message)) =>
        assert FileRecords(prefix, user, categories, parsers) + [] == FileRecords(prefix, user, categories, parsers);
        errors' := errors + [message];
      case Some(Imported(b)) =>
        assert FileErrors(prefix, user, categories, parsers) + [] == FileErrors(prefix, user, categories, parsers);
        ghost var before := FileRecords(prefix, user, categories, parsers);
        var saved := Save(b);
        SavedInOrder(stored, imported, before, b, saved, firstId);
        imported' := imported + [saved];
    }

    /**
     * One pass of the import loop: a blank line, or the first non-blank line
     * when it looks like the header, is skipped (`None`); any other line is
     * processed. `isHeader` says whether every earlier line was blank.
     */
    method ReadLine(ghost prefix: seq<string>, ghost next: seq<string>, lineNumber: nat, line: string, isHeader: bool, user: UserId, parsers: seq<DateParser>)
      returns (outcome: Option<LineOutcome>, stillHeader: bool)
      requires lineNumber == |prefix| + 1 && isHeader == AllBlank(prefix, IsBlank)
      requires next == prefix + [line]
      ensures stillHeader == AllBlank(next, IsBlank)
      ensures outcome.Some? <==> ReadAsData(prefix, line)
      ensures FileRecords(next, user, categories, parsers)
        == FileRecords(prefix, user, categories, parsers) + (if outcome.Some? && outcome.value.Imported? then [outcome.value.record] else [])
      ensures FileErrors(next, user, categories, parsers)
        == FileErrors(prefix, user, categories, parsers) + (if outcome.Some? && outcome.value.Rejected? then [outcome.value.message] else [])
    {
      ImportStep(prefix, line, user, categories, parsers);
      AllBlankSnoc(prefix, line);
      stillHeader := isHeader;
      if IsBlank(line) {
        return None, stillHeader;
      }
      if isHeader {
        stillHeader := false;
        if LooksLikeHeader(line) {
          return None, stillHeader;
        }
      }
      var processed := ProcessDataLine(lineNumber, line, user, parsers);
      outcome := Some(processed);
    }

    /**
     * The body of the import loop for a data line, up to the save: split the
     * line, check the name and the date, pick the optional columns.
     */
    method ProcessDataLine(lineNumber: nat, line: string, user: UserId, parsers: seq<DateParser>) returns (outcome: LineOutcome)
      ensures outcome == ProcessLine(NumberedLine(lineNumber, line), user, categories, parsers)
    {
      var parts := ParseCsvLine(line);
      if |parts| < 2 {
        return Rejected(LinePrefix(lineNumber) + InvalidFormat);
      }
      var friendName := Trim(parts[0]);
      if friendName == [] {
        return Rejected(LinePrefix(lineNumber) + NameRequired);
      }
      var birthDate := ParseDate(parsers, Trim(parts[1]));
      if birthDate.None? {
        return Rejected(LinePrefix(lineNumber) + InvalidDate);
      }
      outcome := Imported(NewRecord(parts, user, categories, friendName, birthDate.value));
    }

    /**
     * `exportToICal(user)`: the calendar of the user's active birthdays in
     * birth-date order, each content line ended by CRLF.
     */
    method ExportToICal(user: UserId, today: CalendarDate) returns (ical: string)
      ensures var bs := ActiveByBirthDate(birthdays, user);
        ical == Crlf(CalendarLines(bs, CategoryNames(categories, bs), today))
    {
      ical := WriteCalendar(categories, ActiveByBirthDate(birthdays, user), today);
    }

    /**
     * `getAnalytics(user)`: per-month, per-category and per-age counts over the
     * user's birthdays in birth-date order, and the 7/30/90-day counts over the
     * active ones. What these figures mean is stated by `MonthlySpec`, `AgeSpec`,
     * `CategorySpec` and `WindowsSpec`.
     */
    method GetAnalytics(user: UserId, today: CalendarDate) returns (a: AnalyticsResult)
      ensures a == Analyze(OwnedByBirthDate(birthdays, user), categories, today)
    {
      var bs := OwnedByBirthDate(birthdays, user);
      var months := MonthlyCounts(bs);
      var byCategory := CountByCategory(bs);
      var ages := AgeBracketCounts(bs, today);
      a := AnalyticsResult(
        Distribution(MonthNames, months),
        byCategory,
        UpcomingCount(bs, today, 7),
        UpcomingCount(bs, today, 30),
        UpcomingCount(bs, today, 90),
        |bs|,
        ActiveCount(bs),
        Distribution(AgeBrackets, ages));
    }

    /** The category loop of `getAnalytics`: one more for the category name of each birthday. */
    method CountByCategory(bs: seq<Birthday>) returns (byCategory: map<string, nat>)
      ensures byCategory == CategoryCounts(CategoryLabels(categories, bs))
    {
      ghost var labels := CategoryLabels(categories, bs);
      byCategory := map["Uncategorized" := 0];
      assert labels[..0] == [];
      for k := 0 to |bs|
        invariant byCategory == CategoryCounts(labels[..k])
      {
        var name := CategoryLabel(categories, bs[k]);
        CategoryCountsStep(labels, k);
        byCategory := Bump(byCategory, name);
      }
      assert labels[..|bs|] == labels;
    }
  }

  /** The records the import makes of the lines of a file, before the ids are given. */
  function FileRecords(lines: seq<string>, user: UserId, categories: seq<Category>, parsers: seq<DateParser>): seq<Birthday> {
    Records(Outcomes(DataLines(lines), user, categories, parsers))
  }

  /** The error messages the import reports for the lines of a file. */
  function FileErrors(lines: seq<string>, user: UserId, categories: seq<Category>, parsers: seq<DateParser>): seq<string> {
    Errors(Outcomes(DataLines(lines), user, categories, parsers))
  }

  /** Whether `line`, following `prefix`, is read as data (neither blank nor the header). */
  predicate ReadAsData(prefix: seq<string>, line: string) {
    !IsBlank(line) && !(AllBlank(prefix, IsBlank) && LooksLikeHeader(line))
  }

  /** What reading one more line of the file adds to the records and to the errors. */
  lemma ImportStep(prefix: seq<string>, line: string, user: UserId, categories: seq<Category>, parsers: seq<DateParser>)
    ensures var out := ProcessLine(NumberedLine(|prefix| + 1, line), user, categories, parsers);
      FileRecords(prefix + [line], user, categories, parsers)
        == FileRecords(prefix, user, categories, parsers) + (if ReadAsData(prefix, line) && out.Imported? then [out.record] else [])
    ensures var out := ProcessLine(NumberedLine(|prefix| + 1, line), user, categories, parsers);
      FileErrors(prefix + [line], user, categories, parsers)
        == FileErrors(prefix, user, categories, parsers) + (if ReadAsData(prefix, line) && out.Rejected? then [out.message] else [])
  {
    DataLinesSnoc(prefix, line);
    var d0 := DataLines(prefix);
    var o0 := Outcomes(d0, user, categories, parsers);
    if ReadAsData(prefix, line) {
      var nl := NumberedLine(|prefix| + 1, line);
      var out := ProcessLine(nl, user, categories, parsers);
      OutcomesAppend(d0, [nl], user, categories, parsers);
      assert Outcomes([nl], user, categories, parsers) == [out];
      RecordsErrorsAppend(o0, [out]);
      SingleOutcome(out);
    } else {
      assert d0 + [] == d0;
    }
  }

  /** The calendar text grows by one event per birthday, in order, after any lines `pre` written before them. */
  lemma ExportStep(pre: seq<string>, done: seq<Birthday>, names: seq<Option<string>>, b: Birthday, category: Option<string>,
                   today: CalendarDate)
    requires |names| == |done|
    ensures Crlf(pre + Events(done + [b], names + [category], today))
      == Crlf(pre + Events(done, names, today)) + Crlf(EventLines(b, today, category))
  {
    EventsSnoc(done, names, today, b, category);
    var head := pre + Events(done, names, today);
    assert pre + Events(done + [b], names + [category], today) == head + EventLines(b, today, category);
    CrlfAppend(head, EventLines(b, today, category));
  }

  /** The month loop of `getAnalytics`: one more in the month of each birthday. */
  method MonthlyCounts(bs: seq<Birthday>) returns (months: seq<nat>)
    ensures months == MonthCounts(bs)
  {
    months := seq(12, _ => 0);
    for k := 0 to |bs|
      invariant months == Tally(bs[..k], MonthIndex, 12)
    {
      assert bs[..k + 1][..k] == bs[..k];
      var m := bs[k].birthDate.month - 1;
      months := months[m := months[m] + 1];
    }
    TakeAll(bs);
  }

  /** The age loop of `getAnalytics`: one more in the bracket of each birthday's current age. */
  method AgeBracketCounts(bs: seq<Birthday>, today: CalendarDate) returns (ages: seq<nat>)
    ensures ages == AgeCounts(bs, today)
  {
    ages := seq(5, _ => 0);
    for k := 0 to |bs|
      invariant ages == Tally(bs[..k], (b: Birthday) => AgeBracket(CalculateAge(b, today)), 5)
    {
      assert bs[..k + 1][..k] == bs[..k];
      var age := CalculateAge(bs[k], today);
      var bracket := if age <= 18 then 0 else if age <= 30 then 1 else if age <= 50 then 2 else if age <= 70 then 3 else 4;
      ages := ages[bracket := ages[bracket] + 1];
    }
    TakeAll(bs);
  }

  /** Saving one more record keeps the stored records and the import result in step. */
  lemma SavedInOrder(stored: seq<Birthday>, imported: seq<Birthday>, records: seq<Birthday>, b: Birthday, saved: Birthday, firstId: int)
    requires imported == WithIds(records, firstId) && saved == b.(id := firstId + |records|)
    ensures imported + [saved] == WithIds(records + [b], firstId)
    ensures (stored + imported) + [saved] == stored + (imported + [saved])
  {
    WithIdsSnoc(records, b, firstId);
  }

  lemma SingleOutcome(o: LineOutcome)
    ensures Records([o]) == (if o.Imported? then [o.record] else [])
    ensures Errors([o]) == (if o.Rejected? then [o.message] else [])
  {
    assert [o][1..] == [];
  }

  lemma AllBlankSnoc(prefix: seq<string>, line: string)
    ensures AllBlank(prefix + [line], IsBlank) == (AllBlank(prefix, IsBlank) && IsBlank(line))
  {
    assert forall i :: 0 <= i < |prefix| ==> (prefix + [line])[i] == prefix[i];
    assert (prefix + [line])[|prefix|] == line;
  }

  /**
   * The VEVENT block `exportToICal` writes for one birthday: its lines, each
   * ended by CRLF, in the order of `EventLines`.
   */
  method WriteEvent(b: Birthday, today: CalendarDate, category: Option<string>) returns (text: string)
    ensures text == Crlf(EventLines(b, today, category))
  {
    var upcoming := UpcomingBirthday(b, today);
    var age := CalculateAge(b, today) + 1;
    var uid := "birthday-" + IntToString(b.id) + "-" + IntToString(upcoming.year) + "@birthdayreminder";
    var description := b.friendName + " is turning " + IntToString(age);
    if b.notes.Some? && b.notes.value != [] {
      description := description + "\\n\\nNotes: " + ReplaceAll(b.notes.value, "\n", "\\n");
    }
    assert description == Description(b, today);
    var lines := ["BEGIN:VEVENT",
                  "UID:" + uid,
                  "DTSTART;VALUE=DATE:" + FormatDate(upcoming),
                  "DTEND;VALUE=DATE:" + FormatDate(NextDay(upcoming)),
                  "SUMMARY:" + EscapeText(b.friendName + "'s Birthday"),
                  "DESCRIPTION:" + EscapeText(description),
                  "RRULE:FREQ=YEARLY",
                  "TRANSP:TRANSPARENT"];
    if category.Some? {
      lines := lines + ["CATEGORIES:" + category.value];
    }
    lines := lines + ["END:VEVENT"];
    assert lines == EventLines(b, today, category);
    text := WriteLines(lines);
  }

  /** The body of `exportToICal`: the header, one event per birthday in order, and the closing line. */
  method WriteCalendar(categories: seq<Category>, bs: seq<Birthday>, today: CalendarDate) returns (ical: string)
    ensures ical == Crlf(CalendarLines(bs, CategoryNames(categories, bs), today))
  {
    var header := WriteLines(CalendarHeader);
    ical := WriteEvents(CalendarHeader, header, categories, bs, today);
    CloseCalendar(ical, bs, CategoryNames(categories, bs), today);
    ical := ical + "END:VCALENDAR" + "\r\n";
  }

  /** The event loop of `exportToICal`: after the lines `pre` already written, one event per birthday in order. */
  method WriteEvents(ghost pre: seq<string>, text: string, categories: seq<Category>, bs: seq<Birthday>, today: CalendarDate)
    returns (ical: string)
    requires text == Crlf(pre)
    ensures ical == Crlf(pre + Events(bs, CategoryNames(categories, bs), today))
  {
    ical := text;
    assert bs[..0] == [] && pre + [] == pre;
    for k := 0 to |bs|
      invariant ical == Crlf(pre + Events(bs[..k], CategoryNames(categories, bs[..k]), today))
    {
      TakeSnoc(bs, k);
      var category := CategoryNameOf(categories, bs[k].categoryId);
      ical := AppendEvent(pre, ical, bs[..k], CategoryNames(categories, bs[..k]), today, bs[k], category);
      CategoryNamesSnoc(categories, bs[..k], bs[k]);
    }
    TakeAll(bs);
  }

  method AppendEvent(ghost pre: seq<string>, ical: string, ghost done: seq<Birthday>, ghost names: seq<Option<string>>,
                     today: CalendarDate, b: Birthday, category: Option<string>) returns (r: string)
    requires |names| == |done|
    requires ical == Crlf(pre + Events(done, names, today))
    ensures r == Crlf(pre + Events(done + [b], names + [category], today))
  {
    var event := WriteEvent(b, today, category);
    ExportStep(pre, done, names, b, category, today);
    r := ical + event;
  }

  /** Appends each line and its CRLF to an empty buffer. */
  method WriteLines(lines: seq<string>) returns (text: string)
    ensures text == Crlf(lines)
  {
    text := "";
    for k := 0 to |lines|
      invariant text == Crlf(lines[..k])
    {
      CrlfSnoc(lines[..k], lines[k]);
      TakeSnoc(lines, k);
      text := text + lines[k] + "\r\n";
    }
    TakeAll(lines);
  }
}
