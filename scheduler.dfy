/**
 * `BirthdayNotificationScheduler`: the hourly run that mails each user the
 * reminders due today, at the hour the user chose. The clock is the pair of
 * arguments `currentHour` and `today`, the repositories are the list of
 * accounts, and the mail transport is the function `transport`.
 */
module SchedulerModel {
  import opened Wrappers
  import opened Numbers
  import opened Seqs
  import opened Dates
  import opened BirthdayEntity
  import opened NotificationSettingsEntity
  import opened NotificationSettingsServiceModel
  import opened EmailServiceModel

  // -------------------------------------------------------- preferred hour

  /** A two-digit field at `i` whose value is at most `max`. */
  predicate Field(s: string, i: nat, max: nat)
    requires i + 2 <= |s|
  {
    AllDigits(s[i..i + 2]) && DigitsValue(s[i..i + 2]) <= max
  }

  /**
   * `LocalTime.parse(s).getHour()` with the ISO local time format: two-digit
   * hour and minute, an optional two-digit second, and after it an optional
   * `.` with up to nine digits; hour at most 23, minute and second at most 59.
   * `None` stands for the `DateTimeParseException`.
   */
  function ParseTimeHour(s: string): (r: Option<int>)
    ensures r.Some? ==> |s| >= 5 && AllDigits(s[..2]) && r.value == DigitsValue(s[..2]) && 0 <= r.value <= 23
  {
    if |s| < 5 || !Field(s, 0, 23) || s[2] != ':' || !Field(s, 3, 59) then None
    else if |s| == 5 then Some(DigitsValue(s[..2]))
    else if |s| < 8 || s[5] != ':' || !Field(s, 6, 59) then None
    else if |s| == 8 then Some(DigitsValue(s[..2]))
    else if s[8] != '.' || |s| > 18 || !AllDigits(s[9..]) then None
    else Some(DigitsValue(s[..2]))
  }

  /** `parseNotificationHour`: the parsed hour, or 8 when the time is null, empty or does not parse. */
  function ParseNotificationHour(time: Option<string>): (h: int)
    ensures 0 <= h <= 23
    ensures time.None? || time.value == [] || ParseTimeHour(time.value).None? ==> h == 8
    ensures time.Some? && ParseTimeHour(time.value).Some? ==> h == ParseTimeHour(time.value).value
  {
    if time.None? || time.value == [] then 8
    else match ParseTimeHour(time.value)
      case None => 8
      case Some(h) => h
  }

  /** A time written `HH:mm`, as the settings page stores it, gives back its hour. */
  lemma HourOfFormattedTime(h: nat, m: nat)
    requires h <= 23 && m <= 59
    ensures ParseNotificationHour(Some(FormatZeroPadded(h, 2) + ":" + FormatZeroPadded(m, 2))) == h
  {
    var hh, mm := FormatZeroPadded(h, 2), FormatZeroPadded(m, 2);
    FormatZeroPaddedFixedWidth(h, 2);
    FormatZeroPaddedFixedWidth(m, 2);
    var s := hh + ":" + mm;
    assert s[..2] == hh && s[0..2] == hh && s[3..5] == mm && s[2] == ':';
  }

  /** An hour without its leading zero does not parse, so "9:30" falls back to 8. */
  lemma SingleDigitHourFallsBack()
    ensures ParseNotificationHour(Some("9:30")) == 8
  {
  }

  /** The default time "08:00" and the fallback agree on 8 o'clock. */
  lemma DefaultTimeHour()
    ensures ParseNotificationHour(Some(DefaultTime)) == 8
  {
    HourOfFormattedTime(8, 0);
    assert FormatZeroPadded(8, 2) == "08";
    assert FormatZeroPadded(0, 2) == "00";
  }

  // ------------------------------------------------------------- one user

  /** The outcome counters of one run, `notificationsSent`, `notificationsFailed` and `usersSkipped`. */
  datatype Tally = Tally(sent: nat, failed: nat, skipped: nat)

  function Plus(x: Tally, y: Tally): Tally {
    Tally(x.sent + y.sent, x.failed + y.failed, x.skipped + y.skipped)
  }

  /** A user as the run sees it: the address, the settings if any, and the user's birthdays. */
  datatype Account = Account(email: string, settings: Option<Preferences>, birthdays: seq<Birthday>)

  predicate IsActive(b: Birthday) {
    b.isActive
  }

  /** The sort key of `OrderByBirthDateAsc`: the birth date as a day count. */
  function BirthDateKey(b: Birthday): int {
    EpochDay(b.birthDate)
  }

  /** `findByUserAndIsActiveTrueOrderByBirthDateAsc`: the active birthdays, earliest birth date first. */
  function ActiveBirthdays(bs: seq<Birthday>): seq<Birthday> {
    SortBy(Filter(bs, IsActive), BirthDateKey)
  }

  /** The active birthdays come earliest birth date first, each as often as it is in the table and active. */
  lemma ActiveBirthdaysSpec(bs: seq<Birthday>)
    ensures SortedBy(ActiveBirthdays(bs), BirthDateKey)
    ensures forall b :: multiset(ActiveBirthdays(bs))[b] == if b.isActive then multiset(bs)[b] else 0
  {
    SortByProperties(Filter(bs, IsActive), BirthDateKey);
    forall b ensures multiset(ActiveBirthdays(bs))[b] == if b.isActive then multiset(bs)[b] else 0 {
      FilterMultiset(bs, IsActive, b);
    }
  }

  /** The test the loop applies to each birthday: its days-until count is one of the notification days. */
  function DueOn(days: seq<int>, today: CalendarDate): Birthday -> bool {
    b => DaysUntilBirthday(b, today) in days
  }

  /** The birthdays whose days-until count is one of the notification days. */
  function Due(bs: seq<Birthday>, days: seq<int>, today: CalendarDate): (r: seq<Birthday>)
    ensures |r| <= |bs|
    ensures forall b :: b in r <==> b in bs && DaysUntilBirthday(b, today) in days
  {
    if bs == [] then []
    else
      var init := Due(bs[..|bs| - 1], days, today);
      var b := bs[|bs| - 1];
      assert bs == bs[..|bs| - 1] + [b];
      if DaysUntilBirthday(b, today) in days then init + [b] else init
  }

  /** The due birthdays keep the order of the list: they are its order-preserving filter by the due test. */
  lemma {:induction false} DueInOrder(bs: seq<Birthday>, days: seq<int>, today: CalendarDate)
    ensures Due(bs, days, today) == Filter(bs, DueOn(days, today))
  {
    if bs != [] {
      var init, b := bs[..|bs| - 1], bs[|bs| - 1];
      assert bs == init + [b];
      DueInOrder(init, days, today);
      FilterAppend(init, [b], DueOn(days, today));
    }
  }

  /** The reminders for the due birthdays: the i-th is the one for the i-th due birthday, with its own day count. */
  function Mails(to: string, template: string, due: seq<Birthday>, today: CalendarDate): (r: seq<Reminder>)
    ensures |r| == |due|
    ensures forall i :: 0 <= i < |due| ==> r[i] == ReminderFor(to, due[i], template, DaysUntilBirthday(due[i], today), today)
  {
    Map(due, b => ReminderFor(to, b, template, DaysUntilBirthday(b, today), today))
  }

  /** A user's reminders go out in ascending birth-date order, the order of the query. */
  lemma DueByBirthDate(bs: seq<Birthday>, days: seq<int>, today: CalendarDate)
    ensures SortedBy(Due(ActiveBirthdays(bs), days, today), BirthDateKey)
  {
    ActiveBirthdaysSpec(bs);
    DueInOrder(ActiveBirthdays(bs), days, today);
    FilterSorted(ActiveBirthdays(bs), DueOn(days, today), BirthDateKey);
  }

  lemma DueSnoc(bs: seq<Birthday>, i: nat, days: seq<int>, today: CalendarDate)
    requires i < |bs|
    ensures Due(bs[..i + 1], days, today) ==
      if DaysUntilBirthday(bs[i], today) in days then Due(bs[..i], days, today) + [bs[i]] else Due(bs[..i], days, today)
  {
    assert bs[..i + 1][..i] == bs[..i];
  }

  lemma MailsSnoc(to: string, template: string, due: seq<Birthday>, b: Birthday, today: CalendarDate)
    ensures Mails(to, template, due + [b], today) ==
      Mails(to, template, due, today) + [ReminderFor(to, b, template, DaysUntilBirthday(b, today), today)]
  {
    var r, r0 := Mails(to, template, due + [b], today), Mails(to, template, due, today);
    var m := ReminderFor(to, b, template, DaysUntilBirthday(b, today), today);
    forall i | 0 <= i < |r| ensures r[i] == (r0 + [m])[i] {
      if i < |due| {
        assert (due + [b])[i] == due[i];
      }
    }
    assert r == r0 + [m];
  }

  /** Whether the user is mailed at this hour: settings present, email on, and the preferred hour is now. */
  predicate AtPreferredHour(a: Account, currentHour: int) {
    a.settings.Some? && a.settings.value.emailEnabled
    && ParseNotificationHour(Some(a.settings.value.notificationTime)) == currentHour
  }

  /** The reminders `processUserNotifications` hands to the transport. */
  function UserMails(a: Account, currentHour: int, today: CalendarDate): seq<Reminder> {
    if !AtPreferredHour(a, currentHour) then []
    else
      var p := a.settings.value;
      match DecodeDays(p.notificationDays)
      case None => []
      case Some(days) => Mails(a.email, p.emailTemplate, Due(ActiveBirthdays(a.birthdays), days, today), today)
  }

  /** How `processUserNotifications` moves the counters. */
  function UserTally(a: Account, currentHour: int, today: CalendarDate, transport: Reminder -> bool): Tally {
    if a.settings.None? || !a.settings.value.emailEnabled then Tally(0, 0, 0)
    else if !AtPreferredHour(a, currentHour) then Tally(0, 0, 1)
    else
      var mails := UserMails(a, currentHour, today);
      Tally(Count(mails, transport), |mails| - Count(mails, transport), 0)
  }

  /** The three `AtomicInteger` counters shared by the per-user calls. */
  class Counters {
    var sent: nat
    var failed: nat
    var skipped: nat

    constructor()
      ensures sent == 0 && failed == 0 && skipped == 0
    {
      sent, failed, skipped := 0, 0, 0;
    }

    function Value(): Tally
      reads this
    {
      Tally(sent, failed, skipped)
    }
  }

  /**
   * `processUserNotifications`: nothing for a user without settings or with
   * email off; one skip outside the preferred hour; otherwise one send per due
   * birthday, counted as sent or failed. Stored days that do not decode throw
   * before any send, which the calling loop catches.
   */
  method ProcessUserNotifications(a: Account, currentHour: int, today: CalendarDate, transport: Reminder -> bool, c: Counters)
    returns (mails: seq<Reminder>)
    modifies c
    ensures mails == UserMails(a, currentHour, today)
    ensures c.Value() == Plus(old(c.Value()), UserTally(a, currentHour, today, transport))
  {
    if a.settings.None? || !a.settings.value.emailEnabled {
      return [];
    }
    var p := a.settings.value;
    var preferred := ParseNotificationHour(Some(p.notificationTime));
    if currentHour != preferred {
      c.skipped := c.skipped + 1;
      return [];
    }
    mails := MailAtPreferredHour(a, currentHour, today, transport, c);
  }

  /** The part of `processUserNotifications` that runs at the user's preferred hour. */
  method MailAtPreferredHour(a: Account, currentHour: int, today: CalendarDate, transport: Reminder -> bool, c: Counters)
    returns (mails: seq<Reminder>)
    requires AtPreferredHour(a, currentHour)
    modifies c
    ensures mails == UserMails(a, currentHour, today)
    ensures c.sent == old(c.sent) + Count(mails, transport)
    ensures c.failed == old(c.failed) + |mails| - Count(mails, transport)
    ensures c.skipped == old(c.skipped)
  {
    var p := a.settings.value;
    var birthdays := ActiveBirthdays(a.birthdays);
    var decoded := DecodeDays(p.notificationDays);
    if decoded.None? {
      return [];
    }
    mails := SendDue(a.email, p.emailTemplate, birthdays, decoded.value, today, transport, c);
    MailedAtHour(a, currentHour, today, decoded.value, transport);
  }

  /** At the preferred hour with decodable days, the user's outcome is the birthday loop's. */
  lemma MailedAtHour(a: Account, currentHour: int, today: CalendarDate, days: seq<int>, transport: Reminder -> bool)
    requires AtPreferredHour(a, currentHour) && DecodeDays(a.settings.value.notificationDays) == Some(days)
    ensures UserMails(a, currentHour, today) ==
      Mails(a.email, a.settings.value.emailTemplate, Due(ActiveBirthdays(a.birthdays), days, today), today)
    ensures UserTally(a, currentHour, today, transport) ==
      Tally(Count(UserMails(a, currentHour, today), transport),
            |UserMails(a, currentHour, today)| - Count(UserMails(a, currentHour, today), transport), 0)
  {
  }

  /** The birthday loop of `processUserNotifications`. */
  method SendDue(to: string, template: string, birthdays: seq<Birthday>, days: seq<int>, today: CalendarDate,
                 transport: Reminder -> bool, c: Counters)
    returns (mails: seq<Reminder>)
    modifies c
    ensures mails == Mails(to, template, Due(birthdays, days, today), today)
    ensures c.sent == old(c.sent) + Count(mails, transport)
    ensures c.failed == old(c.failed) + |mails| - Count(mails, transport)
    ensures c.skipped == old(c.skipped)
  {
    mails := [];
    for i := 0 to |birthdays|
      invariant mails == Mails(to, template, Due(birthdays[..i], days, today), today)
      invariant c.sent == old(c.sent) + Count(mails, transport)
      invariant c.failed == old(c.failed) + |mails| - Count(mails, transport)
      invariant c.skipped == old(c.skipped)
    {
      DueSnoc(birthdays, i, days, today);
      mails := SendIfDue(to, template, birthdays[i], days, today, transport, c, Due(birthdays[..i], days, today), mails);
    }
    TakeAll(birthdays);
  }

  /** One pass of the birthday loop: a due birthday's reminder is sent and counted, any other is passed over. */
  method SendIfDue(to: string, template: string, b: Birthday, days: seq<int>, today: CalendarDate,
                   transport: Reminder -> bool, c: Counters, ghost due: seq<Birthday>, mails: seq<Reminder>)
    returns (mails': seq<Reminder>)
    requires mails == Mails(to, template, due, today)
    modifies c
    ensures mails' == Mails(to, template, if DaysUntilBirthday(b, today) in days then due + [b] else due, today)
    ensures c.sent == old(c.sent) + Count(mails', transport) - Count(mails, transport)
    ensures c.failed == old(c.failed) + (|mails'| - Count(mails', transport)) - (|mails| - Count(mails, transport))
    ensures c.skipped == old(c.skipped)
  {
    mails' := mails;
    var daysUntil := DaysUntilBirthday(b, today);
    if daysUntil in days {
      var m := SendOne(to, b, template, daysUntil, today, transport, c);
      MailsSnoc(to, template, due, b, today);
      CountSnoc(mails, m, transport);
      mails' := mails + [m];
    }
  }

  /** One attempt: the reminder is handed to the transport and counted as sent or as failed. */
  method SendOne(to: string, b: Birthday, template: string, daysUntil: int, today: CalendarDate,
                 transport: Reminder -> bool, c: Counters)
    returns (m: Reminder)
    modifies c
    ensures m == ReminderFor(to, b, template, daysUntil, today)
    ensures c.sent == old(c.sent) + (if transport(m) then 1 else 0)
    ensures c.failed == old(c.failed) + (if transport(m) then 0 else 1)
    ensures c.skipped == old(c.skipped)
  {
    m := ReminderFor(to, b, template, daysUntil, today);
    var ok := SendBirthdayReminder(to, b, template, daysUntil, today, transport);
    if ok {
      c.sent := c.sent + 1;
    } else {
      c.failed := c.failed + 1;
    }
  }

  // ------------------------------------------------------------- the run

  function TotalTally(accounts: seq<Account>, currentHour: int, today: CalendarDate, transport: Reminder -> bool): Tally {
    if accounts == [] then Tally(0, 0, 0)
    else Plus(TotalTally(accounts[..|accounts| - 1], currentHour, today, transport),
              UserTally(accounts[|accounts| - 1], currentHour, today, transport))
  }

  /** The mails of all users, user after user. */
  function AllMails(accounts: seq<Account>, currentHour: int, today: CalendarDate): seq<Reminder> {
    FlatMap(accounts, a => UserMails(a, currentHour, today))
  }

  function FlatMap<A, B>(xs: seq<A>, f: A -> seq<B>): seq<B> {
    if xs == [] then [] else FlatMap(xs[..|xs| - 1], f) + f(xs[|xs| - 1])
  }

  lemma {:induction false} FlatMapAppend<A, B>(xs: seq<A>, ys: seq<A>, f: A -> seq<B>)
    ensures FlatMap(xs + ys, f) == FlatMap(xs, f) + FlatMap(ys, f)
    decreases |ys|
  {
    if ys == [] {
      assert xs + ys == xs;
    } else {
      var zs := xs + ys;
      assert zs[..|zs| - 1] == xs + ys[..|ys| - 1];
      FlatMapAppend(xs, ys[..|ys| - 1], f);
    }
  }

  /**
   * `sendBirthdayNotifications`: every user is processed in turn, and the
   * three counters it logs at the end add up the users' outcomes.
   */
  method SendBirthdayNotifications(accounts: seq<Account>, currentHour: int, today: CalendarDate, transport: Reminder -> bool)
    returns (summary: Tally, mails: seq<Reminder>)
    ensures summary == TotalTally(accounts, currentHour, today, transport)
    ensures mails == AllMails(accounts, currentHour, today)
  {
    var c := new Counters();
    mails := [];
    for i := 0 to |accounts|
      invariant c.Value() == TotalTally(accounts[..i], currentHour, today, transport)
      invariant mails == AllMails(accounts[..i], currentHour, today)
    {
      assert accounts[..i + 1][..i] == accounts[..i];
      var m := ProcessUserNotifications(accounts[i], currentHour, today, transport, c);
      mails := mails + m;
    }
    TakeAll(accounts);
    summary := c.Value();
  }

  // ------------------------------------------------------------ properties

  /** At the preferred hour with decodable days, the due list holds exactly the user's active birthdays whose count is a notification day. */
  lemma DueExactly(a: Account, today: CalendarDate, days: seq<int>, b: Birthday)
    ensures b in Due(ActiveBirthdays(a.birthdays), days, today)
      <==> b in a.birthdays && b.isActive && DaysUntilBirthday(b, today) in days
  {
    ActiveBirthdaysSpec(a.birthdays);
    assert b in ActiveBirthdays(a.birthdays) <==> multiset(ActiveBirthdays(a.birthdays))[b] > 0;
  }

  /** A user is skipped exactly when email is on but the hour is not theirs; a skipped user gets no mail. */
  lemma SkipRule(a: Account, currentHour: int, today: CalendarDate, transport: Reminder -> bool)
    ensures UserTally(a, currentHour, today, transport).skipped == 1 <==>
      a.settings.Some? && a.settings.value.emailEnabled && !AtPreferredHour(a, currentHour)
    ensures UserTally(a, currentHour, today, transport).skipped == 1 ==> UserMails(a, currentHour, today) == []
  {
  }

  /** Every attempted mail counts once, as sent or as failed. */
  lemma {:induction false} EveryAttemptCounted(accounts: seq<Account>, currentHour: int, today: CalendarDate, transport: Reminder -> bool)
    ensures TotalTally(accounts, currentHour, today, transport).sent + TotalTally(accounts, currentHour, today, transport).failed
      == |AllMails(accounts, currentHour, today)|
    ensures TotalTally(accounts, currentHour, today, transport).sent == Count(AllMails(accounts, currentHour, today), transport)
  {
    if accounts != [] {
      var init := accounts[..|accounts| - 1];
      var last := accounts[|accounts| - 1];
      EveryAttemptCounted(init, currentHour, today, transport);
      FilterAppend(AllMails(init, currentHour, today), UserMails(last, currentHour, today), transport);
    }
  }

  lemma {:induction false} TotalTallyAppend(xs: seq<Account>, ys: seq<Account>, currentHour: int, today: CalendarDate,
                                            transport: Reminder -> bool)
    ensures TotalTally(xs + ys, currentHour, today, transport)
      == Plus(TotalTally(xs, currentHour, today, transport), TotalTally(ys, currentHour, today, transport))
    decreases |ys|
  {
    if ys == [] {
      assert xs + ys == xs;
    } else {
      var init := ys[..|ys| - 1];
      var last := ys[|ys| - 1];
      var zs := xs + ys;
      assert zs[..|zs| - 1] == xs + init;
      assert zs[|zs| - 1] == last;
      TotalTallyAppend(xs, init, currentHour, today, transport);
      var u := UserTally(last, currentHour, today, transport);
      assert TotalTally(zs, currentHour, today, transport) == Plus(TotalTally(xs + init, currentHour, today, transport), u);
      assert TotalTally(ys, currentHour, today, transport) == Plus(TotalTally(init, currentHour, today, transport), u);
    }
  }

  /**
   * A user whose stored days do not decode throws, and the loop carries on:
   * the run over the others is exactly as if that user were absent.
   */
  lemma FailingUserIsolated(before: seq<Account>, u: Account, after: seq<Account>, currentHour: int, today: CalendarDate,
                            transport: Reminder -> bool)
    requires AtPreferredHour(u, currentHour) && DecodeDays(u.settings.value.notificationDays).None?
    ensures TotalTally(before + [u] + after, currentHour, today, transport) == TotalTally(before + after, currentHour, today, transport)
    ensures AllMails(before + [u] + after, currentHour, today) == AllMails(before + after, currentHour, today)
  {
    var h, t := currentHour, transport;
    assert [u][..0] == [];
    assert TotalTally([u], h, today, t) == Tally(0, 0, 0);
    assert UserMails(u, h, today) == [];
    TotalTallyAppend(before + [u], after, h, today, t);
    TotalTallyAppend(before, [u], h, today, t);
    TotalTallyAppend(before, after, h, today, t);
    var f := a => UserMails(a, h, today);
    assert AllMails(before + [u] + after, h, today) == FlatMap(before + [u] + after, f);
    assert AllMails(before + after, h, today) == FlatMap(before + after, f);
    FlatMapAppend(before + [u], after, f);
    FlatMapAppend(before, [u], f);
    FlatMapAppend(before, after, f);
    assert AllMails(before, h, today) + [] == AllMails(before, h, today);
  }
}
