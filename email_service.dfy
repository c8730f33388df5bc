/**
 * `EmailService`: the reminder mail for one birthday. The subject, the
 * urgency banner and the user's template with its placeholders filled in are
 * modelled; the HTML layout around them and the mail transport are not, and
 * the transport's outcome is a parameter.
 */
module EmailServiceModel {
  import opened Text
  import opened Numbers
  import opened Dates
  import opened BirthdayEntity
  import opened NotificationSettingsEntity

  /** What one reminder hands to the transport: the addressee and the parts of the mail that vary. */
  datatype Reminder = Reminder(
    to: string,
    subject: string,
    message: string,
    urgencyColor: string,
    urgencyText: string)

  // ------------------------------------------------------------- subject

  /** `buildSubject`: today, tomorrow, or the number of days to go, before the friend's name. */
  function Subject(friendName: string, daysUntil: int): string {
    "🎂 " + (SubjectLead(daysUntil) + (friendName + "'s birthday!"))
  }

  /** The part of the subject between the cake and the name. */
  function SubjectLead(daysUntil: int): string {
    if daysUntil == 0 then "TODAY: "
    else if daysUntil == 1 then "TOMORROW: "
    else IntToString(daysUntil) + " days until "
  }

  /** Only the today and tomorrow leads start with a `T`, and they differ in their third char. */
  lemma LeadHead(daysUntil: int)
    ensures |SubjectLead(daysUntil)| >= 3
    ensures (SubjectLead(daysUntil)[0] == 'T') <==> daysUntil == 0 || daysUntil == 1
    ensures daysUntil == 0 ==> SubjectLead(daysUntil)[2] == 'D'
    ensures daysUntil == 1 ==> SubjectLead(daysUntil)[2] == 'M'
  {
    IntToStringChars(daysUntil);
  }

  /** A subject starts with the today wording exactly on the day, and with the tomorrow wording exactly the day before. */
  lemma SubjectKind(friendName: string, daysUntil: int)
    ensures ("🎂 TODAY: " <= Subject(friendName, daysUntil)) <==> daysUntil == 0
    ensures ("🎂 TOMORROW: " <= Subject(friendName, daysUntil)) <==> daysUntil == 1
  {
    var lead := SubjectLead(daysUntil);
    var rest := lead + (friendName + "'s birthday!");
    assert "🎂 TODAY: " == "🎂 " + "TODAY: ";
    assert "🎂 TOMORROW: " == "🎂 " + "TOMORROW: ";
    PrefixAfter("🎂 ", "TODAY: ", rest);
    PrefixAfter("🎂 ", "TOMORROW: ", rest);
    LeadHead(daysUntil);
    assert rest[0] == lead[0] && rest[2] == lead[2];
    if daysUntil == 0 || daysUntil == 1 {
      assert lead <= rest;
    }
  }

  /** A common head does not change whether one text starts another. */
  lemma PrefixAfter(a: string, w: string, s: string)
    ensures (a + w <= a + s) <==> (w <= s)
  {
    if w <= s {
      assert (a + s)[..|a| + |w|] == a + s[..|w|];
    }
    if a + w <= a + s {
      assert s[..|w|] == (a + s)[..|a| + |w|][|a|..];
      assert w == (a + w)[|a|..];
    }
  }

  /** A lead followed by anything determines the number of days. */
  lemma LeadUnique(d1: int, x: string, d2: int, y: string)
    requires SubjectLead(d1) + x == SubjectLead(d2) + y
    ensures d1 == d2
  {
    var l1, l2 := SubjectLead(d1), SubjectLead(d2);
    LeadHead(d1);
    LeadHead(d2);
    assert l1[0] == (l1 + x)[0] && l2[0] == (l2 + y)[0];
    assert l1[2] == (l1 + x)[2] && l2[2] == (l2 + y)[2];
    if d1 != 0 && d1 != 1 && d2 != 0 && d2 != 1 {
      NumericLeadUnique(d1, x, d2, y);
    }
  }

  lemma NumericLeadUnique(d1: int, x: string, d2: int, y: string)
    requires d1 != 0 && d1 != 1 && d2 != 0 && d2 != 1
    requires SubjectLead(d1) + x == SubjectLead(d2) + y
    ensures d1 == d2
  {
    var p1, p2 := IntToString(d1), IntToString(d2);
    NoSpaceInNumber(d1);
    NoSpaceInNumber(d2);
    assert SubjectLead(d1) == p1 + " days until " && SubjectLead(d2) == p2 + " days until ";
    PrintedBeforeSpace(p1, " days until ", x, p2, y);
    IntToStringInjective(d1, d2);
  }

  lemma NoSpaceInNumber(d: int)
    ensures ' ' !in IntToString(d)
  {
    IntToStringChars(d);
  }

  /** Two runs of non-space chars each followed by a space: equal texts mean equal runs. */
  lemma PrintedBeforeSpace(p1: string, w: string, x: string, p2: string, y: string)
    requires (p1 + w) + x == (p2 + w) + y && w != [] && w[0] == ' '
    requires ' ' !in p1 && ' ' !in p2
    ensures p1 == p2
  {
    assert ((p1 + w) + x)[|p1|] == ' ' && ((p2 + w) + y)[|p2|] == ' ';
    if |p1| == |p2| {
      assert p1 == ((p1 + w) + x)[..|p1|] && p2 == ((p2 + w) + y)[..|p2|];
    }
  }

  /** Two reminders with the same subject are about the same friend name and the same number of days. */
  lemma SubjectInjective(n1: string, d1: int, n2: string, d2: int)
    requires Subject(n1, d1) == Subject(n2, d2)
    ensures n1 == n2 && d1 == d2
  {
    var tail1, tail2 := n1 + "'s birthday!", n2 + "'s birthday!";
    var r1, r2 := SubjectLead(d1) + tail1, SubjectLead(d2) + tail2;
    assert r1 == Subject(n1, d1)[2..] && r2 == Subject(n2, d2)[2..];
    LeadUnique(d1, tail1, d2, tail2);
    assert tail1 == r1[|SubjectLead(d1)|..] && tail2 == r2[|SubjectLead(d2)|..];
    assert n1 == tail1[..|n1|] && n2 == tail2[..|n2|];
  }

  // ------------------------------------------------------------- urgency

  /** `urgencyColor`: red up to one day ahead, amber up to three, blue beyond. */
  function UrgencyColor(daysUntil: int): (r: string)
    ensures r == "#ef4444" <==> daysUntil <= 1
    ensures r == "#f59e0b" <==> 1 < daysUntil <= 3
    ensures r == "#3b82f6" <==> daysUntil > 3
  {
    if daysUntil <= 1 then "#ef4444" else if daysUntil <= 3 then "#f59e0b" else "#3b82f6"
  }

  /** How pressing a banner color is: 2 for red, 1 for amber, 0 otherwise. */
  function UrgencyLevel(color: string): nat {
    if color == "#ef4444" then 2 else if color == "#f59e0b" then 1 else 0
  }

  /** The banner never gets calmer as the birthday gets closer. */
  lemma UrgencyEscalates(d1: int, d2: int)
    requires d1 <= d2
    ensures UrgencyLevel(UrgencyColor(d1)) >= UrgencyLevel(UrgencyColor(d2))
  {
  }

  /** `urgencyText`: "TODAY!", "TOMORROW!" or the days to go. */
  function UrgencyText(daysUntil: int): (r: string)
    ensures r == "TODAY!" <==> daysUntil == 0
    ensures r == "TOMORROW!" <==> daysUntil == 1
    ensures daysUntil != 0 && daysUntil != 1 ==> r == IntToString(daysUntil) + " days away"
  {
    if daysUntil == 0 then "TODAY!" else if daysUntil == 1 then "TOMORROW!" else IntToString(daysUntil) + " days away"
  }

  /** The banner and the subject agree on whether the birthday is today or tomorrow. */
  lemma BannerMatchesSubject(friendName: string, daysUntil: int)
    ensures ("🎂 TODAY: " <= Subject(friendName, daysUntil)) <==> UrgencyText(daysUntil) == "TODAY!"
    ensures ("🎂 TOMORROW: " <= Subject(friendName, daysUntil)) <==> UrgencyText(daysUntil) == "TOMORROW!"
  {
    SubjectKind(friendName, daysUntil);
  }

  // ---------------------------------------------------------------- body

  const MonthNames: seq<string> := ["January", "February", "March", "April", "May", "June", "July",
                                    "August", "September", "October", "November", "December"]

  /** Pattern `MMMM d, yyyy`: the month's full name, the day unpadded, and the year of the era padded to four digits. */
  function LongDate(d: CalendarDate): (r: string)
    ensures '{' !in r
  {
    var yearOfEra := if d.year >= 1 then d.year else 1 - d.year;
    var year := if yearOfEra > 9999 then "+" + NatToString(yearOfEra) else FormatZeroPadded(yearOfEra, 4);
    IntToStringChars(d.day);
    IntToStringChars(yearOfEra);
    assert forall i :: 0 <= i < |MonthNames| ==> '{' !in MonthNames[i];
    MonthNames[d.month - 1] + " " + IntToString(d.day) + ", " + year
  }

  /**
   * The placeholder chain of `buildEmailBody`: `{friendName}`, `{birthDate}`,
   * `{age}` and `{daysUntil}`, each replaced everywhere, in that order.
   */
  function Body(template: string, friendName: string, birthDate: string, age: int, daysUntil: int): string {
    ReplaceAll(ReplaceAll(ReplaceAll(ReplaceAll(template, "{friendName}", friendName),
      "{birthDate}", birthDate), "{age}", IntToString(age)), "{daysUntil}", IntToString(daysUntil))
  }

  /** A template without a `{` is sent as it is. */
  lemma BodyLiteral(template: string, friendName: string, birthDate: string, age: int, daysUntil: int)
    requires '{' !in template
    ensures Body(template, friendName, birthDate, age, daysUntil) == template
  {
    ReplaceAbsent(template, "{friendName}", friendName);
    ReplaceAbsent(template, "{birthDate}", birthDate);
    ReplaceAbsent(template, "{age}", IntToString(age));
    ReplaceAbsent(template, "{daysUntil}", IntToString(daysUntil));
  }

  /** Because `{friendName}` goes first, a friend name that itself reads `{age}` ends up as the age. */
  lemma NameSubstitutedFirst(birthDate: string, daysUntil: int)
    ensures Body("{friendName}", "{age}", birthDate, 30, daysUntil) == "30"
  {
    ReplaceAtFront([], "{friendName}", "{age}");
    assert "{friendName}" + [] == "{friendName}";
    ReplaceSkipsMiss("{age}", [], "{birthDate}", birthDate);
    assert "{age}" + [] == "{age}";
    ReplaceAtFront([], "{age}", "30");
    assert "{age}" + [] == "{age}";
    assert IntToString(30) == "30";
    ReplaceAbsent("30", "{daysUntil}", IntToString(daysUntil));
  }

  /** A placeholder `u` that differs from `t` in its second char is copied through. */
  lemma ReplaceSkipsMiss(u: string, s: string, t: string, r: string)
    requires |t| >= 2 && |u| >= 2 && u[1] != t[1] && t[0] !in u[1..]
    ensures ReplaceAll(u + s, t, r) == u + ReplaceAll(s, t, r)
  {
    var x := u + s;
    ReplaceSkipsPrefix(u[1..], s, t, r);
    if |x| >= |t| {
      assert x[1] == u[1];
      assert !(t <= x);
      assert x[1..] == u[1..] + s;
      assert [u[0]] + (u[1..] + ReplaceAll(s, t, r)) == u + ReplaceAll(s, t, r);
    }
  }

  /** The text around the default template's placeholders holds no `{`. */
  lemma DefaultTemplateText()
    ensures '{' !in TemplateOpening && '{' !in TemplateAfterName && '{' !in TemplateAfterDate && '{' !in TemplateClosing
  {
  }

  /**
   * The default template reads "Hey! Just a reminder that NAME's birthday is
   * coming up on DATE. They will be turning AGE years old!" once filled in,
   * for any name and date without a `{`.
   */
  lemma DefaultBody(friendName: string, birthDate: string, age: int, daysUntil: int)
    requires '{' !in friendName && '{' !in birthDate
    ensures Body(DefaultTemplate, friendName, birthDate, age, daysUntil) ==
      TemplateOpening + (friendName + (TemplateAfterName + (birthDate + (TemplateAfterDate + (IntToString(age) + TemplateClosing)))))
  {
    DefaultTemplateText();
    IntToStringChars(age);
    FillThree(TemplateOpening, TemplateAfterName, TemplateAfterDate, TemplateClosing,
      friendName, birthDate, IntToString(age), IntToString(daysUntil));
  }

  /** The four substitutions over a template holding `{friendName}`, `{birthDate}` and `{age}` once each. */
  lemma FillThree(a: string, b: string, c: string, d: string, name: string, date: string, age: string, days: string)
    requires '{' !in a && '{' !in b && '{' !in c && '{' !in d && '{' !in name && '{' !in date && '{' !in age
    ensures
      var t := a + ("{friendName}" + (b + ("{birthDate}" + (c + ("{age}" + d)))));
      ReplaceAll(ReplaceAll(ReplaceAll(ReplaceAll(t, "{friendName}", name), "{birthDate}", date), "{age}", age), "{daysUntil}", days)
      == a + (name + (b + (date + (c + (age + d)))))
  {
    FillName(a, b, c, d, name);
    FillDate(a, b, c, d, name, date);
    FillAge(a, b, c, d, name, date, age);
    var s3 := a + (name + (b + (date + (c + (age + d)))));
    assert '{' !in s3;
    ReplaceAbsent(s3, "{daysUntil}", days);
  }

  lemma FillName(a: string, b: string, c: string, d: string, name: string)
    requires '{' !in a && '{' !in b && '{' !in c && '{' !in d
    ensures ReplaceAll(a + ("{friendName}" + (b + ("{birthDate}" + (c + ("{age}" + d))))), "{friendName}", name)
      == a + (name + (b + ("{birthDate}" + (c + ("{age}" + d)))))
  {
    var t := "{friendName}";
    ReplaceSkipsPrefix(a, t + (b + ("{birthDate}" + (c + ("{age}" + d)))), t, name);
    ReplaceAtFront(b + ("{birthDate}" + (c + ("{age}" + d))), t, name);
    ReplaceSkipsPrefix(b, "{birthDate}" + (c + ("{age}" + d)), t, name);
    ReplaceSkipsMiss("{birthDate}", c + ("{age}" + d), t, name);
    ReplaceSkipsPrefix(c, "{age}" + d, t, name);
    ReplaceSkipsMiss("{age}", d, t, name);
    ReplaceAbsent(d, t, name);
  }

  lemma FillDate(a: string, b: string, c: string, d: string, name: string, date: string)
    requires '{' !in a && '{' !in b && '{' !in c && '{' !in d && '{' !in name
    ensures ReplaceAll(a + (name + (b + ("{birthDate}" + (c + ("{age}" + d))))), "{birthDate}", date)
      == a + (name + (b + (date + (c + ("{age}" + d)))))
  {
    var t := "{birthDate}";
    ReplaceSkipsPrefix(a, name + (b + (t + (c + ("{age}" + d)))), t, date);
    ReplaceSkipsPrefix(name, b + (t + (c + ("{age}" + d))), t, date);
    ReplaceSkipsPrefix(b, t + (c + ("{age}" + d)), t, date);
    ReplaceAtFront(c + ("{age}" + d), t, date);
    ReplaceSkipsPrefix(c, "{age}" + d, t, date);
    ReplaceSkipsMiss("{age}", d, t, date);
    ReplaceAbsent(d, t, date);
  }

  lemma FillAge(a: string, b: string, c: string, d: string, name: string, date: string, age: string)
    requires '{' !in a && '{' !in b && '{' !in c && '{' !in d && '{' !in name && '{' !in date
    ensures ReplaceAll(a + (name + (b + (date + (c + ("{age}" + d))))), "{age}", age)
      == a + (name + (b + (date + (c + (age + d)))))
  {
    var t := "{age}";
    ReplaceSkipsPrefix(a, name + (b + (date + (c + (t + d)))), t, age);
    ReplaceSkipsPrefix(name, b + (date + (c + (t + d))), t, age);
    ReplaceSkipsPrefix(b, date + (c + (t + d)), t, age);
    ReplaceSkipsPrefix(date, c + (t + d), t, age);
    ReplaceSkipsPrefix(c, t + d, t, age);
    ReplaceAtFront(d, t, age);
    ReplaceAbsent(d, t, age);
  }

  // ---------------------------------------------------------------- send

  /**
   * The mail `sendBirthdayReminder` builds for one birthday: addressed to the
   * user, titled TODAY or TOMORROW exactly on the day and the day before, red
   * up to one day ahead, and carrying a template without placeholders as it is.
   */
  function ReminderFor(to: string, b: Birthday, template: string, daysUntil: int, today: CalendarDate): (m: Reminder)
    ensures m.to == to && m.subject == Subject(b.friendName, daysUntil)
    ensures m.urgencyColor == UrgencyColor(daysUntil) && m.urgencyText == UrgencyText(daysUntil)
    ensures ("🎂 TODAY: " <= m.subject) <==> daysUntil == 0
    ensures ("🎂 TOMORROW: " <= m.subject) <==> daysUntil == 1
    ensures (m.urgencyColor == "#ef4444") <==> daysUntil <= 1
    ensures (m.urgencyText == "TODAY!") <==> daysUntil == 0
    ensures '{' !in template ==> m.message == template
  {
    SubjectKind(b.friendName, daysUntil);
    var message := Body(template, b.friendName, LongDate(UpcomingBirthday(b, today)), CalculateAge(b, today) + 1, daysUntil);
    assert '{' !in template ==> message == template by {
      if '{' !in template {
        BodyLiteral(template, b.friendName, LongDate(UpcomingBirthday(b, today)), CalculateAge(b, today) + 1, daysUntil);
      }
    }
    Reminder(to, Subject(b.friendName, daysUntil), message, UrgencyColor(daysUntil), UrgencyText(daysUntil))
  }

  /**
   * For a template holding `{friendName}`, `{birthDate}` and `{age}` once each,
   * the message carries the friend's name, the long form of the coming
   * birthday and the age the friend turns, each in its placeholder's place.
   */
  lemma ReminderMessage(to: string, bd: Birthday, a: string, b: string, c: string, d: string, daysUntil: int, today: CalendarDate)
    requires '{' !in a && '{' !in b && '{' !in c && '{' !in d && '{' !in bd.friendName
    ensures ReminderFor(to, bd, a + ("{friendName}" + (b + ("{birthDate}" + (c + ("{age}" + d))))), daysUntil, today).message
      == a + (bd.friendName + (b + (LongDate(UpcomingBirthday(bd, today)) + (c + (IntToString(CalculateAge(bd, today) + 1) + d)))))
  {
    IntToStringChars(CalculateAge(bd, today) + 1);
    FillThree(a, b, c, d, bd.friendName, LongDate(UpcomingBirthday(bd, today)),
      IntToString(CalculateAge(bd, today) + 1), IntToString(daysUntil));
  }

  /**
   * `sendBirthdayReminder` with an explicit day count: true exactly when the
   * transport accepts the mail; a failure is reported, never thrown.
   */
  function SendBirthdayReminder(to: string, b: Birthday, template: string, daysUntil: int, today: CalendarDate,
                                transport: Reminder -> bool): (sent: bool)
    ensures sent <==> transport(ReminderFor(to, b, template, daysUntil, today))
  {
    transport(ReminderFor(to, b, template, daysUntil, today))
  }

  /**
   * The three-argument `sendBirthdayReminder`: the day count is the birthday's
   * own, so the mail is titled TODAY, with the red "TODAY!" banner, exactly
   * when today is the birthday.
   */
  function SendBirthdayReminderNow(to: string, b: Birthday, template: string, today: CalendarDate,
                                   transport: Reminder -> bool): (sent: bool)
    ensures var m := ReminderFor(to, b, template, DaysUntilBirthday(b, today), today);
      && (sent <==> transport(m))
      && (("🎂 TODAY: " <= m.subject) <==> WithYear(b.birthDate, today.year) == today)
      && ((m.urgencyText == "TODAY!") <==> WithYear(b.birthDate, today.year) == today)
      && (WithYear(b.birthDate, today.year) == today ==> m.urgencyColor == "#ef4444")
  {
    SendBirthdayReminder(to, b, template, DaysUntilBirthday(b, today), today, transport)
  }
}
