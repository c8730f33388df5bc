/**
 * The iCalendar text `exportToICal` writes: the four TEXT escapes of section
 * 3.3.11 of RFC 5545, DATE values (section 3.3.4), content lines ended by CRLF
 * (section 3.1), and the VEVENT written for one birthday.
 */
module ICalendar {
  import opened Wrappers
  import opened Text
  import opened Numbers
  import opened Dates
  import opened BirthdayEntity

  // ------------------------------------------------------------ TEXT values

  /** `escapeICalText`: backslash first, then comma, semicolon and newline. */
  function EscapeText(s: string): string {
    ReplaceAll(ReplaceAll(ReplaceAll(ReplaceAll(s, "\\", "\\\\"), ",", "\\,"), ";", "\\;"), "\n", "\\n")
  }

  /** The escape of a single char, as section 3.3.11 of RFC 5545 lists them. */
  function EscapeChar(c: char): (r: string)
    ensures 1 <= |r| <= 2
  {
    if c == '\\' then "\\\\"
    else if c == ',' then "\\,"
    else if c == ';' then "\\;"
    else if c == '\n' then "\\n"
    else [c]
  }

  /** Char-by-char escaping: the reference the chained replacements are checked against. */
  function EscapeEach(s: string): string {
    if s == [] then [] else EscapeChar(s[0]) + EscapeEach(s[1..])
  }

  /** The four replacements as char maps, in the order `escapeICalText` applies them. */
  function Steps(s: string): string {
    MapChar(MapChar(MapChar(MapChar(s, '\\', "\\\\"), ',', "\\,"), ';', "\\;"), '\n', "\\n")
  }

  lemma {:induction false} MapCharAppend(a: string, b: string, c: char, r: string)
    ensures MapChar(a + b, c, r) == MapChar(a, c, r) + MapChar(b, c, r)
    decreases |a|
  {
    if a == [] {
      assert a + b == b;
    } else {
      assert (a + b)[0] == a[0] && (a + b)[1..] == a[1..] + b;
      MapCharAppend(a[1..], b, c, r);
    }
  }

  lemma StepsAppend(a: string, b: string)
    ensures Steps(a + b) == Steps(a) + Steps(b)
  {
    MapCharAppend(a, b, '\\', "\\\\");
    var a1, b1 := MapChar(a, '\\', "\\\\"), MapChar(b, '\\', "\\\\");
    MapCharAppend(a1, b1, ',', "\\,");
    var a2, b2 := MapChar(a1, ',', "\\,"), MapChar(b1, ',', "\\,");
    MapCharAppend(a2, b2, ';', "\\;");
    var a3, b3 := MapChar(a2, ';', "\\;"), MapChar(b2, ';', "\\;");
    MapCharAppend(a3, b3, '\n', "\\n");
  }

  lemma MapCharSingle(c: char, x: char, r: string)
    ensures MapChar([c], x, r) == if c == x then r else [c]
  {
    assert [c][1..] == [];
  }

  lemma {:induction false} MapCharAbsent(s: string, x: char, r: string)
    requires x !in s
    ensures MapChar(s, x, r) == s
    decreases |s|
  {
    if s != [] {
      MapCharAbsent(s[1..], x, r);
    }
  }

  /** A later replacement never rewrites what an earlier one produced, so one char escapes alone. */
  lemma StepsChar(c: char)
    ensures Steps([c]) == EscapeChar(c)
  {
    MapCharSingle(c, '\\', "\\\\");
    var s1 := MapChar([c], '\\', "\\\\");
    if c == '\\' {
      MapCharAbsent(s1, ',', "\\,");
      MapCharAbsent(s1, ';', "\\;");
      MapCharAbsent(s1, '\n', "\\n");
    } else {
      MapCharSingle(c, ',', "\\,");
      var s2 := MapChar([c], ',', "\\,");
      if c == ',' {
        MapCharAbsent(s2, ';', "\\;");
        MapCharAbsent(s2, '\n', "\\n");
      } else {
        MapCharSingle(c, ';', "\\;");
        var s3 := MapChar([c], ';', "\\;");
        if c == ';' {
          MapCharAbsent(s3, '\n', "\\n");
        } else {
          MapCharSingle(c, '\n', "\\n");
        }
      }
    }
  }

  /** The chained `replace` calls escape each char independently. */
  lemma {:induction false} EscapeTextIsEscapeEach(s: string)
    ensures EscapeText(s) == EscapeEach(s)
  {
    ReplaceCharIsMapChar(s, '\\', "\\\\");
    var s1 := MapChar(s, '\\', "\\\\");
    ReplaceCharIsMapChar(s1, ',', "\\,");
    var s2 := MapChar(s1, ',', "\\,");
    ReplaceCharIsMapChar(s2, ';', "\\;");
    var s3 := MapChar(s2, ';', "\\;");
    ReplaceCharIsMapChar(s3, '\n', "\\n");
    StepsIsEscapeEach(s);
  }

  lemma {:induction false} StepsIsEscapeEach(s: string)
    ensures Steps(s) == EscapeEach(s)
    decreases |s|
  {
    if s == [] {
    } else {
      assert s == [s[0]] + s[1..];
      StepsAppend([s[0]], s[1..]);
      StepsChar(s[0]);
      StepsIsEscapeEach(s[1..]);
    }
  }

  /** A char that TEXT may hold as it is. */
  predicate SafeChar(c: char) {
    c != '\\' && c != ',' && c != ';' && c != '\n'
  }

  /**
   * Well-formed escaped TEXT: safe chars and the escapes `\\`, `\,`, `\;`,
   * `\n`; so no bare comma, semicolon or newline, and no dangling backslash.
   */
  predicate Escaped(t: string)
    decreases |t|
  {
    t == []
    || (SafeChar(t[0]) && Escaped(t[1..]))
    || (|t| >= 2 && t[0] == '\\' && t[1] in "\\,;n" && Escaped(t[2..]))
  }

  /** Reading escaped TEXT back: `\n` (or `\N`) is a newline, any other escape its second char. */
  function Unescape(t: string): string
    decreases |t|
  {
    if t == [] then []
    else if |t| >= 2 && t[0] == '\\' then (if t[1] == 'n' || t[1] == 'N' then "\n" else [t[1]]) + Unescape(t[2..])
    else [t[0]] + Unescape(t[1..])
  }

  lemma EscapeEachCons(s: string)
    requires s != []
    ensures EscapeEach(s) == EscapeChar(s[0]) + EscapeEach(s[1..])
  {
  }

  /** Escaped text is well formed, holds no newline, and reads back as the original. */
  lemma {:induction false} EscapeRoundTrip(s: string)
    ensures Escaped(EscapeEach(s))
    ensures '\n' !in EscapeEach(s)
    ensures Unescape(EscapeEach(s)) == s
    decreases |s|
  {
    if s != [] {
      EscapeRoundTrip(s[1..]);
      var e, rest := EscapeChar(s[0]), EscapeEach(s[1..]);
      var t := e + rest;
      assert EscapeEach(s) == t;
      if |e| == 2 {
        assert t[0] == '\\' && t[1] == e[1] && t[2..] == rest;
      } else {
        assert t[0] == s[0] && t[1..] == rest;
      }
    }
  }

  /** `escapeICalText` applies the four escapes of section 3.3.11 of RFC 5545 and loses nothing. */
  lemma EscapeTextProperties(s: string)
    ensures Escaped(EscapeText(s))
    ensures '\n' !in EscapeText(s)
    ensures Unescape(EscapeText(s)) == s
  {
    EscapeTextIsEscapeEach(s);
    EscapeRoundTrip(s);
  }

  /** Text with none of the four special chars is written as it is. */
  lemma {:induction false} SafeTextUnchanged(s: string)
    requires forall i :: 0 <= i < |s| ==> SafeChar(s[i])
    ensures EscapeEach(s) == s
    decreases |s|
  {
    if s != [] {
      SafeTextUnchanged(s[1..]);
      assert EscapeChar(s[0]) == [s[0]];
    }
  }

  /**
   * Control characters other than the newline are not escaped: a carriage
   * return in a name, notes or category name reaches the calendar as it is,
   * although TEXT does not allow it.
   */
  lemma CarriageReturnKept(s: string)
    requires forall i :: 0 <= i < |s| ==> SafeChar(s[i])
    ensures EscapeText(s + "\r") == s + "\r"
    ensures Escaped(s + "\r")
  {
    var t := s + "\r";
    assert forall i :: 0 <= i < |t| ==> SafeChar(t[i]);
    EscapeTextIsEscapeEach(t);
    SafeTextUnchanged(t);
    EscapeRoundTrip(t);
  }

  /**
   * The `\n` that the description puts before the notes, and in place of each
   * newline of the notes, is escaped again: a reader gets a backslash and an
   * `n`, not a line break.
   */
  lemma NotesNewlineShownLiterally()
    ensures EscapeText(ReplaceAll("\n", "\n", "\\n")) == "\\\\n"
    ensures Unescape(EscapeText("\\n")) == "\\n"
  {
    ReplaceAtFront("", "\n", "\\n");
    assert "\n" == "\n" + "";
    EscapeTextIsEscapeEach("\\n");
    assert EscapeEach("\\n") == "\\\\" + EscapeEach("n");
    assert EscapeEach("n") == "n" + EscapeEach("");
  }

  // ------------------------------------------------------------ DATE values

  /** `formatICalDate`: `String.format("%04d%02d%02d", year, month, day)`. */
  function FormatDate(d: Date): string {
    FormatZeroPadded(d.year, 4) + FormatZeroPadded(d.month, 2) + FormatZeroPadded(d.day, 2)
  }

  /** For years 0..9999 the value is exactly eight digits YYYYMMDD (section 3.3.4 of RFC 5545). */
  lemma FormatDateShape(d: Date)
    requires Valid(d) && 0 <= d.year <= 9999
    ensures |FormatDate(d)| == 8 && AllDigits(FormatDate(d))
    ensures DigitsValue(FormatDate(d)[..4]) == d.year
    ensures DigitsValue(FormatDate(d)[4..6]) == d.month
    ensures DigitsValue(FormatDate(d)[6..]) == d.day
  {
    assert Pow10(4) == 10000 && Pow10(2) == 100;
    FormatZeroPaddedFixedWidth(d.year, 4);
    FormatZeroPaddedFixedWidth(d.month, 2);
    FormatZeroPaddedFixedWidth(d.day, 2);
    var y, m, dd := FormatZeroPadded(d.year, 4), FormatZeroPadded(d.month, 2), FormatZeroPadded(d.day, 2);
    var r := y + m + dd;
    assert r[..4] == y && r[4..6] == m && r[6..] == dd;
  }

  // ---------------------------------------------------------------- events

  /** `"Line"` followed by CRLF, for every line: the content-line ending of section 3.1 of RFC 5545. */
  function Crlf(lines: seq<string>): string {
    if lines == [] then "" else lines[0] + "\r\n" + Crlf(lines[1..])
  }

  lemma {:induction false} CrlfAppend(a: seq<string>, b: seq<string>)
    ensures Crlf(a + b) == Crlf(a) + Crlf(b)
    decreases |a|
  {
    if a == [] {
      assert a + b == b;
    } else {
      assert (a + b)[0] == a[0] && (a + b)[1..] == a[1..] + b;
      CrlfAppend(a[1..], b);
    }
  }

  /** Writing one more line and its CRLF. */
  lemma CrlfSnoc(lines: seq<string>, line: string)
    ensures Crlf(lines + [line]) == Crlf(lines) + line + "\r\n"
  {
    CrlfAppend(lines, [line]);
    assert [line][1..] == [];
  }

  /** The description: the age the friend is turning, then the notes when there are any. */
  function Description(b: Birthday, today: CalendarDate): string {
    var base := b.friendName + " is turning " + IntToString(CalculateAge(b, today) + 1);
    match b.notes
    case Some(notes) =>
      if notes != [] then base + "\\n\\nNotes: " + ReplaceAll(notes, "\n", "\\n") else base
    case None => base
  }

  /** The lines of a VEVENT with the given property values, in the order they are written. */
  function EventOf(uid: string, start: string, end: string, summary: string, description: string,
                   category: Option<string>): (r: seq<string>)
    ensures 9 <= |r| <= 10
  {
    [ "BEGIN:VEVENT",
      "UID:" + uid,
      "DTSTART;VALUE=DATE:" + start,
      "DTEND;VALUE=DATE:" + end,
      "SUMMARY:" + summary,
      "DESCRIPTION:" + description,
      "RRULE:FREQ=YEARLY",
      "TRANSP:TRANSPARENT" ]
    + (match category case Some(name) => ["CATEGORIES:" + name] case None => [])
    + ["END:VEVENT"]
  }

  /** Where each property sits in an event: the fixed first lines, then the optional category, then the end. */
  lemma EventOfFields(uid: string, start: string, end: string, summary: string, description: string, category: Option<string>)
    ensures var r := EventOf(uid, start, end, summary, description, category);
      && r[0] == "BEGIN:VEVENT" && r[|r| - 1] == "END:VEVENT"
      && r[2] == "DTSTART;VALUE=DATE:" + start && r[3] == "DTEND;VALUE=DATE:" + end
      && r[4] == "SUMMARY:" + summary && r[5] == "DESCRIPTION:" + description
  {
  }

  /**
   * The content lines of one birthday's VEVENT; `category` is the name of the
   * birthday's category, written without escaping.
   */
  function EventLines(b: Birthday, today: CalendarDate, category: Option<string>): (r: seq<string>)
    ensures 9 <= |r| <= 10
  {
    var up := UpcomingBirthday(b, today);
    EventOf("birthday-" + IntToString(b.id) + "-" + IntToString(up.year) + "@birthdayreminder",
            FormatDate(up), FormatDate(NextDay(up)),
            EscapeText(b.friendName + "'s Birthday"), EscapeText(Description(b, today)), category)
  }

  /** The event starts on the upcoming birthday and ends the next day: a one-day, all-day event. */
  lemma EventDates(b: Birthday, today: CalendarDate, category: Option<string>)
    ensures var r := EventLines(b, today, category);
      var up := UpcomingBirthday(b, today);
      && r[0] == "BEGIN:VEVENT" && r[|r| - 1] == "END:VEVENT"
      && r[2] == "DTSTART;VALUE=DATE:" + FormatDate(up)
      && r[3] == "DTEND;VALUE=DATE:" + FormatDate(NextDay(up))
      && EpochDay(NextDay(up)) == EpochDay(up) + 1
      && !IsBefore(up, today)
  {
    var up := UpcomingBirthday(b, today);
    EventOfFields("birthday-" + IntToString(b.id) + "-" + IntToString(up.year) + "@birthdayreminder",
                  FormatDate(up), FormatDate(NextDay(up)),
                  EscapeText(b.friendName + "'s Birthday"), EscapeText(Description(b, today)), category);
    NextDayCount(up);
  }

  /** The summary and description lines carry escaped TEXT only. */
  lemma EventTextEscaped(b: Birthday, today: CalendarDate, category: Option<string>)
    ensures var r := EventLines(b, today, category);
      && r[4] == "SUMMARY:" + EscapeText(b.friendName + "'s Birthday")
      && Escaped(EscapeText(b.friendName + "'s Birthday"))
      && Escaped(EscapeText(Description(b, today)))
  {
    var up := UpcomingBirthday(b, today);
    EventOfFields("birthday-" + IntToString(b.id) + "-" + IntToString(up.year) + "@birthdayreminder",
                  FormatDate(up), FormatDate(NextDay(up)),
                  EscapeText(b.friendName + "'s Birthday"), EscapeText(Description(b, today)), category);
    EscapeTextProperties(b.friendName + "'s Birthday");
    EscapeTextProperties(Description(b, today));
  }

  const CalendarHeader: seq<string> := [
    "BEGIN:VCALENDAR",
    "VERSION:2.0",
    "PRODID:-//Birthday Reminder//EN",
    "CALSCALE:GREGORIAN",
    "METHOD:PUBLISH",
    "X-WR-CALNAME:Birthdays"
  ]

  /** The events of `birthdays`, one after another; `categories[k]` is the category name of `birthdays[k]`. */
  function Events(birthdays: seq<Birthday>, categories: seq<Option<string>>, today: CalendarDate): seq<string>
    requires |categories| == |birthdays|
  {
    if birthdays == [] then []
    else EventLines(birthdays[0], today, categories[0]) + Events(birthdays[1..], categories[1..], today)
  }

  lemma {:induction false} EventsSnoc(birthdays: seq<Birthday>, categories: seq<Option<string>>, today: CalendarDate,
                                      b: Birthday, category: Option<string>)
    requires |categories| == |birthdays|
    ensures Events(birthdays + [b], categories + [category], today)
      == Events(birthdays, categories, today) + EventLines(b, today, category)
    decreases |birthdays|
  {
    if birthdays == [] {
      assert birthdays + [b] == [b] && categories + [category] == [category];
      assert Events([b], [category], today) == EventLines(b, today, category) + Events([], [], today);
    } else {
      assert (birthdays + [b])[1..] == birthdays[1..] + [b];
      assert (categories + [category])[1..] == categories[1..] + [category];
      EventsSnoc(birthdays[1..], categories[1..], today, b, category);
    }
  }

  /** The whole calendar, line by line. */
  function CalendarLines(birthdays: seq<Birthday>, categories: seq<Option<string>>, today: CalendarDate): seq<string>
    requires |categories| == |birthdays|
  {
    CalendarHeader + Events(birthdays, categories, today) + ["END:VCALENDAR"]
  }

  /** Writing the closing line after the header and the events gives the whole calendar. */
  lemma CloseCalendar(text: string, birthdays: seq<Birthday>, categories: seq<Option<string>>, today: CalendarDate)
    requires |categories| == |birthdays|
    requires text == Crlf(CalendarHeader + Events(birthdays, categories, today))
    ensures text + "END:VCALENDAR" + "\r\n" == Crlf(CalendarLines(birthdays, categories, today))
  {
    CrlfSnoc(CalendarHeader + Events(birthdays, categories, today), "END:VCALENDAR");
  }

  /** How many lines of `lines` are `line`. */
  function Occurrences(lines: seq<string>, line: string): nat {
    if lines == [] then 0 else (if lines[0] == line then 1 else 0) + Occurrences(lines[1..], line)
  }

  lemma {:induction false} OccurrencesAppend(a: seq<string>, b: seq<string>, line: string)
    ensures Occurrences(a + b, line) == Occurrences(a, line) + Occurrences(b, line)
    decreases |a|
  {
    if a == [] {
      assert a + b == b;
    } else {
      assert (a + b)[0] == a[0] && (a + b)[1..] == a[1..] + b;
      OccurrencesAppend(a[1..], b, line);
    }
  }

  lemma PrefixedDiffers(p: string, s: string, line: string)
    requires |p| > 0 && |line| > 0 && p[0] != line[0]
    ensures p + s != line
  {
    assert (p + s)[0] == p[0];
  }

  /** No line of an event other than the first one is `BEGIN:VEVENT`. */
  lemma EventOfBegins(uid: string, start: string, end: string, summary: string, description: string,
                      category: Option<string>)
    ensures Occurrences(EventOf(uid, start, end, summary, description, category), "BEGIN:VEVENT") == 1
  {
    var r := EventOf(uid, start, end, summary, description, category);
    var b := "BEGIN:VEVENT";
    PrefixedDiffers("UID:", uid, b);
    PrefixedDiffers("DTSTART;VALUE=DATE:", start, b);
    PrefixedDiffers("DTEND;VALUE=DATE:", end, b);
    PrefixedDiffers("SUMMARY:", summary, b);
    PrefixedDiffers("DESCRIPTION:", description, b);
    if category.Some? {
      PrefixedDiffers("CATEGORIES:", category.value, b);
    }
    assert forall k :: 1 <= k < |r| ==> r[k] != b;
    OccurrencesNone(r[1..], b);
    assert r == [r[0]] + r[1..];
  }

  lemma EventBegins(b: Birthday, today: CalendarDate, category: Option<string>)
    ensures Occurrences(EventLines(b, today, category), "BEGIN:VEVENT") == 1
  {
    var up := UpcomingBirthday(b, today);
    EventOfBegins("birthday-" + IntToString(b.id) + "-" + IntToString(up.year) + "@birthdayreminder",
                  FormatDate(up), FormatDate(NextDay(up)),
                  EscapeText(b.friendName + "'s Birthday"), EscapeText(Description(b, today)), category);
  }

  lemma {:induction false} OccurrencesNone(lines: seq<string>, line: string)
    requires forall k :: 0 <= k < |lines| ==> lines[k] != line
    ensures Occurrences(lines, line) == 0
  {
    if lines != [] {
      OccurrencesNone(lines[1..], line);
    }
  }

  /** There is one VEVENT per exported birthday. */
  lemma {:induction false} OneEventPerBirthday(birthdays: seq<Birthday>, categories: seq<Option<string>>, today: CalendarDate)
    requires |categories| == |birthdays|
    ensures Occurrences(Events(birthdays, categories, today), "BEGIN:VEVENT") == |birthdays|
  {
    if birthdays != [] {
      OneEventPerBirthday(birthdays[1..], categories[1..], today);
      EventBegins(birthdays[0], today, categories[0]);
      OccurrencesAppend(EventLines(birthdays[0], today, categories[0]), Events(birthdays[1..], categories[1..], today), "BEGIN:VEVENT");
    }
  }

  /** The calendar begins with `BEGIN:VCALENDAR`, ends with `END:VCALENDAR` and has one event per birthday. */
  lemma CalendarShape(birthdays: seq<Birthday>, categories: seq<Option<string>>, today: CalendarDate)
    requires |categories| == |birthdays|
    ensures var r := CalendarLines(birthdays, categories, today);
      && r[0] == "BEGIN:VCALENDAR" && r[|r| - 1] == "END:VCALENDAR"
      && Occurrences(r, "BEGIN:VEVENT") == |birthdays|
  {
    OneEventPerBirthday(birthdays, categories, today);
    WrapCount(Events(birthdays, categories, today), |birthdays|);
  }

  lemma WrapCount(ev: seq<string>, n: nat)
    requires Occurrences(ev, "BEGIN:VEVENT") == n
    ensures var r := CalendarHeader + ev + ["END:VCALENDAR"];
      && r[0] == "BEGIN:VCALENDAR" && r[|r| - 1] == "END:VCALENDAR"
      && Occurrences(r, "BEGIN:VEVENT") == n
  {
    var b := "BEGIN:VEVENT";
    assert forall k :: 0 <= k < |CalendarHeader| ==> |CalendarHeader[k]| != |b| || CalendarHeader[k][0] != b[0];
    OccurrencesNone(CalendarHeader, b);
    OccurrencesNone(["END:VCALENDAR"], b);
    OccurrencesAppend(CalendarHeader, ev, b);
    OccurrencesAppend(CalendarHeader + ev, ["END:VCALENDAR"], b);
  }

  /** The text starts with the first line and ends with CRLF after the last one. */
  lemma CrlfEnds(lines: seq<string>)
    requires lines != []
    ensures lines[0] + "\r\n" <= Crlf(lines)
    ensures |lines[|lines| - 1] + "\r\n"| <= |Crlf(lines)|
    ensures Crlf(lines)[|Crlf(lines)| - |lines[|lines| - 1]| - 2..] == lines[|lines| - 1] + "\r\n"
  {
    var n := |lines|;
    assert lines == lines[..n - 1] + [lines[n - 1]];
    CrlfAppend(lines[..n - 1], [lines[n - 1]]);
    assert Crlf([lines[n - 1]]) == lines[n - 1] + "\r\n" + Crlf([]);
  }
}
