/**
 * The `NotificationSettings` entity: a user's reminder preferences, with the
 * reminder days stored as a comma-separated list of integers.
 */
module NotificationSettingsEntity {
  import opened Wrappers
  import opened Users
  import opened Text
  import opened Numbers
  import opened Seqs

  const DefaultDays: string := "7,3,1"
  /**
   * "Hey! Just a reminder that {friendName}'s birthday is coming up on
   * {birthDate}. They will be turning {age} years old!", written as the text
   * around its three placeholders.
   */
  const DefaultTemplate: string :=
    TemplateOpening + ("{friendName}" + (TemplateAfterName + ("{birthDate}" + (TemplateAfterDate + ("{age}" + TemplateClosing)))))
  const TemplateOpening: string := "Hey! Just a reminder that "
  const TemplateAfterName: string := "'s birthday is coming up on "
  const TemplateAfterDate: string := ". They will be turning "
  const TemplateClosing: string := " years old!"
  const DefaultTime: string := "08:00"

  function Id(x: int): int {
    x
  }

  /** `Stream.sorted()` on integers: ascending, equal values kept. */
  function Sorted(xs: seq<int>): (r: seq<int>)
    ensures SortedBy(r, Id) && multiset(r) == multiset(xs) && |r| == |xs|
  {
    SortByProperties(xs, Id);
    SortBy(xs, Id)
  }

  /** `String::trim` on every token. */
  function TrimAll(tokens: seq<string>): (r: seq<string>)
    ensures |r| == |tokens| && forall i :: 0 <= i < |tokens| ==> r[i] == Trim(tokens[i])
  {
    Map(tokens, Trim)
  }

  /** `Integer::parseInt` on every token; `None` when one of them throws. */
  function ParseAll(tokens: seq<string>): (r: Option<seq<int>>)
    ensures r.Some? <==> forall i :: 0 <= i < |tokens| ==> ParseInt(tokens[i]).Some?
    ensures r.Some? ==> |r.value| == |tokens| && forall i :: 0 <= i < |tokens| ==> ParseInt(tokens[i]) == Some(r.value[i])
  {
    if tokens == [] then Some([])
    else
      match ParseInt(tokens[0])
      case None => None
      case Some(x) =>
        match ParseAll(tokens[1..])
        case None => None
        case Some(xs) => Some([x] + xs)
  }

  /** `String::valueOf` on every number. */
  function Strings(xs: seq<int>): (r: seq<string>)
    ensures |r| == |xs| && forall i :: 0 <= i < |xs| ==> r[i] == IntToString(xs[i])
  {
    Map(xs, IntToString)
  }

  /**
   * `getNotificationDaysList()`: the empty string stands for `[1]`; otherwise
   * the comma-separated tokens, trimmed, without the empty ones, parsed and
   * sorted. `None` stands for the `NumberFormatException` of a token that is
   * not an `int`.
   */
  function DecodeDays(s: string): (r: Option<seq<int>>)
    ensures r.Some? ==> SortedBy(r.value, Id)
  {
    if s == [] then Some([1])
    else
      match ParseAll(Filter(TrimAll(Split(s, ',')), NonEmptyToken))
      case None => None
      case Some(xs) => Some(Sorted(xs))
  }

  predicate NonEmptyToken(t: string) {
    t != []
  }

  /** `setNotificationDaysList(days)`: `"1"` for no days, else the sorted days joined by commas. */
  function EncodeDays(days: seq<int>): string {
    if days == [] then "1" else Join(Strings(Sorted(days)), ",")
  }

  /** `shouldNotifyOnDay(d)`: whether `d` is one of the decoded days (`None` when decoding throws). */
  function ShouldNotifyOnDay(s: string, d: int): (r: Option<bool>)
    ensures r.Some? <==> DecodeDays(s).Some?
    ensures r.Some? ==> (r.value <==> d in DecodeDays(s).value)
  {
    match DecodeDays(s)
    case None => None
    case Some(days) => Some(d in days)
  }

  predicate AllInt32(xs: seq<int>) {
    forall i :: 0 <= i < |xs| ==> IsInt32(xs[i])
  }

  lemma ParseAllStrings(xs: seq<int>)
    requires AllInt32(xs)
    ensures ParseAll(Strings(xs)) == Some(xs)
  {
    var ts := Strings(xs);
    forall i | 0 <= i < |xs| ensures ParseInt(ts[i]) == Some(xs[i]) {
      ParseIntToString(xs[i]);
    }
    var r := ParseAll(ts);
    assert r.Some?;
    assert |r.value| == |xs|;
    forall i | 0 <= i < |xs| ensures r.value[i] == xs[i] {
      assert ParseInt(ts[i]) == Some(r.value[i]);
    }
    assert r.value == xs;
  }

  /** A printed number is made of digits and a leading minus sign only. */
  lemma PrintedChars(x: int)
    ensures forall i :: 0 <= i < |IntToString(x)| ==> IntToString(x)[i] == '-' || IsDigit(IntToString(x)[i])
  {
    if x < 0 {
      var d := NatToString(-x);
      assert IntToString(x) == "-" + d;
      assert forall i :: 1 <= i < |IntToString(x)| ==> IntToString(x)[i] == d[i - 1];
    }
  }

  /** A token of digits and minus signs has no comma and nothing `trim` removes. */
  lemma NumericToken(s: string)
    requires forall i :: 0 <= i < |s| ==> s[i] == '-' || IsDigit(s[i])
    ensures ',' !in s && Trim(s) == s
  {
    forall i | 0 <= i < |s| ensures s[i] != ',' && !TrimmedChar(s[i]) {
      assert s[i] == '-' || IsDigit(s[i]);
    }
    TrimIdentity(s);
  }

  /** A printed number has no comma, nothing `trim` removes, and at least one char. */
  lemma PrintedToken(x: int)
    ensures IntToString(x) != [] && ',' !in IntToString(x)
    ensures Trim(IntToString(x)) == IntToString(x)
  {
    PrintedChars(x);
    NumericToken(IntToString(x));
  }

  lemma JoinStartsWith(parts: seq<string>, sep: string)
    requires |parts| >= 1
    ensures parts[0] <= Join(parts, sep)
  {
  }

  /** A token `split` keeps whole, `trim` leaves alone and the empty-token filter keeps. */
  predicate PlainToken(t: string) {
    t != [] && ',' !in t && Trim(t) == t
  }

  /** Joining tokens that need no trimming and hold no comma, then decoding, parses the tokens. */
  lemma DecodeJoin(ps: seq<string>)
    requires |ps| >= 1
    requires forall i :: 0 <= i < |ps| ==> PlainToken(ps[i])
    ensures DecodeDays(Join(ps, ",")) == (match ParseAll(ps) case None => None case Some(xs) => Some(Sorted(xs)))
  {
    var s := Join(ps, ",");
    JoinStartsWith(ps, ",");
    assert s != [];
    SplitJoin(ps, ',');
    assert Split(s, ',') == ps;
    assert TrimAll(ps) == ps;
    FilterAll(ps, NonEmptyToken);
    assert Filter(TrimAll(Split(s, ',')), NonEmptyToken) == ps;
  }

  lemma DecodeTokens(s: string, ps: seq<string>, xs: seq<int>)
    requires |ps| >= 1 && s == Join(ps, ",")
    requires forall i :: 0 <= i < |ps| ==> PlainToken(ps[i])
    requires ParseAll(ps) == Some(xs)
    ensures DecodeDays(s) == Some(Sorted(xs))
  {
    DecodeJoin(ps);
  }

  /**
   * Storing a list of days and reading it back gives the days sorted
   * ascending, duplicates kept; no days read back as `[1]`.
   */
  lemma DecodeEncode(days: seq<int>)
    requires AllInt32(days)
    ensures DecodeDays(EncodeDays(days)) == Some(if days == [] then [1] else Sorted(days))
  {
    if days == [] {
      SingleDayList();
    } else {
      var ys := Sorted(days);
      assert AllInt32(ys) by {
        forall i | 0 <= i < |ys| ensures IsInt32(ys[i]) {
          assert ys[i] in multiset(days);
        }
      }
      DecodeSortedDays(ys);
      SortBySorted(ys, Id);
    }
  }

  /** Printing sorted 32-bit days, joining them and decoding gives them back. */
  lemma DecodeSortedDays(ys: seq<int>)
    requires ys != [] && AllInt32(ys) && SortedBy(ys, Id)
    ensures DecodeDays(Join(Strings(ys), ",")) == Some(Sorted(ys))
  {
    var ps := Strings(ys);
    forall i | 0 <= i < |ps| ensures PlainToken(ps[i]) {
      PrintedToken(ys[i]);
    }
    DecodeJoin(ps);
    ParseAllStrings(ys);
  }

  /** The stored default `"7,3,1"` reads as `[1, 3, 7]`. */
  lemma DefaultDaysList()
    ensures DecodeDays(DefaultDays) == Some([1, 3, 7])
  {
    var ps := ["7", "3", "1"];
    DefaultJoin(ps);
    DefaultTokens(ps);
    DefaultParsed(ps);
    DecodeTokens(DefaultDays, ps, [7, 3, 1]);
    DefaultSorted();
  }

  lemma DefaultJoin(ps: seq<string>)
    requires ps == ["7", "3", "1"]
    ensures Join(ps, ",") == DefaultDays
  {
    assert ps[1..] == ["3", "1"] && ps[1..][1..] == ["1"];
    assert Join(["1"], ",") == "1";
    assert Join(["3", "1"], ",") == "3" + "," + "1";
    assert Join(ps, ",") == "7" + "," + ("3" + "," + "1");
  }

  lemma DefaultTokens(ps: seq<string>)
    requires ps == ["7", "3", "1"]
    ensures forall i :: 0 <= i < |ps| ==> PlainToken(ps[i])
  {
    assert ps[0] == "7" && ps[1] == "3" && ps[2] == "1";
    DigitTokens(ps);
  }

  lemma DigitTokens(ps: seq<string>)
    requires forall i :: 0 <= i < |ps| ==> |ps[i]| == 1 && IsDigit(ps[i][0])
    ensures forall i :: 0 <= i < |ps| ==> PlainToken(ps[i])
  {
    forall i | 0 <= i < |ps| ensures PlainToken(ps[i]) {
      NumericToken(ps[i]);
    }
  }

  lemma DefaultParsed(ps: seq<string>)
    requires ps == ["7", "3", "1"]
    ensures ParseAll(ps) == Some([7, 3, 1])
  {
    SingleToken("1", 1);
    SingleTokenValue("3", 3);
    ParseCons("3", ["1"], 3, [1]);
    assert ["3"] + ["1"] == ["3", "1"] && [3] + [1] == [3, 1];
    SingleTokenValue("7", 7);
    ParseCons("7", ["3", "1"], 7, [3, 1]);
    assert ["7"] + ["3", "1"] == ps && [7] + [3, 1] == [7, 3, 1];
  }

  lemma ParseCons(t: string, ts: seq<string>, x: int, xs: seq<int>)
    requires ParseInt(t) == Some(x) && ParseAll(ts) == Some(xs)
    ensures ParseAll([t] + ts) == Some([x] + xs)
  {
    assert ([t] + ts)[1..] == ts;
  }

  lemma DefaultSorted()
    ensures Sorted([7, 3, 1]) == [1, 3, 7]
  {
    var xs: seq<int> := [7, 3, 1];
    assert xs[1..] == [3, 1] && xs[1..][1..] == [1] && [1][1..] == [];
    assert SortBy([1], Id) == Insert(1, [], Id) == [1];
    assert Insert(3, [1], Id) == [1] + Insert(3, [], Id) == [1, 3];
    assert SortBy([3, 1], Id) == [1, 3];
    assert Insert(7, [3], Id) == [3] + Insert(7, [], Id) == [3, 7];
    assert Insert(7, [1, 3], Id) == [1] + Insert(7, [3], Id) == [1, 3, 7];
  }

  /** `"1"`, the value stored for no days, reads as `[1]`. */
  lemma SingleDayList()
    ensures DecodeDays("1") == Some([1])
  {
    var ps := ["1"];
    NumericToken("1");
    DecodeJoin(ps);
    SingleToken("1", 1);
  }

  lemma SingleToken(t: string, x: int)
    requires |t| == 1 && IsDigit(t[0]) && x == DigitValue(t[0])
    ensures ParseAll([t]) == Some([x])
  {
    assert [t][1..] == [];
    SingleTokenValue(t, x);
    assert [x] + [] == [x];
  }

  lemma SingleTokenValue(t: string, x: int)
    requires |t| == 1 && IsDigit(t[0]) && x == DigitValue(t[0])
    ensures ParseInt(t) == Some(x)
  {
    assert t[0] != '-' && t[0] != '+';
    assert AllDigits(t);
    assert t[..0] == [];
    assert DigitsValue(t) == x;
  }

  /** After storing a non-empty list of days, a reminder is due exactly on those days. */
  lemma NotifyOnStoredDays(days: seq<int>, d: int)
    requires days != [] && AllInt32(days)
    ensures ShouldNotifyOnDay(EncodeDays(days), d) == Some(d in days)
  {
    DecodeEncode(days);
    assert d in Sorted(days) <==> d in multiset(days);
  }

  class NotificationSettings {
    var id: int
    var owner: UserId
    var notificationDays: string
    var emailEnabled: bool
    var emailTemplate: string
    var notificationTime: string

    /** `createDefault(user)`: days `"7,3,1"`, e-mail on, the default template, 08:00. */
    constructor CreateDefault(owner: UserId)
      ensures this.owner == owner && id == 0
      ensures notificationDays == DefaultDays && emailEnabled
      ensures emailTemplate == DefaultTemplate && notificationTime == DefaultTime
    {
      id := 0;
      this.owner := owner;
      notificationDays := DefaultDays;
      emailEnabled := true;
      emailTemplate := DefaultTemplate;
      notificationTime := DefaultTime;
    }

    /** `setNotificationDaysList(days)`: overwrites the stored days and nothing else. */
    method SetNotificationDaysList(days: seq<int>)
      modifies this
      ensures notificationDays == EncodeDays(days)
      ensures id == old(id) && owner == old(owner) && emailEnabled == old(emailEnabled)
      ensures emailTemplate == old(emailTemplate) && notificationTime == old(notificationTime)
    {
      if days == [] {
        notificationDays := "1";
      } else {
        notificationDays := Join(Strings(Sorted(days)), ",");
      }
    }
  }
}
