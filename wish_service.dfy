/**
 * `WishService`: birthday wish suggestions, picked from templates by the
 * friend's category and an optional tone, and personalised with the friend's
 * first name, full name, coming age and its ordinal.
 */
module WishServiceModel {
  import opened Wrappers
  import opened Text
  import opened Numbers
  import opened Dates
  import opened BirthdayEntity
  import opened WishTemplates
  import Seqs

  // ------------------------------------------------------------- wording

  /**
   * `getOrdinal(n)`: the number followed by "th" for 11 to 13, otherwise by
   * "st", "nd", "rd" or "th" after its last digit; Java's `%` keeps the sign,
   * so a negative number always gets "th".
   */
  function Ordinal(n: int): (r: string)
    ensures |r| == |IntToString(n)| + 2 && r[..|IntToString(n)|] == IntToString(n)
    ensures var last := IntToString(n)[|IntToString(n)| - 1];
      r[|IntToString(n)|..] ==
        if n < 0 || 11 <= n <= 13 then "th"
        else if last == '1' then "st" else if last == '2' then "nd" else if last == '3' then "rd" else "th"
  {
    LastPrintedDigit(n);
    var suffix :=
      if 11 <= n <= 13 then "th"
      else
        var m := JavaRem(n, 10);
        if m == 1 then "st" else if m == 2 then "nd" else if m == 3 then "rd" else "th";
    IntToString(n) + suffix
  }

  /** `getRelationWord(category)`, matched ignoring case. */
  function RelationWord(category: string): (r: string)
    ensures r == "family member" <==> Lower(category) == "family"
    ensures r == "colleague" <==> Lower(category) == "work"
    ensures r == "family member" || r == "colleague" || r == "friend"
  {
    var c := Lower(category);
    if c == "family" then "family member"
    else if c == "friends" then "friend"
    else if c == "work" then "colleague"
    else if c == "college" then "friend"
    else "friend"
  }

  /** Category names that differ only in case get the same relation word. */
  lemma RelationIgnoresCase(a: string, b: string)
    requires EqualsIgnoreCase(a, b)
    ensures RelationWord(a) == RelationWord(b)
  {
  }

  /** `friendName.split(" ")[0]`: the name up to its first space. */
  function FirstName(friendName: string): (r: string)
    ensures r <= friendName && ' ' !in r
    ensures |r| < |friendName| ==> friendName[|r|] == ' '
  {
    SplitHead(friendName, ' ');
    Split(friendName, ' ')[0]
  }

  lemma {:induction false} SplitHead(s: string, sep: char)
    ensures var h := Split(s, sep)[0];
      h <= s && sep !in h && (|h| < |s| ==> s[|h|] == sep)
  {
    if s != [] && s[0] != sep {
      SplitHead(s[1..], sep);
    }
  }

  /**
   * `personalizeWish`: `{name}`, `{fullName}`, `{age}` and `{ordinal}` are
   * replaced in that order, then `{relation}` when the text still holds it.
   */
  function Personalize(template: string, firstName: string, fullName: string, age: int, category: string): string {
    var wish := Placeholders(template, firstName, fullName, age);
    if Contains(wish, "{relation}") then ReplaceAll(wish, "{relation}", RelationWord(category)) else wish
  }

  function Placeholders(template: string, firstName: string, fullName: string, age: int): string {
    ReplaceAll(ReplaceAll(ReplaceAll(ReplaceAll(template, "{name}", firstName), "{fullName}", fullName),
      "{age}", IntToString(age)), "{ordinal}", Ordinal(age))
  }

  /** Replacing a text that does not occur changes nothing. */
  lemma {:induction false} ReplaceNotContained(s: string, t: string, r: string)
    requires |t| > 0 && !Contains(s, t)
    ensures ReplaceAll(s, t, r) == s
    decreases |s|
  {
    if |s| >= |t| {
      assert !(t <= s);
      ReplaceNotContained(s[1..], t, r);
    }
  }

  /** The `contains` test before the `{relation}` replacement changes nothing: the replacement alone gives the same text. */
  lemma RelationGuardRedundant(template: string, firstName: string, fullName: string, age: int, category: string)
    ensures Personalize(template, firstName, fullName, age, category) ==
      ReplaceAll(Placeholders(template, firstName, fullName, age), "{relation}", RelationWord(category))
  {
    var wish := Placeholders(template, firstName, fullName, age);
    if !Contains(wish, "{relation}") {
      ReplaceNotContained(wish, "{relation}", RelationWord(category));
    }
  }

  /** A template without a `{` has no placeholder and comes back as it is. */
  lemma PersonalizeLiteral(template: string, firstName: string, fullName: string, age: int, category: string)
    requires '{' !in template
    ensures Personalize(template, firstName, fullName, age, category) == template
  {
    ReplaceAbsent(template, "{name}", firstName);
    ReplaceAbsent(template, "{fullName}", fullName);
    ReplaceAbsent(template, "{age}", IntToString(age));
    ReplaceAbsent(template, "{ordinal}", Ordinal(age));
    ReplaceAbsent(template, "{relation}", RelationWord(category));
    assert ReplaceAll(template, "{relation}", RelationWord(category)) == template;
  }

  // ----------------------------------------------------------- templates

  /** `getCategoryTemplates(category)`, matched ignoring case; other categories add none. */
  function CategoryTemplates(category: string): (r: seq<WishTemplate>)
    ensures Lower(category) != "family" && Lower(category) != "friends" && Lower(category) != "work" && Lower(category) != "college"
      ==> r == []
  {
    var c := Lower(category);
    if c == "family" then FamilyTemplates
    else if c == "friends" then FriendsTemplates
    else if c == "work" then WorkTemplates
    else if c == "college" then CollegeTemplates
    else []
  }

  /** The extra templates per category: 6 for family, 7 for friends, 6 for work and 6 for college. */
  lemma CategoryTemplateCounts(category: string)
    ensures |CategoryTemplates(category)| ==
      if Lower(category) == "family" then 6 else if Lower(category) == "friends" then 7
      else if Lower(category) == "work" then 6 else if Lower(category) == "college" then 6 else 0
  {
  }

  /** The tone test of `removeIf`: a template stays when its tone is the requested one or "neutral". */
  predicate ToneMatches(t: WishTemplate, toneLower: string) {
    t.tone == toneLower || t.tone == "neutral"
  }

  /** The templates that survive the tone filter, in their order. */
  function KeepTone(ts: seq<WishTemplate>, toneLower: string): (r: seq<WishTemplate>)
    ensures |r| <= |ts|
    ensures forall i :: 0 <= i < |r| ==> r[i] in ts && ToneMatches(r[i], toneLower)
    ensures forall i :: 0 <= i < |ts| && ToneMatches(ts[i], toneLower) ==> ts[i] in r
  {
    if ts == [] then []
    else
      var kept := KeepTone(ts[..|ts| - 1], toneLower);
      var t := ts[|ts| - 1];
      if ToneMatches(t, toneLower) then kept + [t] else kept
  }

  /** `getTemplates(category, tone)`: the universal and category templates, tone-filtered unless the tone is null or empty. */
  function TemplatesFor(category: string, tone: Option<string>): seq<WishTemplate> {
    var all := UniversalTemplates + CategoryTemplates(category);
    if tone.None? || tone.value == [] then all else KeepTone(all, Lower(tone.value))
  }

  /** `getTemplates`: the list is built with `addAll` and then filtered in place with `removeIf`. */
  method GetTemplates(category: string, tone: Option<string>) returns (all: seq<WishTemplate>)
    ensures all == TemplatesFor(category, tone)
  {
    all := UniversalTemplates;
    all := all + CategoryTemplates(category);
    if tone.Some? && tone.value != [] {
      var toneLower := Lower(tone.value);
      all := RemoveOtherTones(all, toneLower);
    }
  }

  /** `removeIf(t -> !t.tone.equals(toneLower) && !t.tone.equals("neutral"))` */
  method RemoveOtherTones(ts: seq<WishTemplate>, toneLower: string) returns (kept: seq<WishTemplate>)
    ensures kept == KeepTone(ts, toneLower)
  {
    kept := [];
    for i := 0 to |ts|
      invariant kept == KeepTone(ts[..i], toneLower)
    {
      assert ts[..i + 1][..i] == ts[..i];
      if ToneMatches(ts[i], toneLower) {
        kept := kept + [ts[i]];
      }
    }
    Seqs.TakeAll(ts);
  }

  // ---------------------------------------------------------- selection

  /** The template texts already used. */
  function Texts(ts: seq<WishTemplate>): set<string> {
    set i | 0 <= i < |ts| :: ts[i].template
  }

  /** The templates in order, each text kept at its first occurrence only. */
  function Dedup(ts: seq<WishTemplate>): (r: seq<WishTemplate>)
    ensures |r| <= |ts|
    ensures forall i, j :: 0 <= i < j < |r| ==> r[i].template != r[j].template
    ensures forall i :: 0 <= i < |r| ==> r[i] in ts
    ensures Texts(r) == Texts(ts)
  {
    if ts == [] then []
    else
      var init := ts[..|ts| - 1];
      var d := Dedup(init);
      var t := ts[|ts| - 1];
      assert ts == init + [t];
      TextsSnoc(init, t);
      TextsSnoc(d, t);
      if t.template in Texts(d) then d else d + [t]
  }

  lemma TextsSnoc(ts: seq<WishTemplate>, t: WishTemplate)
    ensures Texts(ts + [t]) == Texts(ts) + {t.template}
  {
    var s := ts + [t];
    assert s[|ts|] == t;
    forall x | x in Texts(ts) ensures x in Texts(s) {
      var i :| 0 <= i < |ts| && ts[i].template == x;
      assert s[i] == ts[i];
    }
  }

  /** One step of the selection loop: the next template is kept exactly when its text is new. */
  lemma DedupStep(ts: seq<WishTemplate>, i: nat)
    requires i < |ts|
    ensures Dedup(ts[..i + 1]) ==
      if ts[i].template in Texts(Dedup(ts[..i])) then Dedup(ts[..i]) else Dedup(ts[..i]) + [ts[i]]
  {
    assert ts[..i + 1][..i] == ts[..i];
  }

  lemma PersonalizeSnoc(ts: seq<WishTemplate>, t: WishTemplate, firstName: string, fullName: string, age: int, category: string)
    ensures PersonalizeAll(ts + [t], firstName, fullName, age, category) ==
      PersonalizeAll(ts, firstName, fullName, age, category) + [Personalize(t.template, firstName, fullName, age, category)]
  {
    assert (ts + [t])[..|ts|] == ts;
  }

  /** Without repeated texts nothing is dropped. */
  lemma {:induction false} DedupOfDistinct(ts: seq<WishTemplate>)
    requires forall i, j :: 0 <= i < j < |ts| ==> ts[i].template != ts[j].template
    ensures Dedup(ts) == ts
  {
    if ts != [] {
      var init := ts[..|ts| - 1];
      DedupOfDistinct(init);
      assert ts[|ts| - 1].template !in Texts(init);
      assert ts == init + [ts[|ts| - 1]];
    }
  }

  /** Deduplicating a prefix gives a prefix of the deduplicated whole. */
  lemma {:induction false} DedupPrefix(ts: seq<WishTemplate>, n: nat)
    requires n <= |ts|
    ensures Dedup(ts[..n]) <= Dedup(ts)
    decreases |ts| - n
  {
    if n < |ts| {
      DedupPrefix(ts[..|ts| - 1], n);
      assert ts[..|ts| - 1][..n] == ts[..n];
    } else {
      assert ts[..n] == ts;
    }
  }

  /** The first `n` elements, or all of them when there are fewer. */
  function Take<T>(s: seq<T>, n: int): (r: seq<T>)
    ensures |r| == if n <= 0 then 0 else if n < |s| then n else |s|
    ensures r <= s
  {
    if n <= 0 then [] else if n < |s| then s[..n] else s
  }

  function PersonalizeAll(ts: seq<WishTemplate>, firstName: string, fullName: string, age: int, category: string): (r: seq<string>)
    ensures |r| == |ts|
    ensures forall i :: 0 <= i < |ts| ==> r[i] == Personalize(ts[i].template, firstName, fullName, age, category)
  {
    if ts == [] then [] else PersonalizeAll(ts[..|ts| - 1], firstName, fullName, age, category) + [Personalize(ts[|ts| - 1].template, firstName, fullName, age, category)]
  }

  /**
   * `generateWishes`: walks the shuffled templates, stops once `count` wishes
   * are collected, and skips a template whose text was used before. The
   * shuffle is the argument `shuffled`, any ordering of the templates.
   */
  method GenerateWishes(b: Birthday, categoryName: Option<string>, today: CalendarDate, count: int,
                        tone: Option<string>, shuffled: seq<WishTemplate>) returns (wishes: seq<string>)
    requires multiset(shuffled) == multiset(TemplatesFor(categoryName.GetOr("friend"), tone))
    ensures wishes == PersonalizeAll(Take(Dedup(shuffled), count), FirstName(b.friendName), b.friendName,
                                     CalculateAge(b, today) + 1, categoryName.GetOr("friend"))
  {
    var firstName := FirstName(b.friendName);
    var age := CalculateAge(b, today) + 1;
    var category := categoryName.GetOr("friend");
    wishes := SelectWishes(shuffled, count, firstName, b.friendName, age, category);
  }

  /** The loop of `generateWishes`, with the `usedTemplates` set. */
  method SelectWishes(shuffled: seq<WishTemplate>, count: int, firstName: string, fullName: string, age: int, category: string)
    returns (wishes: seq<string>)
    ensures wishes == PersonalizeAll(Take(Dedup(shuffled), count), firstName, fullName, age, category)
  {
    wishes := [];
    var used: set<string> := {};
    ghost var chosen: seq<WishTemplate> := [];
    var i := 0;
    while i < |shuffled| && |wishes| < count
      invariant 0 <= i <= |shuffled|
      invariant chosen == Dedup(shuffled[..i]) && used == Texts(chosen)
      invariant wishes == PersonalizeAll(chosen, firstName, fullName, age, category)
      invariant |chosen| <= if count <= 0 then 0 else count
    {
      var t := shuffled[i];
      DedupStep(shuffled, i);
      if t.template !in used {
        var wish := Personalize(t.template, firstName, fullName, age, category);
        TextsSnoc(chosen, t);
        PersonalizeSnoc(chosen, t, firstName, fullName, age, category);
        wishes := wishes + [wish];
        used := used + {t.template};
        chosen := chosen + [t];
      }
      i := i + 1;
    }
    SelectionEnd(shuffled, i, count);
  }

  /** Where the loop stops, the templates chosen so far are the first `count` distinct ones. */
  lemma SelectionEnd(ts: seq<WishTemplate>, i: nat, count: int)
    requires i <= |ts| && |Dedup(ts[..i])| <= (if count <= 0 then 0 else count)
    requires i == |ts| || |Dedup(ts[..i])| >= count
    ensures Take(Dedup(ts), count) == Dedup(ts[..i])
  {
    DedupPrefix(ts, i);
    if i == |ts| {
      assert ts[..i] == ts;
    }
  }

  /**
   * The selection holds at most `count` templates, all different in text and
   * all taken from the input; exactly `min(count, n)` of the `n` distinct texts.
   */
  lemma Selection(ts: seq<WishTemplate>, count: int)
    ensures var c := Take(Dedup(ts), count);
      && |c| == (if count <= 0 then 0 else if count < |Texts(ts)| then count else |Texts(ts)|)
      && (forall i, j :: 0 <= i < j < |c| ==> c[i].template != c[j].template)
      && (forall i :: 0 <= i < |c| ==> c[i] in ts)
  {
    DistinctCard(Dedup(ts));
  }

  lemma {:induction false} DistinctCard(ts: seq<WishTemplate>)
    requires forall i, j :: 0 <= i < j < |ts| ==> ts[i].template != ts[j].template
    ensures |Texts(ts)| == |ts|
  {
    if ts != [] {
      var init := ts[..|ts| - 1];
      DistinctCard(init);
      assert Texts(ts) == Texts(init) + {ts[|ts| - 1].template};
      assert ts[|ts| - 1].template !in Texts(init);
    }
  }

  /** With distinct template texts the wishes follow the first `count` templates in their shuffled order. */
  lemma DistinctSelection(ts: seq<WishTemplate>, count: int)
    requires forall i, j :: 0 <= i < j < |ts| ==> ts[i].template != ts[j].template
    ensures Take(Dedup(ts), count) == Take(ts, count)
  {
    DedupOfDistinct(ts);
  }

  /** Under a tone, every selected template has that tone, lowercased, or the neutral one. */
  lemma SelectionMatchesTone(ts: seq<WishTemplate>, category: string, tone: string, count: int)
    requires tone != [] && multiset(ts) == multiset(TemplatesFor(category, Some(tone)))
    ensures forall t :: t in Take(Dedup(ts), count) ==> ToneMatches(t, Lower(tone))
  {
    forall t | t in Take(Dedup(ts), count) ensures ToneMatches(t, Lower(tone)) {
      assert t in Dedup(ts);
      assert t in multiset(TemplatesFor(category, Some(tone)));
    }
  }
}
