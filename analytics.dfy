/**
 * The figures behind `getAnalytics`: counts per birth month, per category
 * name and per age bracket, and how many active birthdays fall within the next
 * 7, 30 and 90 days.
 */
module Analytics {
  import opened Seqs
  import opened Dates
  import opened BirthdayEntity

  /** `n` counters, one per bucket, over `xs`; an element whose bucket is out of range is not counted. */
  function Tally<T>(xs: seq<T>, bucket: T -> int, n: nat): (r: seq<nat>)
    ensures |r| == n
  {
    if xs == [] then seq(n, _ => 0)
    else
      var t := Tally(xs[..|xs| - 1], bucket, n);
      var k := bucket(xs[|xs| - 1]);
      if 0 <= k < n then t[k := t[k] + 1] else t
  }

  function Sum(s: seq<nat>): nat {
    if s == [] then 0 else s[0] + Sum(s[1..])
  }

  lemma {:induction false} SumZeros(n: nat)
    ensures Sum(seq(n, _ => 0)) == 0
  {
    if n > 0 {
      assert seq(n, _ => 0)[1..] == seq(n - 1, _ => 0);
      SumZeros(n - 1);
    }
  }

  lemma {:induction false} SumIncrement(s: seq<nat>, k: nat)
    requires k < |s|
    ensures Sum(s[k := s[k] + 1]) == Sum(s) + 1
  {
    if k > 0 {
      assert s[k := s[k] + 1][1..] == s[1..][k - 1 := s[k] + 1];
      SumIncrement(s[1..], k - 1);
    } else {
      assert s[k := s[k] + 1][1..] == s[1..];
    }
  }

  /** With every element in a bucket, the counters add up to the number of elements. */
  lemma {:induction false} TallySum<T>(xs: seq<T>, bucket: T -> int, n: nat)
    requires forall i :: 0 <= i < |xs| ==> 0 <= bucket(xs[i]) < n
    ensures Sum(Tally(xs, bucket, n)) == |xs|
  {
    if xs == [] {
      SumZeros(n);
    } else {
      var init := xs[..|xs| - 1];
      assert forall i :: 0 <= i < |init| ==> init[i] == xs[i];
      TallySum(init, bucket, n);
      SumIncrement(Tally(init, bucket, n), bucket(xs[|xs| - 1]));
    }
  }

  /** Each counter is the number of elements in its bucket (`inBucket` tells them apart). */
  lemma {:induction false} TallyCount<T>(xs: seq<T>, bucket: T -> int, n: nat, k: nat, inBucket: T -> bool)
    requires k < n
    requires forall x :: inBucket(x) == (bucket(x) == k)
    ensures Tally(xs, bucket, n)[k] == Count(xs, inBucket)
  {
    if xs != [] {
      var init := xs[..|xs| - 1];
      TallyCount(init, bucket, n, k, inBucket);
      assert xs == init + [xs[|xs| - 1]];
      CountSnoc(init, xs[|xs| - 1], inBucket);
    }
  }

  /** The keys of the month distribution, in their insertion order. */
  const MonthNames: seq<string> := ["Jan", "Feb", "Mar", "Apr", "May", "Jun", "Jul", "Aug", "Sep", "Oct", "Nov", "Dec"]

  /** The keys of the age distribution, in their insertion order. */
  const AgeBrackets: seq<string> := ["0-18", "19-30", "31-50", "51-70", "71+"]

  /** The bracket of an age: at most 18, 30, 50, 70, or older. */
  function AgeBracket(age: int): (k: int)
    ensures 0 <= k < 5
    ensures k == 0 <==> age <= 18
    ensures k == 4 <==> age > 70
    ensures 0 < k ==> age > [18, 30, 50, 70][k - 1]
    ensures k < 4 ==> age <= [18, 30, 50, 70][k]
  {
    if age <= 18 then 0 else if age <= 30 then 1 else if age <= 50 then 2 else if age <= 70 then 3 else 4
  }

  /** Month index (0 for January) of a birthday. */
  function MonthIndex(b: Birthday): int {
    b.birthDate.month - 1
  }

  /** The counters of the month distribution. */
  function MonthCounts(bs: seq<Birthday>): seq<nat> {
    Tally(bs, MonthIndex, 12)
  }

  /** The counters of the age distribution. */
  function AgeCounts(bs: seq<Birthday>, today: CalendarDate): seq<nat> {
    Tally(bs, b => AgeBracket(CalculateAge(b, today)), 5)
  }

  /** Both distributions count every birthday exactly once. */
  lemma DistributionsSum(bs: seq<Birthday>, today: CalendarDate)
    ensures Sum(MonthCounts(bs)) == |bs|
    ensures Sum(AgeCounts(bs, today)) == |bs|
  {
    TallySum(bs, MonthIndex, 12);
    TallySum(bs, b => AgeBracket(CalculateAge(b, today)), 5);
  }

  /** The category distribution: `"Uncategorized"` set to 0, then one more for the name of each birthday. */
  function CategoryCounts(names: seq<string>): map<string, nat> {
    if names == [] then map["Uncategorized" := 0]
    else Bump(CategoryCounts(names[..|names| - 1]), names[|names| - 1])
  }

  /** `map.put(name, map.getOrDefault(name, 0) + 1)` */
  function Bump(m: map<string, nat>, name: string): map<string, nat> {
    m[name := (if name in m then m[name] else 0) + 1]
  }

  /** Counting the first `k + 1` names bumps the count of the first `k` by name `k`. */
  lemma CategoryCountsStep(names: seq<string>, k: nat)
    requires k < |names|
    ensures CategoryCounts(names[..k + 1]) == Bump(CategoryCounts(names[..k]), names[k])
  {
    assert names[..k + 1][..k] == names[..k];
  }

  /** Its keys are `"Uncategorized"` and the names met, each counted as often as it occurs. */
  lemma {:induction false} CategoryCountsSpec(names: seq<string>, key: string)
    ensures key in CategoryCounts(names) <==> key == "Uncategorized" || key in names
    ensures key in CategoryCounts(names) ==> CategoryCounts(names)[key] == Count(names, x => x == key)
  {
    if names != [] {
      var init := names[..|names| - 1];
      CategoryCountsSpec(init, key);
      assert names == init + [names[|names| - 1]];
      CountSnoc(init, names[|names| - 1], x => x == key);
      if key != "Uncategorized" && key !in init {
        assert Count(init, x => x == key) == 0 by {
          NoneCounted(init, key);
        }
      }
    }
  }

  lemma {:induction false} NoneCounted(names: seq<string>, key: string)
    requires key !in names
    ensures Count(names, x => x == key) == 0
  {
    if names != [] {
      NoneCounted(names[1..], key);
    }
  }

  /** Active and within `n` days of `today`. */
  function UpcomingCount(bs: seq<Birthday>, today: CalendarDate, n: int): nat {
    Count(bs, (b: Birthday) => b.isActive && DaysUntilBirthday(b, today) <= n)
  }

  function ActiveCount(bs: seq<Birthday>): nat {
    Count(bs, (b: Birthday) => b.isActive)
  }

  /** The windows nest, and no window counts more than the active birthdays, nor these more than all. */
  lemma UpcomingNested(bs: seq<Birthday>, today: CalendarDate)
    ensures UpcomingCount(bs, today, 7) <= UpcomingCount(bs, today, 30) <= UpcomingCount(bs, today, 90)
    ensures UpcomingCount(bs, today, 90) <= ActiveCount(bs) <= |bs|
  {
    CountMonotone(bs, (b: Birthday) => b.isActive && DaysUntilBirthday(b, today) <= 7, (b: Birthday) => b.isActive && DaysUntilBirthday(b, today) <= 30);
    CountMonotone(bs, (b: Birthday) => b.isActive && DaysUntilBirthday(b, today) <= 30, (b: Birthday) => b.isActive && DaysUntilBirthday(b, today) <= 90);
    CountMonotone(bs, (b: Birthday) => b.isActive && DaysUntilBirthday(b, today) <= 90, (b: Birthday) => b.isActive);
  }

  /** Since a birthday is at most 365 days away, beyond that every active one is counted. */
  lemma YearWindowCountsAllActive(bs: seq<Birthday>, today: CalendarDate, n: int)
    requires n >= 365
    ensures UpcomingCount(bs, today, n) == ActiveCount(bs)
  {
    CountMonotone(bs, (b: Birthday) => b.isActive && DaysUntilBirthday(b, today) <= n, (b: Birthday) => b.isActive);
    CountMonotone(bs, (b: Birthday) => b.isActive, (b: Birthday) => b.isActive && DaysUntilBirthday(b, today) <= n);
  }
}
