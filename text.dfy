/**
 * String operations of the Java and JavaScript standard libraries that the
 * application relies on, over `string` (a sequence of chars). Case mapping is
 * ASCII-only.
 */
module Text {

  /** `Character.toLowerCase` restricted to ASCII letters. */
  function LowerChar(c: char): char {
    if 'A' <= c <= 'Z' then (c as int + 32) as char else c
  }

  /** `String.toLowerCase` (ASCII). */
  function Lower(s: string): (r: string)
    ensures |r| == |s|
    ensures forall i :: 0 <= i < |s| ==> r[i] == LowerChar(s[i])
  {
    if s == [] then [] else [LowerChar(s[0])] + Lower(s[1..])
  }

  lemma LowerAppend(a: string, b: string)
    ensures Lower(a + b) == Lower(a) + Lower(b)
  {
    var l, r := Lower(a + b), Lower(a) + Lower(b);
    forall i | 0 <= i < |a + b| ensures l[i] == r[i] {
      if i < |a| {
        assert (a + b)[i] == a[i] && r[i] == Lower(a)[i];
      } else {
        assert (a + b)[i] == b[i - |a|] && r[i] == Lower(b)[i - |a|];
      }
    }
    assert l == r;
  }

  lemma LowerIdempotent(s: string)
    ensures Lower(Lower(s)) == Lower(s)
  {
  }

  /** `a.equalsIgnoreCase(b)` (ASCII). */
  predicate EqualsIgnoreCase(a: string, b: string) {
    Lower(a) == Lower(b)
  }

  /** `s.contains(t)` / `s.includes(t)`: `t` occurs in `s` at some position. */
  predicate Contains(s: string, t: string)
    decreases |s|
  {
    t <= s || (|s| > 0 && Contains(s[1..], t))
  }

  lemma ContainsAt(s: string, t: string, i: nat)
    requires i + |t| <= |s| && s[i..i + |t|] == t
    ensures Contains(s, t)
    decreases i
  {
    if i == 0 {
      assert s[..|t|] == t;
    } else {
      assert s[1..][i - 1..i - 1 + |t|] == s[i..i + |t|];
      ContainsAt(s[1..], t, i - 1);
    }
  }

  lemma ContainsAppendLeft(a: string, b: string, t: string)
    requires Contains(b, t)
    ensures Contains(a + b, t)
    decreases |a|
  {
    if a != [] {
      assert (a + b)[1..] == a[1..] + b;
      ContainsAppendLeft(a[1..], b, t);
    } else {
      assert a + b == b;
    }
  }

  /** The chars `String.trim` strips from both ends: every char up to U+0020. */
  predicate TrimmedChar(c: char) {
    c <= ' '
  }

  function TrimStart(s: string): (r: string)
    ensures |r| <= |s| && r == s[|s| - |r|..]
    ensures r == [] || !TrimmedChar(r[0])
  {
    if s != [] && TrimmedChar(s[0]) then TrimStart(s[1..]) else s
  }

  function TrimEnd(s: string): (r: string)
    ensures |r| <= |s| && r == s[..|r|]
    ensures r == [] || !TrimmedChar(r[|r| - 1])
  {
    if s != [] && TrimmedChar(s[|s| - 1]) then TrimEnd(s[..|s| - 1]) else s
  }

  /** `String.trim`: drop leading and trailing chars up to U+0020. */
  function Trim(s: string): string {
    TrimEnd(TrimStart(s))
  }

  /** `s.trim().isEmpty()`, the test behind `@NotBlank`: no char above U+0020. */
  predicate IsBlank(s: string) {
    forall i :: 0 <= i < |s| ==> TrimmedChar(s[i])
  }

  /** `IsBlank` is exactly "`trim` leaves nothing". */
  lemma {:induction false} BlankIffTrimEmpty(s: string)
    ensures IsBlank(s) <==> Trim(s) == []
  {
    if s != [] && TrimmedChar(s[0]) {
      BlankIffTrimEmpty(s[1..]);
      assert forall i :: 1 <= i < |s| ==> s[i] == s[1..][i - 1];
    } else if s != [] {
      assert TrimStart(s) == s;
      assert TrimEnd(s) != [] by {
        TrimEndKeepsHead(s);
      }
    }
  }

  lemma {:induction false} TrimEndKeepsHead(s: string)
    requires s != [] && !TrimmedChar(s[0])
    ensures TrimEnd(s) != []
    decreases |s|
  {
    if TrimmedChar(s[|s| - 1]) {
      TrimEndKeepsHead(s[..|s| - 1]);
    }
  }

  lemma TrimIdentity(s: string)
    requires forall i :: 0 <= i < |s| ==> !TrimmedChar(s[i])
    ensures Trim(s) == s
  {
    assert TrimStart(s) == s;
  }

  /**
   * `s.replace(t, r)`: every non-overlapping occurrence of `t`, found left to
   * right, is replaced by `r`.
   */
  function ReplaceAll(s: string, t: string, r: string): string
    requires |t| > 0
    decreases |s|
  {
    if |s| < |t| then s
    else if t <= s then r + ReplaceAll(s[|t|..], t, r)
    else [s[0]] + ReplaceAll(s[1..], t, r)
  }

  /** A string without the first char of `t` is left alone by `ReplaceAll`. */
  lemma {:induction false} ReplaceAbsent(s: string, t: string, r: string)
    requires |t| > 0 && t[0] !in s
    ensures ReplaceAll(s, t, r) == s
    decreases |s|
  {
    if |s| >= |t| {
      assert s[0] != t[0];
      ReplaceAbsent(s[1..], t, r);
    }
  }

  /** A prefix without the first char of `t` is copied through unchanged. */
  lemma {:induction false} ReplaceSkipsPrefix(a: string, s: string, t: string, r: string)
    requires |t| > 0 && t[0] !in a
    ensures ReplaceAll(a + s, t, r) == a + ReplaceAll(s, t, r)
    decreases |a|
  {
    var x := a + s;
    if a == [] {
      assert x == s;
    } else if |x| < |t| {
      assert ReplaceAll(x, t, r) == x;
      assert ReplaceAll(s, t, r) == s;
    } else {
      assert x[0] == a[0] && x[1..] == a[1..] + s;
      assert !(t <= x);
      assert ReplaceAll(x, t, r) == [a[0]] + ReplaceAll(a[1..] + s, t, r);
      ReplaceSkipsPrefix(a[1..], s, t, r);
      assert [a[0]] + (a[1..] + ReplaceAll(s, t, r)) == a + ReplaceAll(s, t, r);
    }
  }

  /** An occurrence of `t` at the front is replaced. */
  lemma ReplaceAtFront(s: string, t: string, r: string)
    requires |t| > 0
    ensures ReplaceAll(t + s, t, r) == r + ReplaceAll(s, t, r)
  {
    assert t <= t + s;
    assert (t + s)[|t|..] == s;
  }

  /** Replacing the single char `c` is a char-by-char rewrite. */
  function MapChar(s: string, c: char, r: string): string {
    if s == [] then [] else (if s[0] == c then r else [s[0]]) + MapChar(s[1..], c, r)
  }

  lemma {:induction false} ReplaceCharIsMapChar(s: string, c: char, r: string)
    ensures ReplaceAll(s, [c], r) == MapChar(s, c, r)
    decreases |s|
  {
    if s != [] {
      ReplaceCharIsMapChar(s[1..], c, r);
      if s[0] == c {
        assert [c] <= s;
        assert s[|[c]|..] == s[1..];
      }
    }
  }

  /** `s.split(sep)` keeping every token, empty ones included. */
  function Split(s: string, sep: char): (r: seq<string>)
    ensures |r| >= 1
  {
    if s == [] then [""]
    else if s[0] == sep then [""] + Split(s[1..], sep)
    else
      var rest := Split(s[1..], sep);
      [[s[0]] + rest[0]] + rest[1..]
  }

  /** `String.join(sep, parts)` / `parts.join(sep)`. */
  function Join(parts: seq<string>, sep: string): string {
    if parts == [] then ""
    else if |parts| == 1 then parts[0]
    else parts[0] + sep + Join(parts[1..], sep)
  }

  lemma {:induction false} SplitPrepend(w: string, s: string, sep: char)
    requires sep !in w
    ensures Split(w + s, sep) == [w + Split(s, sep)[0]] + Split(s, sep)[1..]
    decreases |w|
  {
    if w != [] {
      assert (w + s)[0] == w[0];
      assert (w + s)[1..] == w[1..] + s;
      SplitPrepend(w[1..], s, sep);
      assert [w[0]] + (w[1..] + Split(s, sep)[0]) == w + Split(s, sep)[0];
    } else {
      assert w + s == s;
      assert w + Split(s, sep)[0] == Split(s, sep)[0];
    }
  }

  /** Splitting a join gives the parts back when no part holds the separator. */
  lemma {:induction false} SplitJoin(parts: seq<string>, sep: char)
    requires |parts| >= 1
    requires forall i :: 0 <= i < |parts| ==> sep !in parts[i]
    ensures Split(Join(parts, [sep]), sep) == parts
    decreases |parts|
  {
    if |parts| == 1 {
      SplitPrepend(parts[0], "", sep);
      assert parts[0] + "" == parts[0];
    } else {
      var tail := Join(parts[1..], [sep]);
      SplitJoin(parts[1..], sep);
      assert Join(parts, [sep]) == parts[0] + ([sep] + tail);
      SplitPrepend(parts[0], [sep] + tail, sep);
      assert ([sep] + tail)[1..] == tail;
      assert Split([sep] + tail, sep) == [""] + parts[1..];
      assert parts[0] + "" == parts[0];
    }
  }
}
