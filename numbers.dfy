/**
 * Decimal printing and parsing as done by `String.valueOf(int)`,
 * `Integer.parseInt`, `String.format("%0Nd")` and JavaScript's `padStart`.
 */
module Numbers {
  import opened Wrappers

  /** The range of a Java `int`. */
  const IntMin: int := -0x8000_0000
  const IntMax: int := 0x7fff_ffff

  predicate IsInt32(x: int) {
    IntMin <= x <= IntMax
  }

  predicate IsDigit(c: char) {
    '0' <= c <= '9'
  }

  predicate AllDigits(s: string) {
    forall i :: 0 <= i < |s| ==> IsDigit(s[i])
  }

  function DigitChar(d: nat): (c: char)
    requires d < 10
    ensures IsDigit(c)
  {
    ('0' as int + d) as char
  }

  function DigitValue(c: char): (d: nat)
    requires IsDigit(c)
    ensures d < 10
  {
    c as int - '0' as int
  }

  function Pow10(k: nat): (p: nat)
    ensures p >= 1
  {
    if k == 0 then 1 else 10 * Pow10(k - 1)
  }

  /** The value of a string of decimal digits (leading zeros allowed). */
  function DigitsValue(s: string): nat
    requires AllDigits(s)
  {
    if s == [] then 0 else DigitsValue(s[..|s| - 1]) * 10 + DigitValue(s[|s| - 1])
  }

  /** `String.valueOf(n)` for a non-negative `n`: no leading zeros. */
  function NatToString(n: nat): (r: string)
    ensures 1 <= |r| && AllDigits(r)
    ensures |r| > 1 ==> r[0] != '0'
  {
    if n < 10 then [DigitChar(n)] else NatToString(n / 10) + [DigitChar(n % 10)]
  }

  /** `String.valueOf(i)` / `Integer.toString(i)` / JavaScript `${i}` for an integer. */
  function IntToString(i: int): (r: string)
    ensures 1 <= |r|
  {
    if i < 0 then "-" + NatToString(-i) else NatToString(i)
  }

  lemma {:induction false} NatToStringValue(n: nat)
    ensures DigitsValue(NatToString(n)) == n
  {
    if n >= 10 {
      NatToStringValue(n / 10);
      var s := NatToString(n);
      assert s[..|s| - 1] == NatToString(n / 10);
    }
  }

  lemma {:induction false} NatToStringLength(n: nat, k: nat)
    requires n < Pow10(k) && k >= 1
    ensures |NatToString(n)| <= k
  {
    if n >= 10 {
      NatToStringLength(n / 10, k - 1);
    }
  }

  lemma {:induction false} DigitsValueAppend(a: string, b: string)
    requires AllDigits(a) && AllDigits(b)
    ensures AllDigits(a + b)
    ensures DigitsValue(a + b) == DigitsValue(a) * Pow10(|b|) + DigitsValue(b)
    decreases |b|
  {
    if b == [] {
      assert a + b == a;
    } else {
      var b' := b[..|b| - 1];
      var d := DigitValue(b[|b| - 1]);
      assert (a + b)[..|a + b| - 1] == a + b';
      assert (a + b)[|a + b| - 1] == b[|b| - 1];
      DigitsValueAppend(a, b');
      assert DigitsValue(a + b) == DigitsValue(a + b') * 10 + d;
      assert DigitsValue(b) == DigitsValue(b') * 10 + d;
      assert Pow10(|b|) == Pow10(|b'|) * 10;
      ShiftDigit(DigitsValue(a), Pow10(|b'|), DigitsValue(b'), d);
    }
  }

  /** Appending a digit to both sides of `x * p + y` multiplies `p` by ten. */
  lemma ShiftDigit(x: int, p: int, y: int, d: int)
    ensures (x * p + y) * 10 + d == x * (p * 10) + (y * 10 + d)
  {
  }

  lemma {:induction false} ZerosValue(k: nat)
    ensures AllDigits(Repeat('0', k)) && DigitsValue(Repeat('0', k)) == 0
  {
    if k > 0 {
      ZerosValue(k - 1);
      assert Repeat('0', k)[..k - 1] == Repeat('0', k - 1);
    }
  }

  function Repeat(c: char, k: nat): (r: string)
    ensures |r| == k && forall i :: 0 <= i < k ==> r[i] == c
  {
    if k == 0 then [] else Repeat(c, k - 1) + [c]
  }

  /** `s.padStart(width, c)` / the zero padding of `%0Nd`. */
  function PadLeft(s: string, width: nat, c: char): (r: string)
    ensures |r| == if |s| >= width then |s| else width
  {
    if |s| >= width then s else Repeat(c, width - |s|) + s
  }

  /** `String.format("%0" + width + "d", n)`: the sign counts towards the width. */
  function FormatZeroPadded(n: int, width: nat): string {
    if n < 0 then "-" + PadLeft(NatToString(-n), if width > 0 then width - 1 else 0, '0')
    else PadLeft(NatToString(n), width, '0')
  }

  /** A number below 10^width prints as exactly `width` digits whose value is the number. */
  lemma FormatZeroPaddedFixedWidth(n: nat, width: nat)
    requires width >= 1 && n < Pow10(width)
    ensures |FormatZeroPadded(n, width)| == width
    ensures AllDigits(FormatZeroPadded(n, width))
    ensures DigitsValue(FormatZeroPadded(n, width)) == n
  {
    NatToStringLength(n, width);
    NatToStringValue(n);
    var s := NatToString(n);
    var f := FormatZeroPadded(n, width);
    assert f == PadLeft(s, width, '0');
    if |s| < width {
      var z := Repeat('0', width - |s|);
      assert f == z + s;
      ZerosValue(width - |s|);
      DigitsValueAppend(z, s);
      assert DigitsValue(z) * Pow10(|s|) == 0;
    } else {
      assert f == s;
    }
  }

  /**
   * `Integer.parseInt(s)`: an optional `+` or `-` followed by at least one
   * decimal digit, with a value in the `int` range; `None` stands for the
   * `NumberFormatException` thrown otherwise.
   */
  function ParseInt(s: string): (r: Option<int>)
    ensures r.Some? ==> IsInt32(r.value)
  {
    if s == [] then None
    else
      var negative := s[0] == '-';
      var digits := if s[0] == '-' || s[0] == '+' then s[1..] else s;
      if digits == [] || !AllDigits(digits) then None
      else
        var v: int := if negative then -(DigitsValue(digits) as int) else DigitsValue(digits) as int;
        if IsInt32(v) then Some(v) else None
  }

  /** Printing an `int` and parsing it back gives the same number. */
  lemma ParseIntToString(x: int)
    requires IsInt32(x)
    ensures ParseInt(IntToString(x)) == Some(x)
  {
    var s := IntToString(x);
    if x < 0 {
      var d := NatToString(-x);
      NatToStringValue(-x);
      assert s == "-" + d;
      assert s[0] == '-';
      assert s[1..] == d;
    } else {
      NatToStringValue(x);
      assert s[0] != '-' && s[0] != '+';
    }
  }

  /** Java's `a % b` for a positive `b`: division truncates, so the remainder takes the sign of `a`. */
  function JavaRem(a: int, b: int): (r: int)
    requires b > 0
    ensures -b < r < b && (a >= 0 ==> r == a % b) && (a < 0 ==> r <= 0)
  {
    if a >= 0 then a % b else -((-a) % b)
  }

  /** The last char of a printed number is its last decimal digit. */
  lemma LastPrintedDigit(n: int)
    ensures IntToString(n)[|IntToString(n)| - 1] == DigitChar((if n < 0 then -n else n) % 10)
  {
  }

  /** A printed `int` holds no char other than digits and a leading minus sign. */
  lemma IntToStringChars(x: int)
    ensures forall i :: 0 <= i < |IntToString(x)| ==>
      IsDigit(IntToString(x)[i]) || (i == 0 && IntToString(x)[i] == '-' && x < 0)
  {
  }

  /** Different numbers print differently. */
  lemma IntToStringInjective(a: int, b: int)
    requires IntToString(a) == IntToString(b)
    ensures a == b
  {
    var s := IntToString(a);
    IntToStringChars(a);
    IntToStringChars(b);
    if a < 0 && b < 0 {
      NatToStringValue(-a);
      NatToStringValue(-b);
      assert NatToString(-a) == s[1..] == NatToString(-b);
    } else if a >= 0 && b >= 0 {
      NatToStringValue(a);
      NatToStringValue(b);
    }
  }
}
