/** Hexadecimal text as Python's format specifications `02x`, `02X` and `04X` write it,
    and the digit strings `int(s, 16)` reads. */
module Hex {

  /** An octet: an element of a Python `bytes` value. */
  type Byte = b: int | 0 <= b < 256

  /** A hexadecimal digit of one case: '0'-'9' and 'A'-'F' (upper) or 'a'-'f' (lower). */
  predicate IsDigitOfCase(c: char, upper: bool) {
    '0' <= c <= '9' || (upper && 'A' <= c <= 'F') || (!upper && 'a' <= c <= 'f')
  }

  predicate IsHexDigit(c: char) {
    IsDigitOfCase(c, false) || IsDigitOfCase(c, true)
  }

  predicate AllDigitsOfCase(s: string, upper: bool) {
    forall i :: 0 <= i < |s| ==> IsDigitOfCase(s[i], upper)
  }

  predicate AllHex(s: string) {
    forall i :: 0 <= i < |s| ==> IsHexDigit(s[i])
  }

  function DigitValue(c: char): (v: nat)
    requires IsHexDigit(c)
    ensures v < 16
  {
    if '0' <= c <= '9' then c as int - '0' as int
    else if 'a' <= c <= 'f' then c as int - 'a' as int + 10
    else c as int - 'A' as int + 10
  }

  /** The digit for d in the requested case; DigitValue reads it back. */
  function DigitChar(d: nat, upper: bool): (c: char)
    requires d < 16
    ensures IsDigitOfCase(c, upper) && DigitValue(c) == d
  {
    if d < 10 then ('0' as int + d) as char
    else if upper then ('A' as int + d - 10) as char
    else ('a' as int + d - 10) as char
  }

  function Pow16(k: nat): (p: nat)
    ensures p >= 1
  {
    if k == 0 then 1 else 16 * Pow16(k - 1)
  }

  /** The number a string of hexadecimal digits denotes. */
  function Value(s: string): nat
    requires AllHex(s)
    decreases |s|
  {
    if s == [] then 0 else 16 * Value(s[..|s| - 1]) + DigitValue(s[|s| - 1])
  }

  /** The digits of n, most significant first, with zeros on the left up to `width`
      characters; a number too wide for the field keeps all its digits. */
  function PaddedDigits(n: nat, width: nat, upper: bool): (s: string)
    ensures |s| >= 1 && |s| >= width && AllDigitsOfCase(s, upper)
    decreases n + width
  {
    if n < 16 && width <= 1 then [DigitChar(n, upper)]
    else PaddedDigits(n / 16, if width > 0 then width - 1 else 0, upper) + [DigitChar(n % 16, upper)]
  }

  /** Python's `format(n, "0<width>x")` (or `X` when upper): a minus sign for negative n,
      then the digits of |n| zero-padded so that sign and digits fill the field width. */
  function Format(n: int, width: nat, upper: bool): string
  {
    if n < 0 then "-" + PaddedDigits(-n, if width > 0 then width - 1 else 0, upper)
    else PaddedDigits(n, width, upper)
  }

  lemma {:induction false} ValueOfPaddedDigits(n: nat, width: nat, upper: bool)
    ensures Value(PaddedDigits(n, width, upper)) == n
    decreases n + width
  {
    var s := PaddedDigits(n, width, upper);
    if !(n < 16 && width <= 1) {
      var w := if width > 0 then width - 1 else 0;
      ValueOfPaddedDigits(n / 16, w, upper);
      assert s[..|s| - 1] == PaddedDigits(n / 16, w, upper);
    }
  }

  /** A number below 16^width fills the field exactly. */
  lemma {:induction false} PaddedDigitsFit(n: nat, width: nat, upper: bool)
    requires 1 <= width && n < Pow16(width)
    ensures |PaddedDigits(n, width, upper)| == width
    decreases n + width
  {
    if !(n < 16 && width <= 1) {
      assert width >= 2;
      assert n / 16 < Pow16(width - 1);
      PaddedDigitsFit(n / 16, width - 1, upper);
    }
  }

  /** A number below 16^width is written with exactly `width` digits of the requested
      case, and those digits read back as the number. */
  lemma FormatFixedWidth(n: nat, width: nat, upper: bool)
    requires 1 <= width && n < Pow16(width)
    ensures |Format(n, width, upper)| == width
    ensures AllDigitsOfCase(Format(n, width, upper), upper)
    ensures Value(Format(n, width, upper)) == n
  {
    PaddedDigitsFit(n, width, upper);
    ValueOfPaddedDigits(n, width, upper);
  }

  /** A digit string of length k denotes a number below 16^k. */
  lemma {:induction false} ValueBound(s: string)
    requires AllHex(s)
    ensures Value(s) < Pow16(|s|)
    decreases |s|
  {
    if s != [] {
      ValueBound(s[..|s| - 1]);
    }
  }

  lemma ScaleCommutes(x: int, p: int)
    ensures 16 * (x * p) == x * (16 * p)
  {
  }

  /** Digits are positional: the left part counts 16^|b| times. */
  lemma {:induction false} ValueConcat(a: string, b: string)
    requires AllHex(a) && AllHex(b)
    ensures AllHex(a + b) && Value(a + b) == Value(a) * Pow16(|b|) + Value(b)
    decreases |b|
  {
    if b != [] {
      var ab := a + b;
      assert ab[..|ab| - 1] == a + b[..|b| - 1];
      ValueConcat(a, b[..|b| - 1]);
      var x, p, y := Value(a), Pow16(|b| - 1), Value(b[..|b| - 1]);
      ScaleCommutes(x, p);
      assert Value(ab) == 16 * (x * p + y) + DigitValue(b[|b| - 1]);
    } else {
      assert a + b == a;
    }
  }

  /** What Format writes: a minus sign exactly for negative numbers, then digits of the
      requested case only. */
  lemma FormatShape(n: int, width: nat, upper: bool)
    ensures var f := Format(n, width, upper);
      f != [] && (f[0] == '-' <==> n < 0)
      && AllDigitsOfCase(if n < 0 then f[1..] else f, upper)
  {
    var f := Format(n, width, upper);
    if n < 0 {
      assert f[1..] == PaddedDigits(-n, if width > 0 then width - 1 else 0, upper);
    } else {
      assert IsDigitOfCase(f[0], upper);
    }
  }
}
