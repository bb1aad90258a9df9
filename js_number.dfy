/**
 * The parts of JavaScript's number handling that the bulking calculator
 * relies on, restricted to integer values: printing an integer the way
 * `Number.prototype.toString` does, the global `parseInt` reading a
 * decimal prefix, and `Math.round`.
 */
module JsNumber {
  import opened Wrappers

  predicate IsDigit(c: char) { '0' <= c <= '9' }

  predicate AllDigits(s: string) { forall i | 0 <= i < |s| :: IsDigit(s[i]) }

  function DigitValue(c: char): (d: nat)
    requires IsDigit(c)
    ensures d < 10
  {
    c as int - '0' as int
  }

  function DigitChar(d: nat): (c: char)
    requires d < 10
    ensures IsDigit(c) && DigitValue(c) == d
  {
    ('0' as int + d) as char
  }

  /** Decimal digits of a natural number, most significant first, no leading zeros. */
  function NatToString(n: nat): (s: string)
    ensures |s| > 0 && AllDigits(s)
    ensures s[0] == '0' ==> n == 0
  {
    if n < 10 then [DigitChar(n)] else NatToString(n / 10) + [DigitChar(n % 10)]
  }

  /** The value of a string of decimal digits (the empty string reads as 0). */
  function DigitsToNat(s: string): nat
    requires AllDigits(s)
  {
    if s == [] then 0 else DigitsToNat(s[..|s| - 1]) * 10 + DigitValue(s[|s| - 1])
  }

  /** `String(n)` for an integer-valued number: an optional minus sign, then the digits. */
  function IntToString(n: int): (s: string)
    ensures |s| > 0 && (n < 0 ==> |s| > 1)
    ensures s[0] == '-' <==> n < 0
    ensures n >= 0 ==> IsDigit(s[0])
    ensures forall i | 0 < i < |s| :: IsDigit(s[i])
    ensures s[if n < 0 then 1 else 0] == '0' ==> n == 0
  {
    if n < 0 then "-" + NatToString(-n) else NatToString(n)
  }

  /**
   * Strict reading of a decimal integer: an optional minus sign followed by
   * one or more digits and nothing else.  This is the reference against
   * which printed numbers are checked, not a model of `parseInt`.
   */
  function ParseDecimal(s: string): Option<int>
  {
    if |s| > 0 && s[0] == '-' then
      if |s| > 1 && AllDigits(s[1..]) then Some(-(DigitsToNat(s[1..]) as int)) else None
    else if |s| > 0 && AllDigits(s) then Some(DigitsToNat(s))
    else None
  }

  lemma {:induction false} DigitsToNatOfNatToString(n: nat)
    ensures DigitsToNat(NatToString(n)) == n
  {
    if n >= 10 {
      var s := NatToString(n / 10);
      DigitsToNatOfNatToString(n / 10);
      var t := s + [DigitChar(n % 10)];
      assert NatToString(n) == t;
      assert t[..|t| - 1] == s;
    }
  }

  /** Printing an integer and reading it back gives the integer. */
  lemma ParseDecimalOfIntToString(n: int)
    ensures ParseDecimal(IntToString(n)) == Some(n)
  {
    if n < 0 {
      DigitsToNatOfNatToString(-n);
      assert IntToString(n)[1..] == NatToString(-n);
    } else {
      DigitsToNatOfNatToString(n);
    }
  }

  /** Distinct integers print differently. */
  lemma IntToStringInjective(a: int, b: int)
    requires IntToString(a) == IntToString(b)
    ensures a == b
  {
    ParseDecimalOfIntToString(a);
    ParseDecimalOfIntToString(b);
  }

  /** The characters ECMAScript's `StrWhiteSpaceChar` admits (white space and line terminators). */
  predicate IsJsWhitespace(c: char)
  {
    c == ' ' || c == '\t' || c == '\n' || c == '\r' || c == '\U{B}' || c == '\U{C}'
    || c == '\U{A0}' || c == '\U{1680}' || ('\U{2000}' <= c <= '\U{200A}')
    || c == '\U{2028}' || c == '\U{2029}' || c == '\U{202F}' || c == '\U{205F}'
    || c == '\U{3000}' || c == '\U{FEFF}'
  }

  /** The input with its leading white space removed. */
  function TrimStart(s: string): (r: string)
    ensures |r| <= |s| && r == s[|s| - |r|..]
    ensures forall i | 0 <= i < |s| - |r| :: IsJsWhitespace(s[i])
    ensures r == [] || !IsJsWhitespace(r[0])
  {
    if s != [] && IsJsWhitespace(s[0]) then TrimStart(s[1..]) else s
  }

  /** The longest prefix of `s` made of decimal digits. */
  function DigitPrefix(s: string): (d: string)
    ensures |d| <= |s| && d == s[..|d|] && AllDigits(d)
    ensures |d| == |s| || !IsDigit(s[|d|])
  {
    if s != [] && IsDigit(s[0]) then [s[0]] + DigitPrefix(s[1..]) else []
  }

  /**
   * The global `parseInt(s)` with no radix, for decimal input: leading white
   * space is skipped, one optional sign is read, then the longest run of
   * digits; everything after it (a decimal point and fraction, a unit, ...)
   * is ignored.  No digits at all gives NaN, here `None`.
   */
  function ParseInt(s: string): (r: Option<int>)
    ensures var t := TrimStart(s);
      var digits := DigitPrefix(StripSign(t));
      && (r.None? <==> digits == [])
      && (r.Some? && |t| > 0 && t[0] == '-' ==> r.value == -(DigitsToNat(digits) as int))
      && (r.Some? && (|t| == 0 || t[0] != '-') ==> r.value == DigitsToNat(digits))
  {
    ParseSignedDigits(TrimStart(s))
  }

  /** The text after one optional leading `-` or `+`. */
  function StripSign(t: string): (body: string)
    ensures |t| > 0 && (t[0] == '-' || t[0] == '+') ==> body == t[1..]
    ensures !(|t| > 0 && (t[0] == '-' || t[0] == '+')) ==> body == t
  {
    if |t| > 0 && (t[0] == '-' || t[0] == '+') then t[1..] else t
  }

  /** The part of `parseInt` after white space: an optional sign, then the digit run. */
  function ParseSignedDigits(t: string): Option<int>
  {
    var negative := |t| > 0 && t[0] == '-';
    var digits := DigitPrefix(StripSign(t));
    if digits == [] then None
    else if negative then Some(-(DigitsToNat(digits) as int))
    else Some(DigitsToNat(digits))
  }

  lemma DigitPrefixStopsAtNonDigit(d: string, tail: string)
    requires AllDigits(d)
    requires tail == [] || !IsDigit(tail[0])
    ensures DigitPrefix(d + tail) == d
  {
    var s := d + tail;
    var p := DigitPrefix(s);
    assert p == s[..|d|] == d;
  }

  /** The digit run at the front of `NatToString(m) + tail` is exactly `m`'s digits. */
  lemma DigitPrefixOfNatToString(m: nat, tail: string)
    requires tail == [] || !IsDigit(tail[0])
    ensures DigitPrefix(NatToString(m) + tail) == NatToString(m)
    ensures DigitsToNat(DigitPrefix(NatToString(m) + tail)) == m
  {
    DigitPrefixStopsAtNonDigit(NatToString(m), tail);
    DigitsToNatOfNatToString(m);
  }

  /** Sign and digit run: a printed integer followed by a non-digit reads as that integer. */
  lemma ParseSignedDigitsOfIntToString(n: int, tail: string)
    requires tail == [] || !IsDigit(tail[0])
    ensures ParseSignedDigits(IntToString(n) + tail) == Some(n)
  {
    var s := IntToString(n) + tail;
    if n < 0 {
      assert StripSign(s) == NatToString(-n) + tail;
      DigitPrefixOfNatToString(-n, tail);
    } else {
      assert StripSign(s) == s == NatToString(n) + tail;
      DigitPrefixOfNatToString(n, tail);
    }
  }

  /**
   * `parseInt` reads back a printed integer, whatever non-digit text follows
   * it: `parseInt("2000.7")` is 2000, the fraction is cut off, not rounded.
   */
  lemma ParseIntReadsLeadingInteger(n: int, tail: string)
    requires tail == [] || !IsDigit(tail[0])
    requires n != 0 || tail == [] || (tail[0] != 'x' && tail[0] != 'X')
    ensures ParseInt(IntToString(n) + tail) == Some(n)
  {
    assert TrimStart(IntToString(n) + tail) == IntToString(n) + tail;
    ParseSignedDigitsOfIntToString(n, tail);
  }

  /**
   * `Math.round(x)`: the integer nearest to `x`, halves rounded up towards
   * positive infinity (so -2.5 rounds to -2).
   */
  function MathRound(x: real): (r: int)
    ensures x - 0.5 < r as real <= x + 0.5
  {
    (x + 0.5).Floor
  }

  /** `Math.round` leaves an integer unchanged. */
  lemma MathRoundFixesIntegers(n: int)
    ensures MathRound(n as real) == n
  {
  }
}
