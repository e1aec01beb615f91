/**
 * The two JavaScript number conversions the application relies on:
 * `Number.prototype.toString()` on integers and the global `parseInt(s)`
 * called without a radix. Numbers are modelled as unbounded integers.
 */
module JsNumber {
  import opened Wrappers

  predicate IsDigit(c: char) {
    '0' <= c <= '9'
  }

  predicate IsHexDigit(c: char) {
    IsDigit(c) || 'a' <= c <= 'f' || 'A' <= c <= 'F'
  }

  function DigitValue(c: char): (d: nat)
    requires IsDigit(c)
    ensures d < 10
  {
    (c as int) - ('0' as int)
  }

  function HexDigitValue(c: char): (d: nat)
    requires IsHexDigit(c)
    ensures d < 16
  {
    if IsDigit(c) then DigitValue(c)
    else if 'a' <= c <= 'f' then (c as int) - ('a' as int) + 10
    else (c as int) - ('A' as int) + 10
  }

  function DigitChar(d: nat): (c: char)
    requires d < 10
    ensures IsDigit(c) && DigitValue(c) == d
  {
    (('0' as int) + d) as char
  }

  predicate AllDigits(s: string) {
    forall i :: 0 <= i < |s| ==> IsDigit(s[i])
  }

  /** Decimal digits of a non-negative integer, most significant first. */
  function NatToString(n: nat): string
    decreases n
  {
    if n < 10 then [DigitChar(n)] else NatToString(n / 10) + [DigitChar(n % 10)]
  }

  /** `String(n)` / `n.toString()` for an integer `n`. */
  function IntToString(n: int): string {
    if n < 0 then "-" + NatToString(-n) else NatToString(n)
  }

  /**
   * StrWhiteSpaceChar of ECMAScript: the white space (including every
   * space separator of Unicode category Zs) and line terminator code points
   * that `parseInt` skips before the number.
   */
  predicate IsJsWhitespace(c: char) {
    c == '\t' || c == '\n' || c == '\U{B}' || c == '\U{C}' || c == '\r' || c == ' '
    || c == '\U{A0}' || c == '\U{1680}' || '\U{2000}' <= c <= '\U{200A}'
    || c == '\U{2028}' || c == '\U{2029}' || c == '\U{202F}' || c == '\U{205F}'
    || c == '\U{3000}' || c == '\U{FEFF}'
  }

  /** The string with its leading white space removed. */
  function TrimStart(s: string): string {
    if s != [] && IsJsWhitespace(s[0]) then TrimStart(s[1..]) else s
  }

  /** The longest prefix of `s` made of decimal digits. */
  function DigitPrefix(s: string): string {
    if s != [] && IsDigit(s[0]) then [s[0]] + DigitPrefix(s[1..]) else []
  }

  /** The longest prefix of `s` made of hexadecimal digits. */
  function HexPrefix(s: string): string {
    if s != [] && IsHexDigit(s[0]) then [s[0]] + HexPrefix(s[1..]) else []
  }

  /** The value of a string of decimal digits. */
  function DecimalValue(d: string): nat
    requires AllDigits(d)
  {
    if d == [] then 0 else DecimalValue(d[..|d| - 1]) * 10 + DigitValue(d[|d| - 1])
  }

  /** The value of a string of hexadecimal digits. */
  function HexValue(d: string): nat
    requires forall i :: 0 <= i < |d| ==> IsHexDigit(d[i])
  {
    if d == [] then 0 else HexValue(d[..|d| - 1]) * 16 + HexDigitValue(d[|d| - 1])
  }

  /**
   * `parseInt(s)` with no radix: skip leading white space, take an optional
   * sign, then a `0x`/`0X` prefix selects base 16, otherwise base 10; the
   * longest run of digits of that base is read and the rest is ignored.
   * None is NaN (no digit at all).
   */
  function ParseInt(s: string): Option<int> {
    var t := TrimStart(s);
    var negative := t != [] && t[0] == '-';
    var unsigned := if t != [] && (t[0] == '-' || t[0] == '+') then t[1..] else t;
    var sign := if negative then -1 else 1;
    if |unsigned| >= 2 && unsigned[0] == '0' && (unsigned[1] == 'x' || unsigned[1] == 'X') then
      var h := HexPrefix(unsigned[2..]);
      HexPrefixDigits(unsigned[2..]);
      if h == [] then None else Some(sign * HexValue(h))
    else
      var d := DigitPrefix(unsigned);
      DigitPrefixDigits(unsigned);
      if d == [] then None else Some(sign * DecimalValue(d))
  }

  /** Skipping white space leaves a suffix of the string. */
  lemma {:induction false} TrimStartIsSuffix(s: string)
    ensures |TrimStart(s)| <= |s| && TrimStart(s) == s[|s| - |TrimStart(s)|..]
  {
    if s != [] && IsJsWhitespace(s[0]) {
      TrimStartIsSuffix(s[1..]);
    }
  }

  lemma {:induction false} DigitPrefixDigits(s: string)
    ensures AllDigits(DigitPrefix(s))
    ensures |DigitPrefix(s)| <= |s| && DigitPrefix(s) == s[..|DigitPrefix(s)|]
  {
    if s != [] && IsDigit(s[0]) {
      DigitPrefixDigits(s[1..]);
    }
  }

  lemma {:induction false} HexPrefixDigits(s: string)
    ensures forall i :: 0 <= i < |HexPrefix(s)| ==> IsHexDigit(HexPrefix(s)[i])
  {
    if s != [] && IsHexDigit(s[0]) {
      HexPrefixDigits(s[1..]);
    }
  }

  /** The decimal form of a natural number is a non-empty digit string that starts with 0 only when it is "0". */
  lemma {:induction false} NatToStringShape(n: nat)
    ensures NatToString(n) != [] && AllDigits(NatToString(n))
    ensures |NatToString(n)| >= 2 ==> NatToString(n)[0] != '0'
    ensures AllDigits(NatToString(n)) && DecimalValue(NatToString(n)) == n
  {
    if n >= 10 {
      NatToStringShape(n / 10);
      var p := NatToString(n / 10);
      var s := p + [DigitChar(n % 10)];
      assert s[..|s| - 1] == p;
      assert s[0] == p[0];
    }
  }

  lemma {:induction false} DigitPrefixOfDigits(s: string)
    requires AllDigits(s)
    ensures DigitPrefix(s) == s
  {
    if s != [] {
      DigitPrefixOfDigits(s[1..]);
    }
  }

  /** `parseInt(String(n)) === n` for every integer `n`. */
  lemma ParseIntOfIntToString(n: int)
    ensures ParseInt(IntToString(n)) == Some(n)
  {
    var m: nat := if n < 0 then -n else n;
    NatToStringShape(m);
    var digits := NatToString(m);
    DigitPrefixOfDigits(digits);
    assert !IsJsWhitespace(digits[0]);
    if n < 0 {
      assert IntToString(n) == "-" + digits;
      assert TrimStart(IntToString(n)) == IntToString(n);
      assert IntToString(n)[1..] == digits;
    } else {
      assert TrimStart(digits) == digits;
    }
  }

  /** The decimal form of an integer never contains a '/'. */
  lemma IntToStringHasNoSlash(n: int)
    ensures IntToString(n) != [] && '/' !in IntToString(n)
  {
    var m: nat := if n < 0 then -n else n;
    NatToStringShape(m);
    assert forall i :: 0 <= i < |NatToString(m)| ==> NatToString(m)[i] != '/';
  }
}
