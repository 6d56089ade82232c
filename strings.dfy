/**
 * Character classes and number renderings shared by the audit and the GUID
 * allocator: decimal rendering of a non-negative integer (as a JavaScript
 * template literal renders one below 10^21, beyond which JavaScript switches to
 * exponent form) and lower-case hexadecimal digits (as
 * `Number.prototype.toString(16)` renders 0..15).
 */
module Strings {

  predicate IsDigit(c: char) {
    '0' <= c <= '9'
  }

  predicate IsLowerHex(c: char) {
    IsDigit(c) || 'a' <= c <= 'f'
  }

  function DigitChar(d: nat): (c: char)
    requires d < 10
    ensures IsDigit(c)
  {
    ('0' as int + d) as char
  }

  function DigitValue(c: char): (d: nat)
    requires IsDigit(c)
    ensures d < 10 && DigitChar(d) == c
  {
    c as int - '0' as int
  }

  /** `v.toString(16)` for a value 0..15: one lower-case hexadecimal digit. */
  function HexDigit(v: nat): (c: char)
    requires v < 16
    ensures IsLowerHex(c)
  {
    if v < 10 then DigitChar(v) else ('a' as int + (v - 10)) as char
  }

  /** The value of a lower-case hexadecimal digit; inverse of HexDigit. */
  function HexValue(c: char): (v: nat)
    requires IsLowerHex(c)
    ensures v < 16 && HexDigit(v) == c
  {
    if IsDigit(c) then DigitValue(c) else c as int - 'a' as int + 10
  }

  lemma HexValueOfDigit(v: nat)
    requires v < 16
    ensures HexValue(HexDigit(v)) == v
  {
  }

  predicate AllDigits(s: string) {
    forall i :: 0 <= i < |s| ==> IsDigit(s[i])
  }

  /** Decimal rendering without leading zeros, as JavaScript prints an integer below 10^21. */
  function NatToString(n: nat): (s: string)
    ensures |s| > 0 && AllDigits(s)
    ensures s[0] == '0' <==> n == 0
    decreases n
  {
    if n < 10 then [DigitChar(n)] else NatToString(n / 10) + [DigitChar(n % 10)]
  }

  /** The value of a string of decimal digits. */
  function ParseNat(s: string): nat
    requires AllDigits(s)
  {
    if s == [] then 0 else 10 * ParseNat(s[..|s| - 1]) + DigitValue(s[|s| - 1])
  }

  /** Reading the decimal rendering back gives the number: the rendering loses nothing. */
  lemma {:induction false} ParseNatToString(n: nat)
    ensures ParseNat(NatToString(n)) == n
    decreases n
  {
    var s := NatToString(n);
    if n >= 10 {
      ParseNatToString(n / 10);
      assert s[..|s| - 1] == NatToString(n / 10);
    }
  }

  /** Distinct numbers have distinct decimal renderings. */
  lemma NatToStringInjective(m: nat, n: nat)
    requires NatToString(m) == NatToString(n)
    ensures m == n
  {
    ParseNatToString(m);
    ParseNatToString(n);
  }

  /** The length of the run of decimal digits `s` starts with. */
  function LeadingDigits(s: string): (n: nat)
    ensures n <= |s|
  {
    if s != [] && IsDigit(s[0]) then 1 + LeadingDigits(s[1..]) else 0
  }

  lemma {:induction false} LeadingDigitsOfPrefix(digits: string, rest: string)
    requires AllDigits(digits)
    requires rest != [] && !IsDigit(rest[0])
    ensures LeadingDigits(digits + rest) == |digits|
    decreases |digits|
  {
    if digits == [] {
      assert digits + rest == rest;
    } else {
      assert (digits + rest)[1..] == digits[1..] + rest;
      LeadingDigitsOfPrefix(digits[1..], rest);
    }
  }

  /** A run of digits followed by a non-digit splits a string in only one way. */
  lemma DigitRunsEqual(a1: string, r1: string, a2: string, r2: string)
    requires AllDigits(a1) && r1 != [] && !IsDigit(r1[0])
    requires AllDigits(a2) && r2 != [] && !IsDigit(r2[0])
    requires a1 + r1 == a2 + r2
    ensures a1 == a2 && r1 == r2
  {
    LeadingDigitsOfPrefix(a1, r1);
    LeadingDigitsOfPrefix(a2, r2);
    var s := a1 + r1;
    assert a1 == s[..|a1|] && a2 == s[..|a2|];
    assert r1 == s[|a1|..] && r2 == s[|a2|..];
  }
}
