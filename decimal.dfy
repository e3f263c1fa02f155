/**
 * Decimal conversions the components rely on: `Number.prototype.toString`
 * on integers, `parseInt(s, 10)` and `Number(s)`. Only ASCII white space is
 * recognised, and `Number` accepts an optional sign followed by digits.
 */
module Decimal {
  import opened Base

  predicate IsDigit(c: char) { '0' <= c <= '9' }

  predicate AllDigits(s: string) { forall k :: 0 <= k < |s| ==> IsDigit(s[k]) }

  /** The white space that `parseInt` and `Number` skip. */
  predicate IsSpace(c: char)
  {
    c == ' ' || c == '\t' || c == '\n' || c == '\r' || c == '\U{B}' || c == '\U{C}'
  }

  function DigitChar(d: nat): (c: char)
    requires d < 10
    ensures IsDigit(c)
  {
    ('0' as int + d) as char
  }

  function DigitValue(c: char): (d: nat)
    requires IsDigit(c)
    ensures d < 10 && DigitChar(d) == c
  {
    c as int - '0' as int
  }

  /** `n.toString()` for a non-negative integer: its decimal digits, most significant first. */
  function NatToString(n: nat): (s: string)
    ensures |s| >= 1 && AllDigits(s)
    ensures s[0] == '0' <==> n == 0
    decreases n
  {
    if n < 10 then [DigitChar(n)] else NatToString(n / 10) + [DigitChar(n % 10)]
  }

  /** `i.toString()` (and `${i}`) for any integer. */
  function IntToString(i: int): (s: string)
    ensures |s| >= 1 && (s[0] == '-' || IsDigit(s[0]))
  {
    if i < 0 then "-" + NatToString(-i) else NatToString(i)
  }

  /** The number a string of decimal digits denotes. */
  function DigitsValue(s: string): nat
    requires AllDigits(s)
  {
    if s == [] then 0 else DigitsValue(s[..|s| - 1]) * 10 + DigitValue(s[|s| - 1])
  }

  lemma {:induction false} DigitsOfNat(n: nat)
    ensures DigitsValue(NatToString(n)) == n
    decreases n
  {
    if n >= 10 {
      var p := NatToString(n / 10);
      DigitsOfNat(n / 10);
      assert (p + [DigitChar(n % 10)])[..|p|] == p;
    }
  }

  /** Drops leading white space. */
  function TrimStart(s: string): (r: string)
    ensures |r| <= |s| && r == s[|s| - |r|..]
    ensures r == [] || !IsSpace(r[0])
    ensures forall k :: 0 <= k < |s| - |r| ==> IsSpace(s[k])
  {
    if s != [] && IsSpace(s[0]) then TrimStart(s[1..]) else s
  }

  /** Drops trailing white space. */
  function TrimEnd(s: string): (r: string)
    ensures |r| <= |s| && r == s[..|r|]
    ensures r == [] || !IsSpace(r[|r| - 1])
    ensures forall k :: |r| <= k < |s| ==> IsSpace(s[k])
  {
    if s != [] && IsSpace(s[|s| - 1]) then TrimEnd(s[..|s| - 1]) else s
  }

  /** The longest prefix of `s` made of decimal digits. */
  function DigitPrefix(s: string): (r: string)
    ensures r <= s && AllDigits(r)
    ensures |r| == |s| || !IsDigit(s[|r|])
  {
    if s != [] && IsDigit(s[0]) then [s[0]] + DigitPrefix(s[1..]) else []
  }

  /** Splits an optional leading sign off `t`: whether it was `-`, and the rest. */
  function SplitSign(t: string): (bool, string)
  {
    if t != [] && (t[0] == '-' || t[0] == '+') then (t[0] == '-', t[1..]) else (false, t)
  }

  /**
   * `parseInt(s, 10)`: skip leading white space, read an optional sign and
   * the longest run of digits after it; `None` stands for `NaN` (no digits).
   */
  function ParseInt(s: string): (r: Option<int>)
    ensures r.None? <==> DigitPrefix(SplitSign(TrimStart(s)).1) == []
  {
    var (negative, rest) := SplitSign(TrimStart(s));
    var digits := DigitPrefix(rest);
    var value: int := if digits == [] then 0 else DigitsValue(digits);
    if digits == [] then None else Some(if negative then -value else value)
  }

  /**
   * `Number(s)` for the strings the model needs: surrounding white space is
   * ignored, the empty string is 0, a sign followed by digits is its value,
   * and anything else is `NaN` (`None`).
   */
  function ToNumber(s: string): (r: Option<int>)
  {
    var t := TrimEnd(TrimStart(s));
    if t == [] then Some(0)
    else
      var (negative, digits) := SplitSign(t);
      if digits != [] && AllDigits(digits)
      then var value: int := DigitsValue(digits); Some(if negative then -value else value)
      else None
  }

  /** Every integer written by `toString` reads back unchanged through `parseInt`. */
  lemma ParseIntOfIntToString(i: int)
    ensures ParseInt(IntToString(i)) == Some(i)
  {
    var n: nat := if i < 0 then -i else i;
    IntToStringShape(i);
    DigitsOfNat(n);
    ParseIntOfSignedDigits(IntToString(i), i < 0, NatToString(n));
  }

  /** The decimal form of an integer starts with no white space and splits into its sign and its digits. */
  lemma IntToStringShape(i: int)
    ensures TrimStart(IntToString(i)) == IntToString(i)
    ensures SplitSign(IntToString(i)) == (i < 0, NatToString(if i < 0 then -i else i))
  {
    var n: nat := if i < 0 then -i else i;
    var d := NatToString(n);
    var s := IntToString(i);
    if i < 0 {
      assert s == "-" + d;
      assert s[0] == '-' && s[1..] == d;
    } else {
      assert s == d;
      assert IsDigit(s[0]);
    }
    assert !IsSpace(s[0]);
  }

  lemma ParseIntOfSignedDigits(s: string, negative: bool, digits: string)
    requires TrimStart(s) == s && SplitSign(s) == (negative, digits)
    requires digits != [] && AllDigits(digits)
    ensures var value: int := DigitsValue(digits); ParseInt(s) == Some(if negative then -value else value)
  {
    DigitPrefixOfDigits(digits);
  }

  /** The literal "1" is the decimal form of 1, and reads back as 1. */
  lemma ParseIntOne()
    ensures IntToString(1) == "1"
    ensures ParseInt("1") == Some(1)
  {
    assert NatToString(1) == [DigitChar(1)];
    ParseIntOfIntToString(1);
  }

  /** Every integer written by `toString` reads back unchanged through `Number`. */
  lemma ToNumberOfIntToString(i: int)
    ensures ToNumber(IntToString(i)) == Some(i)
  {
    var s := IntToString(i);
    assert TrimStart(s) == s;
    var digits := NatToString(if i < 0 then -i else i);
    assert !IsSpace(s[|s| - 1]);
    assert TrimEnd(s) == s;
    assert SplitSign(s).1 == digits;
    DigitsOfNat(if i < 0 then -i else i);
  }

  lemma DigitPrefixOfDigits(s: string)
    requires AllDigits(s)
    ensures DigitPrefix(s) == s
  {
  }
}
