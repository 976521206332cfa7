/**
 * Decimal text of integers: how a number written to the store is rendered
 * (JavaScript `String(n)` for an integer n) and how the store's text is read
 * back by `parseInt(text, 10) || 0`.
 */
module Decimal {

  predicate IsDigit(c: char) { '0' <= c <= '9' }

  predicate AllDigits(s: string) { forall i | 0 <= i < |s| :: IsDigit(s[i]) }

  function DigitValue(c: char): (d: nat)
    requires IsDigit(c)
    ensures d < 10
  {
    c as int - '0' as int
  }

  function DigitChar(d: nat): (c: char)
    requires d < 10
    ensures IsDigit(c) && DigitValue(c) == d
  {
    ('0' as int + d) as char
  }

  /** The value of a run of decimal digits, most significant digit first. */
  function DigitsValue(ds: string): nat
    requires AllDigits(ds)
  {
    if ds == [] then 0 else DigitsValue(ds[..|ds| - 1]) * 10 + DigitValue(ds[|ds| - 1])
  }

  /** The shortest decimal digits of n: no leading zero except for 0 itself. */
  function Digits(n: nat): (ds: string)
    ensures |ds| > 0 && AllDigits(ds)
    ensures ds[0] == '0' <==> n == 0
  {
    if n < 10 then [DigitChar(n)] else Digits(n / 10) + [DigitChar(n % 10)]
  }

  /** The text JavaScript gives an integer-valued number: a minus sign for negatives, then its digits. */
  function Render(n: int): (s: string)
    ensures |s| > 0 && (s[0] == '-' || IsDigit(s[0]))
  {
    if n < 0 then "-" + Digits(-n) else Digits(n)
  }

  lemma {:induction false} DigitsValueOfDigits(n: nat)
    ensures DigitsValue(Digits(n)) == n
  {
    if n >= 10 {
      DigitsValueOfDigits(n / 10);
      var ds := Digits(n);
      assert ds[..|ds| - 1] == Digits(n / 10);
    }
  }

  /**
   * The characters `parseInt` skips before the number: the ECMAScript
   * StrWhiteSpaceChar set (white space and line terminators).
   */
  predicate IsStrWhiteSpace(c: char)
  {
    c == '\t' || c == '\n' || c == '\r' || c == ' '
    || c as int == 0x0B || c as int == 0x0C || c as int == 0xA0 || c as int == 0x1680
    || (0x2000 <= c as int <= 0x200A) || c as int == 0x2028 || c as int == 0x2029
    || c as int == 0x202F || c as int == 0x205F || c as int == 0x3000 || c as int == 0xFEFF
  }

  /** s without its leading white space. */
  function TrimStart(s: string): (t: string)
    ensures |t| <= |s| && t == s[|s| - |t|..]
    ensures t == [] || !IsStrWhiteSpace(t[0])
    ensures forall i | 0 <= i < |s| - |t| :: IsStrWhiteSpace(s[i])
  {
    if s != [] && IsStrWhiteSpace(s[0]) then TrimStart(s[1..]) else s
  }

  /** The length of the run of decimal digits that s starts with. */
  function DigitRun(s: string): (k: nat)
    ensures k <= |s| && AllDigits(s[..k])
    ensures k < |s| ==> !IsDigit(s[k])
  {
    if s != [] && IsDigit(s[0]) then 1 + DigitRun(s[1..]) else 0
  }

  /**
   * `parseInt(s, 10) || 0`: skip leading white space, take an optional sign,
   * then the longest run of decimal digits; no digits gives NaN, which like
   * -0 is falsy, so the result is 0.
   */
  function ParseIntOr0(s: string): int
  {
    ParseSigned(TrimStart(s))
  }

  /** An optional sign followed by the longest run of digits (0 when there are none). */
  function ParseSigned(t: string): int
  {
    if t != [] && t[0] == '-' then -(ParseUnsigned(t[1..]) as int)
    else if t != [] && t[0] == '+' then ParseUnsigned(t[1..])
    else ParseUnsigned(t)
  }

  /** The value of the run of digits u starts with (0 when there are none). */
  function ParseUnsigned(u: string): nat
  {
    DigitsValue(u[..DigitRun(u)])
  }

  lemma {:induction false} DigitRunOfDigits(ds: string, tail: string)
    requires AllDigits(ds)
    requires tail == [] || !IsDigit(tail[0])
    ensures DigitRun(ds + tail) == |ds|
  {
    if ds != [] {
      assert (ds + tail)[1..] == ds[1..] + tail;
      DigitRunOfDigits(ds[1..], tail);
    }
  }

  lemma ParseUnsignedDigits(m: nat, tail: string)
    requires tail == [] || !IsDigit(tail[0])
    ensures ParseUnsigned(Digits(m) + tail) == m
  {
    var ds := Digits(m);
    DigitRunOfDigits(ds, tail);
    assert (ds + tail)[..|ds|] == ds;
    DigitsValueOfDigits(m);
  }

  /** Reading back what was written: the store's text for n parses to n. */
  lemma ParseIntRender(n: int, tail: string)
    requires tail == [] || !IsDigit(tail[0])
    ensures ParseIntOr0(Render(n) + tail) == n
  {
    var s := Render(n) + tail;
    assert s[0] == Render(n)[0];
    NoWhiteSpaceToTrim(s);
    ParseSignedRender(n, tail);
  }

  /** The store's text for n, on its own, parses to n. */
  lemma RenderReadsBack(n: int)
    ensures ParseIntOr0(Render(n)) == n
  {
    ParseIntRender(n, "");
    assert Render(n) + "" == Render(n);
  }

  lemma NoWhiteSpaceToTrim(s: string)
    requires s != [] && !IsStrWhiteSpace(s[0])
    ensures TrimStart(s) == s
  {
  }

  lemma ParseSignedRender(n: int, tail: string)
    requires tail == [] || !IsDigit(tail[0])
    ensures ParseSigned(Render(n) + tail) == n
  {
    var m: nat := if n < 0 then -n else n;
    ParseUnsignedDigits(m, tail);
    RenderShape(n, tail);
    SignedShape(Render(n) + tail, n < 0, Digits(m), tail, m);
  }

  /** The text of n followed by tail: an optional minus sign, then the digits of |n|, then tail. */
  lemma RenderShape(n: int, tail: string)
    ensures Render(n) + tail == if n < 0 then "-" + (Digits(-n) + tail) else Digits(n) + tail
  {
  }

  /** ParseSigned on an optional minus sign followed by digits ds and then tail. */
  lemma SignedShape(t: string, negative: bool, ds: string, tail: string, v: int)
    requires t == if negative then "-" + (ds + tail) else ds + tail
    requires ds != [] && IsDigit(ds[0])
    requires ParseUnsigned(ds + tail) == v
    ensures ParseSigned(t) == if negative then -v else v
  {
    if negative {
      assert t[1..] == ds + tail;
    } else {
      assert t[0] == ds[0];
    }
  }

  lemma NoDigitRun(u: string)
    requires forall i | 0 <= i < |u| :: !IsDigit(u[i])
    ensures ParseUnsigned(u) == 0
  {
    assert DigitRun(u) == 0;
    assert u[..0] == [];
  }

  /** Text with no decimal digit at all (empty, "null", "NaN", garbage) reads as 0. */
  lemma ParseIntNoDigits(s: string)
    requires forall i | 0 <= i < |s| :: !IsDigit(s[i])
    ensures ParseIntOr0(s) == 0
  {
    var t := TrimStart(s);
    NoDigitsInSuffix(s, t);
    if t != [] && (t[0] == '-' || t[0] == '+') {
      NoDigitRun(t[1..]);
    } else {
      NoDigitRun(t);
    }
  }

  /** A suffix of a text with no digit has no digit. */
  lemma NoDigitsInSuffix(s: string, t: string)
    requires forall i | 0 <= i < |s| :: !IsDigit(s[i])
    requires |t| <= |s| && t == s[|s| - |t|..]
    ensures forall i | 0 <= i < |t| :: !IsDigit(t[i])
  {
    assert forall i | 0 <= i < |t| :: t[i] == s[|s| - |t| + i];
  }
}
