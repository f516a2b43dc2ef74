/**
  Hexadecimal text as the controller and the topology script produce and read it:
  Python's `"%0<w>x" % n` formatting and `int(s, 16)` parsing, on natural numbers.
 */
module Hex {

  /** 16 to the power n. */
  function Pow16(n: nat): (p: nat)
    ensures p >= 1
  {
    if n == 0 then 1 else 16 * Pow16(n - 1)
  }

  /** A digit `int(s, 16)` accepts, in either case. */
  predicate IsHexDigit(c: char) {
    '0' <= c <= '9' || 'a' <= c <= 'f' || 'A' <= c <= 'F'
  }

  /** A digit `%x` produces: lower case only. */
  predicate IsLowerHexDigit(c: char) {
    '0' <= c <= '9' || 'a' <= c <= 'f'
  }

  predicate IsHexString(s: string) {
    forall i :: 0 <= i < |s| ==> IsHexDigit(s[i])
  }

  predicate IsLowerHexString(s: string) {
    forall i :: 0 <= i < |s| ==> IsLowerHexDigit(s[i])
  }

  /** The value of one hexadecimal digit. */
  function DigitValue(c: char): (v: nat)
    requires IsHexDigit(c)
    ensures v < 16
  {
    if '0' <= c <= '9' then c as int - '0' as int
    else if 'a' <= c <= 'f' then c as int - 'a' as int + 10
    else c as int - 'A' as int + 10
  }

  /** The lower-case digit `%x` writes for a value below 16. */
  function HexDigit(d: nat): (c: char)
    requires d < 16
    ensures IsLowerHexDigit(c) && IsHexDigit(c)
    ensures DigitValue(c) == d
  {
    if d < 10 then ('0' as int + d) as char else ('a' as int + (d - 10)) as char
  }

  /**
    The number a string of hexadecimal digits denotes, most significant digit
    first, as `int(s, 16)` reads it. The empty string denotes 0 here (Python
    refuses it; no caller in this model passes it).
   */
  function HexValue(s: string): (v: nat)
    requires IsHexString(s)
    ensures v < Pow16(|s|)
  {
    if s == [] then 0 else 16 * HexValue(s[..|s| - 1]) + DigitValue(s[|s| - 1])
  }

  /**
    `"%0<w>x" % n`: the lower-case hexadecimal digits of n, left-padded with
    '0' to at least w characters (a value wider than w is not truncated).
   */
  function FormatHex(n: nat, w: nat): (s: string)
    ensures |s| >= 1 && |s| >= w
    ensures IsLowerHexString(s) && IsHexString(s)
    decreases n, w
  {
    if n < 16 && w <= 1 then [HexDigit(n)]
    else FormatHex(n / 16, if w == 0 then 0 else w - 1) + [HexDigit(n % 16)]
  }

  /** Parsing what `%x` wrote gives back the number, whatever the padding. */
  lemma {:induction false} FormatHexValue(n: nat, w: nat)
    ensures HexValue(FormatHex(n, w)) == n
    decreases n, w
  {
    var s := FormatHex(n, w);
    if n < 16 && w <= 1 {
      assert s[..|s| - 1] == [];
    } else {
      var w' := if w == 0 then 0 else w - 1;
      FormatHexValue(n / 16, w');
      assert s[..|s| - 1] == FormatHex(n / 16, w');
    }
  }

  /** A value below 16^w is written with exactly w digits (w >= 1). */
  lemma {:induction false} FormatHexLength(n: nat, w: nat)
    requires w >= 1 && n < Pow16(w)
    ensures |FormatHex(n, w)| == w
    decreases w
  {
    if n < 16 && w <= 1 {
    } else {
      assert w >= 2;
      FormatHexLength(n / 16, w - 1);
    }
  }

  /** The value of two digits. */
  lemma PairValue(hi: nat, lo: nat)
    requires hi < 16 && lo < 16
    ensures HexValue([HexDigit(hi), HexDigit(lo)]) == 16 * hi + lo
  {
    var s := [HexDigit(hi), HexDigit(lo)];
    assert s[..1] == [HexDigit(hi)];
    assert s[..1][..0] == [];
  }

  /** The last two digits of a number are its lowest byte. */
  lemma LowByte(n: nat)
    ensures 16 * ((n / 16) % 16) + n % 16 == n % 256
  {
    var q, r0 := n / 16, n % 16;
    var q2, r1 := q / 16, q % 16;
    assert n == 256 * q2 + (16 * r1 + r0);
  }

  /**
    With at least three digits of padding, `%x` output ends in the two digits
    of the lowest byte, preceded by the output for the remaining bytes.
   */
  lemma SplitLowByte(n: nat, w: nat)
    requires w >= 3
    ensures FormatHex(n, w)
         == FormatHex(n / 256, w - 2) + [HexDigit((n / 16) % 16), HexDigit(n % 16)]
  {
    assert FormatHex(n, w) == FormatHex(n / 16, w - 1) + [HexDigit(n % 16)];
    assert FormatHex(n / 16, w - 1) == FormatHex(n / 16 / 16, w - 2) + [HexDigit((n / 16) % 16)];
    assert n / 16 / 16 == n / 256;
  }

  /** Concatenating digit strings gives a digit string. */
  lemma HexStringAppend(a: string, b: string)
    requires IsHexString(a) && IsHexString(b)
    ensures IsHexString(a + b)
  {
    var ab := a + b;
    forall i | 0 <= i < |ab| ensures IsHexDigit(ab[i]) {
      if i < |a| { assert ab[i] == a[i]; } else { assert ab[i] == b[i - |a|]; }
    }
  }

  /** Multiplying by 16 once more. */
  lemma ShiftOnce(x: nat, y: nat, d: nat, p: nat)
    ensures 16 * (x * p + y) + d == x * (16 * p) + (16 * y + d)
  {
  }

  /** The value of a concatenation: the first part shifted by the digits of the second. */
  lemma {:induction false} HexValueAppend(a: string, b: string)
    requires IsHexString(a) && IsHexString(b)
    ensures IsHexString(a + b)
    ensures HexValue(a + b) == HexValue(a) * Pow16(|b|) + HexValue(b)
    decreases |b|
  {
    HexStringAppend(a, b);
    if b == [] {
      assert a + b == a;
    } else {
      var ab, b' := a + b, b[..|b| - 1];
      assert ab[..|ab| - 1] == a + b';
      assert ab[|ab| - 1] == b[|b| - 1];
      HexValueAppend(a, b');
      ShiftOnce(HexValue(a), HexValue(b'), DigitValue(b[|b| - 1]), Pow16(|b'|));
    }
  }
}
