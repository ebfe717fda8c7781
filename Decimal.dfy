/**
  Decimal renderings of integers as the modelled programs produce and read them:
  Python's `str(n)` and Java's `%d`, the zero-padded `%04d` / `{:04d}`, and Python's
  `int(s)` on a string of ASCII digits.
*/
module Decimal {

  predicate IsDigit(c: char) {
    '0' <= c <= '9'
  }

  predicate AllDigits(s: string) {
    forall i :: 0 <= i < |s| ==> IsDigit(s[i])
  }

  /** A string `str(n)` can produce for some n >= 0: digits only, no leading zero unless it is "0". */
  predicate Canonical(s: string) {
    |s| > 0 && AllDigits(s) && (s[0] == '0' ==> |s| == 1)
  }

  function DigitValue(c: char): (d: nat)
    requires IsDigit(c)
    ensures d < 10
  {
    c as int - '0' as int
  }

  function DigitChar(d: nat): (c: char)
    requires d < 10
    ensures IsDigit(c) && DigitValue(c) == d
  {
    ('0' as int + d) as char
  }

  /** `str(n)` for n >= 0. */
  function NatToString(n: nat): (s: string)
    ensures Canonical(s)
    ensures (s[0] == '0') == (n == 0)
    decreases n
  {
    if n < 10 then [DigitChar(n)] else NatToString(n / 10) + [DigitChar(n % 10)]
  }

  /** `str(i)` for any integer: a minus sign before the digits of a negative number. */
  function IntToString(i: int): (s: string)
    ensures i >= 0 ==> Canonical(s)
    ensures i < 0 ==> |s| > 0 && s[0] == '-'
  {
    if i < 0 then "-" + NatToString(-i) else NatToString(i)
  }

  /** `int(s)` on a string of digits (leading zeros allowed): k digits denote a number below 10^k. */
  function Parse(s: string): (n: nat)
    requires AllDigits(s)
    ensures n < Pow10(|s|)
  {
    if s == [] then 0 else Parse(s[..|s| - 1]) * 10 + DigitValue(s[|s| - 1])
  }

  lemma {:induction false} ParseNatToString(n: nat)
    ensures Parse(NatToString(n)) == n
    decreases n
  {
    var s := NatToString(n);
    if n < 10 {
      assert s[..0] == [];
    } else {
      assert s[..|s| - 1] == NatToString(n / 10);
      ParseNatToString(n / 10);
    }
  }

  lemma {:induction false} NatToStringParse(s: string)
    requires Canonical(s)
    ensures NatToString(Parse(s)) == s
    decreases |s|
  {
    var last := DigitValue(s[|s| - 1]);
    if |s| == 1 {
      assert s[..0] == [];
      assert DigitChar(last) == s[0];
    } else {
      var p := s[..|s| - 1];
      assert Canonical(p);
      NatToStringParse(p);
      assert Parse(p) != 0;
      assert DigitChar(last) == s[|s| - 1];
      assert s == p + [s[|s| - 1]];
    }
  }

  /** Different numbers have different renderings. */
  lemma NatToStringInjective(a: nat, b: nat)
    ensures NatToString(a) == NatToString(b) <==> a == b
  {
    if NatToString(a) == NatToString(b) {
      ParseNatToString(a);
      ParseNatToString(b);
    }
  }

  function Zeros(k: nat): (s: string)
    ensures |s| == k && forall i :: 0 <= i < k ==> s[i] == '0'
  {
    if k == 0 then [] else Zeros(k - 1) + "0"
  }

  /** Python `f"{n:0{w}d}"` and Java `String.format("%0wd", n)` for n >= 0: left-padded with zeros to at least w characters, never truncated. */
  function ZeroPad(n: nat, width: nat): (s: string)
    ensures AllDigits(s)
    ensures |s| == if |NatToString(n)| < width then width else |NatToString(n)|
  {
    var digits := NatToString(n);
    if |digits| < width then Zeros(width - |digits|) + digits else digits
  }

  lemma {:induction false} ParseLeadingZero(s: string)
    requires AllDigits(s)
    ensures Parse("0" + s) == Parse(s)
    decreases |s|
  {
    if s == [] {
      assert ("0" + s)[..0] == [];
    } else {
      var p := s[..|s| - 1];
      assert ("0" + s)[..|s|] == "0" + p;
      ParseLeadingZero(p);
    }
  }

  lemma {:induction false} ParseZeros(k: nat, s: string)
    requires AllDigits(s)
    ensures Parse(Zeros(k) + s) == Parse(s)
    decreases k
  {
    if k > 0 {
      var t := "0" + s;
      assert AllDigits(t);
      assert Zeros(k) + s == Zeros(k - 1) + t;
      ParseLeadingZero(s);
      ParseZeros(k - 1, t);
      assert Parse(Zeros(k - 1) + t) == Parse(t);
    } else {
      assert Zeros(k) + s == s;
    }
  }

  /** Reading a zero-padded number back gives the number: padding loses nothing. */
  lemma ParseZeroPad(n: nat, width: nat)
    ensures Parse(ZeroPad(n, width)) == n
  {
    var digits := NatToString(n);
    ParseNatToString(n);
    if |digits| < width {
      ParseZeros(width - |digits|, digits);
    }
  }

  lemma ZeroPadInjective(a: nat, b: nat, width: nat)
    ensures ZeroPad(a, width) == ZeroPad(b, width) <==> a == b
  {
    ParseZeroPad(a, width);
    ParseZeroPad(b, width);
  }

  function Pow10(k: nat): (p: nat)
    ensures p >= 1
  {
    if k == 0 then 1 else 10 * Pow10(k - 1)
  }

  /** A number below 10^k has at most k digits. */
  lemma {:induction false} NatToStringLength(n: nat, k: nat)
    requires 1 <= k && n < Pow10(k)
    ensures |NatToString(n)| <= k
    decreases n
  {
    if n >= 10 {
      assert Pow10(1) == 10;
      assert k >= 2;
      assert n / 10 < Pow10(k - 1);
      NatToStringLength(n / 10, k - 1);
    }
  }

  /** Up to 9999 the four-digit padding is exactly four characters wide. */
  lemma ZeroPad4Width(n: nat)
    requires n <= 9999
    ensures |ZeroPad(n, 4)| == 4
  {
    assert Pow10(4) == 10000;
    NatToStringLength(n, 4);
  }
}
