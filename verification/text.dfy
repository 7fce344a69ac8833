/** Decimal rendering of integers as the .NET formatter produces it:
    `n.ToString()` and the zero-padded `n.ToString("D<width>")` used by the
    receipt, revenue-reference and licence numbers, together with the parser
    that inverts it. */
module Text {

  import opened Common

  predicate IsDigit(c: char) {
    '0' <= c <= '9'
  }

  predicate AllDigits(s: string) {
    forall i :: 0 <= i < |s| ==> IsDigit(s[i])
  }

  function DigitChar(d: nat): (c: char)
    requires d < 10
    ensures IsDigit(c)
  {
    ('0' as int + d) as char
  }

  function DigitValue(c: char): nat
    requires IsDigit(c)
  {
    c as int - '0' as int
  }

  function Pow10(k: nat): (p: nat)
    ensures p >= 1
  {
    if k == 0 then 1 else 10 * Pow10(k - 1)
  }

  /** The digits of `n` without leading zeros ("0" for zero). */
  function NatDigits(n: nat): (s: string)
    ensures 1 <= |s|
    ensures AllDigits(s)
    ensures |s| > 1 ==> s[0] != '0'
  {
    if n < 10 then [DigitChar(n)] else NatDigits(n / 10) + [DigitChar(n % 10)]
  }

  /** The value of a string of decimal digits ("" reads as 0). */
  function ParseDigits(s: string): nat
    requires AllDigits(s)
  {
    if |s| == 0 then 0 else ParseDigits(s[..|s| - 1]) * 10 + DigitValue(s[|s| - 1])
  }

  /** A run of `k` zero characters. */
  function Zeros(k: nat): (s: string)
    ensures |s| == k
    ensures forall i :: 0 <= i < k ==> s[i] == '0'
  {
    seq(k, _ => '0')
  }

  /** Left-pads `s` with '0' up to `width` characters; longer strings are kept. */
  function PadLeft(s: string, width: nat): (r: string)
    ensures |r| == if |s| < width then width else |s|
    ensures r[|r| - |s|..] == s
    ensures forall i :: 0 <= i < |r| - |s| ==> r[i] == '0'
  {
    if |s| < width then Zeros(width - |s|) + s else s
  }

  /** `n.ToString("D" + width)`: the digits of |n| zero-padded to at least
      `width` characters, preceded by '-' when `n` is negative. */
  function FormatD(n: int, width: nat): string {
    if n < 0 then "-" + PadLeft(NatDigits(-n), width) else PadLeft(NatDigits(n), width)
  }

  /** `n.ToString()`, which is what string interpolation without a format uses. */
  function IntToString(n: int): string {
    FormatD(n, 0)
  }

  /** Reads back an optionally signed decimal numeral; the inverse of `FormatD`. */
  function ParseInt(s: string): (r: Option<int>)
  {
    if 2 <= |s| && s[0] == '-' && AllDigits(s[1..]) then Some(0 - ParseDigits(s[1..]))
    else if 1 <= |s| && AllDigits(s) then Some(ParseDigits(s))
    else None
  }

  lemma {:induction false} ParseNatDigits(n: nat)
    ensures ParseDigits(NatDigits(n)) == n
  {
    if n >= 10 {
      var s := NatDigits(n);
      assert s[..|s| - 1] == NatDigits(n / 10);
      ParseNatDigits(n / 10);
    }
  }

  /** Leading zeros do not change the value of a numeral. */
  lemma {:induction false} ParseLeadingZeros(k: nat, s: string)
    requires AllDigits(s)
    ensures AllDigits(Zeros(k) + s)
    ensures ParseDigits(Zeros(k) + s) == ParseDigits(s)
  {
    var t := Zeros(k) + s;
    if |s| == 0 {
      assert t == Zeros(k);
      if k > 0 {
        assert t[..|t| - 1] == Zeros(k - 1) + s;
        ParseLeadingZeros(k - 1, s);
      }
    } else {
      assert t[..|t| - 1] == Zeros(k) + s[..|s| - 1];
      ParseLeadingZeros(k, s[..|s| - 1]);
    }
  }

  lemma ParsePadded(n: nat, width: nat)
    ensures AllDigits(PadLeft(NatDigits(n), width))
    ensures ParseDigits(PadLeft(NatDigits(n), width)) == n
  {
    var s := NatDigits(n);
    ParseNatDigits(n);
    if |s| < width {
      ParseLeadingZeros(width - |s|, s);
    }
  }

  lemma ParseNegative(p: string)
    requires 1 <= |p| && AllDigits(p)
    ensures ParseInt("-" + p) == Some(0 - ParseDigits(p))
  {
    var s := "-" + p;
    assert s[1..] == p;
  }

  lemma ParseNonNegative(p: string)
    requires 1 <= |p| && AllDigits(p)
    ensures ParseInt(p) == Some(ParseDigits(p))
  {
    assert p[0] != '-' by { assert IsDigit(p[0]); }
  }

  /** `FormatD` loses nothing: parsing its output gives the number back. */
  lemma FormatDRoundTrip(n: int, width: nat)
    ensures ParseInt(FormatD(n, width)) == Some(n)
  {
    if n < 0 {
      var m: nat := -n;
      var p := PadLeft(NatDigits(m), width);
      assert FormatD(n, width) == "-" + p;
      ParsePadded(m, width);
      ParseNegative(p);
    } else {
      var m: nat := n;
      var p := PadLeft(NatDigits(m), width);
      assert FormatD(n, width) == p;
      ParsePadded(m, width);
      ParseNonNegative(p);
    }
  }

  /** Distinct numbers are rendered differently at any width. */
  lemma FormatDInjective(a: int, b: int, width: nat)
    requires FormatD(a, width) == FormatD(b, width)
    ensures a == b
  {
    FormatDRoundTrip(a, width);
    FormatDRoundTrip(b, width);
  }

  /** A number below 10^k has at most k digits. */
  lemma {:induction false} NatDigitsLength(n: nat, k: nat)
    requires 1 <= k
    requires n < Pow10(k)
    ensures |NatDigits(n)| <= k
  {
    if n >= 10 {
      assert k >= 2;
      NatDigitsLength(n / 10, k - 1);
    }
  }

  /** A non-negative number with at most `width` digits is rendered with
      exactly `width` digits by `D<width>`. */
  lemma FormatDExactWidth(n: nat, width: nat)
    requires 1 <= width
    requires n < Pow10(width)
    ensures |FormatD(n, width)| == width
    ensures AllDigits(FormatD(n, width))
  {
    NatDigitsLength(n, width);
    ParsePadded(n, width);
  }

  /** Joining numerals gives a numeral. */
  lemma ConcatDigits(a: string, b: string)
    requires AllDigits(a) && AllDigits(b)
    ensures AllDigits(a + b)
  {
    forall i | 0 <= i < |a + b|
      ensures IsDigit((a + b)[i])
    {
      if i < |a| {
        assert (a + b)[i] == a[i];
      } else {
        assert (a + b)[i] == b[i - |a|];
      }
    }
  }

  /** The three parts of a concatenation are its slices at the parts' lengths. */
  lemma SlicesOfThree(a: string, b: string, c: string)
    ensures |a + b + c| == |a| + |b| + |c|
    ensures (a + b + c)[..|a|] == a
    ensures (a + b + c)[|a|..|a| + |b|] == b
    ensures (a + b + c)[|a| + |b|..] == c
  {
    var s := a + b + c;
    assert s == a + (b + c);
    assert s[|a|..] == b + c;
    assert (b + c)[..|b|] == b;
    assert s[|a|..|a| + |b|] == (b + c)[..|b|];
  }

  /** The position of the first '-' in `s`, or `|s|` when there is none. */
  function DashIndex(s: string): (k: nat)
    ensures k <= |s|
    ensures k < |s| ==> s[k] == '-'
    ensures forall i :: 0 <= i < k ==> s[i] != '-'
  {
    if |s| == 0 then 0
    else if s[0] == '-' then 0
    else 1 + DashIndex(s[1..])
  }

  /** In digits, a dash, then anything, the first dash is the one after the digits. */
  lemma DashAfterDigits(a: string, b: string)
    requires AllDigits(a)
    ensures DashIndex(a + "-" + b) == |a|
  {
    var s := a + "-" + b;
    assert s[|a|] == '-';
    assert forall i :: 0 <= i < |a| ==> s[i] == a[i];
  }

  /** Text of the form digits, dash, rest splits back into its two parts. */
  lemma DigitsDashSplit(a: string, b: string, c: string, d: string)
    requires AllDigits(a) && AllDigits(c)
    requires a + "-" + b == c + "-" + d
    ensures a == c && b == d
  {
    DashAfterDigits(a, b);
    DashAfterDigits(c, d);
    var s := a + "-" + b;
    assert a == s[..|a|];
    assert c == s[..|c|];
    assert b == s[|a| + 1..];
    assert d == (c + "-" + d)[|c| + 1..];
  }
}
