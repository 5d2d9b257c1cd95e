/** Decimal text of integers, as Python's str() writes them and int() reads
    them back. Shared by the cost, time and duration helpers. */
module Decimal {
  import opened Options

  predicate IsDigit(c: char) {
    '0' <= c <= '9'
  }

  predicate AllDigits(s: string) {
    forall i :: 0 <= i < |s| ==> IsDigit(s[i])
  }

  function DigitValue(c: char): (d: nat)
    requires IsDigit(c)
    ensures d < 10
  {
    c as int - '0' as int
  }

  function DigitChar(d: nat): (c: char)
    requires d < 10
    ensures IsDigit(c) && DigitValue(c) == d
  {
    ('0' as int + d) as char
  }

  /** The value of a string of decimal digits, most significant first. */
  function DigitsValue(s: string): nat
    requires AllDigits(s)
  {
    if s == [] then 0 else DigitsValue(s[..|s| - 1]) * 10 + DigitValue(s[|s| - 1])
  }

  /** str(n) for a non-negative int: no leading zero except for 0 itself,
      and the digits read back as n. */
  function NatToString(n: nat): (s: string)
    ensures |s| >= 1 && AllDigits(s)
    ensures s[0] == '0' <==> n == 0
    ensures |s| > 1 ==> s[0] != '0'
    ensures DigitsValue(s) == n
  {
    if n < 10 then [DigitChar(n)]
    else
      var s := NatToString(n / 10) + [DigitChar(n % 10)];
      assert s[..|s| - 1] == NatToString(n / 10);
      s
  }

  /** str(i) for any int. */
  function IntToString(i: int): (s: string)
  {
    if i < 0 then "-" + NatToString(-i) else NatToString(i)
  }

  /** "%02d" % n for 0 <= n < 100. */
  function Pad2(n: nat): (s: string)
    requires n < 100
    ensures |s| == 2 && AllDigits(s) && DigitsValue(s) == n
  {
    if n < 10 then
      var s := ['0', DigitChar(n)];
      assert s[..1] == ['0'] && DigitsValue(['0']) == 0 by { assert ['0'][..0] == []; }
      s
    else
      var s := NatToString(n);
      assert |s| == 2 by {
        if |s| > 2 { DigitsAtLeast(s); }
      }
      s
  }

  /** A digit string of length at least 3 without a leading zero is at least 100. */
  lemma {:induction false} DigitsAtLeast(s: string)
    requires AllDigits(s) && |s| >= 2 && s[0] != '0'
    ensures DigitsValue(s) >= if |s| == 2 then 10 else 100
  {
    var p := s[..|s| - 1];
    assert p[0] == s[0];
    if |p| == 1 {
      assert DigitsValue(p) == DigitValue(p[0]) by { assert p[..0] == []; }
    } else {
      DigitsAtLeast(p);
    }
  }

  /** int(s) for text made of an optional sign and at least one ASCII
      digit; None for any other text. */
  function ParseInt(s: string): (r: Option<int>)
  {
    if |s| > 1 && (s[0] == '-' || s[0] == '+') && AllDigits(s[1..]) then
      var v: int := DigitsValue(s[1..]);
      Some(if s[0] == '-' then -v else v)
    else if |s| > 0 && AllDigits(s) then
      Some(DigitsValue(s))
    else
      None
  }

  /** int(str(i)) == i. */
  lemma IntToStringRoundTrip(i: int)
    ensures ParseInt(IntToString(i)) == Some(i)
  {
    if i < 0 {
      assert IntToString(i)[1..] == NatToString(-i);
    }
  }
}
