/** Decimal rendering of integers, as template literals (`${n}`) render
    them, and the reader that recovers a number from the front of a string.
    The formatters of the dashboard and the server are proved against it. */
module Decimal {
  import opened Wrappers

  predicate IsDigit(c: char) {
    '0' <= c <= '9'
  }

  predicate AllDigits(s: string) {
    forall i :: 0 <= i < |s| ==> IsDigit(s[i])
  }

  function DigitChar(d: nat): (c: char)
    requires d < 10
    ensures IsDigit(c) && c as int - '0' as int == d
  {
    (('0' as int) + d) as char
  }

  /** `${n}` for a non-negative integer: no sign, no leading zero. */
  function NatToString(n: nat): (r: string)
    ensures |r| >= 1 && AllDigits(r)
    ensures |r| > 1 ==> r[0] != '0'
    decreases n
  {
    if n < 10 then [DigitChar(n)] else NatToString(n / 10) + [DigitChar(n % 10)]
  }

  /** `${n}` for any integer: a minus sign in front of negative values. */
  function IntToString(n: int): (r: string)
    ensures |r| >= 1
    ensures (r[0] == '-') == (n < 0)
  {
    if n < 0 then "-" + NatToString(-n) else NatToString(n)
  }

  /** The number a string of decimal digits denotes. */
  function DigitsValue(s: string): nat
    requires AllDigits(s)
  {
    if s == [] then 0 else DigitsValue(s[..|s| - 1]) * 10 + (s[|s| - 1] as int - '0' as int)
  }

  lemma {:induction false} NatToStringValue(n: nat)
    ensures DigitsValue(NatToString(n)) == n
    decreases n
  {
    if n >= 10 {
      var s := NatToString(n);
      assert s[..|s| - 1] == NatToString(n / 10);
      NatToStringValue(n / 10);
    }
  }

  /** The length of the run of digits at the front of `s`. */
  function DigitRun(s: string): (k: nat)
    ensures k <= |s|
    ensures AllDigits(s[..k])
    ensures k < |s| ==> !IsDigit(s[k])
  {
    if s == [] || !IsDigit(s[0]) then 0
    else
      var k := 1 + DigitRun(s[1..]);
      assert s[..k] == [s[0]] + s[1..][..k - 1];
      k
  }

  /** The digit run ends at the first index that is not a digit. */
  lemma {:induction false} DigitRunAt(s: string, j: nat)
    requires j <= |s| && AllDigits(s[..j])
    requires j == |s| || !IsDigit(s[j])
    ensures DigitRun(s) == j
  {
    if j > 0 {
      assert IsDigit(s[..j][0]);
      assert s[1..][..j - 1] == s[..j][1..];
      DigitRunAt(s[1..], j - 1);
    }
  }

  /** Reads a non-negative number from the front of `s`, returning it with
      the rest of the string; `None` when `s` does not start with a digit. */
  function ReadNat(s: string): (r: Option<(nat, string)>)
    ensures r.Some? ==> |r.value.1| < |s|
  {
    var k := DigitRun(s);
    if k == 0 then None else Some((DigitsValue(s[..k]), s[k..]))
  }

  /** Reads an integer, with an optional leading minus sign. */
  function ReadInt(s: string): (r: Option<(int, string)>)
    ensures r.Some? ==> |r.value.1| < |s|
  {
    var negative := |s| > 0 && s[0] == '-';
    var r := ReadNat(if negative then s[1..] else s);
    if r.None? then None
    else
      var n: int := r.value.0;
      var v := if negative then -n else n;
      Some((v, r.value.1))
  }

  predicate StartsWithoutDigit(s: string) {
    s == [] || !IsDigit(s[0])
  }

  /** Reading back a rendered number stops exactly where the number ends. */
  lemma ReadNatString(n: nat, rest: string)
    requires StartsWithoutDigit(rest)
    ensures ReadNat(NatToString(n) + rest) == Some((n, rest))
  {
    var d := NatToString(n);
    var s := d + rest;
    assert s[..|d|] == d;
    assert |d| < |s| ==> s[|d|] == rest[0];
    DigitRunAt(s, |d|);
    var k := DigitRun(s);
    assert s[..k] == d && s[k..] == rest;
    NatToStringValue(n);
  }

  lemma ReadIntString(n: int, rest: string)
    requires StartsWithoutDigit(rest)
    ensures ReadInt(IntToString(n) + rest) == Some((n, rest))
  {
    if n < 0 {
      var d := NatToString(-n);
      assert ("-" + d + rest)[1..] == d + rest;
      ReadNatString(-n, rest);
    } else {
      ReadNatString(n, rest);
    }
  }

  /** Different numbers render differently. */
  lemma IntToStringInjective(a: int, b: int)
    requires IntToString(a) == IntToString(b)
    ensures a == b
  {
    ReadIntString(a, "");
    ReadIntString(b, "");
    assert IntToString(a) + "" == IntToString(a);
    assert IntToString(b) + "" == IntToString(b);
  }
}
