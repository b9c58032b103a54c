/**
 * Decimal rendering as done by std::to_string, and a reader that parses it
 * back. Every number the streamer writes on the wire or into HTML (the
 * Content-Length of a part, the port, the capture width and height, the
 * octets of a dotted-quad address) goes through these functions.
 */
module Decimal {
  import opened Wrappers

  predicate IsDigit(c: char) {
    '0' <= c <= '9'
  }

  predicate AllDigits(s: string) {
    forall i :: 0 <= i < |s| ==> IsDigit(s[i])
  }

  /** The character that stands for a single decimal digit. */
  function DigitChar(d: nat): (c: char)
    requires d < 10
    ensures IsDigit(c) && c as int - '0' as int == d
  {
    ('0' as int + d) as char
  }

  /** std::to_string of an unsigned value: the shortest decimal rendering. */
  function NatToDec(n: nat): (s: string)
    ensures |s| >= 1 && AllDigits(s)
    ensures s[0] == '0' ==> n == 0
    ensures n < 10 <==> |s| == 1
    decreases n
  {
    if n < 10 then [DigitChar(n)] else NatToDec(n / 10) + [DigitChar(n % 10)]
  }

  /** std::to_string of a signed value: a minus sign in front of a negative number. */
  function IntToDec(i: int): (s: string)
    ensures |s| >= 1
    ensures s[0] == '-' <==> i < 0
  {
    if i < 0 then "-" + NatToDec(-i) else NatToDec(i)
  }

  /** The number a string of digits denotes, most significant digit first. */
  function DigitsValue(s: string): nat
    requires AllDigits(s)
  {
    if s == [] then 0
    else DigitsValue(s[..|s| - 1]) * 10 + (s[|s| - 1] as int - '0' as int)
  }

  /** Length of the run of digits at the front of s. */
  function SpanDigits(s: string): (k: nat)
    ensures k <= |s| && AllDigits(s[..k])
    ensures k < |s| ==> !IsDigit(s[k])
  {
    if s == [] || !IsDigit(s[0]) then 0
    else
      var k := 1 + SpanDigits(s[1..]);
      assert s[..k] == [s[0]] + s[1..][..k - 1];
      k
  }

  /** Reads an unsigned decimal number at the front of s; returns it with the rest of s. */
  function ReadNat(s: string): (r: Option<(nat, string)>)
    ensures r.Some? ==> |r.value.1| < |s|
  {
    var k := SpanDigits(s);
    if k == 0 then None else Some((DigitsValue(s[..k]), s[k..]))
  }

  /** Reads a decimal number with an optional leading minus sign. */
  function ReadInt(s: string): (r: Option<(int, string)>)
    ensures r.Some? ==> |r.value.1| < |s|
  {
    if |s| > 0 && s[0] == '-' then
      match ReadNat(s[1..])
      case None => None
      case Some((n, rest)) => var v: int := 0 - n as int; Some((v, rest))
    else
      match ReadNat(s)
      case None => None
      case Some((n, rest)) => var v: int := n; Some((v, rest))
  }

  lemma {:induction false} NatToDecValue(n: nat)
    ensures DigitsValue(NatToDec(n)) == n
    decreases n
  {
    var s := NatToDec(n);
    if n >= 10 {
      NatToDecValue(n / 10);
      assert s[..|s| - 1] == NatToDec(n / 10);
    }
  }

  lemma {:induction false} SpanOfDigits(d: string, rest: string)
    requires AllDigits(d)
    requires rest == [] || !IsDigit(rest[0])
    ensures SpanDigits(d + rest) == |d|
    decreases |d|
  {
    if d != [] {
      assert (d + rest)[1..] == d[1..] + rest;
      SpanOfDigits(d[1..], rest);
    }
  }

  /** Reading back what NatToDec wrote gives the number, provided a non-digit follows. */
  lemma ReadNatDec(n: nat, rest: string)
    requires rest == [] || !IsDigit(rest[0])
    ensures ReadNat(NatToDec(n) + rest) == Some((n, rest))
  {
    var d := NatToDec(n);
    SpanOfDigits(d, rest);
    assert (d + rest)[..|d|] == d;
    assert (d + rest)[|d|..] == rest;
    NatToDecValue(n);
  }

  lemma ReadIntOfNat(n: nat, rest: string)
    requires rest == [] || !IsDigit(rest[0])
    ensures ReadInt(NatToDec(n) + rest) == Some((n as int, rest))
  {
    ReadNatDec(n, rest);
    assert (NatToDec(n) + rest)[0] == NatToDec(n)[0];
  }

  lemma ReadIntOfMinus(n: nat, rest: string)
    requires rest == [] || !IsDigit(rest[0])
    ensures ReadInt("-" + NatToDec(n) + rest) == Some((0 - n as int, rest))
  {
    ReadNatDec(n, rest);
    assert ("-" + NatToDec(n) + rest)[1..] == NatToDec(n) + rest;
  }

  /** Reading back what IntToDec wrote gives the number, provided a non-digit follows. */
  lemma ReadIntDec(i: int, rest: string)
    requires rest == [] || !IsDigit(rest[0])
    ensures ReadInt(IntToDec(i) + rest) == Some((i, rest))
  {
    if i < 0 {
      ReadIntOfMinus(-i, rest);
    } else {
      ReadIntOfNat(i, rest);
    }
  }

  /** Different numbers never render the same. */
  lemma NatToDecInjective(m: nat, n: nat)
    requires NatToDec(m) == NatToDec(n)
    ensures m == n
  {
    NatToDecValue(m);
    NatToDecValue(n);
  }
}
