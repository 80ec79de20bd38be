/** Decimal rendering of integers, the `%d` verb of Go's formatter, and its
    inverse. The emitters render every immediate, offset and shift amount
    with `Dec`; `ParseDec` exists so that the rendering can be shown to lose
    nothing. */
module Decimal {

  datatype Option<T> = None | Some(value: T)

  predicate IsDigit(c: char) {
    '0' <= c <= '9'
  }

  function DigitChar(d: nat): (c: char)
    requires d < 10
    ensures IsDigit(c) && c as int - '0' as int == d
  {
    ('0' as int + d) as char
  }

  /** Digits of a natural number, most significant first, without leading zeros. */
  function NatToString(n: nat): (s: string)
    ensures |s| > 0
    ensures forall i :: 0 <= i < |s| ==> IsDigit(s[i])
    ensures |s| > 1 ==> s[0] != '0'
    decreases n
  {
    if n < 10 then [DigitChar(n)] else NatToString(n / 10) + [DigitChar(n % 10)]
  }

  /** Go's `fmt.Sprintf("%d", x)`: a minus sign for negative values, then the digits. */
  function Dec(x: int): (s: string)
    ensures |s| > 0
    ensures s[0] == '-' <==> x < 0
    ensures forall i :: 0 <= i < |s| ==> IsDigit(s[i]) || (i == 0 && s[i] == '-')
  {
    if x < 0 then "-" + NatToString(-x) else NatToString(x)
  }

  /** The value of a nonempty string of digits. */
  function DigitsValue(s: string): nat
    requires |s| > 0 && forall i :: 0 <= i < |s| ==> IsDigit(s[i])
    decreases |s|
  {
    assert IsDigit(s[|s| - 1]);
    var last: nat := s[|s| - 1] as int - '0' as int;
    if |s| == 1 then last else DigitsValue(s[..|s| - 1]) * 10 + last
  }

  function ParseNat(s: string): Option<nat> {
    if |s| > 0 && forall i :: 0 <= i < |s| ==> IsDigit(s[i]) then Some(DigitsValue(s)) else None
  }

  /** Reads back a decimal integer with an optional leading minus sign. */
  function ParseDec(s: string): Option<int> {
    if |s| > 0 && s[0] == '-' then
      match ParseNat(s[1..])
      case Some(n) => Some(-(n as int))
      case None => None
    else
      ParseNat(s)
  }

  lemma {:induction false} NatRoundTrip(n: nat)
    ensures DigitsValue(NatToString(n)) == n
    decreases n
  {
    var s := NatToString(n);
    if n >= 10 {
      var p := NatToString(n / 10);
      NatRoundTrip(n / 10);
      assert s[..|s| - 1] == p;
    }
  }

  /** Rendering loses nothing: every integer is read back from its decimal text. */
  lemma DecRoundTrip(x: int)
    ensures ParseDec(Dec(x)) == Some(x)
  {
    if x < 0 {
      NatRoundTrip(-x);
      assert Dec(x)[1..] == NatToString(-x);
    } else {
      NatRoundTrip(x);
    }
  }

  /** Distinct integers render as distinct text. */
  lemma DecInjective(x: int, y: int)
    requires Dec(x) == Dec(y)
    ensures x == y
  {
    DecRoundTrip(x);
    DecRoundTrip(y);
  }
}
