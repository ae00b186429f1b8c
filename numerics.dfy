/** The .NET numeric conversions the Mellat helper relies on: the explicit
    `(long)` cast of a `decimal` and the decimal rendering of a `long` that
    string interpolation performs. */
module Numerics {
  import opened Wrappers

  /** The range of a C# `long` (System.Int64). */
  predicate InLongRange(x: int) {
    -0x8000_0000_0000_0000 <= x <= 0x7FFF_FFFF_FFFF_FFFF
  }

  type Long = x: int | InLongRange(x)

  /** Drops the fractional part, rounding toward zero. */
  function Truncate(x: real): (t: int)
    ensures 0.0 <= x ==> 0 <= t && t as real <= x < t as real + 1.0
    ensures x < 0.0 ==> t <= 0 && t as real - 1.0 < x <= t as real
  {
    if x >= 0.0 then x.Floor else -((-x).Floor)
  }

  /** The explicit `(long)` conversion of a `decimal`: truncation toward zero,
      and `None` where .NET throws an OverflowException. */
  function DecimalToLong(x: real): (r: Option<Long>)
    ensures r.Some? <==> InLongRange(Truncate(x))
    ensures r.Some? ==> r.value == Truncate(x)
  {
    var t := Truncate(x);
    if InLongRange(t) then Some(t) else None
  }

  function DigitChar(d: nat): (c: char)
    requires d < 10
    ensures '0' <= c <= '9'
  {
    ('0' as int + d) as char
  }

  /** The decimal numeral of `n` without leading zeros. */
  function NatToString(n: nat): (s: string)
    ensures |s| >= 1
    ensures forall k :: 0 <= k < |s| ==> '0' <= s[k] <= '9'
    ensures |s| > 1 ==> s[0] != '0'
    decreases n
  {
    if n < 10 then [DigitChar(n)] else NatToString(n / 10) + [DigitChar(n % 10)]
  }

  /** `n.ToString()` as interpolation renders an integer: an optional minus
      sign followed by the digits. */
  function LongToString(n: int): (s: string)
    ensures |s| >= 1
    ensures s[0] == '-' <==> n < 0
    ensures n >= 0 ==> '0' <= s[0] <= '9'
    ensures n < 0 ==> |s| >= 2
    ensures forall k :: 0 < k < |s| ==> '0' <= s[k] <= '9'
    ensures n > 0 ==> s[0] != '0'
    ensures n >= 0 && |s| > 1 ==> s[0] != '0'
    ensures n < 0 ==> s[1] != '0'
  {
    if n < 0 then "-" + NatToString(-n) else NatToString(n)
  }

  /** Reads a string of decimal digits back as a number (the reference reading
      of a numeral, independent of how it was produced). */
  function ParseNat(s: string): nat
    decreases |s|
  {
    if |s| == 0 then 0
    else 10 * ParseNat(s[..|s| - 1]) + (if '0' <= s[|s| - 1] <= '9' then s[|s| - 1] as int - '0' as int else 0)
  }

  function ParseInteger(s: string): int {
    if |s| > 0 && s[0] == '-' then -(ParseNat(s[1..]) as int) else ParseNat(s)
  }

  lemma {:induction false} ParseNatToString(n: nat)
    ensures ParseNat(NatToString(n)) == n
    decreases n
  {
    if n >= 10 {
      var prefix := NatToString(n / 10);
      var s := prefix + [DigitChar(n % 10)];
      ParseNatToString(n / 10);
      assert s[..|s| - 1] == prefix;
    }
  }

  /** Reading the rendering of an integer gives back that integer, so two
      different integers never render the same way. */
  lemma LongToStringRoundTrip(n: int)
    ensures ParseInteger(LongToString(n)) == n
  {
    if n < 0 {
      ParseNatToString(-n);
      assert ("-" + NatToString(-n))[1..] == NatToString(-n);
    } else {
      ParseNatToString(n);
    }
  }

  lemma LongToStringInjective(a: int, b: int)
    requires LongToString(a) == LongToString(b)
    ensures a == b
  {
    LongToStringRoundTrip(a);
    LongToStringRoundTrip(b);
  }
}
