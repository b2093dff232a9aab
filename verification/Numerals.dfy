/** Machine integers, and decimal numerals as `strconv` and `math/big` write them. */
module Numerals {

  const MaxInt: int := 0x7fff_ffff_ffff_ffff
  const MinInt: int := -0x8000_0000_0000_0000

  type Int64 = x: int | -0x8000_0000_0000_0000 <= x <= 0x7fff_ffff_ffff_ffff

  /** Two's-complement wrap-around of a 64-bit integer operation. */
  function Wrap(x: int): Int64 {
    (x + 0x8000_0000_0000_0000) % 0x1_0000_0000_0000_0000 - 0x8000_0000_0000_0000
  }

  /** The result differs by a multiple of 2^64; its type leaves no other choice. */
  lemma WrapMeans(x: int, r: Int64)
    ensures r == Wrap(x) <==> exists k: int :: r == x + Turns(k)
  {
    var y := x + 0x8000_0000_0000_0000;
    assert Wrap(x) == x + Turns(-(y / 0x1_0000_0000_0000_0000));
  }

  function Turns(k: int): int { k * 0x1_0000_0000_0000_0000 }

  lemma WrapInRange(x: int)
    requires MinInt <= x <= MaxInt
    ensures Wrap(x) == x
  {
  }

  /** The sum of two non-negative integers that is too large becomes negative. */
  lemma WrapOver(x: int)
    requires MaxInt < x <= MaxInt + MaxInt
    ensures Wrap(x) < 0
  {
  }

  /** The sums the overflow-checked additions accept. */
  predicate InRange(x: int) { MinInt <= x <= MaxInt }

  function DigitChar(d: nat): char
    requires d < 16
  {
    if d < 10 then '0' + d as char else 'a' + (d - 10) as char
  }

  /** The decimal form of a natural number. */
  function Decimal(n: nat): (s: string)
    ensures |s| > 0
  {
    if n < 10 then [DigitChar(n)] else Decimal(n / 10) + [DigitChar(n % 10)]
  }

  lemma {:induction false} DecimalInjective(a: nat, b: nat)
    requires Decimal(a) == Decimal(b)
    ensures a == b
    decreases a
  {
    var s, t := Decimal(a), Decimal(b);
    assert s[|s| - 1] == t[|t| - 1];
    assert a % 10 == b % 10;
    if a >= 10 && b >= 10 {
      assert s[..|s| - 1] == Decimal(a / 10) && t[..|t| - 1] == Decimal(b / 10);
      DecimalInjective(a / 10, b / 10);
    }
  }
}
