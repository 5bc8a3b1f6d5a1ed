/** C's `round` on quotients of integers: the nearest integer, halves away from zero. */
module Rounding {

  function Abs(x: int): nat {
    if x < 0 then -x else x
  }

  function Max(x: int, y: int): int {
    if x < y then y else x
  }

  /** `round(x / 2.0)`. */
  function RoundHalf(x: int): (r: int)
    ensures x % 2 == 0 ==> 2 * r == x
    ensures x % 2 == 1 ==> 2 * r == x + (if x > 0 then 1 else -1)
  {
    if x >= 0 then (x + 1) / 2 else -((1 - x) / 2)
  }

  /** `round(x / d)`: no integer is nearer, and of two equally near ones the one further from zero. */
  function RoundDiv(x: int, d: int): (r: int)
    requires d > 0
    ensures 2 * Abs(x - d * r) <= d
    ensures 2 * Abs(x - d * r) == d ==> Abs(d * r) >= Abs(x)
  {
    if x >= 0 then
      Division(2 * x + d, 2 * d);
      (2 * x + d) / (2 * d)
    else
      Division(d - 2 * x, 2 * d);
      -((d - 2 * x) / (2 * d))
  }

  lemma Division(x: int, d: int)
    requires d > 0
    ensures d * (x / d) <= x < d * (x / d) + d
  {
  }

  /** The two conditions of `RoundDiv` leave one integer. */
  lemma RoundDivUnique(x: int, d: int, r: int)
    requires d > 0
    requires 2 * Abs(x - d * r) <= d
    requires 2 * Abs(x - d * r) == d ==> Abs(d * r) >= Abs(x)
    ensures r == RoundDiv(x, d)
  {
    var q := RoundDiv(x, d);
    if r > q {
      BothNearest(x, d, q, r);
    } else if r < q {
      BothNearest(x, d, r, q);
    }
  }

  /** Two different nearest integers: a tie, and one of the two is nearer to zero than the quotient. */
  lemma BothNearest(x: int, d: int, low: int, high: int)
    requires d > 0 && low < high
    requires 2 * Abs(x - d * low) <= d && 2 * Abs(x - d * high) <= d
    ensures 2 * (x - d * low) == d == 2 * (d * high - x)
    ensures Abs(d * low) < Abs(x) || Abs(d * high) < Abs(x)
  {
    MulAtLeast(high - low, d);
    assert d * high - d * low == (high - low) * d;
    if low < 0 {
      MulAtLeast(-low, d);
      assert (-low) * d == -(d * low);
    } else {
      assert d * low >= 0;
    }
  }

  lemma MulAtLeast(x: int, d: int)
    requires x >= 1 && d > 0
    ensures x * d >= d
  {
  }
}
