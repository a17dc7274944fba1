/** Python's `round(x, 0)` followed by `int(...)`, on the exact value of the
    argument: the nearest integer, ties going to the even neighbour. */
module Rounding {

  /** The integer nearest to `x`; when `x` lies exactly half-way between two
      integers, the even one. */
  function RoundHalfEven(x: real): (r: int)
    ensures -0.5 <= x - r as real <= 0.5
    ensures x - r as real == 0.5 || x - r as real == -0.5 ==> r % 2 == 0
  {
    var f := x.Floor;
    var frac := x - f as real;
    if frac < 0.5 then f
    else if frac > 0.5 then f + 1
    else if f % 2 == 0 then f
    else f + 1
  }

  /** The two postconditions of RoundHalfEven pin its result down: any integer
      that is nearest to `x` and even on a tie is that result. */
  lemma RoundUnique(x: real, n: int)
    requires -0.5 <= x - n as real <= 0.5
    requires x - n as real == 0.5 || x - n as real == -0.5 ==> n % 2 == 0
    ensures n == RoundHalfEven(x)
  {
    // Two integers within one half of x are neighbours at distance exactly one
    // half each: a tie, where both would have to be even.
  }

  /** Rounding preserves order, so `w <= h` implies that the rounded width
      does not exceed the rounded height. */
  lemma RoundMonotone(x: real, y: real)
    requires x <= y
    ensures RoundHalfEven(x) <= RoundHalfEven(y)
  {
    var fx, fy := x.Floor, y.Floor;
    assert fx <= fy;
    if fx == fy {
      assert x - fx as real <= y - fy as real;
    } else {
      assert RoundHalfEven(x) <= fx + 1 <= fy <= RoundHalfEven(y);
    }
  }

  /** An argument that is already whole is returned unchanged. */
  lemma RoundWhole(n: int)
    ensures RoundHalfEven(n as real) == n
  {
    RoundUnique(n as real, n);
  }
}
