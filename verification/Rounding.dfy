/** Python's `round` on exact reals: roundTiesToEven, section 4.3.1 of IEEE 754-2019. */
module Rounding {

  /** `round(x)`: the nearest integer, and the even one of the two when x is halfway. */
  function RoundHalfEven(x: real): (n: int)
    ensures -0.5 <= n as real - x <= 0.5
    ensures n as real - x == 0.5 || n as real - x == -0.5 ==> n % 2 == 0
  {
    var down := x.Floor;
    var rest := x - down as real;
    if rest < 0.5 then down
    else if rest > 0.5 then down + 1
    else if down % 2 == 0 then down
    else down + 1
  }

  /** `round(x, 2)`. */
  function RoundCents(x: real): real {
    RoundHalfEven(100.0 * x) as real / 100.0
  }

  /** The contract of RoundHalfEven leaves exactly one answer. */
  lemma RoundIsUnique(x: real, n: int)
    requires -0.5 <= n as real - x <= 0.5
    requires n as real - x == 0.5 || n as real - x == -0.5 ==> n % 2 == 0
    ensures n == RoundHalfEven(x)
  {
    var m := RoundHalfEven(x);
    assert -1.0 <= (n - m) as real <= 1.0;
    assert -1 <= n - m <= 1;
  }

  lemma RoundIsMonotone(x: real, y: real)
    requires x <= y
    ensures RoundHalfEven(x) <= RoundHalfEven(y)
  {
    var m, n := RoundHalfEven(x), RoundHalfEven(y);
    assert m > n ==> (m - n) as real >= 1.0;
  }

  lemma RoundOfInteger(n: int)
    ensures RoundHalfEven(n as real) == n
  {
    RoundIsUnique(n as real, n);
  }

  /** Rounding never leaves an integer interval the argument lies in. */
  lemma RoundStaysBetween(lo: int, x: real, hi: int)
    requires lo as real <= x <= hi as real
    ensures lo <= RoundHalfEven(x) <= hi
  {
    RoundIsMonotone(lo as real, x);
    RoundIsMonotone(x, hi as real);
    RoundOfInteger(lo);
    RoundOfInteger(hi);
  }
}
