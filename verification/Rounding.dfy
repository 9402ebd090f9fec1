/** Rounding a rational `n / d` to an integer: Python's `round` and SQL's `ROUND`. */
module Rounding {
  /** Nearest integer, ties to the even one. */
  function RoundHalfEven(n: int, d: int): int
    requires d > 0
  {
    var q, r := n / d, n % d;
    if 2 * r < d || (2 * r == d && q % 2 == 0) then q else q + 1
  }

  /** Nearest integer, ties away from zero. */
  function RoundHalfAway(n: int, d: int): int
    requires d > 0
  {
    if n >= 0 then RoundUpHalf(n, d) else -RoundUpHalf(-n, d)
  }

  function RoundUpHalf(n: int, d: int): int
    requires d > 0
  {
    if 2 * (n % d) < d then n / d else n / d + 1
  }

  lemma DivMod(n: int, d: int)
    requires d > 0
    ensures n == (n / d) * d + n % d && 0 <= n % d < d
  {
  }

  lemma MulMonotone(x: int, y: int, d: int)
    requires x <= y && d >= 0
    ensures x * d <= y * d
  {
  }

  lemma Unique(q: int, r: int, d: int)
    requires d > 0 && 0 <= r < d
    ensures (q * d + r) / d == q && (q * d + r) % d == r
  {
    var n := q * d + r;
    DivMod(n, d);
    var x := n / d - q;
    assert x * d == r - n % d;
    if x > 0 {
      MulMonotone(1, x, d);
    } else if x < 0 {
      MulMonotone(x, -1, d);
    }
  }

  /** The result is within one half of the quotient. */
  lemma HalfEvenIsNearest(n: int, d: int)
    requires d > 0
    ensures -d <= 2 * (RoundHalfEven(n, d) * d - n) <= d
  {
  }

  /** A tie goes to the even one. */
  lemma HalfEvenTies(q: int, d: int)
    requires d > 0 && d % 2 == 0
    ensures RoundHalfEven(q * d + d / 2, d) % 2 == 0
  {
    Unique(q, d / 2, d);
  }
}
