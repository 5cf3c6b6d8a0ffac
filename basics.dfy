/**
 * Small building blocks shared by the widget model: an optional value for
 * results that can be absent (a duration that does not parse), powers of two
 * for the alert-colour halving, and the fact that lets exact real arithmetic
 * stand in for the source's "compute in double, then truncate with a cast".
 */
module Basics {

  /** A value that may be missing. */
  datatype Option<+T> = None | Some(value: T)

  /** 2 raised to the power k. */
  function Pow2(k: nat): (p: nat)
    ensures p >= 1
  {
    if k == 0 then 1 else 2 * Pow2(k - 1)
  }

  /** Integer division is determined by any quotient and remainder in range. */
  lemma DivUnique(x: int, d: int, q: int, m: int)
    requires d > 0 && x == q * d + m && 0 <= m < d
    ensures x / d == q && x % d == m
  {
    var q', m' := x / d, x % d;
    assert (q - q') * d == m' - m;
    if q > q' {
      MulAtLeast(q - q', d);
    } else if q < q' {
      MulAtLeast(q' - q, d);
    }
  }

  lemma MulAtLeast(k: int, d: int)
    requires k >= 1 && d > 0
    ensures k * d >= d
  {
  }

  /** Halving a real quotient doubles its divisor. */
  lemma HalveQuotient(x: real, p: nat)
    requires p >= 1
    ensures (x / (p as real)) / 2.0 == x / ((2 * p) as real)
  {
  }

  /**
   * Truncating the exact quotient n / d of two naturals (what a cast of a
   * non-negative double to an integer does) gives integer division.
   */
  lemma FloorOfQuotient(n: int, d: int)
    requires n >= 0 && d > 0
    ensures ((n as real) / (d as real)).Floor == n / d
  {
    var q, m := n / d, n % d;
    assert n == q * d + m;
    assert (n as real) == (q as real) * (d as real) + (m as real);
    assert (n as real) / (d as real) == (q as real) + (m as real) / (d as real);
    assert 0.0 <= (m as real) / (d as real) < 1.0;
  }
}
