/** Nonlinear integer facts, each proved once. */
module Arithmetic {

  lemma FloorBounds(x: nat, d: nat)
    requires d > 0
    ensures 0 <= x / d
    ensures x / d * d <= x < x / d * d + d
  {
    assert x == x / d * d + x % d;
  }

  lemma MulOrder(a: int, b: int, c: int)
    requires a <= b && 0 <= c
    ensures a * c <= b * c
  {
    assert (b - a) * c >= 0;
  }

  /** A division equation with its dividend doubled: the next quotient digit is zero or one. */
  lemma NextDigit(x: nat, q: nat, d: nat, r: nat)
    requires x == q * d + r
    ensures 2 * x == 2 * q * d + 2 * r
    ensures 2 * x == (2 * q + 1) * d + (2 * r - d)
  {
  }

  /** A multiple of `d` strictly between `-d` and `d` is zero. */
  lemma SmallMultiple(k: int, d: int)
    requires -d < k * d < d
    ensures k == 0
  {
    if k >= 1 {
      MulOrder(1, k, d);
    }
    if k <= -1 {
      MulOrder(k, -1, d);
    }
  }

  /** Quotient and remainder are determined by the division equation. */
  lemma QuotientUnique(x: nat, d: nat, q: int, r: int)
    requires 0 <= r < d && x == q * d + r
    ensures x / d == q && x % d == r
  {
    assert x == x / d * d + x % d;
    assert (x / d - q) * d == r - x % d;
    SmallMultiple(x / d - q, d);
  }
}
