/**
 * Left and right shifts one place at a time. Stating binary scaling with these functions
 * instead of products and quotients keeps the arithmetic below linear.
 */
module Shifts {
  import opened Arithmetic

  /** x * 2^k */
  function Shl(x: int, k: nat): (r: int)
    ensures x >= 0 ==> r >= x
  {
    if k == 0 then x else 2 * Shl(x, k - 1)
  }

  /** floor(x / 2^k) */
  function Shr(x: nat, k: nat): (r: nat)
    ensures r <= x
    ensures k > 0 ==> 2 * r <= x
  {
    if k == 0 then x else Shr(x / 2, k - 1)
  }

  /** The bits a right shift by `k` drops. */
  function Low(x: nat, k: nat): (r: nat)
    ensures x == Shl(Shr(x, k), k) + r
    ensures r < Shl(1, k)
  {
    ShrBounds(x, k);
    x - Shl(Shr(x, k), k)
  }

  lemma {:induction false} ShlAdd(x: int, y: int, k: nat)
    ensures Shl(x + y, k) == Shl(x, k) + Shl(y, k)
  {
    if k > 0 {
      ShlAdd(x, y, k - 1);
    }
  }

  lemma {:induction false} ShlShl(x: int, j: nat, k: nat)
    ensures Shl(Shl(x, j), k) == Shl(x, j + k)
  {
    if k > 0 {
      ShlShl(x, j, k - 1);
    }
  }

  lemma {:induction false} ShlTwice(x: int, k: nat)
    ensures Shl(2 * x, k) == Shl(x, k + 1)
  {
    if k > 0 {
      ShlTwice(x, k - 1);
    }
  }

  lemma ShlStep(x: int, k: nat)
    ensures Shl(x, 0) == x && Shl(x, k + 1) == 2 * Shl(x, k)
  {
  }

  lemma {:induction false} ShlOrder(x: int, y: int, k: nat)
    ensures x < y <==> Shl(x, k) < Shl(y, k)
    ensures x <= y <==> Shl(x, k) <= Shl(y, k)
  {
    if k > 0 {
      ShlOrder(x, y, k - 1);
    }
  }

  /** A longer shift at least doubles. */
  lemma {:induction false} ShlGrows(x: nat, j: nat, k: nat)
    requires j < k
    ensures 2 * Shl(x, j) <= Shl(x, k)
  {
    if j + 1 < k {
      ShlGrows(x, j, k - 1);
    }
  }

  /** Powers of two are ordered by their exponents. */
  lemma PowerLess(j: nat, k: nat)
    requires Shl(1, j) < Shl(1, k)
    ensures j < k
  {
    if k < j {
      ShlGrows(1, k, j);
    }
  }

  lemma {:induction false} ShrBounds(x: nat, k: nat)
    ensures Shl(Shr(x, k), k) <= x < Shl(Shr(x, k) + 1, k)
    ensures Shl(Shr(x, k) + 1, k) == Shl(Shr(x, k), k) + Shl(1, k)
  {
    ShlAdd(Shr(x, k), 1, k);
    if k > 0 {
      ShrBounds(x / 2, k - 1);
    }
  }

  lemma ShrUnique(x: nat, q: nat, k: nat)
    requires Shl(q, k) <= x < Shl(q + 1, k)
    ensures Shr(x, k) == q
  {
    ShrBounds(x, k);
    ShlOrder(q, Shr(x, k) + 1, k);
    ShlOrder(Shr(x, k), q + 1, k);
  }

  lemma {:induction false} ShrShr(x: nat, j: nat, k: nat)
    ensures Shr(Shr(x, j), k) == Shr(x, j + k)
  {
    if j > 0 {
      ShrShr(x / 2, j - 1, k);
    }
  }

  /** Shifting up by `j` and then down by `j + k` is shifting down by `k`. */
  lemma ShrOfShl(x: nat, j: nat, k: nat)
    ensures Shr(Shl(x, j), j + k) == Shr(x, k)
  {
    ShrOfExactShl(x, j, 0);
    ShrShr(Shl(x, j), j, k);
  }

  /** Shifting down a value that was shifted up further is exact. */
  lemma {:induction false} ShrOfExactShl(x: nat, j: nat, k: nat)
    ensures Shr(Shl(x, j + k), j) == Shl(x, k)
  {
    if j > 0 {
      ShrOfExactShl(x, j - 1, k);
    }
  }

  /** The word sizes the runtime works with. */
  lemma WordPowers()
    ensures Shl(1, 8) == 0x100
    ensures Shl(1, 15) == 0x8000
    ensures Shl(1, 16) == 0x1_0000
    ensures Shl(1, 32) == 0x1_0000_0000
    ensures Shl(1, 64) == 0x1_0000_0000_0000_0000
  {
    assert Shl(1, 4) == 16 by { assert Shl(1, 2) == 4; }
    ShlScaled(16, 4, 4);
    ShlScaled(0x100, 8, 8);
    ShlScaled(0x1_0000, 16, 16);
    ShlScaled(0x1_0000_0000, 32, 32);
  }

  /** A constant multiple of a power of two. */
  lemma ShlScaled(c: nat, j: nat, k: nat)
    requires Shl(1, j) == c
    ensures Shl(1, j + k) == c * Shl(1, k)
  {
    ShlShl(1, j, k);
    ShlTimes(c, 1, k);
  }

  lemma {:induction false} ShlTimes(c: int, x: int, k: nat)
    ensures Shl(c * x, k) == c * Shl(x, k)
  {
    if k > 0 {
      ShlTimes(c, x, k - 1);
      Doubled(c, Shl(x, k - 1));
    }
  }

  lemma Doubled(c: int, y: int)
    ensures 2 * (c * y) == c * (2 * y)
  {
  }

  lemma {:induction false} ShlProduct(x: int, j: nat, y: int, k: nat)
    ensures Shl(x, j) * Shl(y, k) == Shl(x * y, j + k)
  {
    ShlTimes(Shl(x, j), y, k);
    ShlTimes(y, x, j);
    ShlShl(x * y, j, k);
    assert Shl(x, j) * y == y * Shl(x, j);
  }

  /** Scaling both sides of a truncation. */
  lemma ScaleBounds(x: nat, q: nat, k: nat, s: nat)
    requires Shl(q, k) <= x < Shl(q + 1, k)
    ensures Shl(q, k + s) <= Shl(x, s) < Shl(q + 1, k + s)
  {
    ShlOrder(Shl(q, k), x, s);
    ShlOrder(x, Shl(q + 1, k), s);
    ShlShl(q, k, s);
    ShlShl(q + 1, k, s);
  }

  /** A right shift is floor division by the power of two. */
  lemma ShrIsDiv(x: nat, k: nat, d: nat)
    requires d == Shl(1, k)
    ensures d > 0 && Shr(x, k) == x / d
  {
    FloorBounds(x, d);
    var q: nat := x / d;
    ShlTimes(q, 1, k);
    ShlAdd(q, 1, k);
    ShrUnique(x, q, k);
  }

}
