/**
 * IEEE 754-2008 binary128 values as the runtime stores them: two 64-bit halves with the
 * sign, the 15-bit biased exponent and the 112-bit fraction.
 *
 * Magnitudes are compared as integers: `Magnitude(f)` is |f| times 2^SCALE, which is an
 * integer for every normal number.
 */
module Float128 {
  import opened Shifts
  import opened Words

  const BIAS: int := 16383
  const EXP_MASK: int := 0x7FFF
  /** |f| * 2^SCALE == Sig(f) * 2^Exp(f) for normal f; SCALE is the bias plus the fraction width. */
  const SCALE: int := 16495

  datatype F128 = F128(lo: U64, hi: U64)

  function Sign(f: F128): (s: nat)
    ensures s <= 1
  {
    f.hi / TWO_63
  }

  function Exp(f: F128): (e: nat)
    ensures e <= EXP_MASK
  {
    f.hi / TWO_48 % TWO_15
  }

  function ManHi(f: F128): (m: nat)
    ensures m < TWO_48
  {
    f.hi % TWO_48
  }

  predicate IsNaN(f: F128) { Exp(f) == EXP_MASK && (ManHi(f) != 0 || f.lo != 0) }

  predicate IsInf(f: F128) { Exp(f) == EXP_MASK && ManHi(f) == 0 && f.lo == 0 }

  predicate IsZero(f: F128) { f.hi % TWO_63 == 0 && f.lo == 0 }

  predicate Normal(f: F128) { 1 <= Exp(f) < EXP_MASK }

  /** The 113-bit significand, with the implicit bit the arithmetic always sets. */
  function Sig(f: F128): (m: nat)
    ensures IsSig(m)
  {
    TWO_112 + ManHi(f) * TWO_64 + f.lo
  }

  predicate IsSig(m: int) { TWO_112 <= m < TWO_113 }

  ghost function Magnitude(f: F128): nat
    requires Normal(f)
  {
    Shl(Sig(f), Exp(f))
  }

  /** The disjoint bit fields are or-ed together, which is a sum. */
  function Pack(sign: int, exp: int, mhi: U64, mlo: U64): F128 {
    F128(mlo, sign % 2 * TWO_63 + exp % TWO_15 * TWO_48 + mhi % TWO_48)
  }

  /** Packing keeps the sign, the exponent and the low 112 bits, and nothing else matters. */
  lemma PackFields(sign: int, exp: int, mhi: U64, mlo: U64)
    ensures var f := Pack(sign, exp, mhi, mlo);
            && Sign(f) == sign % 2
            && Exp(f) == exp % TWO_15
            && ManHi(f) == mhi % TWO_48
            && f.lo == mlo
  {
  }

  /** Testing the three fields for zero is testing the word pair without its sign bit. */
  lemma ZeroByFields(f: F128)
    ensures IsZero(f) <==> Exp(f) == 0 && ManHi(f) == 0 && f.lo == 0
  {
    assert f.hi == f.hi / TWO_48 * TWO_48 + ManHi(f);
    assert f.hi / TWO_48 == f.hi / TWO_48 / TWO_15 * TWO_15 + Exp(f);
  }

  /** Two encodings with the same three fields are the same word pair. */
  lemma FieldsDetermine(f: F128, g: F128)
    requires Sign(f) == Sign(g) && Exp(f) == Exp(g) && Sig(f) == Sig(g)
    ensures f == g
  {
    assert ManHi(f) == ManHi(g) && f.lo == g.lo;
    assert f.hi == f.hi / TWO_48 * TWO_48 + ManHi(f);
    assert f.hi / TWO_48 / TWO_15 == Sign(f);
  }

  /** Significand split into 64-bit halves and packed. */
  function PackSig(sign: int, exp: int, sig: U128): F128 {
    Pack(sign, exp, sig / TWO_64, sig % TWO_64)
  }

  lemma PackSigNormal(sign: int, exp: int, sig: U128)
    requires 0 <= sign <= 1 && 1 <= exp < EXP_MASK && IsSig(sig)
    ensures var f := PackSig(sign, exp, sig);
            Normal(f) && Sign(f) == sign && Exp(f) == exp && Sig(f) == sig
  {
    PackFields(sign, exp, sig / TWO_64, sig % TWO_64);
  }

  /** The powers of two that delimit a 113-bit significand inside a 128-bit word. */
  lemma SigPowers()
    ensures Shl(1, 112) == TWO_112
    ensures Shl(1, 113) == TWO_113
    ensures Shl(1, 114) == 2 * TWO_113
    ensures Shl(1, 127) == TWO_127
    ensures Shl(1, 128) == TWO_128
  {
    WordPowers();
    ShlScaled(TWO_64, 64, 32);
    ShlScaled(0x1_0000, 16, 96);
    ShlScaled(TWO_64, 64, 64);
  }

  // ---- normalisation ------------------------------------------------------------------

  /** Number of significant bits. */
  function BitLen(x: nat): (n: nat)
    ensures x == 0 <==> n == 0
  {
    if x == 0 then 0 else 1 + BitLen(x / 2)
  }

  lemma {:induction false} BitLenBounds(x: nat)
    requires x > 0
    ensures Shl(1, BitLen(x) - 1) <= x < Shl(1, BitLen(x))
  {
    if x > 1 {
      BitLenBounds(x / 2);
    }
  }

  lemma BitLenBetween(x: nat, lo: nat, hi: nat)
    requires Shl(1, lo) <= x < Shl(1, hi)
    ensures lo < BitLen(x) <= hi
  {
    BitLenBounds(x);
    PowerLess(lo, BitLen(x));
    PowerLess(BitLen(x) - 1, hi);
  }

  /** Counting bits by shifting right until nothing is left. */
  method CountBits(x: U64) returns (n: nat)
    ensures n == BitLen(x)
  {
    n := 0;
    var t: U64 := x;
    while t != 0
      invariant n + BitLen(t) == BitLen(x)
    {
      t := t / 2;
      n := n + 1;
    }
  }

  /** Shifting left until bit 127 is set. */
  method LeftJustify(x: U128) returns (s: U128, n: nat)
    requires x > 0
    ensures n == BitLen(x) <= 128 && s == Shl(x, 128 - n)
  {
    JustifiedFits(x);
    n := 128;
    s := x;
    while s / TWO_127 == 0
      invariant BitLen(x) <= n <= 128 && s == Shl(x, 128 - n) > 0
      decreases n
    {
      JustifiedOnlyAtTop(x, n);
      s := s * 2;
      n := n - 1;
    }
    JustifiedOnlyAtTop(x, n);
  }

  /** The word of `x` shifted so that bit `BitLen(x) - 1` lands on bit 127. */
  lemma JustifiedFits(x: U128)
    requires x > 0
    ensures BitLen(x) <= 128
    ensures TWO_127 <= Shl(x, 128 - BitLen(x)) < TWO_128
  {
    SigPowers();
    assert Shl(1, 0) == 1;
    BitLenBetween(x, 0, 128);
    BitLenBounds(x);
    var k := 128 - BitLen(x);
    ShlOrder(Shl(1, BitLen(x) - 1), x, k);
    ShlOrder(x, Shl(1, BitLen(x)), k);
    ShlShl(1, BitLen(x) - 1, k);
    ShlShl(1, BitLen(x), k);
  }

  lemma JustifiedOnlyAtTop(x: U128, n: nat)
    requires x > 0 && BitLen(x) <= n <= 128
    ensures n > BitLen(x) ==> Shl(x, 128 - n) < TWO_127
    ensures n == BitLen(x) ==> Shl(x, 128 - n) >= TWO_127
  {
    JustifiedFits(x);
    if n > BitLen(x) {
      ShlGrows(x, 128 - n, 128 - BitLen(x));
    }
  }

  /** Bits 127..15 of the justified word. */
  function TopSig(x: U128): (m: U128)
    requires x > 0
    ensures IsSig(m)
  {
    JustifiedFits(x);
    Shl(x, 128 - BitLen(x)) / TWO_15
  }

  /** They are `x` itself moved up, exactly, or the top of `x` when it is wider than 113 bits. */
  lemma TopSigShift(x: U128)
    requires x > 0
    ensures BitLen(x) <= 113 ==> TopSig(x) == Shl(x, 113 - BitLen(x))
    ensures BitLen(x) >= 113 ==> TopSig(x) == Shr(x, BitLen(x) - 113)
  {
    var n := BitLen(x);
    JustifiedFits(x);
    WordPowers();
    ShrIsDiv(Shl(x, 128 - n), 15, TWO_15);
    if n <= 113 {
      ShrOfExactShl(x, 15, 113 - n);
    } else {
      ShrOfShl(x, 128 - n, n - 113);
    }
  }

  // ---- rounding -----------------------------------------------------------------------

  /** `s` is `x / 2^k` rounded to the nearest integer, ties to even. */
  ghost predicate NearestEven(s: int, x: int, k: nat) {
    && 2 * Abs(x - Shl(s, k)) <= Shl(1, k)
    && (2 * Abs(x - Shl(s, k)) == Shl(1, k) ==> s % 2 == 0)
  }

  /** Drops `k` bits, rounding up on the guard bit unless an exact tie would leave an odd result. */
  function RoundedHalf(x: nat, k: nat): (r: nat)
    requires k > 0
    ensures NearestEven(r, x, k)
    ensures Shr(x, k) <= r <= Shr(x, k) + 1
  {
    var guard, sticky, kept := Shr(x, k - 1) % 2, Low(x, k - 1), Shr(x, k);
    GuardAndSticky(x, k);
    ShlAdd(kept, 1, k);
    if guard == 1 && (sticky != 0 || kept % 2 == 1) then kept + 1 else kept
  }

  lemma GuardAndSticky(x: nat, k: nat)
    requires k > 0
    ensures x == Shl(Shr(x, k), k) + (if Shr(x, k - 1) % 2 == 1 then Shl(1, k - 1) else 0) + Low(x, k - 1)
  {
    var h := Shr(x, k - 1);
    var q := h / 2;
    assert Shr(h, 1) == q;
    hide Shl, Shr;
    ShrShr(x, k - 1, 1);
    ShlTwice(q, k - 1);
    if h % 2 == 1 {
      ShlAdd(2 * q, 1, k - 1);
    }
  }

  /**
   * Rounds a significand carrying `extraBits` guard bits below its 113 bits to nearest,
   * ties to even, renormalises on carry-out, and packs.
   */
  function RoundPack(sign: int, exp: int, sig: U128, extraBits: int): F128 {
    if extraBits <= 0 then
      PackSig(sign, exp, sig)
    else
      var rounded := RoundedHalf(sig, extraBits);
      var carried := rounded / TWO_113 != 0;
      var finalSig := if carried then rounded / 2 else rounded;
      PackSig(sign, if finalSig == 0 then 0 else if carried then exp + 1 else exp, finalSig)
  }

  /** The rounding of `RoundPack` is IEEE 754-2008 roundTiesToEven on the significand. */
  lemma RoundPackNearest(sign: int, exp: int, sig: U128, extraBits: nat)
    requires 0 <= sign <= 1 && 1 <= exp < EXP_MASK - 1
    requires extraBits >= 1 && IsSig(Shr(sig, extraBits))
    ensures var f := RoundPack(sign, exp, sig, extraBits);
            && Normal(f) && Sign(f) == sign
            && (Exp(f) == exp || (Exp(f) == exp + 1 && Sig(f) == TWO_112))
            && NearestEven(if Exp(f) == exp then Sig(f) else TWO_113, sig, extraBits)
  {
    var rounded := RoundedHalf(sig, extraBits);
    if rounded < TWO_113 {
      PackSigNormal(sign, exp, rounded);
    } else {
      PackSigNormal(sign, exp + 1, TWO_112);
    }
  }

  /**
   * `r` is the scaled magnitude `x` rounded toward zero to 113 bits
   * (IEEE 754-2008 section 4.3.2).
   */
  ghost predicate TowardZero(r: F128, x: int, scale: nat)
    requires Normal(r)
  {
    Shl(Sig(r), Exp(r) + scale) <= x < Shl(Sig(r) + 1, Exp(r) + scale)
  }

  /** Truncation leaves one normal magnitude per exact value. */
  lemma TowardZeroUnique(f: F128, g: F128, x: int, scale: nat)
    requires Normal(f) && Normal(g) && Sign(f) == Sign(g)
    requires TowardZero(f, x, scale) && TowardZero(g, x, scale)
    ensures f == g
  {
    hide Shl;
    if Exp(f) < Exp(g) {
      LowerBinade(Sig(f), Exp(f) + scale, Sig(g), Exp(g) + scale);
    } else if Exp(g) < Exp(f) {
      LowerBinade(Sig(g), Exp(g) + scale, Sig(f), Exp(f) + scale);
    }
    ShlOrder(Sig(f), Sig(g) + 1, Exp(f) + scale);
    ShlOrder(Sig(g), Sig(f) + 1, Exp(f) + scale);
    FieldsDetermine(f, g);
  }

  /** A smaller exponent puts a 113-bit significand, and its successor, below any larger exponent. */
  lemma LowerBinade(m: nat, e: nat, m': nat, e': nat)
    requires m < TWO_113 && TWO_112 <= m' && e < e'
    ensures Shl(m, e) < Shl(m + 1, e) <= Shl(m', e')
  {
    ShlOrder(m, m + 1, e);
    ShlOrder(m + 1, Shl(m', 1), e);
    ShlShl(m', 1, e);
    if e + 1 < e' {
      ShlGrows(m', e + 1, e');
    }
  }
}
