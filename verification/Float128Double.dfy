/** binary128 to and from IEEE 754 binary64, with doubles as their 64-bit encodings. */
module Float128Double {
  import opened Shifts
  import opened Words
  import opened Float128

  const TWO_52: int := 0x10_0000_0000_0000
  const TWO_53: int := 0x20_0000_0000_0000
  const TWO_60: int := 0x1000_0000_0000_0000
  const D_BIAS: int := 1023
  const D_EXP_MASK: int := 0x7FF
  const D_INF: int := D_EXP_MASK * TWO_52
  /** Places from the unit of a double's binade down to 2^-SCALE, less its biased exponent. */
  const UNIT_SHIFT: int := SCALE - D_BIAS - 52
  const D_NAN: int := 0x7FF8_0000_0000_0000

  /**
   * Magnitude of the double with sign-free encoding `c`, on the scale of `Magnitude`. The
   * encoding of infinity stands for 2^1024, which is where rounding overflows to.
   */
  ghost function DoubleMagnitude(c: nat): nat {
    var e, m := c / TWO_52, c % TWO_52;
    var top, unit := if e == 0 then 0 else TWO_52, if e == 0 then 1 else e;
    Shl(top + m, unit + UNIT_SHIFT)
  }

  /** `c` is the double nearest to `x`, ties to the even encoding (IEEE 754-2008 section 4.3.1). */
  ghost predicate NearestDouble(x: nat, c: nat) {
    && c <= D_INF
    && forall d: nat {:trigger DoubleMagnitude(d)} | d <= D_INF && d != c ::
         var dc, dd := Abs(x - DoubleMagnitude(c)), Abs(x - DoubleMagnitude(d));
         dc <= dd && (dc == dd ==> c % 2 == 0)
  }

  function Signed(sign: nat, c: nat): U64
    requires sign <= 1 && c < TWO_63
  {
    sign * TWO_63 + c
  }

  function ToF64(f: F128): U64 {
    var sign := Sign(f);
    if IsNaN(f) then D_NAN
    else if Exp(f) == EXP_MASK then Signed(sign, D_INF + ManHi(f) / TWO_60)
    else if IsZero(f) then Signed(sign, 0)
    else
      var e64 := Exp(f) - BIAS + D_BIAS;
      if e64 >= D_EXP_MASK then Signed(sign, D_INF)
      else if e64 <= 0 then Signed(sign, Underflowed(Sig(f), 113 - 53 + (1 - e64)))
      else Signed(sign, RoundedDouble(e64, Sig(f)))
  }

  /** The underflow arm shifts by `shift` and then by a further 60 places. */
  function Underflowed(sig: nat, shift: nat): (m: nat)
    requires shift >= 61 && sig < TWO_113
    ensures m == 0
  {
    UnderflowsToZero(sig, shift);
    if shift >= 128 then 0 else Shr(Shr(sig, shift), 60)
  }

  lemma UnderflowsToZero(sig: nat, shift: nat)
    requires shift >= 61 && sig < TWO_113
    ensures Shr(Shr(sig, shift), 60) == 0
  {
    SigPowers();
    ShrShr(sig, shift, 60);
    ShlGrows(1, 113, shift + 60);
    ShlTimes(0, 0, shift + 60);
    ShrUnique(sig, 0, shift + 60);
  }

  /** 53 significand bits with guard and sticky; a carry moves into the exponent field. */
  function RoundedDouble(e64: nat, sig: nat): (c: nat)
    requires 1 <= e64 < D_EXP_MASK && TWO_112 <= sig < TWO_113
    ensures c == (e64 - 1) * TWO_52 + RoundedHalf(sig, 60) <= D_INF
  {
    SigBits(sig);
    var mant := RoundedHalf(sig, 60);
    if mant / TWO_53 != 0 then (e64 + 1) * TWO_52 + mant / 2 % TWO_52
    else e64 * TWO_52 + mant % TWO_52
  }

  function FromF64(bits: U64): F128 {
    var sign, e, m := bits / TWO_63, bits / TWO_52 % 0x800, bits % TWO_52;
    if e == D_EXP_MASK then Pack(sign, EXP_MASK, if m != 0 then 1 else 0, m)
    else if e == 0 && m == 0 then Pack(sign, 0, 0, 0)
    else PackSig(sign, e - D_BIAS + BIAS, TWO_112 + m * TWO_60)
  }

  lemma SigBits(sig: nat)
    requires IsSig(sig)
    ensures TWO_52 <= RoundedHalf(sig, 60) <= TWO_53
    ensures RoundedHalf(sig, 60) == TWO_52 ==> sig >= Shl(TWO_52, 60)
  {
    WordPowers();
    assert Shl(1, 60) == TWO_60 by { ShlScaled(16, 4, 60); }
    ShrIsDiv(sig, 60, TWO_60);
    ShlTimes(TWO_52, 1, 60);
  }

  // ---- the grid of doubles ------------------------------------------------------------

  lemma Placed(e: nat, r: nat)
    requires e >= 1 && TWO_52 <= r < TWO_53
    ensures DoubleMagnitude((e - 1) * TWO_52 + r) == Shl(r, e + UNIT_SHIFT)
  {
    var c := (e - 1) * TWO_52 + r;
    assert c / TWO_52 == e && c % TWO_52 == r - TWO_52;
  }

  lemma PlacedSubnormal(r: nat)
    requires r < TWO_52
    ensures DoubleMagnitude(r) == Shl(r, 1 + UNIT_SHIFT)
  {
  }

  /** Around the encoding `(e - 1) * 2^52 + r` the grid is `r` times the unit of binade `e`. */
  lemma GridAround(e: nat, r: nat)
    requires e >= 1 && TWO_52 <= r <= TWO_53
    ensures var c := (e - 1) * TWO_52 + r;
            && DoubleMagnitude(c) == Shl(r, e + UNIT_SHIFT)
            && DoubleMagnitude(c + 1) >= Shl(r + 1, e + UNIT_SHIFT)
            && (r > TWO_52 ==> DoubleMagnitude(c - 1) == Shl(r - 1, e + UNIT_SHIFT))
  {
    hide DoubleMagnitude, Shl;
    if r < TWO_53 {
      Placed(e, r);
    }
    if r + 1 < TWO_53 {
      Placed(e, r + 1);
    }
    if r > TWO_52 {
      Placed(e, r - 1);
    }
    if r + 1 >= TWO_53 {
      Placed(e + 1, TWO_52);
      ShlTwice(TWO_52, e + UNIT_SHIFT);
      Placed(e + 1, TWO_52 + 1);
      ShlTwice(TWO_52 + 1, e + UNIT_SHIFT);
      ShlOrder(TWO_53 + 1, TWO_53 + 2, e + UNIT_SHIFT);
    }
  }

  lemma GridStep(c: nat)
    ensures DoubleMagnitude(c) < DoubleMagnitude(c + 1)
  {
    var e, m := c / TWO_52, c % TWO_52;
    assert c == e * TWO_52 + m;
    hide DoubleMagnitude, Shl;
    if e >= 1 {
      GridAround(e, TWO_52 + m);
      ShlOrder(TWO_52 + m, TWO_52 + m + 1, e + UNIT_SHIFT);
    } else {
      PlacedSubnormal(m);
      if m + 1 < TWO_52 { PlacedSubnormal(m + 1); } else { Placed(1, TWO_52); }
      ShlOrder(m, m + 1, 1 + UNIT_SHIFT);
    }
  }

  lemma {:induction false} GridOrder(c: nat, d: nat)
    requires c < d
    ensures DoubleMagnitude(c) < DoubleMagnitude(d)
  {
    hide DoubleMagnitude;
    GridStep(d - 1);
    if c < d - 1 {
      GridOrder(c, d - 1);
    }
  }

  /** Beating both neighbours is beating every double. */
  lemma NeighboursSuffice(x: nat, c: nat)
    requires c <= D_INF
    requires c > 0 ==>
               var mid := DoubleMagnitude(c - 1) + DoubleMagnitude(c);
               2 * x >= mid && (2 * x == mid ==> c % 2 == 0)
    requires c < D_INF ==>
               var mid := DoubleMagnitude(c) + DoubleMagnitude(c + 1);
               2 * x <= mid && (2 * x == mid ==> c % 2 == 0)
    ensures NearestDouble(x, c)
  {
    hide DoubleMagnitude;
    forall d: nat {:trigger DoubleMagnitude(d)} | d <= D_INF && d != c
      ensures var dc, dd := Abs(x - DoubleMagnitude(c)), Abs(x - DoubleMagnitude(d));
              dc <= dd && (dc == dd ==> c % 2 == 0)
    {
      if d < c {
        GridOrder(d, c);
        if d < c - 1 { GridOrder(d, c - 1); }
      } else {
        GridOrder(c, d);
        if c + 1 < d { GridOrder(c + 1, d); }
      }
    }
  }

  // ---- rounding -----------------------------------------------------------------------

  /** Rounding of the significand is rounding of the value, on the unit `2^(e + 60)`. */
  lemma ScaledRounding(sig: nat, r: nat, e: nat)
    requires NearestEven(r, sig, 60) && r > 0
    ensures var x, u := Shl(sig, e), e + 60;
            && Shl(r, u) + Shl(r - 1, u) <= 2 * x <= Shl(r, u) + Shl(r + 1, u)
            && (2 * x == Shl(r, u) + Shl(r + 1, u) || 2 * x == Shl(r, u) + Shl(r - 1, u) ==> r % 2 == 0)
            && (sig >= Shl(r, 60) ==> x >= Shl(r, u))
  {
    hide Shl;
    var mid, half := Shl(r, 60), Shl(1, 60);
    ShlShl(r, 60, e);
    ShlAdd(r, 1, 60);
    ShlAdd(r - 1, 1, 60);
    ShlShl(r + 1, 60, e);
    ShlShl(r - 1, 60, e);
    ShlAdd(mid, mid + half, e);
    ShlAdd(mid, mid - half, e);
    ShlAdd(sig, sig, e);
    ShlOrder(2 * sig, mid + (mid + half), e);
    ShlOrder(mid + (mid - half), 2 * sig, e);
    ShlOrder(mid + (mid + half), 2 * sig, e);
    ShlOrder(2 * sig, mid + (mid - half), e);
    ShlOrder(mid, sig, e);
  }

  lemma EvenEncoding(e: nat, r: nat)
    requires e >= 1
    ensures ((e - 1) * TWO_52 + r) % 2 == r % 2
  {
    assert (e - 1) * TWO_52 == 2 * ((e - 1) * (TWO_52 / 2));
  }

  /** Half a unit around `r` units of binade `e`, with ties to even, is the rounding interval. */
  lemma NearestInBinade(x: nat, e: nat, r: nat)
    requires 1 <= e < D_EXP_MASK && TWO_52 <= r <= TWO_53
    requires var u := e + UNIT_SHIFT;
             && Shl(r, u) + Shl(r - 1, u) <= 2 * x <= Shl(r, u) + Shl(r + 1, u)
             && (2 * x == Shl(r, u) + Shl(r + 1, u) || 2 * x == Shl(r, u) + Shl(r - 1, u) ==> r % 2 == 0)
             && (r == TWO_52 ==> x >= Shl(r, u))
    ensures NearestDouble(x, (e - 1) * TWO_52 + r)
  {
    hide DoubleMagnitude, Shl, NearestDouble;
    var c := (e - 1) * TWO_52 + r;
    GridAround(e, r);
    if r == TWO_52 {
      GridStep(c - 1);
    }
    EvenEncoding(e, r);
    NeighboursSuffice(x, c);
  }

  lemma NormalRangeNearest(f: F128)
    requires Normal(f) && 1 <= Exp(f) - BIAS + D_BIAS < D_EXP_MASK
    ensures NearestDouble(Magnitude(f), RoundedDouble(Exp(f) - BIAS + D_BIAS, Sig(f)))
  {
    hide Shl, NearestDouble, RoundedHalf, NearestEven, Sig, Exp;
    SigBits(Sig(f));
    ScaledRounding(Sig(f), RoundedHalf(Sig(f), 60), Exp(f));
    NearestInBinade(Magnitude(f), Exp(f) - BIAS + D_BIAS, RoundedHalf(Sig(f), 60));
  }

  lemma OverflowNearest(f: F128)
    requires Normal(f) && Exp(f) - BIAS + D_BIAS >= D_EXP_MASK
    ensures NearestDouble(Magnitude(f), D_INF)
  {
    var top := D_EXP_MASK + UNIT_SHIFT - 60;
    assert D_INF == (D_EXP_MASK - 1) * TWO_52 + TWO_52;
    hide Shl, NearestDouble, DoubleMagnitude, Sig, Exp, RoundedHalf;
    Placed(D_EXP_MASK, TWO_52);
    ShlShl(TWO_52, 60, top);
    SixtyPlaces();
    OverflowBound(Sig(f), Exp(f), top);
    GridStep(D_INF - 1);
    NeighboursSuffice(Magnitude(f), D_INF);
  }

  lemma OverflowBound(m: nat, e: nat, top: nat)
    requires IsSig(m) && top <= e
    ensures Shl(TWO_112, top) <= Shl(m, e)
  {
    hide Shl;
    if top < e {
      LowerBinade(TWO_112, top, m, e);
    } else {
      ShlOrder(TWO_112, m, top);
    }
  }

  lemma SixtyPlaces()
    ensures Shl(TWO_52, 60) == TWO_112
  {
    WordPowers();
    assert Shl(1, 60) == TWO_60 by { ShlScaled(16, 4, 60); }
    ShlTimes(TWO_52, 1, 60);
  }

  /** Zero is nearest exactly up to half the smallest subnormal, 2^-1075. */
  lemma UnderflowNearest(f: F128)
    requires Normal(f) && Exp(f) - BIAS + D_BIAS <= 0
    ensures NearestDouble(Magnitude(f), 0) <==>
            Exp(f) - BIAS < -1075 || (Exp(f) - BIAS == -1075 && Sig(f) == TWO_112)
  {
    hide Shl, DoubleMagnitude, Sig, Exp;
    var x, half := Magnitude(f), UNIT_SHIFT;
    PlacedSubnormal(0);
    PlacedSubnormal(1);
    ShlTimes(0, 0, 1 + half);
    ShlStep(1, half);
    LeastOfBinade(Sig(f), Exp(f), half - 112);
    SigPowers();
    ShlShl(1, 112, half - 112);
    if x <= Shl(1, half) {
      NeighboursSuffice(x, 0);
    } else {
      assert !(Abs(x - DoubleMagnitude(0)) <= Abs(x - DoubleMagnitude(1)));
    }
  }

  lemma LeastOfBinade(m: nat, e: nat, h: nat)
    requires IsSig(m)
    ensures Shl(m, e) <= Shl(TWO_112, h) <==> e < h || (e == h && m == TWO_112)
  {
    hide Shl;
    if e < h {
      LowerBinade(m, e, TWO_112, h);
    } else if e > h {
      LowerBinade(TWO_112, h, m, e);
    } else {
      ShlOrder(m, TWO_112, e);
    }
  }

  /**
   * Conversion to double keeps the sign and is correctly rounded to nearest, ties to even,
   * exactly when the target is not subnormal or the correct result is zero.
   */
  lemma ToF64Nearest(f: F128)
    requires Normal(f)
    ensures ToF64(f) / TWO_63 == Sign(f)
    ensures NearestDouble(Magnitude(f), ToF64(f) % TWO_63) <==>
            || Exp(f) - BIAS >= -1022
            || Exp(f) - BIAS < -1075
            || (Exp(f) - BIAS == -1075 && Sig(f) == TWO_112)
  {
    ZeroByFields(f);
    hide NearestDouble, Shl, Sig, Exp, Sign, IsZero, RoundedDouble;
    var e64 := Exp(f) - BIAS + D_BIAS;
    if e64 >= D_EXP_MASK {
      OverflowNearest(f);
    } else if e64 <= 0 {
      UnderflowNearest(f);
    } else {
      NormalRangeNearest(f);
    }
  }

  /** 2^-1023 is a double, and becomes zero. */
  lemma SubnormalBecomesZero()
    ensures var f := F128(0, (BIAS - 1023) * TWO_48);
            Normal(f) && ToF64(f) == 0 && !NearestDouble(Magnitude(f), 0)
  {
    var f := F128(0, (BIAS - 1023) * TWO_48);
    assert Sig(f) == TWO_112 && Exp(f) == BIAS - 1023 && Sign(f) == 0;
    hide NearestDouble, Shl, Shr;
    UnderflowNearest(f);
  }

  /** Zeros, infinities and what is no number keep their kind in both directions, and all but the last their sign. */
  lemma FromF64Specials(bits: U64)
    ensures var f, e, m := FromF64(bits), bits / TWO_52 % 0x800, bits % TWO_52;
            && (IsZero(f) <==> e == 0 && m == 0)
            && (IsInf(f) <==> e == D_EXP_MASK && m == 0)
            && (IsNaN(f) <==> e == D_EXP_MASK && m != 0)
            && Sign(f) == bits / TWO_63
  {
    var sign, e, m := bits / TWO_63, bits / TWO_52 % 0x800, bits % TWO_52;
    DoubleFields(bits);
    if e == D_EXP_MASK {
      PackFields(sign, EXP_MASK, if m != 0 then 1 else 0, m);
    } else if e == 0 && m == 0 {
      PackFields(sign, 0, 0, 0);
    } else {
      PackSigNormal(sign, e - D_BIAS + BIAS, TWO_112 + m * TWO_60);
    }
    ZeroByFields(FromF64(bits));
    hide FromF64, Sign;
  }

  lemma ToF64Specials(f: F128)
    ensures IsZero(f) ==> ToF64(f) == Signed(Sign(f), 0)
    ensures IsInf(f) ==> ToF64(f) == Signed(Sign(f), D_INF)
    ensures IsNaN(f) ==> ToF64(f) == D_NAN
  {
    ZeroByFields(f);
  }

  // ---- round trip ---------------------------------------------------------------------

  /** Every normal double converts exactly. */
  lemma FromF64Exact(bits: U64)
    requires var e := bits / TWO_52 % 0x800; 1 <= e < D_EXP_MASK
    ensures var f := FromF64(bits);
            Normal(f) && Sign(f) == bits / TWO_63 && Magnitude(f) == DoubleMagnitude(bits % TWO_63)
  {
    var e, m := bits / TWO_52 % 0x800, bits % TWO_52;
    DoubleFields(bits);
    hide Shl, Sig, Exp, Sign, DoubleMagnitude, PackSig;
    PackSigNormal(bits / TWO_63, e - D_BIAS + BIAS, TWO_112 + m * TWO_60);
    NormalDoubleMagnitude(bits % TWO_63);
    Raised(m);
    ShlShl(TWO_52 + m, 60, e - D_BIAS + BIAS);
  }

  lemma DoubleFields(bits: U64)
    ensures var sign, e, m := bits / TWO_63, bits / TWO_52 % 0x800, bits % TWO_52;
            && 0 <= sign <= 1
            && bits == sign * TWO_63 + e * TWO_52 + m
            && bits % TWO_63 / TWO_52 == e && bits % TWO_63 % TWO_52 == m
  {
  }

  lemma NormalDoubleMagnitude(c: nat)
    requires c / TWO_52 > 0
    ensures DoubleMagnitude(c) == Shl(TWO_52 + c % TWO_52, c / TWO_52 + UNIT_SHIFT)
  {
  }

  lemma Raised(m: nat)
    requires m < TWO_52
    ensures Shl(TWO_52 + m, 60) == TWO_112 + m * TWO_60
    ensures RoundedHalf(TWO_112 + m * TWO_60, 60) == TWO_52 + m
  {
    WordPowers();
    assert Shl(1, 60) == TWO_60 by { ShlScaled(16, 4, 60); }
    ShlTimes(TWO_52 + m, 1, 60);
    var r := RoundedHalf(TWO_112 + m * TWO_60, 60);
    ShlTimes(r, 1, 60);
  }

  /**
   * A double survives the trip bit for bit exactly when it is a zero, a normal number, an
   * infinity, or the one NaN the conversion back produces.
   */
  lemma F64RoundTrip(bits: U64)
    ensures ToF64(FromF64(bits)) == bits <==>
            var e, m := bits / TWO_52 % 0x800, bits % TWO_52;
            (e == 0 && m == 0) || 1 <= e < D_EXP_MASK || (e == D_EXP_MASK && m == 0) || bits == D_NAN
  {
    var sign, e, m := bits / TWO_63, bits / TWO_52 % 0x800, bits % TWO_52;
    DoubleFields(bits);
    hide ToF64, Pack, PackSig;
    if e == D_EXP_MASK {
      SpecialTrip(sign, m);
    } else if e == 0 && m == 0 {
      ZeroTrip(sign);
    } else {
      FiniteTrip(sign, e, m);
    }
    hide *;
    Unpacked(bits, sign, e, m);
  }

  /** Which encodings are the ones their fields come back as. */
  lemma Unpacked(bits: nat, sign: nat, e: nat, m: nat)
    requires sign <= 1 && e <= D_EXP_MASK && m < TWO_52 && bits == sign * TWO_63 + e * TWO_52 + m
    ensures (if e == D_EXP_MASK then if m == 0 then Signed(sign, D_INF) else D_NAN
             else Signed(sign, if e == 0 then 0 else e * TWO_52 + m)) == bits <==>
            (e == 0 && m == 0) || 1 <= e < D_EXP_MASK || (e == D_EXP_MASK && m == 0) || bits == D_NAN
  {
  }

  lemma SpecialTrip(sign: nat, m: nat)
    requires sign <= 1 && m < TWO_52
    ensures ToF64(Pack(sign, EXP_MASK, if m != 0 then 1 else 0, m)) == if m == 0 then Signed(sign, D_INF) else D_NAN
  {
    PackFields(sign, EXP_MASK, if m != 0 then 1 else 0, m);
    hide Sign, Exp, ManHi, Pack;
  }

  lemma ZeroTrip(sign: nat)
    requires sign <= 1
    ensures ToF64(Pack(sign, 0, 0, 0)) == Signed(sign, 0)
  {
    PackFields(sign, 0, 0, 0);
    ZeroByFields(Pack(sign, 0, 0, 0));
    hide Sign, Exp, ManHi, Pack, IsZero;
  }

  /** Subnormal doubles come back as zeros; normal ones come back unchanged. */
  lemma FiniteTrip(sign: nat, e: nat, m: nat)
    requires sign <= 1 && e < D_EXP_MASK && m < TWO_52
    ensures ToF64(PackSig(sign, e - D_BIAS + BIAS, TWO_112 + m * TWO_60))
         == Signed(sign, if e == 0 then 0 else e * TWO_52 + m)
  {
    var f := PackSig(sign, e - D_BIAS + BIAS, TWO_112 + m * TWO_60);
    PackSigNormal(sign, e - D_BIAS + BIAS, TWO_112 + m * TWO_60);
    ZeroByFields(f);
    hide Sign, Exp, ManHi, Sig, PackSig, IsZero, RoundedHalf, Shl, Shr;
    if e > 0 {
      Raised(m);
    }
  }
}
