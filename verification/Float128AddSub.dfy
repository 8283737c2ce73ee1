/** binary128 addition and subtraction: exact-rounding theorems and commutativity. */
module Float128AddSub {
  import opened Shifts
  import opened Words
  import opened Float128

  const NAN_HI: int := 0x7FFF_0000_0000_0000

  /** Sign of `b` once a subtraction has flipped it. */
  function EffectiveSign(b: F128, subtract: bool): nat {
    if subtract then 1 - Sign(b) else Sign(b)
  }

  predicate Infinite(f: F128) { Exp(f) == EXP_MASK }

  /** The magnitude-add path shifts by the exponent gap, which C defines only below the word width. */
  predicate ShiftDefined(a: F128, b: F128, subtract: bool) {
    !Infinite(a) && !Infinite(b) && !IsZero(a) && !IsZero(b) && Sign(a) == EffectiveSign(b, subtract) ==>
      Abs(Exp(a) - Exp(b)) < 128
  }

  /** Significand of the operand with exponent `e` aligned down to the larger exponent. */
  function Aligned(m: nat, e: nat, other: nat): (r: nat)
    ensures r <= m
  {
    if e < other then Shr(m, other - e) else m
  }

  function AddMagnitudes(sign: nat, ea: nat, ma: nat, eb: nat, mb: nat): F128
    requires IsSig(ma) && IsSig(mb)
  {
    var sum := Aligned(ma, ea, eb) + Aligned(mb, eb, ea);
    Renormalized(sign, if ea > eb then ea else eb, sum)
  }

  /** Moves the leading one of `x` to bit 112, adjusting the exponent by the distance moved. */
  function Renormalized(sign: nat, e: int, x: U128): F128
    requires x > 0
  {
    RoundPack(sign, e + BitLen(x) - 113, TopSig(x), 0)
  }

  function SubMagnitudes(sa: nat, sb: nat, ea: nat, ma: nat, eb: nat, mb: nat): F128
    requires IsSig(ma) && IsSig(mb)
  {
    if ea < eb || (ea == eb && ma < mb) then Difference(sb, eb, mb, ea, ma)
    else Difference(sa, ea, ma, eb, mb)
  }

  /** Larger operand first. */
  function Difference(sign: nat, ebig: nat, big: nat, esmall: nat, small: nat): F128
    requires IsSig(big) && IsSig(small) && esmall <= ebig
    requires esmall == ebig ==> small <= big
  {
    var gap := ebig - esmall;
    if gap >= 128 then PackSig(sign, ebig, big)
    else
      var diff := big - Shr(small, gap);
      if diff == 0 then Pack(0, 0, 0, 0) else Renormalized(sign, ebig, diff)
  }

  function FiniteAddSub(a: F128, b: F128, subtract: bool): F128 {
    var sa, sb := Sign(a), EffectiveSign(b, subtract);
    if IsZero(a) then
      if IsZero(b) then Pack(if sa == sb then sa else 0, 0, 0, 0)
      else b.(hi := b.hi % TWO_63 + sb * TWO_63)
    else if IsZero(b) then a
    else if sa == sb then AddMagnitudes(sa, Exp(a), Sig(a), Exp(b), Sig(b))
    else SubMagnitudes(sa, sb, Exp(a), Sig(a), Exp(b), Sig(b))
  }

  function AddSub(a: F128, b: F128, subtract: bool): F128
    requires ShiftDefined(a, b, subtract)
  {
    if IsNaN(a) then a
    else if IsNaN(b) then b
    else if IsInf(a) then
      if IsInf(b) && (Sign(a) != Sign(b)) == subtract then
        F128(1, a.hi / TWO_63 * TWO_63 + NAN_HI)
      else a
    else if IsInf(b) then b
    else FiniteAddSub(a, b, subtract)
  }

  /** The imperative form: one alignment, one add or subtract, and the normalising loop. */
  method AddSubImpl(a: F128, b: F128, subtract: bool) returns (r: F128)
    requires ShiftDefined(a, b, subtract)
    ensures r == AddSub(a, b, subtract)
  {
    if IsNaN(a) { return a; }
    if IsNaN(b) { return b; }
    if IsInf(a) {
      if IsInf(b) && (Sign(a) != Sign(b)) == subtract {
        return F128(1, a.hi / TWO_63 * TWO_63 + NAN_HI);
      }
      return a;
    }
    if IsInf(b) { return b; }
    ZeroByFields(a);
    ZeroByFields(b);
    var sa, sb := Sign(a), Sign(b);
    if subtract { sb := 1 - sb; }
    var ea, eb := Exp(a), Exp(b);
    if ea == 0 && ManHi(a) == 0 && a.lo == 0 {
      if eb == 0 && ManHi(b) == 0 && b.lo == 0 {
        return Pack(if sa == sb then sa else 0, 0, 0, 0);
      }
      return b.(hi := b.hi % TWO_63 + sb * TWO_63);
    }
    if eb == 0 && ManHi(b) == 0 && b.lo == 0 { return a; }
    var ma, mb := Sig(a), Sig(b);
    if sa == sb {
      r := AddMagnitudesImpl(sa, ea, ma, eb, mb);
    } else {
      r := SubMagnitudesImpl(sa, sb, ea, ma, eb, mb);
    }
  }

  method AddMagnitudesImpl(sa: nat, ea: nat, ma0: U128, eb: nat, mb0: U128) returns (r: F128)
    requires IsSig(ma0) && IsSig(mb0)
    ensures r == AddMagnitudes(sa, ea, ma0, eb, mb0)
  {
    hide Shr, Renormalized;
    var ma, mb := ma0, mb0;
    var e := if ea > eb then ea else eb;
    if ea < eb { ma := Shr(ma, eb - ea); } else if eb < ea { mb := Shr(mb, ea - eb); }
    r := RenormalizeImpl(sa, e, ma + mb);
  }

  method RenormalizeImpl(sign: nat, e: int, x: U128) returns (r: F128)
    requires x > 0
    ensures r == Renormalized(sign, e, x)
  {
    var s, n := LeftJustify(x);
    r := RoundPack(sign, e + n - 113, s / TWO_15, 0);
  }

  method SubMagnitudesImpl(sa: nat, sb: nat, ea: nat, ma: U128, eb: nat, mb: U128) returns (r: F128)
    requires IsSig(ma) && IsSig(mb)
    ensures r == SubMagnitudes(sa, sb, ea, ma, eb, mb)
  {
    var ebig, esmall, big, small, bigIsA := ea, eb, ma, mb, true;
    if ea < eb || (ea == eb && ma < mb) {
      big, small, ebig, esmall, bigIsA := mb, ma, eb, ea, false;
    }
    var sres := if bigIsA then sa else sb;
    var gap := ebig - esmall;
    if gap >= 128 { return PackSig(sres, ebig, big); }
    var diff := big - Shr(small, gap);
    if diff == 0 { return Pack(0, 0, 0, 0); }
    r := RenormalizeImpl(sres, ebig, diff);
  }

  // ---- exactness ----------------------------------------------------------------------

  /** The value of a normal number or a zero, scaled. */
  ghost function Amount(f: F128): int
    requires Normal(f) || IsZero(f)
  {
    if IsZero(f) then 0 else Negated(Sign(f) == 1, Shl(Sig(f), Exp(f)))
  }

  lemma AmountOfNormal(f: F128)
    requires Normal(f)
    ensures Amount(f) == Negated(Sign(f) == 1, Magnitude(f)) != 0 && Abs(Amount(f)) == Magnitude(f)
  {
    ZeroByFields(f);
    hide Sig, Exp, Shl;
  }

  /** The exact signed result, scaled. */
  ghost function Exact(a: F128, b: F128, subtract: bool): int
    requires (Normal(a) || IsZero(a)) && (Normal(b) || IsZero(b))
  {
    Amount(a) + if subtract then 0 - Amount(b) else Amount(b)
  }

  /** Like effective signs add the magnitudes, unlike ones subtract them. */
  lemma ExactMagnitude(a: F128, b: F128, subtract: bool)
    requires Normal(a) && Normal(b)
    ensures Abs(Exact(a, b, subtract))
         == if Sign(a) == EffectiveSign(b, subtract) then Magnitude(a) + Magnitude(b)
            else Abs(Magnitude(a) - Magnitude(b))
  {
    AmountOfNormal(a);
    AmountOfNormal(b);
    hide Amount, Magnitude;
  }

  /** Truncates to a finite number: below the successor of the largest one. */
  ghost predicate BelowOverflow(x: int) { x < Shl(TWO_113, EXP_MASK - 1) }

  /** Smallest normal magnitude: significand 2^112 at exponent 1. */
  ghost predicate AboveUnderflow(x: int) { x >= Shl(TWO_112, 1) }

  /** What alignment drops from the smaller operand, scaled: zero when no one-bit is shifted out. */
  ghost function Loss(m: nat, e: nat, top: nat): nat
    requires e <= top
  {
    Shl(Low(m, top - e), e)
  }

  /** Alignment rounds the smaller operand down to a multiple of the larger one's last place. */
  lemma AlignedLoss(m: nat, e: nat, top: nat)
    requires e <= top
    ensures Shl(m, e) == Shl(Aligned(m, e, top), top) + Loss(m, e, top)
    ensures Loss(m, e, top) < Shl(1, top)
    ensures Loss(m, e, top) == 0 <==> Low(m, top - e) == 0
  {
    var q, low := Shr(m, top - e), Low(m, top - e);
    ShlAdd(Shl(q, top - e), low, e);
    ShlShl(q, top - e, e);
    ShlShl(1, top - e, e);
    ShlOrder(low, Shl(1, top - e), e);
    ShlOrder(0, low, e);
    ShlTimes(0, 0, e);
  }

  lemma ExponentBelow(sig: nat, e: nat, x: int)
    requires sig >= TWO_112 && Shl(sig, e) <= x && BelowOverflow(x)
    ensures e < EXP_MASK
  {
    if e > EXP_MASK - 1 {
      LowerBinade(TWO_113 - 1, EXP_MASK - 1, sig, e);
    }
  }

  lemma RenormalizedFields(sign: nat, e: int, x: U128)
    requires sign <= 1 && x > 0 && 1 <= e + BitLen(x) - 113 < EXP_MASK
    ensures var r := Renormalized(sign, e, x);
            Normal(r) && Sign(r) == sign && Exp(r) == e + BitLen(x) - 113 && Sig(r) == TopSig(x)
  {
    PackSigNormal(sign, e + BitLen(x) - 113, TopSig(x));
  }

  lemma SumTopSig(sum: nat)
    requires TWO_112 <= sum < 2 * TWO_113
    ensures (BitLen(sum) == 113 && TopSig(sum) == sum) || (BitLen(sum) == 114 && TopSig(sum) == sum / 2)
  {
    SigPowers();
    BitLenBetween(sum, 112, 114);
    TopSigShift(sum);
    assert Shl(sum, 0) == sum && Shr(sum, 1) == sum / 2;
  }

  /** A sum of 113 or 114 bits that truncates `x` still does once its last bit is dropped. */
  lemma SumTruncated(e: nat, sum: nat, x: int)
    requires TWO_112 <= sum < 2 * TWO_113 && Shl(sum, e) <= x < Shl(sum + 1, e) && BelowOverflow(x)
    ensures var e' := e + BitLen(sum) - 113;
            e <= e' < EXP_MASK && Shl(TopSig(sum), e') <= x < Shl(TopSig(sum) + 1, e')
  {
    hide Shl, TopSig, BitLen, BelowOverflow;
    SumTopSig(sum);
    if BitLen(sum) == 114 {
      var half := sum / 2;
      ShlOrder(2 * half, sum, e);
      ShlOrder(sum + 1, 2 * half + 2, e);
      ShlTwice(half, e);
      ShlTwice(half + 1, e);
    }
    ExponentBelow(TopSig(sum), e + BitLen(sum) - 113, x);
  }

  /** The aligned sum truncates the exact sum, before and after renormalising. */
  lemma AddTruncated(ea: nat, ma: nat, eb: nat, mb: nat)
    requires eb <= ea && IsSig(ma) && IsSig(mb)
    requires BelowOverflow(Shl(ma, ea) + Shl(mb, eb))
    ensures var sum := ma + Aligned(mb, eb, ea);
            var e' := ea + BitLen(sum) - 113;
            && ea <= e' < EXP_MASK
            && Shl(TopSig(sum), e') <= Shl(ma, ea) + Shl(mb, eb) < Shl(TopSig(sum) + 1, e')
  {
    hide Shl, Aligned, TopSig, BitLen;
    var t := Aligned(mb, eb, ea);
    AlignedLoss(mb, eb, ea);
    ShlAdd(ma, t, ea);
    ShlAdd(ma + t, 1, ea);
    SumTruncated(ea, ma + t, Shl(ma, ea) + Shl(mb, eb));
  }

  lemma AddRounded(sign: nat, ea: nat, ma: nat, eb: nat, mb: nat)
    requires sign <= 1 && 1 <= eb <= ea && IsSig(ma) && IsSig(mb)
    requires BelowOverflow(Shl(ma, ea) + Shl(mb, eb))
    ensures var r := Renormalized(sign, ea, ma + Aligned(mb, eb, ea));
            Normal(r) && Sign(r) == sign && TowardZero(r, Shl(ma, ea) + Shl(mb, eb), 0)
  {
    hide Shl, Aligned, Renormalized, TopSig, Sig, Sign, Exp, Normal, BitLen;
    AddTruncated(ea, ma, eb, mb);
    RenormalizedFields(sign, ea, ma + Aligned(mb, eb, ea));
  }

  /** Which arm computes a same-sign sum, with the operand of larger exponent first. */
  lemma SameSignArm(a: F128, b: F128, subtract: bool)
    requires Normal(a) && Normal(b) && Sign(a) == EffectiveSign(b, subtract)
    requires ShiftDefined(a, b, subtract)
    ensures Exp(a) >= Exp(b) ==>
              AddSub(a, b, subtract) == Renormalized(Sign(a), Exp(a), Sig(a) + Aligned(Sig(b), Exp(b), Exp(a)))
    ensures Exp(a) <= Exp(b) ==>
              AddSub(a, b, subtract) == Renormalized(Sign(a), Exp(b), Sig(b) + Aligned(Sig(a), Exp(a), Exp(b)))
  {
    ZeroByFields(a);
    ZeroByFields(b);
  }

  /** A same-sign sum is the exact sum rounded toward zero. */
  lemma SameSignSum(a: F128, b: F128, subtract: bool)
    requires Normal(a) && Normal(b) && Sign(a) == EffectiveSign(b, subtract)
    requires ShiftDefined(a, b, subtract)
    requires BelowOverflow(Abs(Exact(a, b, subtract)))
    ensures var r := AddSub(a, b, subtract);
            && Normal(r) && Sign(r) == Sign(a)
            && TowardZero(r, Abs(Exact(a, b, subtract)), 0)
  {
    hide Shl, Aligned, AddSub, Renormalized, Exact, BelowOverflow;
    ExactMagnitude(a, b, subtract);
    SameSignArm(a, b, subtract);
    if Exp(a) >= Exp(b) {
      AddRounded(Sign(a), Exp(a), Sig(a), Exp(b), Sig(b));
    } else {
      AddRounded(Sign(a), Exp(b), Sig(b), Exp(a), Sig(a));
    }
  }

  /** Renormalising a difference that stays above the underflow threshold is exact. */
  lemma RenormalizedExact(e: nat, x: nat)
    requires 0 < x < TWO_113 && AboveUnderflow(Shl(x, e))
    ensures var e' := e + BitLen(x) - 113; 1 <= e' <= e && Shl(TopSig(x), e') == Shl(x, e)
  {
    var n := BitLen(x);
    assert Shl(1, 0) == 1 && AboveUnderflow(Shl(x, e)) == (Shl(x, e) >= TWO_113);
    hide Shl, TopSig;
    SigPowers();
    BitLenBetween(x, 0, 113);
    BitLenBounds(x);
    ShlOrder(x, Shl(1, n), e);
    ShlShl(1, n, e);
    PowerLess(113, n + e);
    TopSigShift(x);
    ShlShl(x, 113 - n, e + n - 113);
  }

  lemma DifferenceExact(sign: nat, ebig: nat, big: nat, esmall: nat, small: nat)
    requires sign <= 1 && 1 <= esmall <= ebig < EXP_MASK && IsSig(big) && IsSig(small)
    requires esmall == ebig ==> small <= big
    requires AboveUnderflow(Shl(big, ebig) - Shl(small, esmall))
    ensures var r := Difference(sign, ebig, big, esmall, small);
            && Normal(r) && Sign(r) == sign
            && Magnitude(r) == Shl(big, ebig) - Shl(small, esmall) + Loss(small, esmall, ebig)
  {
    hide Shl, Shr, Renormalized, TopSig, Sig, Sign, Exp, BitLen;
    AlignedDifference(ebig, big, esmall, small);
    if ebig - esmall >= 128 {
      FarBelow(small, ebig - esmall);
      PackSigNormal(sign, ebig, big);
    } else {
      RenormalizedMagnitude(sign, ebig, big - Shr(small, ebig - esmall));
    }
  }

  lemma RenormalizedMagnitude(sign: nat, e: nat, x: nat)
    requires sign <= 1 && e < EXP_MASK && 0 < x < TWO_113 && AboveUnderflow(Shl(x, e))
    ensures var r := Renormalized(sign, e, x);
            Normal(r) && Sign(r) == sign && Magnitude(r) == Shl(x, e)
  {
    hide Shl, Renormalized, TopSig, Sig, Sign, Exp, BitLen;
    RenormalizedExact(e, x);
    RenormalizedFields(sign, e, x);
  }

  lemma AlignedDifference(ebig: nat, big: nat, esmall: nat, small: nat)
    requires esmall <= ebig && IsSig(big) && IsSig(small)
    requires esmall == ebig ==> small <= big
    ensures var diff := big - Shr(small, ebig - esmall);
            && 0 <= diff < TWO_113
            && Shl(diff, ebig) == Shl(big, ebig) - Shl(small, esmall) + Loss(small, esmall, ebig)
    ensures AboveUnderflow(Shl(big, ebig) - Shl(small, esmall)) ==> Shr(small, ebig - esmall) < big
  {
    var t := Shr(small, ebig - esmall);
    AlignedLoss(small, esmall, ebig);
    assert t == Aligned(small, esmall, ebig);
    ShlAdd(big - t, t, ebig);
    ShlTimes(0, 0, ebig);
  }

  lemma FarBelow(m: nat, gap: nat)
    requires m < TWO_113 && gap >= 128
    ensures Shr(m, gap) == 0
  {
    SigPowers();
    ShlGrows(1, 113, gap);
    ShlTimes(0, 0, gap);
    ShrUnique(m, 0, gap);
  }

  /** The larger exponent, or the larger significand at equal exponents, is the larger magnitude. */
  lemma MagnitudeOrder(ea: nat, ma: nat, eb: nat, mb: nat)
    requires IsSig(ma) && IsSig(mb)
    ensures ea < eb || (ea == eb && ma < mb) <==> Shl(ma, ea) < Shl(mb, eb)
  {
    if ea < eb {
      LowerBinade(ma, ea, mb, eb);
    } else if eb < ea {
      LowerBinade(mb, eb, ma, ea);
    } else {
      ShlOrder(ma, mb, ea);
    }
  }

  /**
   * An opposite-sign result has the sign of the exact one. It is never smaller in magnitude,
   * errs by less than one last place of the larger operand, and is exact precisely when no
   * one-bit of the smaller operand is shifted out.
   */
  lemma OppositeSignSum(a: F128, b: F128, subtract: bool)
    requires Normal(a) && Normal(b) && Sign(a) != EffectiveSign(b, subtract)
    requires AboveUnderflow(Abs(Exact(a, b, subtract)))
    ensures var r := AddSub(a, b, subtract);
            var exact := Exact(a, b, subtract);
            var big := if Magnitude(a) < Magnitude(b) then b else a;
            var small := if Magnitude(a) < Magnitude(b) then a else b;
            && Normal(r) && Sign(r) == (if exact < 0 then 1 else 0)
            && Abs(exact) <= Magnitude(r) < Abs(exact) + Shl(1, Exp(big))
            && Exp(small) <= Exp(big)
            && (Magnitude(r) == Abs(exact) <==> Low(Sig(small), Exp(big) - Exp(small)) == 0)
  {
    hide Shl, Low, Difference, Sig, Exp;
    ZeroByFields(a);
    ZeroByFields(b);
    MagnitudeOrder(Exp(a), Sig(a), Exp(b), Sig(b));
    if Magnitude(a) < Magnitude(b) {
      AlignedLoss(Sig(a), Exp(a), Exp(b));
      DifferenceExact(EffectiveSign(b, subtract), Exp(b), Sig(b), Exp(a), Sig(a));
    } else {
      AlignedLoss(Sig(b), Exp(b), Exp(a));
      DifferenceExact(Sign(a), Exp(a), Sig(a), Exp(b), Sig(b));
    }
  }

  /** With exactly one zero operand the result is the exact one. */
  lemma ZeroOperandIsExact(a: F128, b: F128, subtract: bool)
    requires (IsZero(a) && Normal(b)) || (Normal(a) && IsZero(b))
    ensures var r := AddSub(a, b, subtract);
            Normal(r) && Amount(r) == Exact(a, b, subtract) != 0
  {
    ZeroByFields(a);
    ZeroByFields(b);
    var r := AddSub(a, b, subtract);
    if IsZero(a) {
      FlippedFields(b, EffectiveSign(b, subtract));
      AmountOfNormal(b);
      AmountOfNormal(r);
    } else {
      AmountOfNormal(a);
    }
  }

  /** Replacing the sign bit leaves the other fields. */
  lemma FlippedFields(f: F128, sign: nat)
    requires sign <= 1
    ensures var r := f.(hi := f.hi % TWO_63 + sign * TWO_63);
            Sign(r) == sign && Exp(r) == Exp(f) && Sig(r) == Sig(f) && (IsZero(r) <==> IsZero(f))
  {
    var h := f.hi % TWO_63;
    assert f.hi == h + f.hi / TWO_63 * TWO_63;
    assert TWO_63 == TWO_48 * TWO_15;
    assert (h + sign * TWO_63) / TWO_48 == h / TWO_48 + sign * TWO_15;
    assert f.hi / TWO_48 == h / TWO_48 + f.hi / TWO_63 * TWO_15;
  }

  /** The sum of two zeros is negative exactly if both terms are, section 6.3 of IEEE 754-2008. */
  lemma ZeroPlusZero(a: F128, b: F128, subtract: bool)
    requires IsZero(a) && IsZero(b)
    ensures var r := AddSub(a, b, subtract);
            IsZero(r) && (Sign(r) == 1 <==> Sign(a) == 1 && (Sign(b) == 1) != subtract)
  {
    ZeroByFields(a);
    ZeroByFields(b);
    var sign := if Sign(a) == EffectiveSign(b, subtract) then Sign(a) else 0;
    PackFields(sign, 0, 0, 0);
    ZeroByFields(Pack(sign, 0, 0, 0));
  }

  /** An operand that is no number is returned, the first one if both are. */
  lemma NanOperandReturned(a: F128, b: F128, subtract: bool)
    requires IsNaN(a) || IsNaN(b)
    ensures AddSub(a, b, subtract) == if IsNaN(a) then a else b
  {
  }

  /** Total cancellation gives positive zero. */
  lemma CancellationIsPositiveZero(a: F128, b: F128, subtract: bool)
    requires Normal(a) && Normal(b) && Exact(a, b, subtract) == 0
    ensures AddSub(a, b, subtract) == F128(0, 0)
  {
    ZeroByFields(a);
    ZeroByFields(b);
    MagnitudeOrder(Exp(a), Sig(a), Exp(b), Sig(b));
    MagnitudeOrder(Exp(b), Sig(b), Exp(a), Sig(a));
    assert Exp(a) == Exp(b) && Sig(a) == Sig(b) by {
      assert Magnitude(a) == Magnitude(b);
    }
  }

  /** Addition is commutative bit for bit, except between distinct NaNs or opposite infinities. */
  lemma AddCommutes(a: F128, b: F128)
    requires ShiftDefined(a, b, false) && ShiftDefined(b, a, false)
    ensures AddSub(a, b, false) == AddSub(b, a, false) <==>
            a == b || !((IsNaN(a) && IsNaN(b)) || (IsInf(a) && IsInf(b)))
  {
    ZeroByFields(a);
    ZeroByFields(b);
    assert a.hi == a.hi % TWO_63 + Sign(a) * TWO_63;
    assert b.hi == b.hi % TWO_63 + Sign(b) * TWO_63;
  }

  /** The IEEE 754-2008 section 6.1 result when at least one operand is infinite. */
  predicate IeeeInfinity(a: F128, b: F128, subtract: bool, r: F128) {
    if IsInf(a) && IsInf(b) && Sign(a) != EffectiveSign(b, subtract) then IsNaN(r)
    else IsInf(r) && Sign(r) == if IsInf(a) then Sign(a) else EffectiveSign(b, subtract)
  }

  /** The infinity arms meet IEEE 754 exactly when one operand is infinite and it is not subtracted. */
  lemma InfinityArms(a: F128, b: F128, subtract: bool)
    requires !IsNaN(a) && !IsNaN(b) && (IsInf(a) || IsInf(b))
    ensures IeeeInfinity(a, b, subtract, AddSub(a, b, subtract)) <==>
            IsInf(a) != IsInf(b) && !(IsInf(b) && subtract)
  {
    var nan := F128(1, a.hi / TWO_63 * TWO_63 + NAN_HI);
    assert Exp(nan) == EXP_MASK && nan.lo != 0;
  }

  /** What the infinity arms return in every case. */
  lemma InfinityReturned(a: F128, b: F128, subtract: bool)
    requires !IsNaN(a) && !IsNaN(b) && (IsInf(a) || IsInf(b))
    ensures var r := AddSub(a, b, subtract);
            && (IsNaN(r) <==> IsInf(a) && IsInf(b) && (subtract <==> Sign(a) != Sign(b)))
            && (!IsNaN(r) ==> r == if IsInf(a) then a else b)
  {
    var nan := F128(1, a.hi / TWO_63 * TWO_63 + NAN_HI);
    assert Exp(nan) == EXP_MASK && nan.lo != 0;
  }

  /** Infinity minus itself is infinity, infinity plus itself is no number, 1 minus infinity is positive. */
  lemma InfinityExamples()
    ensures var inf, one := F128(0, NAN_HI), F128(0, BIAS * TWO_48);
            && IsInf(inf) && Sign(inf) == 0
            && AddSub(inf, inf, true) == inf
            && IsNaN(AddSub(inf, inf, false))
            && AddSub(one, inf, true) == inf
  {
  }
}
