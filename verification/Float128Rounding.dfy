/** When binary128 addition and subtraction round correctly: conditions on the operand bits. */
module Float128Rounding {
  import opened Shifts
  import opened Words
  import opened Float128
  import opened Float128AddSub

  // ---- nearest, ties to even ----------------------------------------------------------

  /** The magnitude of `r` is at least as near to `x` as `y` is, and even if they tie. */
  ghost predicate NoNearer(r: F128, x: int, y: int)
    requires Normal(r)
  {
    && Abs(x - Magnitude(r)) <= Abs(x - y)
    && (Abs(x - Magnitude(r)) == Abs(x - y) && y != Magnitude(r) ==> Sig(r) % 2 == 0)
  }

  /**
   * The magnitude of `r` is `x` rounded to nearest, ties to even, among all numbers with 113-bit
   * significands: IEEE 754-2008 section 4.3.1, as if the exponent were unbounded above.
   */
  ghost predicate Nearest(r: F128, x: int)
    requires Normal(r)
  {
    forall m: nat, e: nat :: IsSig(m) && e >= 1 ==> NoNearer(r, x, Shl(m, e))
  }

  /** The next magnitude up, also across a binade. */
  lemma NextUp(r: F128) returns (m: nat, e: nat)
    requires Normal(r)
    ensures IsSig(m) && e >= 1 && Shl(m, e) == Shl(Sig(r) + 1, Exp(r)) == Magnitude(r) + Shl(1, Exp(r))
  {
    ShlAdd(Sig(r), 1, Exp(r));
    m, e := Sig(r) + 1, Exp(r);
    if m == TWO_113 {
      ShlTwice(TWO_112, e);
      m, e := TWO_112, e + 1;
    }
  }

  /** The next magnitude down; at the bottom of a binade it is half as far. */
  lemma NextDown(r: F128) returns (m: nat, e: nat)
    requires Normal(r) && (Sig(r) > TWO_112 || Exp(r) >= 2)
    ensures IsSig(m) && e >= 1
    ensures Sig(r) > TWO_112 ==> Shl(m, e) == Magnitude(r) - Shl(1, Exp(r))
    ensures Sig(r) == TWO_112 ==> 2 * Shl(m, e) == 2 * Magnitude(r) - Shl(1, Exp(r))
    ensures forall m': nat, e': nat :: IsSig(m') && e' >= 1 && Shl(m', e') < Magnitude(r) ==> Shl(m', e') <= Shl(m, e)
  {
    hide Sig, Exp;
    if Sig(r) > TWO_112 {
      m, e := Sig(r) - 1, Exp(r);
      ShlAdd(m, 1, e);
    } else {
      m, e := TWO_113 - 1, Exp(r) - 1;
      ShlAdd(m, 1, e);
      ShlTwice(TWO_112, e);
      ShlStep(1, e);
    }
    forall m': nat, e': nat | IsSig(m') && e' >= 1 && Shl(m', e') < Magnitude(r)
      ensures Shl(m', e') <= Shl(m, e)
    {
      MagnitudeOrder(e', m', Exp(r), Sig(r));
      MagnitudeOrder(e, m, e', m');
    }
  }

  /** For a value above the rounded one only the next magnitude up competes. */
  lemma NearestFromAbove(r: F128, x: int)
    requires Normal(r) && Magnitude(r) <= x
    ensures Nearest(r, x) <==> NearestEven(Sig(r), x, Exp(r))
  {
    hide Shl, Sig, Exp;
    var m, e := NextUp(r);
    if Nearest(r, x) {
      assert NoNearer(r, x, Shl(m, e));
    }
    if NearestEven(Sig(r), x, Exp(r)) {
      forall m': nat, e': nat | IsSig(m') && e' >= 1
        ensures NoNearer(r, x, Shl(m', e'))
      {
        MagnitudeOrder(Exp(r), Sig(r), e', m');
        MagnitudeOrder(e', m', e, m);
        BetweenNext(r, e', m');
      }
    }
  }

  /** A magnitude above another is at least the next one up. */
  lemma BetweenNext(r: F128, e: nat, m: nat)
    requires Normal(r) && IsSig(m)
    ensures Shl(m, e) > Magnitude(r) ==> Shl(m, e) >= Shl(Sig(r) + 1, Exp(r))
  {
    hide Shl, Sig, Exp;
    MagnitudeOrder(Exp(r), Sig(r), e, m);
    if Exp(r) < e {
      LowerBinade(Sig(r), Exp(r), m, e);
    } else {
      ShlOrder(Sig(r) + 1, m, e);
    }
  }

  /** For a value below the rounded one only the next magnitude down competes. */
  lemma NearestFromBelow(r: F128, x: int)
    requires Normal(r) && x <= Magnitude(r) && AboveUnderflow(x)
    ensures Nearest(r, x) <==>
            if Sig(r) > TWO_112 then NearestEven(Sig(r), x, Exp(r)) else 4 * (Magnitude(r) - x) <= Shl(1, Exp(r))
  {
    hide Shl, Sig, Exp;
    ShlOrder(0, 1, Exp(r));
    ShlTimes(0, 0, Exp(r));
    if Sig(r) > TWO_112 || Exp(r) >= 2 {
      var m, e := NextDown(r);
      if Nearest(r, x) {
        assert NoNearer(r, x, Shl(m, e));
      }
      var near := if Sig(r) > TWO_112 then NearestEven(Sig(r), x, Exp(r)) else 4 * (Magnitude(r) - x) <= Shl(1, Exp(r));
      if near {
        forall m': nat, e': nat | IsSig(m') && e' >= 1
          ensures NoNearer(r, x, Shl(m', e'))
        {
        }
      }
    } else {
      assert x == Magnitude(r);
    }
  }

  // ---- same signs ---------------------------------------------------------------------

  /** The condition under which a same-sign sum is rounded correctly, on the aligned significands. */
  predicate SumRounds(big: nat, small: nat, gap: nat) {
    var sum, low, unit := big + Shr(small, gap), Low(small, gap), Shl(1, gap);
    if sum < TWO_113 then 2 * low < unit || (2 * low == unit && sum % 2 == 0)
    else sum % 2 == 0 || (low == 0 && sum / 2 % 2 == 0)
  }

  /** Rounding `q` plus the fraction `low / 2^gap` down to `q`, or to half of `q`. */
  lemma TruncationNearest(q: nat, low: nat, gap: nat, e: nat)
    requires low < Shl(1, gap)
    ensures var x := Shl(q, e + gap) + Shl(low, e);
            && (NearestEven(q, x, e + gap) <==> 2 * low < Shl(1, gap) || (2 * low == Shl(1, gap) && q % 2 == 0))
            && (NearestEven(q / 2, x, e + gap + 1) <==> q % 2 == 0 || (low == 0 && q / 2 % 2 == 0))
  {
    var k, half := e + gap, q / 2;
    hide Shl;
    ShlShl(1, gap, e);
    ShlTimes(2, low, e);
    ShlOrder(2 * low, Shl(1, gap), e);
    ShlOrder(Shl(1, gap), 2 * low, e);
    ShlOrder(low, Shl(1, gap), e);
    ShlOrder(0, low, e);
    ShlTimes(0, 0, e);
    ShlTwice(half, k);
    ShlStep(1, k);
    if q % 2 == 1 {
      ShlAdd(2 * half, 1, k);
    }
  }

  /** The exact sum is the aligned sum and what alignment dropped. */
  lemma SumSplit(ea: nat, ma: nat, eb: nat, mb: nat)
    requires eb <= ea && IsSig(ma) && IsSig(mb)
    ensures var sum := ma + Aligned(mb, eb, ea);
            && Shl(sum, ea) + Shl(Low(mb, ea - eb), eb) == Shl(ma, ea) + Shl(mb, eb)
            && sum == ma + Shr(mb, ea - eb)
            && TWO_112 <= sum < 2 * TWO_113
  {
    assert Shr(mb, 0) == mb;
    hide Shl, Low;
    AlignedLoss(mb, eb, ea);
    ShlAdd(ma, Aligned(mb, eb, ea), ea);
  }

  lemma SumNearest(r: F128, e: nat, gap: nat, sum: nat, low: nat, x: int)
    requires Normal(r) && low < Shl(1, gap) && x == Shl(sum, e + gap) + Shl(low, e)
    requires TWO_112 <= sum < 2 * TWO_113 && Magnitude(r) <= x
    requires Sig(r) == TopSig(sum) && Exp(r) == e + gap + BitLen(sum) - 113
    ensures Nearest(r, x) <==>
            if sum < TWO_113 then 2 * low < Shl(1, gap) || (2 * low == Shl(1, gap) && sum % 2 == 0)
            else sum % 2 == 0 || (low == 0 && sum / 2 % 2 == 0)
  {
    hide Shl, Sig, Exp, TopSig, BitLen, Nearest, NearestEven, Magnitude;
    SumTopSig(sum);
    TruncationNearest(sum, low, gap, e);
    NearestFromAbove(r, x);
  }

  lemma AddFields(sign: nat, ea: nat, ma: nat, eb: nat, mb: nat)
    requires sign <= 1 && 1 <= eb <= ea && IsSig(ma) && IsSig(mb)
    requires BelowOverflow(Shl(ma, ea) + Shl(mb, eb))
    ensures var sum := ma + Aligned(mb, eb, ea);
            var r := Renormalized(sign, ea, sum);
            && Normal(r) && Magnitude(r) <= Shl(ma, ea) + Shl(mb, eb)
            && Sig(r) == TopSig(sum) && Exp(r) == ea + BitLen(sum) - 113
  {
    hide Shl, Aligned, Sig, Exp, TopSig, BitLen, Renormalized, BelowOverflow;
    AddTruncated(ea, ma, eb, mb);
    AddRounded(sign, ea, ma, eb, mb);
    RenormalizedFields(sign, ea, ma + Aligned(mb, eb, ea));
  }

  lemma AddNearest(sign: nat, ea: nat, ma: nat, eb: nat, mb: nat)
    requires sign <= 1 && 1 <= eb <= ea && IsSig(ma) && IsSig(mb)
    requires BelowOverflow(Shl(ma, ea) + Shl(mb, eb))
    ensures var r := Renormalized(sign, ea, ma + Aligned(mb, eb, ea));
            Normal(r) && (Nearest(r, Shl(ma, ea) + Shl(mb, eb)) <==> SumRounds(ma, mb, ea - eb))
  {
    hide Shl, Shr, Aligned, Low, Nearest, Sig, Exp, TopSig, BitLen, Renormalized, BelowOverflow, Normal, Magnitude;
    var sum, gap := ma + Aligned(mb, eb, ea), ea - eb;
    AddFields(sign, ea, ma, eb, mb);
    SumSplit(ea, ma, eb, mb);
    SumNearest(Renormalized(sign, ea, sum), eb, gap, sum, Low(mb, gap), Shl(ma, ea) + Shl(mb, eb));
  }

  /** A same-sign sum is correctly rounded exactly when the dropped bits meet `SumRounds`. */
  lemma SameSignNearest(a: F128, b: F128, subtract: bool)
    requires Normal(a) && Normal(b) && Sign(a) == EffectiveSign(b, subtract)
    requires ShiftDefined(a, b, subtract)
    requires BelowOverflow(Abs(Exact(a, b, subtract)))
    ensures var r := AddSub(a, b, subtract);
            var big, small := if Exp(a) < Exp(b) then b else a, if Exp(a) < Exp(b) then a else b;
            && Normal(r)
            && (Nearest(r, Abs(Exact(a, b, subtract))) <==> SumRounds(Sig(big), Sig(small), Exp(big) - Exp(small)))
  {
    hide Shl, Aligned, AddSub, Renormalized, SumRounds, Nearest, Exact, BelowOverflow;
    ExactMagnitude(a, b, subtract);
    SameSignArm(a, b, subtract);
    if Exp(a) >= Exp(b) {
      AddNearest(Sign(a), Exp(a), Sig(a), Exp(b), Sig(b));
    } else {
      AddNearest(Sign(a), Exp(b), Sig(b), Exp(a), Sig(a));
    }
  }

  // ---- opposite signs -----------------------------------------------------------------

  /** The condition under which an opposite-sign result is rounded correctly. */
  predicate DifferenceRounds(big: nat, small: nat, gap: nat) {
    var diff, low, unit := big - Shr(small, gap), Low(small, gap), Shl(1, gap);
    if diff > TWO_112 then 2 * low < unit || (2 * low == unit && diff % 2 == 0)
    else 4 * low <= unit
  }

  /** Comparing a multiple of the dropped bits with one last place. */
  lemma FractionOrder(c: nat, low: nat, gap: nat, e: nat)
    ensures c * Shl(low, e) <= Shl(1, e + gap) <==> c * low <= Shl(1, gap)
    ensures c * Shl(low, e) == Shl(1, e + gap) <==> c * low == Shl(1, gap)
  {
    hide Shl;
    ShlShl(1, gap, e);
    ShlTimes(c, low, e);
    ShlOrder(c * low, Shl(1, gap), e);
    ShlOrder(Shl(1, gap), c * low, e);
  }

  /** No leading bit cancels: the result has the exponent of the larger operand. */
  lemma WideDifference(r: F128, e: nat, gap: nat, low: nat, x: int)
    requires Normal(r) && Exp(r) == e + gap && x == Magnitude(r) - Shl(low, e) && AboveUnderflow(x)
    ensures Nearest(r, x) <==>
            if Sig(r) > TWO_112 then 2 * low < Shl(1, gap) || (2 * low == Shl(1, gap) && Sig(r) % 2 == 0)
            else 4 * low <= Shl(1, gap)
  {
    hide Shl, Sig, Exp, Nearest;
    ShlTimes(0, 0, e);
    ShlOrder(0, low, e);
    NearestFromBelow(r, x);
    FractionOrder(2, low, gap, e);
    FractionOrder(4, low, gap, e);
  }

  /** One leading bit cancels: the last place is half as large, and the result even. */
  lemma NarrowDifference(r: F128, e: nat, gap: nat, low: nat, x: int)
    requires Normal(r) && Exp(r) + 1 == e + gap && x == Magnitude(r) - Shl(low, e) && AboveUnderflow(x)
    requires Sig(r) > TWO_112 && Sig(r) % 2 == 0
    ensures Nearest(r, x) <==> 4 * low <= Shl(1, gap)
  {
    hide Shl, Sig, Exp, Nearest;
    ShlTimes(0, 0, e);
    ShlOrder(0, low, e);
    NearestFromBelow(r, x);
    FractionOrder(4, low, gap, e);
    ShlStep(1, Exp(r));
  }

  /** Exponents at most one apart: a dropped bit is worth a whole last place, or there is none. */
  lemma CloseDifference(r: F128, e: nat, gap: nat, low: nat, x: int)
    requires Normal(r) && Exp(r) < e + gap && x == Magnitude(r) - Shl(low, e) && AboveUnderflow(x)
    requires gap <= 1 && low < Shl(1, gap)
    ensures Nearest(r, x) <==> 4 * low <= Shl(1, gap)
  {
    assert Shl(1, gap) == if gap == 0 then 1 else 2;
    hide Shl, Sig, Exp, Nearest;
    ShlTimes(0, 0, e);
    NearestFromBelow(r, x);
    if low == 1 {
      assert Shl(1, Exp(r)) <= Shl(1, e) by {
        if Exp(r) < e { ShlGrows(1, Exp(r), e); }
      }
      ShlOrder(0, 1, Exp(r));
    }
  }

  /** With exponents two or more apart at most one leading bit cancels. */
  lemma OneBitCancels(big: nat, small: nat, gap: nat)
    requires IsSig(big) && IsSig(small) && gap >= 2 && big - Shr(small, gap) < TWO_112
    ensures var diff := big - Shr(small, gap);
            diff > 0 && BitLen(diff) == 112 && TopSig(diff) == 2 * diff > TWO_112
  {
    var q := Shr(small, gap);
    assert Shr(small / 2 / 2, gap - 2) == q <= small / 2 / 2;
    var diff := big - q;
    assert 2 * diff > TWO_112;
    hide Shl, Shr, TopSig;
    SigPowers();
    assert Shl(1, 112) == 2 * Shl(1, 111) by { ShlStep(1, 111); }
    BitLenBetween(diff, 111, 112);
    TopSigShift(diff);
    ShlStep(diff, 0);
  }

  lemma ShortBits(x: nat)
    requires 0 < x < TWO_112
    ensures BitLen(x) <= 112
  {
    assert Shl(1, 0) == 1;
    SigPowers();
    BitLenBetween(x, 0, 112);
  }

  lemma DifferenceFields(sign: nat, ebig: nat, big: nat, esmall: nat, small: nat)
    requires sign <= 1 && 1 <= esmall <= ebig < EXP_MASK && IsSig(big) && IsSig(small)
    requires esmall == ebig ==> small <= big
    requires AboveUnderflow(Shl(big, ebig) - Shl(small, esmall))
    ensures var r, diff := Difference(sign, ebig, big, esmall, small), big - Shr(small, ebig - esmall);
            && 0 < diff < TWO_113 && Exp(r) == ebig + BitLen(diff) - 113 && Sig(r) == TopSig(diff)
  {
    hide Shl, Shr, Renormalized, TopSig, Sig, Sign, Exp, BitLen;
    AlignedDifference(ebig, big, esmall, small);
    var diff := big - Shr(small, ebig - esmall);
    if ebig - esmall >= 128 {
      FarBelow(small, ebig - esmall);
      PackSigNormal(sign, ebig, big);
      SumTopSig(big);
    } else {
      RenormalizedExact(ebig, diff);
      RenormalizedFields(sign, ebig, diff);
    }
  }

  lemma SubNearest(sign: nat, ebig: nat, big: nat, esmall: nat, small: nat)
    requires sign <= 1 && 1 <= esmall <= ebig < EXP_MASK && IsSig(big) && IsSig(small)
    requires esmall == ebig ==> small <= big
    requires AboveUnderflow(Shl(big, ebig) - Shl(small, esmall))
    ensures var r, x := Difference(sign, ebig, big, esmall, small), Shl(big, ebig) - Shl(small, esmall);
            Normal(r) && (Nearest(r, x) <==> DifferenceRounds(big, small, ebig - esmall))
  {
    hide Shl, Shr, Low, Nearest, Sig, Exp, Sign, TopSig, BitLen, Difference, AboveUnderflow, Normal, Magnitude;
    var gap, x := ebig - esmall, Shl(big, ebig) - Shl(small, esmall);
    var r, diff, low := Difference(sign, ebig, big, esmall, small), big - Shr(small, gap), Low(small, gap);
    DifferenceExact(sign, ebig, big, esmall, small);
    DifferenceFields(sign, ebig, big, esmall, small);
    if diff >= TWO_112 {
      SumTopSig(diff);
      WideDifference(r, esmall, gap, low, x);
    } else if gap >= 2 {
      OneBitCancels(big, small, gap);
      NarrowDifference(r, esmall, gap, low, x);
    } else {
      ShortBits(diff);
      CloseDifference(r, esmall, gap, low, x);
    }
  }

  /** Which arm computes an opposite-sign result, with the operand of larger magnitude first. */
  lemma OppositeSignArm(a: F128, b: F128, subtract: bool)
    requires Normal(a) && Normal(b) && Sign(a) != EffectiveSign(b, subtract)
    ensures Magnitude(a) < Magnitude(b) ==>
              && Exp(a) <= Exp(b) && (Exp(a) == Exp(b) ==> Sig(a) <= Sig(b))
              && AddSub(a, b, subtract) == Difference(EffectiveSign(b, subtract), Exp(b), Sig(b), Exp(a), Sig(a))
    ensures Magnitude(a) >= Magnitude(b) ==>
              && Exp(b) <= Exp(a) && (Exp(a) == Exp(b) ==> Sig(b) <= Sig(a))
              && AddSub(a, b, subtract) == Difference(Sign(a), Exp(a), Sig(a), Exp(b), Sig(b))
    ensures Abs(Exact(a, b, subtract)) == Abs(Magnitude(a) - Magnitude(b))
  {
    hide Shl, Low, Difference, Sig, Exp;
    ZeroByFields(a);
    ZeroByFields(b);
    MagnitudeOrder(Exp(a), Sig(a), Exp(b), Sig(b));
  }

  /** A magnitude that is not below `x` truncates it only if it equals it. */
  lemma TruncatedFromBelow(r: F128, x: int)
    requires Normal(r) && x <= Magnitude(r)
    ensures TowardZero(r, x, 0) <==> Magnitude(r) == x
  {
    hide Shl, Sig, Exp;
    ShlOrder(Sig(r), Sig(r) + 1, Exp(r));
  }

  /** Nothing is shifted out exactly when the result is the truncated one. */
  lemma OppositeSignTruncates(a: F128, b: F128, subtract: bool)
    requires Normal(a) && Normal(b) && Sign(a) != EffectiveSign(b, subtract)
    requires AboveUnderflow(Abs(Exact(a, b, subtract)))
    ensures var r := AddSub(a, b, subtract);
            var big := if Magnitude(a) < Magnitude(b) then b else a;
            var small := if Magnitude(a) < Magnitude(b) then a else b;
            && Normal(r) && Exp(small) <= Exp(big)
            && (TowardZero(r, Abs(Exact(a, b, subtract)), 0) <==> Low(Sig(small), Exp(big) - Exp(small)) == 0)
  {
    OppositeSignSum(a, b, subtract);
    hide *;
    TruncatedFromBelow(AddSub(a, b, subtract), Abs(Exact(a, b, subtract)));
  }

  /**
   * An opposite-sign result is correctly rounded exactly when the bits shifted out of the smaller
   * operand meet `DifferenceRounds`, and truncated exactly when there are none.
   */
  lemma OppositeSignNearest(a: F128, b: F128, subtract: bool)
    requires Normal(a) && Normal(b) && Sign(a) != EffectiveSign(b, subtract)
    requires AboveUnderflow(Abs(Exact(a, b, subtract)))
    ensures var r, x := AddSub(a, b, subtract), Abs(Exact(a, b, subtract));
            var big := if Magnitude(a) < Magnitude(b) then b else a;
            var small := if Magnitude(a) < Magnitude(b) then a else b;
            && Normal(r) && Exp(small) <= Exp(big)
            && (Nearest(r, x) <==> DifferenceRounds(Sig(big), Sig(small), Exp(big) - Exp(small)))
            && (TowardZero(r, x, 0) <==> Low(Sig(small), Exp(big) - Exp(small)) == 0)
  {
    hide Shl, Low, Difference, AddSub, Exact, Nearest, Sig, Exp, Sign, DifferenceRounds;
    OppositeSignTruncates(a, b, subtract);
    OppositeSignArm(a, b, subtract);
    if Magnitude(a) < Magnitude(b) {
      SubNearest(EffectiveSign(b, subtract), Exp(b), Sig(b), Exp(a), Sig(a));
    } else {
      SubNearest(Sign(a), Exp(a), Sig(a), Exp(b), Sig(b));
    }
  }

  // ---- where the code does not round correctly ----------------------------------------

  /** Significands 2^112 and 2^112 + 3 in one binade: the tie goes to the odd neighbour. */
  lemma SumNotNearest()
    ensures var a, b, x := F128(0, 16383 * TWO_48), F128(3, 16383 * TWO_48), Shl(TWO_113 + 3, 16383);
            var r, nearest := F128(1, 16384 * TWO_48), F128(2, 16384 * TWO_48);
            && Normal(a) && Normal(b) && Exact(a, b, false) == x && AddSub(a, b, false) == r
            && !Nearest(r, x) && Nearest(nearest, x)
  {
    hide Shl, Nearest, Exact, AddSub, NearestEven;
    SumExample(F128(0, 16383 * TWO_48), F128(3, 16383 * TWO_48));
    TieExample(Shl(TWO_113 + 3, 16383), 16383);
    var r, nearest := F128(1, 16384 * TWO_48), F128(2, 16384 * TWO_48);
    assert Sig(r) == TWO_112 + 1 && Sig(nearest) == TWO_112 + 2 && Exp(r) == Exp(nearest) == 16384;
    NearestFromAbove(r, Shl(TWO_113 + 3, 16383));
    NearestFromBelow(nearest, Shl(TWO_113 + 3, 16383));
  }

  /** 2^112 + 3/2 is half-way between two neighbours of which the upper one is even. */
  lemma TieExample(x: int, k: nat)
    requires x == Shl(TWO_113 + 3, k) && k >= 1
    ensures Shl(TWO_112 + 1, k + 1) <= x <= Shl(TWO_112 + 2, k + 1) && AboveUnderflow(x)
    ensures !NearestEven(TWO_112 + 1, x, k + 1) && NearestEven(TWO_112 + 2, x, k + 1)
  {
    assert Shl(TWO_112, 1) == TWO_113;
    hide Shl;
    ShlAdd(TWO_113 + 3, 1, k);
    ShlAdd(TWO_113 + 2, 1, k);
    ShlTwice(TWO_112 + 1, k);
    ShlTwice(TWO_112 + 2, k);
    ShlStep(1, k);
  }

  lemma SumExample(a: F128, b: F128)
    requires a == F128(0, 16383 * TWO_48) && b == F128(3, 16383 * TWO_48)
    ensures Normal(a) && Normal(b) && Exact(a, b, false) == Shl(TWO_113 + 3, 16383)
    ensures AddSub(a, b, false) == F128(1, 16384 * TWO_48)
  {
    hide Shl, BitLen, TopSig;
    ZeroByFields(a);
    ZeroByFields(b);
    ShlAdd(TWO_112, TWO_112 + 3, 16383);
    SumTopSig(TWO_113 + 3);
  }

  /** Significands 2^112 + 2 and 2^112 + 3 two binades apart: the dropped bits exceed half a last place. */
  lemma DifferenceNotNearest()
    ensures var a, b := F128(2, 16384 * TWO_48), F128(3, 16382 * TWO_48);
            && Normal(a) && Normal(b) && Normal(AddSub(a, b, true))
            && !Nearest(AddSub(a, b, true), Abs(Exact(a, b, true)))
  {
    var a, b := F128(2, 16384 * TWO_48), F128(3, 16382 * TWO_48);
    assert Exp(a) == 16384 && Exp(b) == 16382 && Sig(a) == TWO_112 + 2 && Sig(b) == TWO_112 + 3;
    assert Sign(a) == 0 && EffectiveSign(b, true) == 1;
    assert Shr(TWO_112 + 3, 2) == TWO_112 / 4 by { assert Shr((TWO_112 + 3) / 2, 1) == TWO_112 / 4; }
    assert Shl(TWO_112 / 4, 2) == TWO_112 && Shl(1, 2) == 4 by {
      ShlStep(TWO_112 / 4, 1);
      ShlStep(1, 1);
    }
    assert Low(TWO_112 + 3, 2) == 3 && !DifferenceRounds(TWO_112 + 2, TWO_112 + 3, 2);
    DifferenceExample();
    hide *;
    OppositeSignNearest(a, b, true);
  }

  lemma DifferenceExample()
    ensures Shl(TWO_112 + 2, 16384) > Shl(TWO_112 + 3, 16382)
    ensures AboveUnderflow(Shl(TWO_112 + 2, 16384) - Shl(TWO_112 + 3, 16382))
  {
    hide Shl;
    ShlTwice(TWO_112 + 2, 16383);
    ShlTwice(2 * (TWO_112 + 2), 16382);
    ShlAdd(TWO_112 + 3, 4 * (TWO_112 + 2) - (TWO_112 + 3), 16382);
    ShlOrder(TWO_112, 4 * (TWO_112 + 2) - (TWO_112 + 3), 16382);
    ShlGrows(TWO_112, 1, 16382);
  }
}
