/** The field GF(2^8) modulo x^8 + x^4 + x^3 + x + 1, section 4.2 of FIPS 197. */
module GaloisField {
  function Add(a: bv8, b: bv8): bv8 { a ^ b }

  function Half(b: bv8): bv8 { b >> 1 }

  function Xtime(x: bv8): bv8 {
    (x << 1) ^ (if x & 0x80 != 0 then 0x1B else 0)
  }

  /** `a` when the low bit of `b` is set. */
  function Pick(a: bv8, b: bv8): bv8 {
    if b & 1 != 0 then a else 0
  }

  /** The sum of x^i * a over the set bits i < n of b. */
  function MulSteps(a: bv8, b: bv8, n: nat): bv8
    decreases n
  {
    if n == 0 then 0 else Add(Pick(a, b), MulSteps(Xtime(a), Half(b), n - 1))
  }

  function Mul(a: bv8, b: bv8): bv8 { MulSteps(a, b, 8) }

  method MulImpl(a0: bv8, b0: bv8) returns (r: bv8)
    ensures r == Mul(a0, b0)
  {
    hide Xtime, Add;
    var a, b := a0, b0;
    r := 0;
    AddZero(Mul(a0, b0));
    for i := 0 to 8
      invariant Add(r, MulSteps(a, b, 8 - i)) == Mul(a0, b0)
    {
      AddAssociates(r, Pick(a, b), MulSteps(Xtime(a), Half(b), 7 - i));
      AddZero(r);
      if b & 1 != 0 { r := Add(r, a); }
      a := Xtime(a);
      b := Half(b);
    }
    AddZero(r);
  }

  // ---------- ring laws ----------

  lemma AddZero(a: bv8)
    ensures Add(a, 0) == a && Add(0, a) == a && Add(a, a) == 0
  {
  }

  lemma AddCommutes(a: bv8, b: bv8)
    ensures Add(a, b) == Add(b, a)
  {
  }

  lemma AddAssociates(a: bv8, b: bv8, c: bv8)
    ensures Add(a, Add(b, c)) == Add(Add(a, b), c)
  {
  }

  lemma AddSwaps(a: bv8, b: bv8, c: bv8, d: bv8)
    ensures Add(Add(a, b), Add(c, d)) == Add(Add(a, c), Add(b, d))
  {
    hide Add;
    AddAssociates(Add(a, b), c, d);
    AddAssociates(a, b, c);
    AddCommutes(b, c);
    AddAssociates(a, c, b);
    AddAssociates(Add(a, c), b, d);
  }

  lemma ShiftXor(a: bv8, b: bv8)
    ensures (a ^ b) << 1 == (a << 1) ^ (b << 1) && (a ^ b) >> 1 == (a >> 1) ^ (b >> 1)
    ensures (a ^ b) & 0x80 == (a & 0x80) ^ (b & 0x80) && (a ^ b) & 1 == (a & 1) ^ (b & 1)
    ensures a & 0x80 == 0 || a & 0x80 == 0x80
    ensures a & 1 == 0 || a & 1 == 1
  {
  }

  lemma XtimeXor(a: bv8, b: bv8)
    ensures Xtime(a ^ b) == Xtime(a) ^ Xtime(b)
  {
    ShiftXor(a, b);
    ShiftXor(b, a);
    if a & 0x80 == 0 {
      if b & 0x80 == 0 { } else { }
    } else {
      if b & 0x80 == 0 { } else { }
    }
  }

  lemma XtimeAdds(a: bv8, b: bv8)
    ensures Xtime(Add(a, b)) == Add(Xtime(a), Xtime(b))
  {
    hide Xtime;
    XtimeXor(a, b);
  }

  lemma HalfAdds(a: bv8, b: bv8)
    ensures Half(Add(a, b)) == Add(Half(a), Half(b))
  {
  }

  lemma PickAdds(a: bv8, b: bv8, c: bv8)
    ensures Pick(Add(a, b), c) == Add(Pick(a, c), Pick(b, c))
  {
  }

  lemma PickAddsRight(a: bv8, c: bv8, d: bv8)
    ensures Pick(a, Add(c, d)) == Add(Pick(a, c), Pick(a, d))
  {
    ShiftXor(c, d);
    ShiftXor(d, c);
    if c & 1 == 0 { } else { }
  }

  lemma {:induction false} MulAddsRight(a: bv8, c: bv8, d: bv8, n: nat)
    ensures MulSteps(a, Add(c, d), n) == Add(MulSteps(a, c, n), MulSteps(a, d, n))
    decreases n
  {
    if n == 0 {
    } else {
      hide Pick, Xtime, Half, Add;
      PickAddsRight(a, c, d);
      HalfAdds(c, d);
      MulAddsRight(Xtime(a), Half(c), Half(d), n - 1);
      AddSwaps(Pick(a, c), Pick(a, d), MulSteps(Xtime(a), Half(c), n - 1), MulSteps(Xtime(a), Half(d), n - 1));
    }
  }

  lemma {:induction false} MulAddsLeft(a: bv8, b: bv8, c: bv8, n: nat)
    ensures MulSteps(Add(a, b), c, n) == Add(MulSteps(a, c, n), MulSteps(b, c, n))
    decreases n
  {
    if n == 0 {
    } else {
      hide Pick, Xtime, Half, Add;
      PickAdds(a, b, c);
      XtimeAdds(a, b);
      MulAddsLeft(Xtime(a), Xtime(b), Half(c), n - 1);
      AddSwaps(Pick(a, c), Pick(b, c), MulSteps(Xtime(a), Half(c), n - 1), MulSteps(Xtime(b), Half(c), n - 1));
    }
  }

  lemma XtimePick(a: bv8, c: bv8)
    ensures Xtime(Pick(a, c)) == Pick(Xtime(a), c)
  {
  }

  lemma {:induction false} MulXtime(a: bv8, c: bv8, n: nat)
    ensures MulSteps(Xtime(a), c, n) == Xtime(MulSteps(a, c, n))
    decreases n
  {
    if n == 0 {
    } else {
      hide Pick, Xtime, Half, Add;
      XtimePick(a, c);
      MulXtime(Xtime(a), Half(c), n - 1);
      XtimeAdds(Pick(a, c), MulSteps(Xtime(a), Half(c), n - 1));
    }
  }

  lemma {:induction false} MulZero(c: bv8, n: nat)
    ensures MulSteps(0, c, n) == 0
    decreases n
  {
    if n == 0 {
    } else {
      MulZero(Half(c), n - 1);
    }
  }

  lemma MulOfSum(a: bv8, b: bv8, c: bv8)
    ensures Mul(Add(a, b), c) == Add(Mul(a, c), Mul(b, c))
    ensures Mul(c, Add(a, b)) == Add(Mul(c, a), Mul(c, b))
  {
    MulAddsLeft(a, b, c, 8);
    MulAddsRight(c, a, b, 8);
  }

  lemma MulOfXtime(a: bv8, c: bv8)
    ensures Mul(Xtime(a), c) == Xtime(Mul(a, c))
  {
    MulXtime(a, c, 8);
  }

  lemma MulOfPick(a: bv8, b: bv8, c: bv8)
    ensures Mul(Pick(a, b), c) == Pick(Mul(a, c), b)
    ensures Mul(0, c) == 0
  {
    MulZero(c, 8);
    hide MulSteps;
    if b & 1 != 0 { } else { }
  }

  /** Two factors can be multiplied in either order onto a third. */
  lemma {:induction false} MulReorders(a: bv8, b: bv8, c: bv8, n: nat)
    ensures Mul(MulSteps(c, b, n), a) == MulSteps(Mul(c, a), b, n)
    decreases n
  {
    hide Xtime, Half, Add, Mul, Pick;
    if n == 0 {
      MulOfPick(a, b, a);
    } else {
      var rest := MulSteps(Xtime(c), Half(b), n - 1);
      MulReorders(a, Half(b), Xtime(c), n - 1);
      MulOfSum(Pick(c, b), rest, a);
      MulOfPick(c, b, a);
      MulOfXtime(c, a);
    }
  }

  /** Every element is its low bit plus x times the rest. */
  lemma Horner(b: bv8)
    ensures Add(Pick(1, b), Xtime(Half(b))) == b
  {
  }

  /** `b` has no bit at position `n` or above. */
  predicate Fits(b: bv8, n: nat)
    decreases n
  {
    if n == 0 then b == 0 else Fits(Half(b), n - 1)
  }

  lemma AllFit(b: bv8)
    ensures Fits(b, 8)
  {
    var b4 := Half(Half(Half(Half(b))));
    assert Half(Half(Half(Half(b4)))) == 0;
    assert Fits(b4, 4);
    assert Fits(Half(Half(b)), 6);
  }

  lemma {:induction false} OneTimes(b: bv8, n: nat)
    requires Fits(b, n)
    ensures MulSteps(1, b, n) == b
    decreases n
  {
    if n == 0 {
    } else {
      hide Pick, Xtime, Half, Add;
      OneTimes(Half(b), n - 1);
      MulXtime(1, Half(b), n - 1);
      Horner(b);
    }
  }

  lemma MulOne(b: bv8)
    ensures Mul(1, b) == b && Mul(b, 1) == b
  {
    hide MulSteps, Fits;
    AllFit(b);
    OneTimes(b, 8);
    MulCommutes(1, b);
  }

  lemma MulCommutes(a: bv8, b: bv8)
    ensures Mul(a, b) == Mul(b, a)
  {
    hide MulSteps, Fits;
    AllFit(a); AllFit(b);
    OneTimes(a, 8); OneTimes(b, 8);
    MulReorders(a, b, 1, 8);
  }

  lemma MulAssociates(a: bv8, b: bv8, c: bv8)
    ensures Mul(Mul(a, b), c) == Mul(a, Mul(b, c))
  {
    hide MulSteps;
    MulReorders(c, a, b, 8);
    MulCommutes(a, b);
    MulCommutes(a, Mul(b, c));
  }

  // ---------- squares and inverses ----------

  /** Squaring, which is linear. */
  function Square(a: bv8): bv8 {
    Pick(0x01, a) ^ Pick(0x04, a >> 1) ^ Pick(0x10, a >> 2) ^ Pick(0x40, a >> 3)
    ^ Pick(0x1B, a >> 4) ^ Pick(0x6C, a >> 5) ^ Pick(0xAB, a >> 6) ^ Pick(0x9A, a >> 7)
  }

  lemma SquareHorner(a: bv8)
    ensures Square(a) == Add(Pick(1, a), Xtime(Xtime(Square(Half(a)))))
    ensures Square(0) == 0
  {
  }

  lemma SquareFixes(e: bv8)
    requires Square(e) == e
    ensures e == 0 || e == 1
  {
  }

  lemma SumSquared(a: bv8, b: bv8)
    ensures Mul(Add(a, b), Add(a, b)) == Add(Mul(a, a), Mul(b, b))
  {
    hide Mul, Add;
    MulOfSum(a, b, Add(a, b));
    MulOfSum(a, b, a);
    MulOfSum(a, b, b);
    MulCommutes(a, b);
    AddCommutes(Mul(a, b), Mul(b, b));
    AddSwaps(Mul(a, a), Mul(a, b), Mul(b, b), Mul(a, b));
    AddZero(Mul(a, b));
    AddZero(Add(Mul(a, a), Mul(b, b)));
  }

  lemma {:induction false} SquareIs(a: bv8, n: nat)
    requires Fits(a, n)
    ensures Mul(a, a) == Square(a)
    decreases n
  {
    hide Pick, Xtime, Half, Add, Mul, Square;
    SquareHorner(a);
    if n == 0 {
      MulOfPick(0, 0, 0);
    } else {
      var h := Half(a);
      SquareIs(h, n - 1);
      Horner(a);
      SumSquared(Pick(1, a), Xtime(h));
      MulOfXtime(h, Xtime(h));
      MulCommutes(h, Xtime(h));
      MulOfXtime(h, h);
      BitSquared(a);
    }
  }

  lemma BitSquared(a: bv8)
    ensures Mul(Pick(1, a), Pick(1, a)) == Pick(1, a)
  {
    hide Mul;
    MulOne(1);
    MulOfPick(1, a, 0);
  }

  function Power(a: bv8, n: nat): bv8 {
    if n == 0 then 1 else Mul(a, Power(a, n - 1))
  }

  lemma {:induction false} PowerAdds(a: bv8, m: nat, n: nat)
    ensures Power(a, m + n) == Mul(Power(a, m), Power(a, n))
  {
    hide Mul;
    if m == 0 {
      MulOne(Power(a, n));
    } else {
      PowerAdds(a, m - 1, n);
      MulAssociates(a, Power(a, m - 1), Power(a, n));
    }
  }

  lemma {:induction false} PowerOfSquare(a: bv8, n: nat)
    ensures Power(Mul(a, a), n) == Power(a, 2 * n)
  {
    hide Mul;
    if n > 0 {
      PowerOfSquare(a, n - 1);
      MulAssociates(a, a, Power(a, 2 * n - 2));
      assert Power(a, 2 * n) == Mul(a, Power(a, 2 * n - 1)) == Mul(a, Mul(a, Power(a, 2 * n - 2)));
    }
  }

  /** Square and multiply computes the power. */
  method PowImpl(a0: bv8, e0: int) returns (r: bv8)
    ensures r == if e0 > 0 then Power(a0, e0) else 1
  {
    hide Mul;
    if e0 <= 0 { return 1; }
    var a, e := a0, e0;
    r := 1;
    MulOne(Power(a, e));
    while e > 0
      invariant e >= 0 && Mul(r, Power(a, e)) == Power(a0, e0)
    {
      PowerOfSquare(a, e / 2);
      if e % 2 == 1 {
        MulAssociates(r, a, Power(a, e - 1));
        r := MulImpl(r, a);
      }
      a := MulImpl(a, a);
      e := e / 2;
    }
    MulOne(r);
  }

  /** `a` squared `k` times. */
  function Frobenius(a: bv8, k: nat): bv8
    decreases k
  {
    if k == 0 then a else Frobenius(Mul(a, a), k - 1)
  }

  lemma {:induction false} FrobeniusAdds(a: bv8, b: bv8, k: nat)
    ensures Frobenius(Add(a, b), k) == Add(Frobenius(a, k), Frobenius(b, k))
    decreases k
  {
    hide Mul, Add;
    if k > 0 {
      SumSquared(a, b);
      FrobeniusAdds(Mul(a, a), Mul(b, b), k - 1);
    }
  }

  lemma {:induction false} FrobeniusMultiplies(a: bv8, b: bv8, k: nat)
    ensures Frobenius(Mul(a, b), k) == Mul(Frobenius(a, k), Frobenius(b, k))
    decreases k
  {
    hide Mul;
    if k > 0 {
      assert Mul(Mul(a, b), Mul(a, b)) == Mul(Mul(a, a), Mul(b, b)) by {
        MulAssociates(a, b, Mul(a, b));
        MulAssociates(b, a, b);
        MulCommutes(a, b);
        MulAssociates(a, b, b);
        MulAssociates(a, a, Mul(b, b));
      }
      FrobeniusMultiplies(Mul(a, a), Mul(b, b), k - 1);
    }
  }

  lemma TimesTwo(a: bv8)
    ensures Mul(2, a) == Xtime(a) && Mul(a, 2) == Xtime(a)
  {
    hide Mul, Add;
    MulOne(a);
    MulOfXtime(1, a);
    MulCommutes(2, a);
  }

  /** The eight squarings of x. */
  lemma FrobeniusOfTwo()
    ensures Frobenius(2, 8) == 2
  {
    hide Mul, Pick;
    forall c: bv8 ensures Mul(c, c) == Square(c) { AllFit(c); SquareIs(c, 8); }
    assert Mul(0x02, 0x02) == 0x04 && Mul(0x04, 0x04) == 0x10 by { SquareConstants(); }
    assert Mul(0x10, 0x10) == 0x1B && Mul(0x1B, 0x1B) == 0x5E by { SquareConstants(); }
    assert Mul(0x5E, 0x5E) == 0xE4 && Mul(0xE4, 0xE4) == 0x4D by { SquareConstants(); }
    assert Mul(0x4D, 0x4D) == 0xFA && Mul(0xFA, 0xFA) == 0x02 by { SquareConstants(); }
    assert Frobenius(0x04, 7) == Frobenius(0x10, 6) == Frobenius(0x1B, 5) == Frobenius(0x5E, 4);
    assert Frobenius(0x5E, 4) == Frobenius(0xE4, 3) == Frobenius(0x4D, 2) == Frobenius(0xFA, 1) == Frobenius(2, 0);
  }

  lemma SquareConstants()
    ensures Square(0x02) == 0x04 && Square(0x04) == 0x10 && Square(0x10) == 0x1B && Square(0x1B) == 0x5E
    ensures Square(0x5E) == 0xE4 && Square(0xE4) == 0x4D && Square(0x4D) == 0xFA && Square(0xFA) == 0x02
  {
  }

  /** Eight squarings are the identity: a^256 == a. */
  lemma {:induction false} FrobeniusIsIdentity(a: bv8, n: nat)
    requires Fits(a, n)
    ensures Frobenius(a, 8) == a
    decreases n
  {
    hide Pick, Xtime, Half, Add, Mul, Frobenius;
    if n == 0 {
      ConstantsFixed();
    } else {
      FrobeniusIsIdentity(Half(a), n - 1);
      Horner(a);
      TimesTwo(Half(a));
      FrobeniusAdds(Pick(1, a), Xtime(Half(a)), 8);
      FrobeniusMultiplies(2, Half(a), 8);
      FrobeniusOfTwo();
      ConstantsFixed();
      PickOne(a);
    }
  }

  lemma PickOne(a: bv8)
    ensures Pick(1, a) == 0 || Pick(1, a) == 1
  {
  }

  lemma {:induction false} BitFixed(c: bv8, k: nat)
    requires c == 0 || c == 1
    ensures Frobenius(c, k) == c
    decreases k
  {
    hide Mul;
    MulOne(c);
    MulOfPick(0, 0, 0);
    if k > 0 { BitFixed(c, k - 1); }
  }

  lemma ConstantsFixed()
    ensures Frobenius(0, 8) == 0 && Frobenius(1, 8) == 1
  {
    BitFixed(0, 8);
    BitFixed(1, 8);
  }

  lemma {:induction false} FrobeniusIsPower(a: bv8, k: nat, n: nat)
    requires n == TwoTo(k)
    ensures Frobenius(a, k) == Power(a, n)
    decreases k
  {
    hide Mul;
    if k == 0 {
      MulOne(a);
      assert Power(a, 1) == Mul(a, Power(a, 0));
    } else {
      FrobeniusIsPower(Mul(a, a), k - 1, TwoTo(k - 1));
      PowerOfSquare(a, TwoTo(k - 1));
    }
  }

  function TwoTo(k: nat): nat { if k == 0 then 1 else 2 * TwoTo(k - 1) }

  /** The multiplicative inverse; 0 is sent to itself, section 5.1.1 of FIPS 197. */
  function Inverse(a: bv8): bv8 { Power(a, 254) }

  lemma FermatLittle(a: bv8)
    ensures Power(a, 256) == a
  {
    hide Mul, Power;
    AllFit(a);
    FrobeniusIsIdentity(a, 8);
    assert TwoTo(4) == 16 && TwoTo(8) == 256;
    FrobeniusIsPower(a, 8, 256);
  }

  lemma InverseMultiplies(a: bv8)
    ensures a != 0 ==> Mul(a, Inverse(a)) == 1
    ensures Inverse(0) == 0
  {
    hide Mul, Power;
    var e := Power(a, 255);
    FermatLittle(a);
    PowerStep(a, 254);
    PowerStep(a, 255);
    // e is idempotent, so it is 0 or 1; it is not 0 because a * e == a
    PowerAdds(a, 255, 255);
    PowerAdds(a, 256, 254);
    AllFit(e);
    SquareIs(e, 8);
    SquareFixes(e);
    MulOfPick(0, 0, a);
    MulCommutes(a, 0);
    ZeroPower();
  }

  lemma PowerStep(a: bv8, n: nat)
    ensures Power(a, n + 1) == Mul(a, Power(a, n))
  {
  }

  lemma ZeroPower()
    ensures Power(0, 254) == 0
  {
    hide Mul;
    PowerStep(0, 253);
    MulOfPick(0, 0, Power(0, 253));
  }

  /** The only solution of a * b == 1. */
  lemma InverseIsUnique(a: bv8, b: bv8)
    requires Mul(a, b) == 1
    ensures b == Inverse(a)
  {
    hide Mul, Inverse;
    InverseMultiplies(a);
    MulOfPick(0, 0, b);
    MulAssociates(b, a, Inverse(a));
    MulCommutes(a, b);
    MulOne(b);
    MulOne(Inverse(a));
  }

  lemma InverseTwice(a: bv8)
    ensures Inverse(Inverse(a)) == a
  {
    hide Mul, Inverse;
    InverseMultiplies(a);
    if a != 0 {
      MulCommutes(a, Inverse(a));
      InverseIsUnique(Inverse(a), a);
    }
  }
}
