/** What the functions of section 4.1.2 of FIPS 180-4 do to bits, and what a round does to its inputs. */
module Sha256Laws {
  import opened Sha256

  // ---------- bits ----------

  /** Bit `i`; the index counts modulo 32. */
  predicate Bit(x: bv32, i: bv5) { (x >> i) & 1 == 1 }

  // The operations as named functions, and what they do to bits.

  function Xor3(p: bv32, q: bv32, r: bv32): bv32 { p ^ q ^ r }

  function And2(p: bv32, q: bv32): bv32 { p & q }

  lemma RawXor(p: bv32, q: bv32, r: bv32, i: bv5)
    ensures Bit(p ^ q ^ r, i) == ((Bit(p, i) != Bit(q, i)) != Bit(r, i))
  {
  }

  lemma Xor3Bits(p: bv32, q: bv32, r: bv32, i: bv5)
    ensures Bit(Xor3(p, q, r), i) == ((Bit(p, i) != Bit(q, i)) != Bit(r, i))
  {
    RawXor(p, q, r, i);
    hide Bit;
  }

  lemma RawAnd(p: bv32, q: bv32, i: bv5)
    ensures Bit(p & q, i) == (Bit(p, i) && Bit(q, i))
  {
  }

  lemma And2Bits(p: bv32, q: bv32, i: bv5)
    ensures Bit(And2(p, q), i) == (Bit(p, i) && Bit(q, i))
  {
    RawAnd(p, q, i);
    hide Bit;
  }

  lemma And2Is(p: bv32, q: bv32)
    ensures And2(p, q) == p & q
  {
  }

  lemma RawChoice(x: bv32, y: bv32, z: bv32, i: bv5)
    ensures Bit((x & y) ^ (!x & z), i) == if Bit(x, i) then Bit(y, i) else Bit(z, i)
  {
  }

  /** A bit of y where x is set and of z elsewhere. */
  lemma ChBits(x: bv32, y: bv32, z: bv32, i: bv5)
    ensures Bit(Ch(x, y, z), i) == if Bit(x, i) then Bit(y, i) else Bit(z, i)
  {
    hide Bit;
    RawChoice(x, y, z, i);
  }

  lemma MajRaw(x: bv32, y: bv32, z: bv32)
    ensures Maj(x, y, z) == Xor3(x & y, x & z, y & z)
  {
  }

  lemma MajIs(x: bv32, y: bv32, z: bv32)
    ensures Maj(x, y, z) == Xor3(And2(x, y), And2(x, z), And2(y, z))
  {
    hide Maj, Xor3, And2;
    MajRaw(x, y, z);
    And2Is(x, y); And2Is(x, z); And2Is(y, z);
  }

  /** Set where at least two are. */
  lemma MajBits(x: bv32, y: bv32, z: bv32, i: bv5)
    ensures var a, b, c := Bit(x, i), Bit(y, i), Bit(z, i);
            Bit(Maj(x, y, z), i) == ((a && b) || (a && c) || (b && c))
  {
    hide Bit, Maj, Xor3, And2;
    MajIs(x, y, z);
    And2Bits(x, y, i); And2Bits(x, z, i); And2Bits(y, z, i);
    Xor3Bits(And2(x, y), And2(x, z), And2(y, z), i);
  }

  // A rotation reads further up.

  lemma RawRotation2(x: bv32, i: bv5)
    ensures Bit((x >> 2) | (x << 30), i) == Bit(x, i + 2)
  {
  }

  lemma RotR2Bits(x: bv32, i: bv5)
    ensures Bit(RotR(x, 2), i) == Bit(x, i + 2)
  {
    RawRotation2(x, i);
    hide Bit;
  }

  lemma RawRotation6(x: bv32, i: bv5)
    ensures Bit((x >> 6) | (x << 26), i) == Bit(x, i + 6)
  {
  }

  lemma RotR6Bits(x: bv32, i: bv5)
    ensures Bit(RotR(x, 6), i) == Bit(x, i + 6)
  {
    RawRotation6(x, i);
    hide Bit;
  }

  lemma RawRotation7(x: bv32, i: bv5)
    ensures Bit((x >> 7) | (x << 25), i) == Bit(x, i + 7)
  {
  }

  lemma RotR7Bits(x: bv32, i: bv5)
    ensures Bit(RotR(x, 7), i) == Bit(x, i + 7)
  {
    RawRotation7(x, i);
    hide Bit;
  }

  lemma RawRotation11(x: bv32, i: bv5)
    ensures Bit((x >> 11) | (x << 21), i) == Bit(x, i + 11)
  {
  }

  lemma RotR11Bits(x: bv32, i: bv5)
    ensures Bit(RotR(x, 11), i) == Bit(x, i + 11)
  {
    RawRotation11(x, i);
    hide Bit;
  }

  lemma RawRotation13(x: bv32, i: bv5)
    ensures Bit((x >> 13) | (x << 19), i) == Bit(x, i + 13)
  {
  }

  lemma RotR13Bits(x: bv32, i: bv5)
    ensures Bit(RotR(x, 13), i) == Bit(x, i + 13)
  {
    RawRotation13(x, i);
    hide Bit;
  }

  lemma RawRotation17(x: bv32, i: bv5)
    ensures Bit((x >> 17) | (x << 15), i) == Bit(x, i + 17)
  {
  }

  lemma RotR17Bits(x: bv32, i: bv5)
    ensures Bit(RotR(x, 17), i) == Bit(x, i + 17)
  {
    RawRotation17(x, i);
    hide Bit;
  }

  lemma RawRotation18(x: bv32, i: bv5)
    ensures Bit((x >> 18) | (x << 14), i) == Bit(x, i + 18)
  {
  }

  lemma RotR18Bits(x: bv32, i: bv5)
    ensures Bit(RotR(x, 18), i) == Bit(x, i + 18)
  {
    RawRotation18(x, i);
    hide Bit;
  }

  lemma RawRotation19(x: bv32, i: bv5)
    ensures Bit((x >> 19) | (x << 13), i) == Bit(x, i + 19)
  {
  }

  lemma RotR19Bits(x: bv32, i: bv5)
    ensures Bit(RotR(x, 19), i) == Bit(x, i + 19)
  {
    RawRotation19(x, i);
    hide Bit;
  }

  lemma RawRotation22(x: bv32, i: bv5)
    ensures Bit((x >> 22) | (x << 10), i) == Bit(x, i + 22)
  {
  }

  lemma RotR22Bits(x: bv32, i: bv5)
    ensures Bit(RotR(x, 22), i) == Bit(x, i + 22)
  {
    RawRotation22(x, i);
    hide Bit;
  }

  lemma RawRotation25(x: bv32, i: bv5)
    ensures Bit((x >> 25) | (x << 7), i) == Bit(x, i + 25)
  {
  }

  lemma RotR25Bits(x: bv32, i: bv5)
    ensures Bit(RotR(x, 25), i) == Bit(x, i + 25)
  {
    RawRotation25(x, i);
    hide Bit;
  }

  lemma BigSigma0Is(x: bv32)
    ensures BigSigma0(x) == Xor3(RotR(x, 2), RotR(x, 13), RotR(x, 22))
  {
    hide RotR;
  }

  lemma BigSigma0Bits(x: bv32, i: bv5)
    ensures Bit(BigSigma0(x), i) == ((Bit(x, i + 2) != Bit(x, i + 13)) != Bit(x, i + 22))
  {
    hide Bit, RotR, BigSigma0, Xor3;
    BigSigma0Is(x);
    Xor3Bits(RotR(x, 2), RotR(x, 13), RotR(x, 22), i);
    RotR2Bits(x, i); RotR13Bits(x, i); RotR22Bits(x, i);
  }

  lemma BigSigma1Is(x: bv32)
    ensures BigSigma1(x) == Xor3(RotR(x, 6), RotR(x, 11), RotR(x, 25))
  {
    hide RotR;
  }

  lemma BigSigma1Bits(x: bv32, i: bv5)
    ensures Bit(BigSigma1(x), i) == ((Bit(x, i + 6) != Bit(x, i + 11)) != Bit(x, i + 25))
  {
    hide Bit, RotR, BigSigma1, Xor3;
    BigSigma1Is(x);
    Xor3Bits(RotR(x, 6), RotR(x, 11), RotR(x, 25), i);
    RotR6Bits(x, i); RotR11Bits(x, i); RotR25Bits(x, i);
  }

  lemma ShiftR3Bits(x: bv32, i: bv5)
    ensures Bit(x >> 3, i) == (i < 29 && Bit(x, i + 3))
  {
  }

  lemma SmallSigma0Is(x: bv32)
    ensures SmallSigma0(x) == Xor3(RotR(x, 7), RotR(x, 18), x >> 3)
  {
    hide RotR;
  }

  /** The last term is shifted, not rotated. */
  lemma SmallSigma0Bits(x: bv32, i: bv5)
    ensures Bit(SmallSigma0(x), i) == ((Bit(x, i + 7) != Bit(x, i + 18)) != (i < 29 && Bit(x, i + 3)))
  {
    hide Bit, RotR, SmallSigma0, Xor3;
    SmallSigma0Is(x);
    Xor3Bits(RotR(x, 7), RotR(x, 18), x >> 3, i);
    RotR7Bits(x, i); RotR18Bits(x, i); ShiftR3Bits(x, i);
  }

  lemma ShiftR10Bits(x: bv32, i: bv5)
    ensures Bit(x >> 10, i) == (i < 22 && Bit(x, i + 10))
  {
  }

  lemma SmallSigma1Is(x: bv32)
    ensures SmallSigma1(x) == Xor3(RotR(x, 17), RotR(x, 19), x >> 10)
  {
    hide RotR;
  }

  /** The last term is shifted, not rotated. */
  lemma SmallSigma1Bits(x: bv32, i: bv5)
    ensures Bit(SmallSigma1(x), i) == ((Bit(x, i + 17) != Bit(x, i + 19)) != (i < 22 && Bit(x, i + 10)))
  {
    hide Bit, RotR, SmallSigma1, Xor3;
    SmallSigma1Is(x);
    Xor3Bits(RotR(x, 17), RotR(x, 19), x >> 10, i);
    RotR17Bits(x, i); RotR19Bits(x, i); ShiftR10Bits(x, i);
  }

  // ---------- sums and differences modulo 2^32 ----------

  function Minus(x: bv32, y: bv32): bv32 { x - y }

  lemma PlusIs(x: bv32, y: bv32)
    ensures Plus(x, y) == x + y
  {
  }

  lemma SumIs(x: bv32, y: bv32, z: bv32, p: bv32)
    requires p == Plus(x, y)
    ensures Plus(p, z) == Plus(x + y, z) && Plus(z, p) == Plus(z, x + y)
  {
    PlusIs(x, y);
    hide Plus;
  }

  lemma RawSum(x: bv32, y: bv32, z: bv32)
    ensures Plus(x + y, z) == x + y + z && Plus(z, x + y) == x + y + z
  {
  }

  lemma RawMinus(x: bv32, y: bv32)
    ensures Minus(x + y, y) == x && Minus(x + y, x) == y
  {
  }

  lemma PlusUndone(x: bv32, y: bv32)
    ensures Minus(Plus(x, y), y) == x && Minus(Plus(x, y), x) == y
  {
    hide Plus, Minus;
    PlusIs(x, y);
    RawMinus(x, y);
  }

  lemma MinusIs(x: bv32, y: bv32)
    ensures Minus(x, y) == x - y
  {
  }

  lemma RawPlus(x: bv32, y: bv32)
    ensures Plus(x - y, y) == x && Plus(y, x - y) == x
  {
  }

  lemma MinusUndone(x: bv32, y: bv32)
    ensures Plus(Minus(x, y), y) == x && Plus(y, Minus(x, y)) == x
  {
    hide Plus, Minus;
    MinusIs(x, y);
    RawPlus(x, y);
  }

  lemma RawDifference(s: bv32, x: bv32, x': bv32, t: bv32)
    ensures Minus(s + x + t, s + x' + t) == Minus(x, x')
  {
  }

  /** Sums that differ in one term differ as that term does. */
  lemma TermShows(s: bv32, x: bv32, x': bv32, t: bv32)
    ensures Minus(Plus(Plus(s, x), t), Plus(Plus(s, x'), t)) == Minus(x, x')
    ensures Minus(Plus(t, Plus(s, x)), Plus(t, Plus(s, x'))) == Minus(x, x')
  {
    hide Plus, Minus;
    SumIs(s, x, t, Plus(s, x));
    SumIs(s, x', t, Plus(s, x'));
    RawSum(s, x, t);
    RawSum(s, x', t);
    RawDifference(s, x, x', t);
  }

  lemma PlusSwaps(s: bv32, x: bv32, y: bv32)
    ensures Plus(Plus(s, x), y) == Plus(Plus(s, y), x)
  {
    hide Plus;
    SumIs(s, x, y, Plus(s, x));
    SumIs(s, y, x, Plus(s, y));
    RawSum(s, x, y);
    RawSum(s, y, x);
  }

  // ---------- one round ----------

  /** Schedule words that differ show by their difference in both new variables, and nowhere else. */
  lemma WordShows(v: Vars, k: bv32, w: bv32, w': bv32)
    ensures var r, r' := Round(v, k, w), Round(v, k, w');
      && Minus(r.a, r'.a) == Minus(w, w') && Minus(r.e, r'.e) == Minus(w, w')
      && r == r'.(a := r.a, e := r.e)
  {
    hide Plus, Minus, BigSigma0, BigSigma1, Ch, Maj;
    var s := Plus(Plus(Plus(v.h, BigSigma1(v.e)), Ch(v.e, v.f, v.g)), k);
    TermShows(s, w, w', T2(v));
    TermShows(s, w, w', v.d);
  }

  /** Likewise for round constants. */
  lemma ConstantShows(v: Vars, k: bv32, k': bv32, w: bv32)
    ensures var r, r' := Round(v, k, w), Round(v, k', w);
      && Minus(r.a, r'.a) == Minus(k, k') && Minus(r.e, r'.e) == Minus(k, k')
      && r == r'.(a := r.a, e := r.e)
  {
    hide Plus, Minus, BigSigma0, BigSigma1, Ch, Maj;
    var s := Plus(Plus(v.h, BigSigma1(v.e)), Ch(v.e, v.f, v.g));
    PlusSwaps(s, k, w);
    PlusSwaps(s, k', w);
    TermShows(Plus(s, w), k, k', T2(v));
    TermShows(Plus(s, w), k, k', v.d);
  }

  /** The variables before a round from those after it. */
  function Unround(v: Vars, k: bv32, w: bv32): Vars {
    var t1 := Minus(v.a, Plus(BigSigma0(v.b), Maj(v.b, v.c, v.d)));
    var h := Minus(Minus(Minus(Minus(t1, w), k), Ch(v.f, v.g, v.h)), BigSigma1(v.f));
    Vars(v.b, v.c, v.d, Minus(v.e, t1), v.f, v.g, v.h, h)
  }

  /** A round is a permutation of the variables, for every constant and every schedule word. */
  lemma RoundInverts(v: Vars, k: bv32, w: bv32)
    ensures Unround(Round(v, k, w), k, w) == v
    ensures Round(Unround(v, k, w), k, w) == v
  {
    UndoesRound(v, k, w);
    RedoesRound(v, k, w);
  }

  lemma UndoesRound(v: Vars, k: bv32, w: bv32)
    ensures Unround(Round(v, k, w), k, w) == v
  {
    hide Plus, Minus, BigSigma0, BigSigma1, Ch, Maj;
    var s1 := Plus(v.h, BigSigma1(v.e));
    var s2 := Plus(s1, Ch(v.e, v.f, v.g));
    var s3 := Plus(s2, k);
    var t1 := Plus(s3, w);
    PlusUndone(t1, T2(v)); PlusUndone(v.d, t1);
    PlusUndone(s3, w); PlusUndone(s2, k); PlusUndone(s1, Ch(v.e, v.f, v.g)); PlusUndone(v.h, BigSigma1(v.e));
  }

  lemma RedoesRound(v: Vars, k: bv32, w: bv32)
    ensures Round(Unround(v, k, w), k, w) == v
  {
    hide Plus, Minus, BigSigma0, BigSigma1, Ch, Maj;
    var t2 := Plus(BigSigma0(v.b), Maj(v.b, v.c, v.d));
    var t1 := Minus(v.a, t2);
    var s3 := Minus(t1, w);
    var s2 := Minus(s3, k);
    var s1 := Minus(s2, Ch(v.f, v.g, v.h));
    MinusUndone(v.a, t2); MinusUndone(v.e, t1);
    MinusUndone(t1, w); MinusUndone(s3, k); MinusUndone(s2, Ch(v.f, v.g, v.h)); MinusUndone(s1, BigSigma1(v.f));
  }

  // ---------- all rounds and the compression ----------

  function Unrounds(v: Vars, block: seq<bv8>, t: nat): Vars
    requires |block| == 64 && t <= 64
    decreases t
  {
    if t == 0 then v else Unrounds(Unround(v, K(t - 1), W(block, t - 1)), block, t - 1)
  }

  lemma {:induction false} RoundsInvert(v: Vars, block: seq<bv8>, t: nat)
    requires |block| == 64 && t <= 64
    ensures Unrounds(Rounds(v, block, t), block, t) == v
  {
    hide Round, Unround, K, W;
    if t > 0 {
      RoundInverts(Rounds(v, block, t - 1), K(t - 1), W(block, t - 1));
      RoundsInvert(v, block, t - 1);
    }
  }

  function Difference(u: Vars, v: Vars): Vars {
    Vars(Minus(u.a, v.a), Minus(u.b, v.b), Minus(u.c, v.c), Minus(u.d, v.d),
         Minus(u.e, v.e), Minus(u.f, v.f), Minus(u.g, v.g), Minus(u.h, v.h))
  }

  /** Taking the hash value off a compression and undoing the rounds gives the hash value again. */
  lemma CompressUndone(v: Vars, block: seq<bv8>)
    requires |block| == 64
    ensures Unrounds(Difference(Compress(v, block), v), block, 64) == v
  {
    hide Plus, Minus, Rounds, Unrounds;
    var r := Rounds(v, block, 64);
    PlusUndone(v.a, r.a); PlusUndone(v.b, r.b); PlusUndone(v.c, r.c); PlusUndone(v.d, r.d);
    PlusUndone(v.e, r.e); PlusUndone(v.f, r.f); PlusUndone(v.g, r.g); PlusUndone(v.h, r.h);
    RoundsInvert(v, block, 64);
  }

  // ---------- the schedule ----------

  /** Word t of the schedule from its four sources: the recurrence read backwards gives the oldest of them. */
  lemma ScheduleInverts(block: seq<bv8>, t: nat)
    requires |block| == 64 && 16 <= t < 64
    ensures W(block, t - 16) == Minus(Minus(Minus(W(block, t), SmallSigma0(W(block, t - 15))), W(block, t - 7)),
                                      SmallSigma1(W(block, t - 2)))
  {
    var w2, w7, w15, w16 := W(block, t - 2), W(block, t - 7), W(block, t - 15), W(block, t - 16);
    hide Plus, Minus, SmallSigma0, SmallSigma1, Word;
    var s1 := Plus(SmallSigma1(w2), w7);
    var s2 := Plus(s1, SmallSigma0(w15));
    assert W(block, t) == Plus(s2, w16);
    Backwards(SmallSigma1(w2), w7, SmallSigma0(w15), w16);
  }

  lemma Backwards(x: bv32, y: bv32, z: bv32, u: bv32)
    ensures Minus(Minus(Minus(Plus(Plus(Plus(x, y), z), u), z), y), x) == u
  {
    hide Plus, Minus;
    PlusSwaps(Plus(x, y), z, u);
    PlusUndone(Plus(Plus(x, y), u), z);
    PlusSwaps(x, y, u);
    PlusUndone(Plus(x, u), y);
    PlusUndone(x, u);
  }
}
