/** What the functions of section 4.1.3 of FIPS 180-4 do to bits, and what a round does to its inputs. */
module Sha512Laws {
  import opened Sha512

  // ---------- bits ----------

  /** Bit `i`; the index counts modulo 64. */
  predicate Bit(x: bv64, i: bv6) { (x >> i) & 1 == 1 }

  // The operations as named functions, and what they do to bits.

  function Xor3(p: bv64, q: bv64, r: bv64): bv64 { p ^ q ^ r }

  function And2(p: bv64, q: bv64): bv64 { p & q }

  lemma RawXor(p: bv64, q: bv64, r: bv64, i: bv6)
    ensures Bit(p ^ q ^ r, i) == ((Bit(p, i) != Bit(q, i)) != Bit(r, i))
  {
  }

  lemma Xor3Bits(p: bv64, q: bv64, r: bv64, i: bv6)
    ensures Bit(Xor3(p, q, r), i) == ((Bit(p, i) != Bit(q, i)) != Bit(r, i))
  {
    RawXor(p, q, r, i);
    hide Bit;
  }

  lemma RawAnd(p: bv64, q: bv64, i: bv6)
    ensures Bit(p & q, i) == (Bit(p, i) && Bit(q, i))
  {
  }

  lemma And2Bits(p: bv64, q: bv64, i: bv6)
    ensures Bit(And2(p, q), i) == (Bit(p, i) && Bit(q, i))
  {
    RawAnd(p, q, i);
    hide Bit;
  }

  lemma And2Is(p: bv64, q: bv64)
    ensures And2(p, q) == p & q
  {
  }

  lemma RawChoice(x: bv64, y: bv64, z: bv64, i: bv6)
    ensures Bit((x & y) ^ (!x & z), i) == if Bit(x, i) then Bit(y, i) else Bit(z, i)
  {
  }

  /** A bit of y where x is set and of z elsewhere. */
  lemma ChBits(x: bv64, y: bv64, z: bv64, i: bv6)
    ensures Bit(Ch(x, y, z), i) == if Bit(x, i) then Bit(y, i) else Bit(z, i)
  {
    hide Bit;
    RawChoice(x, y, z, i);
  }

  lemma MajRaw(x: bv64, y: bv64, z: bv64)
    ensures Maj(x, y, z) == Xor3(x & y, x & z, y & z)
  {
  }

  lemma MajIs(x: bv64, y: bv64, z: bv64)
    ensures Maj(x, y, z) == Xor3(And2(x, y), And2(x, z), And2(y, z))
  {
    hide Maj, Xor3, And2;
    MajRaw(x, y, z);
    And2Is(x, y); And2Is(x, z); And2Is(y, z);
  }

  /** Set where at least two are. */
  lemma MajBits(x: bv64, y: bv64, z: bv64, i: bv6)
    ensures var a, b, c := Bit(x, i), Bit(y, i), Bit(z, i);
            Bit(Maj(x, y, z), i) == ((a && b) || (a && c) || (b && c))
  {
    hide Bit, Maj, Xor3, And2;
    MajIs(x, y, z);
    And2Bits(x, y, i); And2Bits(x, z, i); And2Bits(y, z, i);
    Xor3Bits(And2(x, y), And2(x, z), And2(y, z), i);
  }

  // A rotation reads further up.

  lemma RawRotation1(x: bv64, i: bv6)
    ensures Bit((x >> 1) | (x << 63), i) == Bit(x, i + 1)
  {
  }

  lemma RotR1Bits(x: bv64, i: bv6)
    ensures Bit(RotR(x, 1), i) == Bit(x, i + 1)
  {
    RawRotation1(x, i);
    hide Bit;
  }

  lemma RawRotation8(x: bv64, i: bv6)
    ensures Bit((x >> 8) | (x << 56), i) == Bit(x, i + 8)
  {
  }

  lemma RotR8Bits(x: bv64, i: bv6)
    ensures Bit(RotR(x, 8), i) == Bit(x, i + 8)
  {
    RawRotation8(x, i);
    hide Bit;
  }

  lemma RawRotation14(x: bv64, i: bv6)
    ensures Bit((x >> 14) | (x << 50), i) == Bit(x, i + 14)
  {
  }

  lemma RotR14Bits(x: bv64, i: bv6)
    ensures Bit(RotR(x, 14), i) == Bit(x, i + 14)
  {
    RawRotation14(x, i);
    hide Bit;
  }

  lemma RawRotation18(x: bv64, i: bv6)
    ensures Bit((x >> 18) | (x << 46), i) == Bit(x, i + 18)
  {
  }

  lemma RotR18Bits(x: bv64, i: bv6)
    ensures Bit(RotR(x, 18), i) == Bit(x, i + 18)
  {
    RawRotation18(x, i);
    hide Bit;
  }

  lemma RawRotation19(x: bv64, i: bv6)
    ensures Bit((x >> 19) | (x << 45), i) == Bit(x, i + 19)
  {
  }

  lemma RotR19Bits(x: bv64, i: bv6)
    ensures Bit(RotR(x, 19), i) == Bit(x, i + 19)
  {
    RawRotation19(x, i);
    hide Bit;
  }

  lemma RawRotation28(x: bv64, i: bv6)
    ensures Bit((x >> 28) | (x << 36), i) == Bit(x, i + 28)
  {
  }

  lemma RotR28Bits(x: bv64, i: bv6)
    ensures Bit(RotR(x, 28), i) == Bit(x, i + 28)
  {
    RawRotation28(x, i);
    hide Bit;
  }

  lemma RawRotation34(x: bv64, i: bv6)
    ensures Bit((x >> 34) | (x << 30), i) == Bit(x, i + 34)
  {
  }

  lemma RotR34Bits(x: bv64, i: bv6)
    ensures Bit(RotR(x, 34), i) == Bit(x, i + 34)
  {
    RawRotation34(x, i);
    hide Bit;
  }

  lemma RawRotation39(x: bv64, i: bv6)
    ensures Bit((x >> 39) | (x << 25), i) == Bit(x, i + 39)
  {
  }

  lemma RotR39Bits(x: bv64, i: bv6)
    ensures Bit(RotR(x, 39), i) == Bit(x, i + 39)
  {
    RawRotation39(x, i);
    hide Bit;
  }

  lemma RawRotation41(x: bv64, i: bv6)
    ensures Bit((x >> 41) | (x << 23), i) == Bit(x, i + 41)
  {
  }

  lemma RotR41Bits(x: bv64, i: bv6)
    ensures Bit(RotR(x, 41), i) == Bit(x, i + 41)
  {
    RawRotation41(x, i);
    hide Bit;
  }

  lemma RawRotation61(x: bv64, i: bv6)
    ensures Bit((x >> 61) | (x << 3), i) == Bit(x, i + 61)
  {
  }

  lemma RotR61Bits(x: bv64, i: bv6)
    ensures Bit(RotR(x, 61), i) == Bit(x, i + 61)
  {
    RawRotation61(x, i);
    hide Bit;
  }

  lemma BigSigma0Is(x: bv64)
    ensures BigSigma0(x) == Xor3(RotR(x, 28), RotR(x, 34), RotR(x, 39))
  {
    hide RotR;
  }

  lemma BigSigma0Bits(x: bv64, i: bv6)
    ensures Bit(BigSigma0(x), i) == ((Bit(x, i + 28) != Bit(x, i + 34)) != Bit(x, i + 39))
  {
    hide Bit, RotR, BigSigma0, Xor3;
    BigSigma0Is(x);
    Xor3Bits(RotR(x, 28), RotR(x, 34), RotR(x, 39), i);
    RotR28Bits(x, i); RotR34Bits(x, i); RotR39Bits(x, i);
  }

  lemma BigSigma1Is(x: bv64)
    ensures BigSigma1(x) == Xor3(RotR(x, 14), RotR(x, 18), RotR(x, 41))
  {
    hide RotR;
  }

  lemma BigSigma1Bits(x: bv64, i: bv6)
    ensures Bit(BigSigma1(x), i) == ((Bit(x, i + 14) != Bit(x, i + 18)) != Bit(x, i + 41))
  {
    hide Bit, RotR, BigSigma1, Xor3;
    BigSigma1Is(x);
    Xor3Bits(RotR(x, 14), RotR(x, 18), RotR(x, 41), i);
    RotR14Bits(x, i); RotR18Bits(x, i); RotR41Bits(x, i);
  }

  lemma ShiftR7Bits(x: bv64, i: bv6)
    ensures Bit(x >> 7, i) == (i < 57 && Bit(x, i + 7))
  {
  }

  lemma SmallSigma0Is(x: bv64)
    ensures SmallSigma0(x) == Xor3(RotR(x, 1), RotR(x, 8), x >> 7)
  {
    hide RotR;
  }

  /** The last term is shifted, not rotated. */
  lemma SmallSigma0Bits(x: bv64, i: bv6)
    ensures Bit(SmallSigma0(x), i) == ((Bit(x, i + 1) != Bit(x, i + 8)) != (i < 57 && Bit(x, i + 7)))
  {
    hide Bit, RotR, SmallSigma0, Xor3;
    SmallSigma0Is(x);
    Xor3Bits(RotR(x, 1), RotR(x, 8), x >> 7, i);
    RotR1Bits(x, i); RotR8Bits(x, i); ShiftR7Bits(x, i);
  }

  lemma ShiftR6Bits(x: bv64, i: bv6)
    ensures Bit(x >> 6, i) == (i < 58 && Bit(x, i + 6))
  {
  }

  lemma SmallSigma1Is(x: bv64)
    ensures SmallSigma1(x) == Xor3(RotR(x, 19), RotR(x, 61), x >> 6)
  {
    hide RotR;
  }

  /** The last term is shifted, not rotated. */
  lemma SmallSigma1Bits(x: bv64, i: bv6)
    ensures Bit(SmallSigma1(x), i) == ((Bit(x, i + 19) != Bit(x, i + 61)) != (i < 58 && Bit(x, i + 6)))
  {
    hide Bit, RotR, SmallSigma1, Xor3;
    SmallSigma1Is(x);
    Xor3Bits(RotR(x, 19), RotR(x, 61), x >> 6, i);
    RotR19Bits(x, i); RotR61Bits(x, i); ShiftR6Bits(x, i);
  }

  // ---------- sums and differences modulo 2^64 ----------

  function Minus(x: bv64, y: bv64): bv64 { x - y }

  lemma PlusIs(x: bv64, y: bv64)
    ensures Plus(x, y) == x + y
  {
  }

  lemma SumIs(x: bv64, y: bv64, z: bv64, p: bv64)
    requires p == Plus(x, y)
    ensures Plus(p, z) == Plus(x + y, z) && Plus(z, p) == Plus(z, x + y)
  {
    PlusIs(x, y);
    hide Plus;
  }

  lemma RawSum(x: bv64, y: bv64, z: bv64)
    ensures Plus(x + y, z) == x + y + z && Plus(z, x + y) == x + y + z
  {
  }

  lemma RawMinus(x: bv64, y: bv64)
    ensures Minus(x + y, y) == x && Minus(x + y, x) == y
  {
  }

  lemma PlusUndone(x: bv64, y: bv64)
    ensures Minus(Plus(x, y), y) == x && Minus(Plus(x, y), x) == y
  {
    hide Plus, Minus;
    PlusIs(x, y);
    RawMinus(x, y);
  }

  lemma MinusIs(x: bv64, y: bv64)
    ensures Minus(x, y) == x - y
  {
  }

  lemma RawPlus(x: bv64, y: bv64)
    ensures Plus(x - y, y) == x && Plus(y, x - y) == x
  {
  }

  lemma MinusUndone(x: bv64, y: bv64)
    ensures Plus(Minus(x, y), y) == x && Plus(y, Minus(x, y)) == x
  {
    hide Plus, Minus;
    MinusIs(x, y);
    RawPlus(x, y);
  }

  lemma RawDifference(s: bv64, x: bv64, x': bv64, t: bv64)
    ensures Minus(s + x + t, s + x' + t) == Minus(x, x')
  {
  }

  /** Sums that differ in one term differ as that term does. */
  lemma TermShows(s: bv64, x: bv64, x': bv64, t: bv64)
    ensures Minus(Plus(Plus(s, x), t), Plus(Plus(s, x'), t)) == Minus(x, x')
    ensures Minus(Plus(t, Plus(s, x)), Plus(t, Plus(s, x'))) == Minus(x, x')
  {
    hide Plus, Minus;
    SumIs(s, x, t, Plus(s, x));
    SumIs(s, x', t, Plus(s, x'));
    RawSum(s, x, t);
    RawSum(s, x', t);
    RawDifference(s, x, x', t);
  }

  lemma PlusSwaps(s: bv64, x: bv64, y: bv64)
    ensures Plus(Plus(s, x), y) == Plus(Plus(s, y), x)
  {
    hide Plus;
    SumIs(s, x, y, Plus(s, x));
    SumIs(s, y, x, Plus(s, y));
    RawSum(s, x, y);
    RawSum(s, y, x);
  }

  // ---------- one round ----------

  /** Schedule words that differ show by their difference in both new variables, and nowhere else. */
  lemma WordShows(v: Vars, k: bv64, w: bv64, w': bv64)
    ensures var r, r' := Round(v, k, w), Round(v, k, w');
      && Minus(r.a, r'.a) == Minus(w, w') && Minus(r.e, r'.e) == Minus(w, w')
      && r == r'.(a := r.a, e := r.e)
  {
    hide Plus, Minus, BigSigma0, BigSigma1, Ch, Maj;
    var s := Plus(Plus(Plus(v.h, BigSigma1(v.e)), Ch(v.e, v.f, v.g)), k);
    TermShows(s, w, w', T2(v));
    TermShows(s, w, w', v.d);
  }

  /** Likewise for round constants. */
  lemma ConstantShows(v: Vars, k: bv64, k': bv64, w: bv64)
    ensures var r, r' := Round(v, k, w), Round(v, k', w);
      && Minus(r.a, r'.a) == Minus(k, k') && Minus(r.e, r'.e) == Minus(k, k')
      && r == r'.(a := r.a, e := r.e)
  {
    hide Plus, Minus, BigSigma0, BigSigma1, Ch, Maj;
    var s := Plus(Plus(v.h, BigSigma1(v.e)), Ch(v.e, v.f, v.g));
    PlusSwaps(s, k, w);
    PlusSwaps(s, k', w);
    TermShows(Plus(s, w), k, k', T2(v));
    TermShows(Plus(s, w), k, k', v.d);
  }

  /** The variables before a round from those after it. */
  function Unround(v: Vars, k: bv64, w: bv64): Vars {
    var t1 := Minus(v.a, Plus(BigSigma0(v.b), Maj(v.b, v.c, v.d)));
    var h := Minus(Minus(Minus(Minus(t1, w), k), Ch(v.f, v.g, v.h)), BigSigma1(v.f));
    Vars(v.b, v.c, v.d, Minus(v.e, t1), v.f, v.g, v.h, h)
  }

  /** A round is a permutation of the variables, for every constant and every schedule word. */
  lemma RoundInverts(v: Vars, k: bv64, w: bv64)
    ensures Unround(Round(v, k, w), k, w) == v
    ensures Round(Unround(v, k, w), k, w) == v
  {
    UndoesRound(v, k, w);
    RedoesRound(v, k, w);
  }

  lemma UndoesRound(v: Vars, k: bv64, w: bv64)
    ensures Unround(Round(v, k, w), k, w) == v
  {
    hide Plus, Minus, BigSigma0, BigSigma1, Ch, Maj;
    var s1 := Plus(v.h, BigSigma1(v.e));
    var s2 := Plus(s1, Ch(v.e, v.f, v.g));
    var s3 := Plus(s2, k);
    var t1 := Plus(s3, w);
    PlusUndone(t1, T2(v)); PlusUndone(v.d, t1);
    PlusUndone(s3, w); PlusUndone(s2, k); PlusUndone(s1, Ch(v.e, v.f, v.g)); PlusUndone(v.h, BigSigma1(v.e));
  }

  lemma RedoesRound(v: Vars, k: bv64, w: bv64)
    ensures Round(Unround(v, k, w), k, w) == v
  {
    hide Plus, Minus, BigSigma0, BigSigma1, Ch, Maj;
    var t2 := Plus(BigSigma0(v.b), Maj(v.b, v.c, v.d));
    var t1 := Minus(v.a, t2);
    var s3 := Minus(t1, w);
    var s2 := Minus(s3, k);
    var s1 := Minus(s2, Ch(v.f, v.g, v.h));
    MinusUndone(v.a, t2); MinusUndone(v.e, t1);
    MinusUndone(t1, w); MinusUndone(s3, k); MinusUndone(s2, Ch(v.f, v.g, v.h)); MinusUndone(s1, BigSigma1(v.f));
  }

  // ---------- all rounds and the compression ----------

  function Unrounds(v: Vars, block: seq<bv8>, t: nat): Vars
    requires |block| == 128 && t <= 80
    decreases t
  {
    if t == 0 then v else Unrounds(Unround(v, K(t - 1), W(block, t - 1)), block, t - 1)
  }

  lemma {:induction false} RoundsInvert(v: Vars, block: seq<bv8>, t: nat)
    requires |block| == 128 && t <= 80
    ensures Unrounds(Rounds(v, block, t), block, t) == v
  {
    hide Round, Unround, K, W;
    if t > 0 {
      RoundInverts(Rounds(v, block, t - 1), K(t - 1), W(block, t - 1));
      RoundsInvert(v, block, t - 1);
    }
  }

  function Difference(u: Vars, v: Vars): Vars {
    Vars(Minus(u.a, v.a), Minus(u.b, v.b), Minus(u.c, v.c), Minus(u.d, v.d),
         Minus(u.e, v.e), Minus(u.f, v.f), Minus(u.g, v.g), Minus(u.h, v.h))
  }

  /** Taking the hash value off a compression and undoing the rounds gives the hash value again. */
  lemma CompressUndone(v: Vars, block: seq<bv8>)
    requires |block| == 128
    ensures Unrounds(Difference(Compress(v, block), v), block, 80) == v
  {
    hide Plus, Minus, Rounds, Unrounds;
    var r := Rounds(v, block, 80);
    PlusUndone(v.a, r.a); PlusUndone(v.b, r.b); PlusUndone(v.c, r.c); PlusUndone(v.d, r.d);
    PlusUndone(v.e, r.e); PlusUndone(v.f, r.f); PlusUndone(v.g, r.g); PlusUndone(v.h, r.h);
    RoundsInvert(v, block, 80);
  }

  // ---------- the schedule ----------

  /** Word t of the schedule from its four sources: the recurrence read backwards gives the oldest of them. */
  lemma ScheduleInverts(block: seq<bv8>, t: nat)
    requires |block| == 128 && 16 <= t < 80
    ensures W(block, t - 16) == Minus(Minus(Minus(W(block, t), SmallSigma0(W(block, t - 15))), W(block, t - 7)),
                                      SmallSigma1(W(block, t - 2)))
  {
    var w2, w7, w15, w16 := W(block, t - 2), W(block, t - 7), W(block, t - 15), W(block, t - 16);
    hide Plus, Minus, SmallSigma0, SmallSigma1, Word;
    var s1 := Plus(SmallSigma1(w2), w7);
    var s2 := Plus(s1, SmallSigma0(w15));
    assert W(block, t) == Plus(s2, w16);
    Backwards(SmallSigma1(w2), w7, SmallSigma0(w15), w16);
  }

  lemma Backwards(x: bv64, y: bv64, z: bv64, u: bv64)
    ensures Minus(Minus(Minus(Plus(Plus(Plus(x, y), z), u), z), y), x) == u
  {
    hide Plus, Minus;
    PlusSwaps(Plus(x, y), z, u);
    PlusUndone(Plus(Plus(x, y), u), z);
    PlusSwaps(x, y, u);
    PlusUndone(Plus(x, u), y);
    PlusUndone(x, u);
  }
}
