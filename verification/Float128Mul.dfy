/** binary128 multiplication and the quotient loop of division. */
module Float128Mul {
  import opened Arithmetic
  import opened Shifts
  import opened Words
  import opened Float128

  const TWO_33: int := 0x2_0000_0000
  const TWO_79: int := TWO_15 * TWO_64
  const TWO_80: int := 0x1_0000 * TWO_64

  /** A 256-bit product as four 64-bit words, most significant first. */
  datatype Product = Product(t3: U64, t2: U64, t1: U64, t0: U64)

  ghost function Value(p: Product): nat {
    ((p.t3 * TWO_64 + p.t2) * TWO_64 + p.t1) * TWO_64 + p.t0
  }

  /** Four 64x64 partial products with the middle carries collected before the high word. */
  function Multiply(ma: U128, mb: U128): Product {
    var a0, a1 := ma % TWO_64, ma / TWO_64;
    var b0, b1 := mb % TWO_64, mb / TWO_64;
    Assembled(a0 * b0, a0 * b1, a1 * b0, a1 * b1)
  }

  function Assembled(p00: nat, p01: nat, p10: nat, p11: nat): Product {
    var mid := p00 / TWO_64 + p01 % TWO_64 + p10 % TWO_64;
    var hi2 := (mid / TWO_64 + p01 / TWO_64 + p10 / TWO_64 + p11) % TWO_128;
    Product(hi2 / TWO_64, hi2 % TWO_64, mid % TWO_64, p00 % TWO_64)
  }

  lemma AssembledValue(p00: nat, p01: nat, p10: nat, p11: nat)
    requires p00 < TWO_128 && p01 < TWO_128 && p10 < TWO_128
    requires p11 * TWO_128 + (p01 + p10) * TWO_64 + p00 < TWO_128 * TWO_128
    ensures Value(Assembled(p00, p01, p10, p11)) == p11 * TWO_128 + (p01 + p10) * TWO_64 + p00
  {
    var mid := p00 / TWO_64 + p01 % TWO_64 + p10 % TWO_64;
    var hi2 := mid / TWO_64 + p01 / TWO_64 + p10 / TWO_64 + p11;
    assert hi2 * TWO_128 + mid % TWO_64 * TWO_64 + p00 % TWO_64
        == p11 * TWO_128 + (p01 + p10) * TWO_64 + p00;
    assert hi2 < TWO_128;
  }

  lemma ProductBound(x: nat, y: nat, m: nat, n: nat)
    requires x < m && y < n
    ensures x * y < m * n
  {
    assert m * n == x * y + (m - x) * y + m * (n - y);
    assert (m - x) * y >= 0 && m * (n - y) > 0;
  }

  /** The assembled words are the whole product: no carry is lost. */
  lemma MultiplyValue(ma: U128, mb: U128)
    ensures Value(Multiply(ma, mb)) == ma * mb
  {
    var a0, a1 := ma % TWO_64, ma / TWO_64;
    var b0, b1 := mb % TWO_64, mb / TWO_64;
    assert ma * mb == a1 * b1 * TWO_128 + (a0 * b1 + a1 * b0) * TWO_64 + a0 * b0 by {
      Schoolbook(a1, a0, b1, b0);
    }
    ProductBound(a0, b0, TWO_64, TWO_64);
    ProductBound(a0, b1, TWO_64, TWO_64);
    ProductBound(a1, b0, TWO_64, TWO_64);
    ProductBound(ma, mb, TWO_128, TWO_128);
    AssembledValue(a0 * b0, a0 * b1, a1 * b0, a1 * b1);
  }

  lemma Schoolbook(a1: int, a0: int, b1: int, b0: int)
    ensures (a1 * TWO_64 + a0) * (b1 * TWO_64 + b0)
         == a1 * b1 * TWO_128 + (a0 * b1 + a1 * b0) * TWO_64 + a0 * b0
  {
    assert a1 * TWO_64 * (b1 * TWO_64 + b0) == a1 * b1 * TWO_128 + a1 * b0 * TWO_64;
    assert a0 * (b1 * TWO_64 + b0) == a0 * b1 * TWO_64 + a0 * b0;
  }

  /** Significand taken from bits 113..225 or 112..224 of the product, and whether it is the former. */
  function TopBits(p: Product): (int, bool) {
    if p.t3 / TWO_33 != 0 then (p.t3 * TWO_79 + p.t2 * TWO_15 + p.t1 / 0x2_0000_0000_0000, true)
    else (p.t3 * TWO_80 + p.t2 * 0x1_0000 + p.t1 / TWO_48, false)
  }

  function MulImpl(a: F128, b: F128): F128 {
    var sres := if Sign(a) != Sign(b) then 1 else 0;
    if IsNaN(a) then a
    else if IsNaN(b) then b
    else if IsInf(a) || IsInf(b) then
      if IsZero(a) || IsZero(b) then Pack(sres, EXP_MASK, 0, 1) else Pack(sres, EXP_MASK, 0, 0)
    else if IsZero(a) || IsZero(b) then Pack(sres, 0, 0, 0)
    else RoundProduct(sres, Exp(a) + Exp(b) - BIAS, Multiply(Sig(a), Sig(b)))
  }

  function RoundProduct(sign: int, e: int, p: Product): F128 {
    var (prod, high) := TopBits(p);
    RoundPack(sign, if high then e + 1 else e, prod % TWO_128, 0)
  }

  /** The two shift patterns are the product's floor division by 2^113 and 2^112. */
  lemma TopBitsShift(p: Product)
    requires TWO_112 * TWO_112 <= Value(p) < TWO_113 * TWO_113
    ensures var (prod, high) := TopBits(p);
            && (high <==> Value(p) >= TWO_112 * TWO_113)
            && prod == Value(p) / (if high then TWO_113 else TWO_112)
            && TWO_112 <= prod < TWO_113
  {
    var (prod, high) := TopBits(p);
    if high {
      var rest := p.t1 % 0x2_0000_0000_0000 * TWO_64 + p.t0;
      assert Value(p) == prod * TWO_113 + rest && 0 <= rest < TWO_113;
    } else {
      var rest := p.t1 % TWO_48 * TWO_64 + p.t0;
      assert Value(p) == prod * TWO_112 + rest && 0 <= rest < TWO_112;
    }
  }

  lemma TopBitsBracket(p: Product)
    requires TWO_112 * TWO_112 <= Value(p) < TWO_113 * TWO_113
    ensures var (prod, high) := TopBits(p);
            var k := if high then 113 else 112;
            Shl(prod, k) <= Value(p) < Shl(prod + 1, k)
  {
    TopBitsShift(p);
    SigPowers();
    ShrBounds(Value(p), 113);
    ShrBounds(Value(p), 112);
    ShrIsDiv(Value(p), 113, TWO_113);
    ShrIsDiv(Value(p), 112, TWO_112);
  }

  /** Fields of the packed product, with the shift `k` the significand was taken at. */
  lemma RoundProductFields(sign: int, e: int, p: Product) returns (k: nat)
    requires 0 <= sign <= 1 && 1 <= e
    requires TWO_112 * TWO_112 <= Value(p) < TWO_113 * TWO_113
    requires e + (if Value(p) >= TWO_112 * TWO_113 then 1 else 0) < EXP_MASK
    ensures var r := RoundProduct(sign, e, p);
            && Normal(r) && Sign(r) == sign && Exp(r) == e + k - 112
            && Shl(Sig(r), k) <= Value(p) < Shl(Sig(r) + 1, k)
  {
    hide Shl, Sig, Sign, Exp, PackSig;
    TopBitsBracket(p);
    TopBitsShift(p);
    hide Value;
    var (prod, high) := TopBits(p);
    k := if high then 113 else 112;
    assert prod % TWO_128 == prod;
    assert RoundProduct(sign, e, p) == PackSig(sign, e + k - 112, prod);
    PackSigNormal(sign, e + k - 112, prod);
  }

  lemma RoundProductTowardZero(sign: int, a: F128, b: F128, p: Product)
    requires 0 <= sign <= 1 && Normal(a) && Normal(b) && Value(p) == Sig(a) * Sig(b)
    requires var e := Exp(a) + Exp(b) - BIAS;
             1 <= e && e + (if Value(p) >= TWO_112 * TWO_113 then 1 else 0) < EXP_MASK
    ensures var r := RoundProduct(sign, Exp(a) + Exp(b) - BIAS, p);
            Normal(r) && Sign(r) == sign && TowardZero(r, Magnitude(a) * Magnitude(b), SCALE)
  {
    hide Shl, Value, Sig, Sign, Exp, RoundProduct;
    ProductRange(Sig(a), Sig(b));
    var k := RoundProductFields(sign, Exp(a) + Exp(b) - BIAS, p);
    var r := RoundProduct(sign, Exp(a) + Exp(b) - BIAS, p);
    ShlProduct(Sig(a), Exp(a), Sig(b), Exp(b));
    ScaleBounds(Value(p), Sig(r), k, Exp(a) + Exp(b));
    assert Exp(r) + SCALE == k + (Exp(a) + Exp(b));
  }

  lemma ProductRange(ma: nat, mb: nat)
    requires IsSig(ma) && IsSig(mb)
    ensures TWO_112 * TWO_112 <= ma * mb < TWO_113 * TWO_113
  {
    MulOrder(ma, TWO_113 - 1, mb);
    MulOrder(TWO_112, ma, mb);
  }

  /**
   * The product of two normal numbers is the exact product rounded toward zero: the exact
   * magnitude |a| * |b| scaled by 2^(2 * SCALE) is Magnitude(a) * Magnitude(b).
   */
  lemma MulTowardZero(a: F128, b: F128)
    requires Normal(a) && Normal(b)
    requires var e := Exp(a) + Exp(b) - BIAS;
             1 <= e && e + (if Sig(a) * Sig(b) >= TWO_112 * TWO_113 then 1 else 0) < EXP_MASK
    ensures var r := MulImpl(a, b);
            && Normal(r)
            && Sign(r) == (if Sign(a) == Sign(b) then 0 else 1)
            && TowardZero(r, Magnitude(a) * Magnitude(b), SCALE)
  {
    ZeroByFields(a);
    ZeroByFields(b);
    MultiplyValue(Sig(a), Sig(b));
    RoundProductTowardZero(if Sign(a) == Sign(b) then 0 else 1, a, b, Multiply(Sig(a), Sig(b)));
  }

  /** Products with a zero, an infinity or no number, sections 6.1 to 6.3 of IEEE 754-2008. */
  lemma MulSpecials(a: F128, b: F128)
    ensures var r := MulImpl(a, b);
            && (IsNaN(a) || IsNaN(b) ==> r == if IsNaN(a) then a else b)
            && ((IsInf(a) && IsZero(b)) || (IsZero(a) && IsInf(b)) ==> IsNaN(r))
            && (!IsNaN(a) && !IsNaN(b) && !IsZero(a) && !IsZero(b) && (IsInf(a) || IsInf(b)) ==>
                  IsInf(r) && (Sign(r) == 1 <==> Sign(a) != Sign(b)))
            && (Exp(a) < EXP_MASK && Exp(b) < EXP_MASK && (IsZero(a) || IsZero(b)) ==>
                  IsZero(r) && (Sign(r) == 1 <==> Sign(a) != Sign(b)))
  {
    ZeroByFields(a);
    ZeroByFields(b);
    var sres := if Sign(a) != Sign(b) then 1 else 0;
    PackFields(sres, EXP_MASK, 0, 1);
    PackFields(sres, EXP_MASK, 0, 0);
    PackFields(sres, 0, 0, 0);
    ZeroByFields(Pack(sres, 0, 0, 0));
  }

  /**
   * 114 quotient bits by restoring division. The subtraction wraps modulo 2^128 when the bit
   * shifted out of `num` is set; with both operands below 2^113 it never is.
   */
  method UDiv114(num0: U128, den: U128) returns (q: U128)
    requires num0 < den < TWO_113
    ensures q == Shl(num0, 114) / den
  {
    hide Shl;
    var num: U128 := num0;
    q := 0;
    ShlStep(num0, 0);
    ShlStep(1, 0);
    for i := 0 to 114
      invariant num < den
      invariant Shl(num0, i) == q * den + num
      invariant q < Shl(1, i)
    {
      NextDigit(Shl(num0, i), q, den, num);
      ShlStep(num0, i);
      ShlStep(1, i);
      FitsWord(i);
      DigitRound(num, den);
      var top := num / TWO_127;
      num := num * 2 % TWO_128;
      q := 2 * q;
      if top == 1 || num >= den {
        num := (num - den) % TWO_128;
        q := q + 1; // the low bit is clear, so the `or` is a sum
      }
    }
    QuotientUnique(Shl(num0, 114), den, q, num);
  }

  lemma DigitRound(num: U128, den: U128)
    requires num < den < TWO_113
    ensures num / TWO_127 == 0 && num * 2 % TWO_128 == 2 * num
    ensures 2 * num >= den ==> (2 * num - den) % TWO_128 == 2 * num - den < den
  {
  }

  lemma FitsWord(i: nat)
    requires i < 114
    ensures 2 * Shl(1, i) <= TWO_128
  {
    SigPowers();
    ShlGrows(1, i, 128);
  }
}
