/** binary128 conversions to and from integers. */
module Float128Convert {
  import opened Shifts
  import opened Words
  import opened Float128

  /** Conversion of a magnitude: the leading one goes to bit 112 and lower bits are cut off. */
  function FromInt(sign: nat, u: U128): F128 {
    if u == 0 then Pack(sign, 0, 0, 0) else PackSig(sign, BIAS + BitLen(u) - 1, TopSig(u))
  }

  method FromI64(i: I64) returns (r: F128)
    ensures r == FromInt(if i < 0 then 1 else 0, Abs(i))
  {
    var sign := if i < 0 then 1 else 0;
    var mag: U64 := if i < 0 then -(i + 1) + 1 else i;
    r := FromWord(sign, mag);
  }

  /** The unsigned conversion, shared with the signed one once the sign is off. */
  method FromWord(sign: nat, mag: U64) returns (r: F128)
    ensures r == FromInt(sign, mag)
  {
    if mag == 0 { return Pack(sign, 0, 0, 0); }
    var n := CountBits(mag);
    WordPowers();
    WordLength(mag, 64);
    TopSigShift(mag);
    r := PackSig(sign, BIAS + n - 1, Shl(mag, 112 - (n - 1)));
  }

  lemma WordLength(u: nat, k: nat)
    requires 0 < u < Shl(1, k)
    ensures 1 <= BitLen(u) <= k
  {
    assert Shl(1, 0) == 1;
    BitLenBetween(u, 0, k);
  }

  /** `v` is the two's-complement word and `neg` its sign. */
  method FromI128(v: U128, neg: bool) returns (r: F128)
    ensures r == FromInt(if neg then 1 else 0, WordMagnitude(v, neg))
  {
    var u: U128 := v;
    if neg { u := (0 - u) % TWO_128; }
    if u == 0 { return Pack(if neg then 1 else 0, 0, 0, 0); }
    var t, n := LeftJustify(u);
    r := PackSig(if neg then 1 else 0, BIAS + n - 1, t / TWO_15);
  }

  /** Zero converts to a zero of the given sign. */
  lemma FromIntZero(sign: nat)
    requires sign <= 1
    ensures IsZero(FromInt(sign, 0)) && Sign(FromInt(sign, 0)) == sign
  {
    PackFields(sign, 0, 0, 0);
    ZeroByFields(Pack(sign, 0, 0, 0));
  }

  lemma FromIntFields(sign: nat, u: U128)
    requires sign <= 1 && u > 0
    ensures var r := FromInt(sign, u);
            && Normal(r) && Sign(r) == sign && Sig(r) == TopSig(u)
            && Exp(r) + 113 == SCALE + BitLen(u)
  {
    hide Shl, TopSig, Sig, Exp, Sign, PackSig;
    SigPowers();
    WordLength(u, 128);
    PackSigNormal(sign, BIAS + BitLen(u) - 1, TopSig(u));
  }

  /** Every magnitude below 2^113 converts exactly. */
  lemma FromIntExact(sign: nat, u: nat)
    requires sign <= 1 && 0 < u < TWO_113
    ensures var r := FromInt(sign, u);
            Normal(r) && Sign(r) == sign && Exp(r) <= SCALE && Magnitude(r) == Shl(u, SCALE)
  {
    hide Shl, TopSig, BitLen, Sig, Exp, Sign, FromInt;
    SigPowers();
    WordLength(u, 113);
    FromIntFields(sign, u);
    TopSigShift(u);
    ShlShl(u, 113 - BitLen(u), SCALE + BitLen(u) - 113);
  }

  /** Wider magnitudes keep their top 113 bits: the value is rounded toward zero. */
  lemma FromIntTowardZero(sign: nat, u: U128)
    requires sign <= 1 && u >= TWO_113
    ensures var r := FromInt(sign, u);
            Normal(r) && Sign(r) == sign && Exp(r) > SCALE && TowardZero(r, Shl(u, SCALE), 0)
  {
    hide Shl, Shr, TopSig, BitLen, Sig, Exp, Sign, FromInt;
    SigPowers();
    BitLenBetween(u, 113, 128);
    FromIntFields(sign, u);
    TopSigShift(u);
    ShrBounds(u, BitLen(u) - 113);
    ScaleBounds(u, TopSig(u), BitLen(u) - 113, SCALE);
  }

  /** Common shape of the signed conversions: zero on overflow, truncation otherwise. */
  function ToSigned(f: F128, limit: nat): (r: int)
    ensures 0 - limit - 1 <= r <= limit
  {
    if IsNaN(f) || IsInf(f) || IsZero(f) then 0
    else
      var shift := 112 - (Exp(f) - BIAS);
      if shift < 0 || shift >= 128 then 0
      else
        var mag := Shr(Sig(f), shift);
        if mag > limit + Sign(f) then 0 else Negated(Sign(f) == 1, mag)
  }

  function ToI64(f: F128): I64 { ToSigned(f, TWO_63 - 1) }

  function ToI128(f: F128): I128 { ToSigned(f, TWO_127 - 1) }

  /** The unsigned conversion keeps the low word and has no range check. */
  function ToU64(f: F128): U64 {
    if IsNaN(f) || IsInf(f) || Sign(f) == 1 || IsZero(f) then 0
    else
      var shift := 112 - (Exp(f) - BIAS);
      if shift < 0 || shift >= 128 then 0 else Shr(Sig(f), shift) % TWO_64
  }

  /** Integer part of |f|: the scaled magnitude with its fraction places shifted out. */
  ghost function IntegerPart(f: F128): nat
    requires Normal(f)
  {
    Shr(Magnitude(f), SCALE)
  }

  /** Shifting the significand alone gives the integer part, and shows when it is zero or huge. */
  lemma IntegerPartShift(f: F128)
    requires Normal(f)
    ensures Exp(f) <= SCALE ==> IntegerPart(f) == Shr(Sig(f), SCALE - Exp(f)) < TWO_113
    ensures Exp(f) + 128 <= SCALE ==> IntegerPart(f) == 0
    ensures Exp(f) > SCALE ==> IntegerPart(f) >= TWO_113
  {
    hide Shl, Shr, Sig, Exp;
    var m, e := Sig(f), Exp(f);
    if e <= SCALE {
      ShrOfShl(m, e, SCALE - e);
      if e + 128 <= SCALE {
        SigPowers();
        ShlGrows(1, 113, SCALE - e);
        ShlTimes(0, 0, SCALE - e);
        ShrUnique(m, 0, SCALE - e);
      }
    } else {
      ShrOfExactShl(m, SCALE, e - SCALE);
      ShlStep(m, 0);
      ShlGrows(m, 0, e - SCALE);
    }
  }

  /**
   * A signed conversion returns the value truncated toward zero when that fits the type and
   * |f| is below 2^113; otherwise it returns zero.
   */
  lemma ToSignedTruncates(f: F128, limit: nat)
    requires Normal(f)
    ensures var t := IntegerPart(f);
            ToSigned(f, limit) == (if t <= limit + Sign(f) && t < TWO_113 then Negated(Sign(f) == 1, t) else 0)
  {
    ZeroByFields(f);
    hide Shl, Shr, Sig, Exp, Sign, IsZero, IntegerPart;
    IntegerPartShift(f);
  }

  /** The 64-bit conversion meets truncation on every value it can represent, and is zero elsewhere. */
  lemma ToI64Truncates(f: F128)
    requires Normal(f)
    ensures var v := Negated(Sign(f) == 1, IntegerPart(f));
            ToI64(f) == if -TWO_63 <= v < TWO_63 then v else 0
  {
    hide Shl, Shr, ToSigned, IntegerPart;
    ToSignedTruncates(f, TWO_63 - 1);
  }

  /** The 128-bit conversion truncates correctly exactly below 2^113. */
  lemma ToI128Truncates(f: F128)
    requires Normal(f) && -TWO_127 <= Negated(Sign(f) == 1, IntegerPart(f)) < TWO_127
    ensures ToI128(f) == Negated(Sign(f) == 1, IntegerPart(f)) <==> IntegerPart(f) < TWO_113
  {
    hide Shl, Shr, ToSigned, IntegerPart;
    ToSignedTruncates(f, TWO_127 - 1);
  }

  /** 2^113 is the first value that fails: it has a place in the type and becomes zero. */
  lemma LargeBecomesZero()
    ensures var f := F128(0, (BIAS + 113) * TWO_48);
            Normal(f) && Sign(f) == 0 && IntegerPart(f) == TWO_113 && ToI128(f) == 0
  {
    var f := F128(0, (BIAS + 113) * TWO_48);
    assert Sig(f) == TWO_112 && Exp(f) == SCALE + 1;
    ShlStep(TWO_112, 0);
    hide Shl, Shr, ToSigned;
    ShrOfExactShl(TWO_112, SCALE, 1);
    ToSignedTruncates(f, TWO_127 - 1);
  }

  /** The unsigned conversion truncates correctly exactly when the integer part is a 64-bit word. */
  lemma ToU64Truncates(f: F128)
    requires Normal(f) && Sign(f) == 0
    ensures ToU64(f) == IntegerPart(f) <==> IntegerPart(f) < TWO_64
    ensures ToU64(f) == if IntegerPart(f) < TWO_113 then IntegerPart(f) % TWO_64 else 0
  {
    ZeroByFields(f);
    hide Shl, Shr, Sig, Exp, Sign, IsZero, IntegerPart;
    IntegerPartShift(f);
  }

  /** Zeros, infinities and what is no number become 0, and so do negative numbers without a sign. */
  lemma SpecialsBecomeZero(f: F128)
    ensures IsZero(f) || IsInf(f) || IsNaN(f) ==> ToI64(f) == 0 && ToI128(f) == 0 && ToU64(f) == 0
    ensures Sign(f) == 1 ==> ToU64(f) == 0
  {
  }

  lemma ExactIntegerPart(sign: nat, u: nat)
    requires sign <= 1 && 0 < u < TWO_113
    ensures var r := FromInt(sign, u); Normal(r) && Sign(r) == sign && IntegerPart(r) == u
  {
    hide Shl, Shr, FromInt, Sig, Exp, Sign;
    FromIntExact(sign, u);
    ShrOfExactShl(u, SCALE, 0);
    ShlStep(u, 0);
  }

  lemma I64RoundTrip(i: I64)
    ensures ToI64(FromInt(if i < 0 then 1 else 0, Abs(i))) == i
  {
    if i != 0 {
      hide FromInt, ToI64, IntegerPart;
      ExactIntegerPart(if i < 0 then 1 else 0, Abs(i));
      ToI64Truncates(FromInt(if i < 0 then 1 else 0, Abs(i)));
    }
  }

  lemma U64RoundTrip(u: U64)
    ensures ToU64(FromInt(0, u)) == u
  {
    if u != 0 {
      hide FromInt, ToU64, IntegerPart;
      ExactIntegerPart(0, u);
      ToU64Truncates(FromInt(0, u));
    }
  }

  /** The magnitude the conversion takes from a two's-complement word and its sign. */
  function WordMagnitude(v: U128, neg: bool): U128 { if neg then (0 - v) % TWO_128 else v }

  lemma WordOf(v: I128)
    ensures 0 <= v % TWO_128 < TWO_128 && WordMagnitude(v % TWO_128, v < 0) == Abs(v)
  {
    if v < 0 {
      assert v % TWO_128 == v + TWO_128;
    }
  }

  /**
   * A 128-bit integer, handed over as its two's-complement word and sign, survives the trip
   * exactly when its magnitude is below 2^113.
   */
  lemma I128RoundTrip(v: I128)
    ensures 0 <= v % TWO_128 < TWO_128
    ensures ToI128(FromInt(if v < 0 then 1 else 0, WordMagnitude(v % TWO_128, v < 0))) == v <==> Abs(v) < TWO_113
  {
    WordOf(v);
    var sign := if v < 0 then 1 else 0;
    if v != 0 {
      hide FromInt, IntegerPart, ToSigned, WordMagnitude;
      var r := FromInt(sign, Abs(v));
      FromIntFields(sign, Abs(v));
      ToSignedTruncates(r, TWO_127 - 1);
      if Abs(v) >= TWO_113 {
        FromIntTowardZero(sign, Abs(v));
        IntegerPartShift(r);
      } else {
        ExactIntegerPart(sign, Abs(v));
      }
    }
  }
}
