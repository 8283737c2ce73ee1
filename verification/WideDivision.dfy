/** 128-bit division: restoring long division and the signed and remainder forms built on it. */
module WideDivision {
  import opened Arithmetic
  import opened Shifts
  import opened Words

  /** Two's-complement reinterpretation of an arbitrary integer as a signed 128-bit word. */
  function Wrap(x: int): (w: I128)
    ensures (w - x) % TWO_128 == 0
  {
    var m := x % TWO_128;
    if m < TWO_127 then m else m - TWO_128
  }

  /** C truncating division: the remainder is smaller than the divisor and has the dividend's sign. */
  ghost predicate Truncates(a: int, b: int, q: int, r: int) {
    && a == q * b + r
    && Abs(r) < Abs(b)
    && (r == 0 || (r < 0) == (a < 0))
  }

  /** The three clauses of `Truncates` leave no freedom in the quotient or the remainder. */
  lemma TruncatesUnique(a: int, b: int, q: int, r: int, q': int, r': int)
    requires Truncates(a, b, q, r) && Truncates(a, b, q', r')
    ensures q == q' && r == r'
  {
    var k := if b < 0 then q' - q else q - q';
    assert k * Abs(b) == r' - r;
    SmallMultiple(k, Abs(b));
  }

  /** One more dividend bit shifted into the remainder. */
  lemma NextBit(a: nat, bit: nat)
    ensures Shr(a, bit) == 2 * Shr(a, bit + 1) + Shr(a, bit) % 2
  {
    ShrShr(a, bit, 1);
  }

  lemma TopOfU128(a: U128)
    ensures Shr(a, 128) == 0
  {
    WordPowers();
    ShlScaled(TWO_64, 64, 64);
    ShrIsDiv(a, 128, TWO_128);
  }

  /** One round of the loop: `r` takes the next dividend bit and `b` is subtracted when it fits. */
  lemma Round(b: U128, r: U128, next: nat)
    requires r < b && next < 2
    ensures var t := 2 * r + next;
            var low := r * 2 % TWO_128 + next;
            && low < TWO_128
            && r / TWO_127 <= 1
            && t == low + r / TWO_127 * TWO_128
            && (r / TWO_127 == 1 || low >= b <==> t >= b)
            && (t < b ==> low == t)
            && (t >= b ==> (low - b) % TWO_128 == t - b < b)
  {
  }

  /** A partial quotient put back in place never exceeds the dividend. */
  lemma QuotientFits(a: U128, b: U128, bit: nat, digits: nat)
    requires b > 0 && digits * b <= Shr(a, bit)
    ensures 0 <= Shl(digits, bit) <= a
  {
    MulOrder(1, b, digits);
    ShrBounds(a, bit);
    ShlOrder(digits, Shr(a, bit), bit);
    ShlOrder(0, digits, bit);
    ShlTimes(0, 0, bit);
  }

  /** The digits moved one place left keep their value one bit position lower. */
  lemma DigitPlaces(digits: nat, bit: nat)
    ensures Shl(2 * digits, bit) == Shl(digits, bit + 1)
    ensures Shl(2 * digits + 1, bit) == Shl(digits, bit + 1) + Shl(1, bit)
  {
    ShlTwice(digits, bit);
    ShlAdd(2 * digits, 1, bit);
  }

  /**
   * Restoring division with a 129-bit partial remainder: the bit that leaves `r` on the
   * left shift is kept in `overflow`, and the subtraction wraps modulo 2^128.
   */
  method UDivTi3(a: U128, b: U128) returns (q: U128)
    requires b != 0
    ensures q == a / b
  {
    assert Shr(a, 0) == a && forall d: int :: Shl(d, 0) == d;
    hide Shl, Shr;
    q := 0;
    var r: U128 := 0;
    ghost var digits: nat := 0; // the quotient bits produced so far
    TopOfU128(a);
    ShlTimes(0, 0, 128);
    for bit := 128 downto 0
      invariant q == Shl(digits, bit)
      invariant Shr(a, bit) == digits * b + r
      invariant r < b
    {
      var next := Shr(a, bit) % 2;
      NextBit(a, bit);
      Round(b, r, next);
      NextDigit(Shr(a, bit + 1), digits, b, r);
      DigitPlaces(digits, bit);
      var overflow := r / TWO_127;
      r := r * 2 % TWO_128 + next;
      digits := 2 * digits;
      if overflow == 1 || r >= b {
        r := (r - b) % TWO_128;
        digits := digits + 1;
        QuotientFits(a, b, bit, digits);
        q := q + Shl(1, bit); // bit is clear in q, so the `or` is a sum
      }
    }
    QuotientUnique(a, b, q, r);
  }

  /** Magnitude of a signed word, computed without overflowing on the minimum. */
  function Magnitude(x: I128): (m: U128)
    ensures m == Abs(x)
  {
    if x < 0 then -(x + 1) + 1 else x
  }

  method DivTi3(a: I128, b: I128) returns (q: I128)
    requires b != 0
    ensures a == -TWO_127 && b == -1 ==> q == -TWO_127
    ensures !(a == -TWO_127 && b == -1) ==> Truncates(a, b, q, a - q * b)
  {
    if b == -1 {
      if a == -TWO_127 {
        return -TWO_127;
      }
    }
    var neg := (a < 0) != (b < 0);
    var ua, ub := Magnitude(a), Magnitude(b);
    var uq := UDivTi3(ua, ub);
    FloorBounds(ua, ub);
    SignedQuotient(a, b, uq, ua - uq * ub);
    SignedFits(a, b, uq, ua - uq * ub);
    q := Wrap(Negated(neg, uq));
  }

  lemma SignedFits(a: I128, b: I128, uq: nat, ur: nat)
    requires b != 0 && !(a == -TWO_127 && b == -1)
    requires Abs(a) == uq * Abs(b) + ur
    ensures Wrap(Negated((a < 0) != (b < 0), uq)) == Negated((a < 0) != (b < 0), uq)
  {
    QuotientRoom(uq, Abs(b));
    WrapInRange(Negated((a < 0) != (b < 0), uq));
  }

  lemma QuotientRoom(uq: nat, m: nat)
    requires m > 0
    ensures m == 1 ==> uq * m == uq
    ensures m > 1 ==> 2 * uq <= uq * m
  {
    if m > 1 {
      MulOrder(2, m, uq);
    }
  }

  lemma WrapInRange(x: int)
    ensures -TWO_127 <= x < TWO_127 ==> Wrap(x) == x
  {
  }

  lemma SignedQuotient(a: int, b: int, uq: nat, ur: nat)
    requires b != 0 && Abs(a) == uq * Abs(b) + ur && ur < Abs(b)
    ensures var q := Negated((a < 0) != (b < 0), uq); Truncates(a, b, q, a - q * b)
  {
    assert -(uq * b) == Negated(true, uq) * b;
  }

  method UModTi3(a: U128, b: U128) returns (r: U128)
    requires b != 0
    ensures r == a % b
  {
    var q := UDivTi3(a, b);
    FloorBounds(a, b);
    QuotientUnique(a, b, q, a - q * b);
    r := (a - q * b) % TWO_128;
  }

  /** The remainder is formed from the wrapped product, so the overflowing case yields zero. */
  method ModTi3(a: I128, b: I128) returns (r: I128)
    requires b != 0
    ensures exists q: int {:trigger q * b} :: Truncates(a, b, q, r)
  {
    hide Wrap;
    var q := DivTi3(a, b);
    var p := q * b;
    r := Wrap(a - Wrap(p));
    if a == -TWO_127 && b == -1 {
      WrappedOverflow();
      assert Truncates(a, b, TWO_127, 0) && TWO_127 * b == a;
    } else {
      WrapIsIdentity(a, b, p);
      assert Truncates(a, b, q, a - q * b);
    }
  }

  lemma WrappedOverflow()
    ensures Wrap(-TWO_127 - Wrap(TWO_127)) == 0
  {
  }

  lemma WrapIsIdentity(a: I128, b: I128, p: int)
    requires Abs(a - p) < Abs(b) && (a - p == 0 || (a - p < 0) == (a < 0))
    ensures Wrap(a - Wrap(p)) == a - p
  {
    assert -TWO_127 <= p < TWO_127;
  }
}
