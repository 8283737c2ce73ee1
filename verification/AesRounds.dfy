/** The AES round transformations on the 16-byte state, row r of column c at index r + 4c. */
module AesRounds {
  import opened GaloisField
  import opened Aes128

  function SubBytes(s: seq<bv8>): (t: seq<bv8>)
    requires |s| == 16
    ensures |t| == 16
  {
    seq(16, i requires 0 <= i < 16 => SBox(s[i]))
  }

  function InvSubBytes(s: seq<bv8>): (t: seq<bv8>)
    requires |s| == 16
    ensures |t| == 16
  {
    seq(16, i requires 0 <= i < 16 => InvSBox(s[i]))
  }

  /** Row r moves left by r columns: where index `i` is filled from, and where it goes to. */
  function From(i: nat): (k: nat)
    requires i < 16
    ensures k < 16
  {
    i % 4 + 4 * ((i / 4 + i % 4) % 4)
  }

  function To(i: nat): (k: nat)
    requires i < 16
    ensures k < 16
  {
    i % 4 + 4 * ((i / 4 + 4 - i % 4) % 4)
  }

  function ShiftRows(s: seq<bv8>): (t: seq<bv8>)
    requires |s| == 16
    ensures |t| == 16
  {
    seq(16, i requires 0 <= i < 16 => s[From(i)])
  }

  function InvShiftRows(s: seq<bv8>): (t: seq<bv8>)
    requires |s| == 16
    ensures |t| == 16
  {
    seq(16, i requires 0 <= i < 16 => s[To(i)])
  }

  /** One row of coefficients times a column. */
  function Dot(k: (bv8, bv8, bv8, bv8), a: bv8, b: bv8, c: bv8, d: bv8): bv8 {
    Add(Add(Mul(k.0, a), Mul(k.1, b)), Add(Mul(k.2, c), Mul(k.3, d)))
  }

  const MIX: (bv8, bv8, bv8, bv8) := (2, 3, 1, 1)
  const UNMIX: (bv8, bv8, bv8, bv8) := (14, 11, 13, 9)

  /** Each column is multiplied by the circulant matrix of {02}, {03}, {01}, {01}. */
  function MixColumns(s: seq<bv8>): (t: seq<bv8>)
    requires |s| == 16
    ensures |t| == 16
  {
    seq(16, i requires 0 <= i < 16 => Dot(MIX, Cell(s, i, 0), Cell(s, i, 1), Cell(s, i, 2), Cell(s, i, 3)))
  }

  function InvMixColumns(s: seq<bv8>): (t: seq<bv8>)
    requires |s| == 16
    ensures |t| == 16
  {
    seq(16, i requires 0 <= i < 16 => Dot(UNMIX, Cell(s, i, 0), Cell(s, i, 1), Cell(s, i, 2), Cell(s, i, 3)))
  }

  /** The byte `k` rows below index `i`, wrapping inside the column. */
  function Cell(s: seq<bv8>, i: nat, k: nat): bv8
    requires |s| == 16 && i < 16
  {
    s[Down(i, k)]
  }

  function Down(i: nat, k: nat): (j: nat)
    requires i < 16
    ensures j < 16
  {
    4 * (i / 4) + (i % 4 + k) % 4
  }

  lemma RowAndColumn(r: nat, c: nat)
    requires r < 4
    ensures (4 * c + r) / 4 == c && (4 * c + r) % 4 == r
  {
  }

  lemma WrapFour(n: nat)
    requires n < 8
    ensures n % 4 == if n < 4 then n else n - 4
  {
    RowAndColumn(if n < 4 then n else n - 4, if n < 4 then 0 else 1);
  }

  lemma DownAt(i: nat, k: nat, r: nat, c: nat)
    requires i < 16 && c == i / 4 && r == (i % 4 + k) % 4
    ensures r < 4 && Down(i, k) == 4 * c + r && Down(i, k) / 4 == c && Down(i, k) % 4 == r
  {
    RowAndColumn(r, c);
  }

  lemma DownDown(i: nat, k: nat, m: nat)
    requires i < 16 && k < 4 && m < 4
    ensures Down(Down(i, k), m) == Down(i, (k + m) % 4)
  {
    var r, c := i % 4, i / 4;
    WrapFour(r + k);
    WrapFour(k + m);
    WrapFour((r + k) % 4 + m);
    WrapFour(r + (k + m) % 4);
    DownAt(i, k, (r + k) % 4, c);
    DownAt(Down(i, k), m, ((r + k) % 4 + m) % 4, c);
    DownAt(i, (k + m) % 4, (r + (k + m) % 4) % 4, c);
  }

  function AddRoundKey(s: seq<bv8>, key: seq<bv8>): (t: seq<bv8>)
    requires |s| == 16 && |key| == 16
    ensures |t| == 16
  {
    seq(16, i requires 0 <= i < 16 => Add(s[i], key[i]))
  }

  lemma AddBits(a: bv8, b: bv8, j: bv3)
    ensures Bit(Add(a, b), j) == 1 <==> (Bit(a, j) == 1) != (Bit(b, j) == 1)
  {
  }

  /** A bit of the result is set when one and only one of the state's and the key's is. */
  lemma AddRoundKeyBits(s: seq<bv8>, key: seq<bv8>, i: nat, j: bv3)
    requires |s| == 16 && |key| == 16 && i < 16
    ensures Bit(AddRoundKey(s, key)[i], j) == 1 <==> (Bit(s[i], j) == 1) != (Bit(key[i], j) == 1)
  {
    hide Add, Bit;
    AddBits(s[i], key[i], j);
  }

  /** Section 5.1.2: row r of the result is row r of the state, read from column c + r on. */
  lemma ShiftRowsMoves(s: seq<bv8>, r: nat, c: nat)
    requires |s| == 16 && r < 4 && c < 4
    ensures ShiftRows(s)[r + 4 * c] == s[r + 4 * ((c + r) % 4)]
  {
    hide From;
    FromAt(r, c);
    WrapFour(c + r);
  }

  // ---------- each transformation is undone by its inverse ----------

  lemma SubBytesInvert(s: seq<bv8>)
    requires |s| == 16
    ensures InvSubBytes(SubBytes(s)) == s && SubBytes(InvSubBytes(s)) == s
  {
    hide SBox, InvSBox;
    forall i | 0 <= i < 16
      ensures InvSubBytes(SubBytes(s))[i] == s[i] && SubBytes(InvSubBytes(s))[i] == s[i]
    {
      BoxesInvert(s[i]);
    }
  }

  lemma FromAt(r: nat, c: nat)
    requires r < 4 && c < 4
    ensures From(4 * c + r) == 4 * (if c + r < 4 then c + r else c + r - 4) + r
    ensures To(4 * c + r) == 4 * (if c < r then c + 4 - r else c - r) + r
  {
    RowAndColumn(r, c);
    WrapFour(c + r);
    WrapFour(c + 4 - r);
  }

  lemma FromTo(i: nat)
    requires i < 16
    ensures From(To(i)) == i && To(From(i)) == i
  {
    hide From, To;
    var r, c := i % 4, i / 4;
    FromAt(r, c);
    FromAt(r, if c + r < 4 then c + r else c + r - 4);
    FromAt(r, if c < r then c + 4 - r else c - r);
  }

  lemma ShiftRowsInvert(s: seq<bv8>)
    requires |s| == 16
    ensures InvShiftRows(ShiftRows(s)) == s && ShiftRows(InvShiftRows(s)) == s
  {
    hide From, To;
    forall i | 0 <= i < 16
      ensures From(To(i)) == i && To(From(i)) == i
    {
      FromTo(i);
    }
  }

  /** Moving bytes around and substituting each byte can be done in either order. */
  lemma ShiftAndSubCommute(s: seq<bv8>)
    requires |s| == 16
    ensures InvSubBytes(InvShiftRows(s)) == InvShiftRows(InvSubBytes(s))
    ensures SubBytes(ShiftRows(s)) == ShiftRows(SubBytes(s))
  {
    hide From, To, SBox, InvSBox;
  }

  lemma AddRoundKeyInverts(s: seq<bv8>, key: seq<bv8>)
    requires |s| == 16 && |key| == 16
    ensures AddRoundKey(AddRoundKey(s, key), key) == s
  {
    hide Add;
    forall i | 0 <= i < 16
      ensures Add(Add(s[i], key[i]), key[i]) == s[i]
    {
      AddAssociates(s[i], key[i], key[i]);
      AddZero(s[i]);
      AddZero(key[i]);
    }
  }

  // ---------- the two matrices are inverse ----------

  lemma DotRotates(k: (bv8, bv8, bv8, bv8), a: bv8, b: bv8, c: bv8, d: bv8)
    ensures Dot(k, b, c, d, a) == Dot((k.3, k.0, k.1, k.2), a, b, c, d)
  {
    hide Add, Mul;
    var w, x, y, z := Mul(k.3, a), Mul(k.0, b), Mul(k.1, c), Mul(k.2, d);
    AddCommutes(Add(x, y), Add(z, w));
    AddCommutes(z, w);
    AddSwaps(w, z, x, y);
    AddCommutes(z, y);
  }

  lemma DotScales(m: bv8, k: (bv8, bv8, bv8, bv8), a: bv8, b: bv8, c: bv8, d: bv8)
    ensures Mul(m, Dot(k, a, b, c, d)) == Dot((Mul(m, k.0), Mul(m, k.1), Mul(m, k.2), Mul(m, k.3)), a, b, c, d)
  {
    hide Add, Mul;
    MulOfSum(Add(Mul(k.0, a), Mul(k.1, b)), Add(Mul(k.2, c), Mul(k.3, d)), m);
    MulOfSum(Mul(k.0, a), Mul(k.1, b), m);
    MulOfSum(Mul(k.2, c), Mul(k.3, d), m);
    MulAssociates(m, k.0, a); MulAssociates(m, k.1, b); MulAssociates(m, k.2, c); MulAssociates(m, k.3, d);
  }

  function Sum(p: (bv8, bv8, bv8, bv8), q: (bv8, bv8, bv8, bv8)): (bv8, bv8, bv8, bv8) {
    (Add(p.0, q.0), Add(p.1, q.1), Add(p.2, q.2), Add(p.3, q.3))
  }

  lemma DotAdds(p: (bv8, bv8, bv8, bv8), q: (bv8, bv8, bv8, bv8), a: bv8, b: bv8, c: bv8, d: bv8)
    ensures Add(Dot(p, a, b, c, d), Dot(q, a, b, c, d)) == Dot(Sum(p, q), a, b, c, d)
  {
    hide Add, Mul;
    AddSwaps(Add(Mul(p.0, a), Mul(p.1, b)), Add(Mul(p.2, c), Mul(p.3, d)),
             Add(Mul(q.0, a), Mul(q.1, b)), Add(Mul(q.2, c), Mul(q.3, d)));
    AddSwaps(Mul(p.0, a), Mul(p.1, b), Mul(q.0, a), Mul(q.1, b));
    AddSwaps(Mul(p.2, c), Mul(p.3, d), Mul(q.2, c), Mul(q.3, d));
    MulOfSum(p.0, q.0, a); MulOfSum(p.1, q.1, b); MulOfSum(p.2, q.2, c); MulOfSum(p.3, q.3, d);
  }

  function Scaled(m: bv8, k: (bv8, bv8, bv8, bv8)): (bv8, bv8, bv8, bv8) {
    (Mul(m, k.0), Mul(m, k.1), Mul(m, k.2), Mul(m, k.3))
  }

  /** The first row of the product of two circulant matrices. */
  function RowProduct(k: (bv8, bv8, bv8, bv8), l: (bv8, bv8, bv8, bv8)): (bv8, bv8, bv8, bv8) {
    Sum(Sum(Scaled(k.0, l), Scaled(k.1, (l.3, l.0, l.1, l.2))),
        Sum(Scaled(k.2, (l.2, l.3, l.0, l.1)), Scaled(k.3, (l.1, l.2, l.3, l.0))))
  }

  lemma DotOfDots(k: (bv8, bv8, bv8, bv8), l: (bv8, bv8, bv8, bv8), a: bv8, b: bv8, c: bv8, d: bv8)
    ensures Dot(k, Dot(l, a, b, c, d), Dot(l, b, c, d, a), Dot(l, c, d, a, b), Dot(l, d, a, b, c))
         == Dot(RowProduct(k, l), a, b, c, d)
  {
    var l1, l2, l3 := (l.3, l.0, l.1, l.2), (l.2, l.3, l.0, l.1), (l.1, l.2, l.3, l.0);
    RotatesTwice(l, a, b, c, d);
    DotScales(k.0, l, a, b, c, d);
    DotScales(k.1, l1, a, b, c, d);
    DotScales(k.2, l2, a, b, c, d);
    DotScales(k.3, l3, a, b, c, d);
    var p0, p1, p2, p3 := Scaled(k.0, l), Scaled(k.1, l1), Scaled(k.2, l2), Scaled(k.3, l3);
    DotAdds(p0, p1, a, b, c, d);
    DotAdds(p2, p3, a, b, c, d);
    DotAdds(Sum(p0, p1), Sum(p2, p3), a, b, c, d);
    hide Add, Mul;
  }

  lemma RotatesTwice(l: (bv8, bv8, bv8, bv8), a: bv8, b: bv8, c: bv8, d: bv8)
    ensures Dot(l, b, c, d, a) == Dot((l.3, l.0, l.1, l.2), a, b, c, d)
    ensures Dot(l, c, d, a, b) == Dot((l.2, l.3, l.0, l.1), a, b, c, d)
    ensures Dot(l, d, a, b, c) == Dot((l.1, l.2, l.3, l.0), a, b, c, d)
  {
    hide Dot;
    DotRotates(l, a, b, c, d);
    DotRotates(l, b, c, d, a);
    DotRotates((l.3, l.0, l.1, l.2), a, b, c, d);
    DotRotates(l, c, d, a, b);
    DotRotates((l.3, l.0, l.1, l.2), b, c, d, a);
    DotRotates((l.2, l.3, l.0, l.1), a, b, c, d);
  }

  /** Products by the matrix entries in terms of doubling. */
  lemma SmallProducts(a: bv8)
    ensures var b := Xtime(a); var c := Xtime(b); var d := Xtime(c);
      && Mul(1, a) == a && Mul(2, a) == b && Mul(3, a) == Add(b, a)
      && Mul(9, a) == Add(d, a) && Mul(11, a) == Add(Add(d, b), a)
      && Mul(13, a) == Add(Add(d, c), a) && Mul(14, a) == Add(Add(d, c), b)
  {
    Doublings();
    hide Mul, Xtime, Add;
    TimesTwo(a);
    MulOne(a);
    MulOfXtime(2, a); MulOfXtime(4, a);
    MulOfSum(2, 1, a); MulOfSum(8, 1, a); MulOfSum(8, 2, a); MulOfSum(10, 1, a);
    MulOfSum(8, 4, a); MulOfSum(12, 1, a); MulOfSum(12, 2, a);
  }

  lemma Doublings()
    ensures Xtime(2) == 4 && Xtime(4) == 8
    ensures Add(2, 1) == 3 && Add(8, 1) == 9 && Add(8, 2) == 10 && Add(10, 1) == 11
    ensures Add(8, 4) == 12 && Add(12, 1) == 13 && Add(12, 2) == 14
  {
  }

  lemma ProductConstants(k: bv8)
    requires k == 14 || k == 11 || k == 13 || k == 9
    ensures Mul(k, 1) == k && Mul(k, 2) == Xtime(k) && Mul(k, 3) == Add(Xtime(k), k)
  {
    hide Mul, Xtime, Add;
    MulCommutes(k, 1); MulCommutes(k, 2); MulCommutes(k, 3);
    SmallProducts(k);
  }

  lemma RowsInvert()
    ensures RowProduct(UNMIX, MIX) == (1, 0, 0, 0)
    ensures RowProduct(MIX, UNMIX) == (1, 0, 0, 0)
  {
    hide Mul;
    ProductConstants(14); ProductConstants(11); ProductConstants(13); ProductConstants(9);
    MulCommutes(14, 1); MulCommutes(14, 2); MulCommutes(14, 3);
    MulCommutes(11, 1); MulCommutes(11, 2); MulCommutes(11, 3);
    MulCommutes(13, 1); MulCommutes(13, 2); MulCommutes(13, 3);
    MulCommutes(9, 1); MulCommutes(9, 2); MulCommutes(9, 3);
  }

  lemma UnitRow(a: bv8, b: bv8, c: bv8, d: bv8)
    ensures Dot((1, 0, 0, 0), a, b, c, d) == a
  {
    hide Mul;
    MulOne(a);
    MulOfPick(0, 0, b); MulOfPick(0, 0, c); MulOfPick(0, 0, d);
  }

  lemma CellOfCell(s: seq<bv8>, t: seq<bv8>, i: nat, k: nat, l: (bv8, bv8, bv8, bv8))
    requires |s| == |t| == 16 && i < 16 && k < 4
    requires t == seq(16, j requires 0 <= j < 16 => Dot(l, Cell(s, j, 0), Cell(s, j, 1), Cell(s, j, 2), Cell(s, j, 3)))
    ensures Cell(t, i, k)
         == Dot(l, Cell(s, i, k), Cell(s, i, (k + 1) % 4), Cell(s, i, (k + 2) % 4), Cell(s, i, (k + 3) % 4))
  {
    hide Dot, Down;
    DownDown(i, k, 0); DownDown(i, k, 1); DownDown(i, k, 2); DownDown(i, k, 3);
  }

  lemma MixColumnsInvert(s: seq<bv8>)
    requires |s| == 16
    ensures InvMixColumns(MixColumns(s)) == s && MixColumns(InvMixColumns(s)) == s
  {
    hide Dot, Cell, RowProduct;
    RowsInvert();
    forall i | 0 <= i < 16
      ensures InvMixColumns(MixColumns(s))[i] == s[i] && MixColumns(InvMixColumns(s))[i] == s[i]
    {
      var a, b, c, d := Cell(s, i, 0), Cell(s, i, 1), Cell(s, i, 2), Cell(s, i, 3);
      CellOfCell(s, MixColumns(s), i, 0, MIX); CellOfCell(s, MixColumns(s), i, 1, MIX);
      CellOfCell(s, MixColumns(s), i, 2, MIX); CellOfCell(s, MixColumns(s), i, 3, MIX);
      CellOfCell(s, InvMixColumns(s), i, 0, UNMIX); CellOfCell(s, InvMixColumns(s), i, 1, UNMIX);
      CellOfCell(s, InvMixColumns(s), i, 2, UNMIX); CellOfCell(s, InvMixColumns(s), i, 3, UNMIX);
      DotOfDots(UNMIX, MIX, a, b, c, d);
      DotOfDots(MIX, UNMIX, a, b, c, d);
      UnitRow(a, b, c, d);
      OwnCell(s, i);
    }
  }

  lemma OwnCell(s: seq<bv8>, i: nat)
    requires |s| == 16 && i < 16
    ensures Cell(s, i, 0) == s[i]
  {
  }
}
