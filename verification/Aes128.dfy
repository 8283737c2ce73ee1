/** The software AES-128 block cipher and its inverse, FIPS 197 sections 5.1 to 5.3. */
module Aes128 {
  import opened Bytes
  import opened GaloisField

  // ---------- the substitution box ----------

  /** Rotation-and-xor form of the affine step. */
  function Affine(x: bv8): bv8 {
    x ^ ((x << 1) | (x >> 7)) ^ ((x << 2) | (x >> 6)) ^ ((x << 3) | (x >> 5)) ^ ((x << 4) | (x >> 4)) ^ 0x63
  }

  function Bit(x: bv8, i: bv3): bv8 { (x >> i) & 1 }

  /** Equation (5.2) of FIPS 197; the three-bit index counts modulo 8. */
  lemma AffineBits(x: bv8, i: bv3)
    ensures Bit(Affine(x), i)
         == Bit(x, i) ^ Bit(x, i + 4) ^ Bit(x, i + 5) ^ Bit(x, i + 6) ^ Bit(x, i + 7) ^ Bit(0x63, i)
  {
  }

  function AffineInverse(y: bv8): bv8 {
    ((y << 1) | (y >> 7)) ^ ((y << 3) | (y >> 5)) ^ ((y << 6) | (y >> 2)) ^ 0x05
  }

  lemma AffineUndone(x: bv8)
    ensures AffineInverse(Affine(x)) == x
    ensures Affine(AffineInverse(x)) == x
  {
  }

  function SBox(x: bv8): bv8 { Affine(Inverse(x)) }

  function InvSBox(y: bv8): bv8 { Inverse(AffineInverse(y)) }

  /** The two boxes undo each other, so the substitution is a bijection. */
  lemma BoxesInvert(x: bv8)
    ensures InvSBox(SBox(x)) == x && SBox(InvSBox(x)) == x
  {
    hide Inverse, Affine, AffineInverse;
    AffineUndone(Inverse(x));
    InverseTwice(x);
    AffineUndone(x);
    InverseTwice(AffineInverse(x));
  }

  class Tables {
    const sbox: array<bv8>
    const invSbox: array<bv8>
    var ready: bool

    ghost predicate Valid()
      reads this, sbox, invSbox
    {
      && sbox.Length == 256 && invSbox.Length == 256 && sbox != invSbox
      && (ready ==> forall x: bv8 :: sbox[Index(x)] == SBox(x) && invSbox[Index(x)] == InvSBox(x))
    }

    constructor ()
      ensures Valid() && !ready && fresh(sbox) && fresh(invSbox)
    {
      sbox := new bv8[256](i => 0);
      invSbox := new bv8[256](i => 0);
      ready := false;
    }

    /** Fills both tables; a second call changes nothing. */
    method InitTables()
      requires Valid()
      modifies this`ready, sbox, invSbox
      ensures Valid() && ready
      ensures old(ready) ==> sbox[..] == old(sbox[..]) && invSbox[..] == old(invSbox[..])
    {
      hide SBox, InvSBox, Index, Byte, Inverse, Affine;
      if ready { return; }
      for i := 0 to 256
        invariant forall x: bv8 :: Index(x) < i ==> sbox[Index(x)] == SBox(x)
        invariant forall y: bv8 :: Index(InvSBox(y)) < i ==> invSbox[Index(y)] == InvSBox(y)
      {
        var x := Byte(i);
        IndexOfByte(i);
        var inv := 0;
        if i != 0 { inv := PowImpl(x, 254); }
        InverseOfByte(i);
        var y := inv ^ ((inv << 1) | (inv >> 7)) ^ ((inv << 2) | (inv >> 6))
          ^ ((inv << 3) | (inv >> 5)) ^ ((inv << 4) | (inv >> 4)) ^ 0x63;
        assert y == SBox(x) by { AffineIs(inv, y); SBoxIs(x); }
        sbox[i] := y;
        invSbox[Index(y)] := x;
        EntryStep(x, y);
      }
      ready := true;
    }
  }

  /** Table entry `k` is the affine image of the inverse; entry 0 takes 0 for the inverse. */
  lemma InverseOfByte(k: nat)
    requires k < 256
    ensures if k == 0 then Inverse(Byte(k)) == 0 else Inverse(Byte(k)) == Power(Byte(k), 254)
  {
    hide Power, Mul;
    InverseMultiplies(0);
  }

  lemma AffineIs(inv: bv8, y: bv8)
    requires y == inv ^ ((inv << 1) | (inv >> 7)) ^ ((inv << 2) | (inv >> 6))
      ^ ((inv << 3) | (inv >> 5)) ^ ((inv << 4) | (inv >> 4)) ^ 0x63
    ensures y == Affine(inv)
  {
  }

  lemma SBoxIs(x: bv8)
    ensures SBox(x) == Affine(Inverse(x))
  {
    hide Affine, Inverse;
  }

  /** Writing one pair of entries touches no other byte's entries. */
  lemma EntryStep(x: bv8, y: bv8)
    requires y == SBox(x)
    ensures InvSBox(y) == x
    ensures forall x': bv8 :: Index(x') == Index(x) ==> x' == x
    ensures forall y': bv8 :: Index(y') == Index(y) ==> y' == y
    ensures forall y': bv8 :: Index(InvSBox(y')) == Index(x) ==> y' == y
  {
    hide SBox, InvSBox, Index, Byte;
    BoxesInvert(x);
    forall x': bv8 ensures Byte(Index(x')) == x' { ByteOfIndex(x'); }
    forall y': bv8 ensures SBox(InvSBox(y')) == y' { BoxesInvert(y'); }
  }
}
