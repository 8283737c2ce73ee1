/** The block cipher itself: whole-block encryption and decryption over a buffer of 11 round keys. */
module AesCipher {
  import opened Aes128
  import opened Bytes
  import opened GaloisField
  import opened AesRounds

  // ---------- section 5.1 and 5.3 of FIPS 197 ----------

  function RoundKey(keys: seq<bv8>, r: nat): (k: seq<bv8>)
    requires |keys| >= 176 && r <= 10
    ensures |k| == 16
  {
    keys[16 * r..16 * r + 16]
  }

  /** The state after `r` full rounds. */
  function Rounds(block: seq<bv8>, keys: seq<bv8>, r: nat): (s: seq<bv8>)
    requires |block| == 16 && |keys| >= 176 && r <= 9
    ensures |s| == 16
  {
    if r == 0 then AddRoundKey(block, RoundKey(keys, 0))
    else AddRoundKey(MixColumns(ShiftRows(SubBytes(Rounds(block, keys, r - 1)))), RoundKey(keys, r))
  }

  function Cipher(block: seq<bv8>, keys: seq<bv8>): (s: seq<bv8>)
    requires |block| == 16 && |keys| >= 176
    ensures |s| == 16
  {
    AddRoundKey(ShiftRows(SubBytes(Rounds(block, keys, 9))), RoundKey(keys, 10))
  }

  /** The state after undoing the last round and rounds 9 down to `r`. */
  function InvRounds(block: seq<bv8>, keys: seq<bv8>, r: nat): (s: seq<bv8>)
    requires |block| == 16 && |keys| >= 176 && 1 <= r <= 10
    ensures |s| == 16
    decreases 10 - r
  {
    if r == 10 then AddRoundKey(block, RoundKey(keys, 10))
    else InvMixColumns(AddRoundKey(InvSubBytes(InvShiftRows(InvRounds(block, keys, r + 1))), RoundKey(keys, r)))
  }

  function InvCipher(block: seq<bv8>, keys: seq<bv8>): (s: seq<bv8>)
    requires |block| == 16 && |keys| >= 176
    ensures |s| == 16
  {
    AddRoundKey(InvSubBytes(InvShiftRows(InvRounds(block, keys, 1))), RoundKey(keys, 0))
  }

  // ---------- decryption undoes encryption ----------

  lemma SubShiftInvert(s: seq<bv8>)
    requires |s| == 16
    ensures InvSubBytes(InvShiftRows(ShiftRows(SubBytes(s)))) == s
    ensures ShiftRows(SubBytes(InvSubBytes(InvShiftRows(s)))) == s
  {
    hide SubBytes, InvSubBytes, ShiftRows, InvShiftRows;
    ShiftRowsInvert(SubBytes(s));
    SubBytesInvert(s);
    ShiftRowsInvert(s);
    SubBytesInvert(InvShiftRows(s));
  }

  lemma {:induction false} RoundsUndone(block: seq<bv8>, keys: seq<bv8>, r: nat)
    requires |block| == 16 && |keys| >= 176 && 1 <= r <= 10
    ensures InvRounds(Cipher(block, keys), keys, r) == ShiftRows(SubBytes(Rounds(block, keys, r - 1)))
    decreases 10 - r
  {
    hide SubBytes, InvSubBytes, ShiftRows, InvShiftRows, MixColumns, InvMixColumns, AddRoundKey, RoundKey;
    if r == 10 {
      AddRoundKeyInverts(ShiftRows(SubBytes(Rounds(block, keys, 9))), RoundKey(keys, 10));
    } else {
      RoundsUndone(block, keys, r + 1);
      SubShiftInvert(Rounds(block, keys, r));
      var mixed := MixColumns(ShiftRows(SubBytes(Rounds(block, keys, r - 1))));
      AddRoundKeyInverts(mixed, RoundKey(keys, r));
      MixColumnsInvert(ShiftRows(SubBytes(Rounds(block, keys, r - 1))));
    }
  }

  lemma {:induction false} InvRoundsUndone(block: seq<bv8>, keys: seq<bv8>, r: nat)
    requires |block| == 16 && |keys| >= 176 && r <= 9
    ensures ShiftRows(SubBytes(Rounds(InvCipher(block, keys), keys, r))) == InvRounds(block, keys, r + 1)
  {
    hide SubBytes, InvSubBytes, ShiftRows, InvShiftRows, MixColumns, InvMixColumns, AddRoundKey, RoundKey;
    SubShiftInvert(InvRounds(block, keys, r + 1));
    if r == 0 {
      AddRoundKeyInverts(InvSubBytes(InvShiftRows(InvRounds(block, keys, 1))), RoundKey(keys, 0));
    } else {
      InvRoundsUndone(block, keys, r - 1);
      var keyed := AddRoundKey(InvSubBytes(InvShiftRows(InvRounds(block, keys, r + 1))), RoundKey(keys, r));
      MixColumnsInvert(keyed);
      AddRoundKeyInverts(InvSubBytes(InvShiftRows(InvRounds(block, keys, r + 1))), RoundKey(keys, r));
    }
  }

  /** For every round-key buffer the two directions are inverse permutations of the blocks. */
  lemma DecryptUndoesEncrypt(block: seq<bv8>, keys: seq<bv8>)
    requires |block| == 16 && |keys| >= 176
    ensures InvCipher(Cipher(block, keys), keys) == block
    ensures Cipher(InvCipher(block, keys), keys) == block
  {
    hide SubBytes, InvSubBytes, ShiftRows, InvShiftRows, AddRoundKey, RoundKey;
    RoundsUndone(block, keys, 1);
    SubShiftInvert(Rounds(block, keys, 0));
    AddRoundKeyInverts(block, RoundKey(keys, 0));
    InvRoundsUndone(block, keys, 9);
    AddRoundKeyInverts(block, RoundKey(keys, 10));
  }

  // ---------- what the key does ----------

  lemma SliceOfPrefix(keys: seq<bv8>, keys': seq<bv8>, r: nat)
    requires |keys| >= 176 && |keys'| >= 176 && keys[..160] == keys'[..160] && r <= 9
    ensures RoundKey(keys, r) == RoundKey(keys', r)
  {
    var n := 16 * r;
    forall i | 0 <= i < 16
      ensures RoundKey(keys, r)[i] == RoundKey(keys', r)[i]
    {
      assert keys[n + i] == keys[..160][n + i] && keys'[n + i] == keys'[..160][n + i];
    }
  }

  lemma SliceOfTail(keys: seq<bv8>, keys': seq<bv8>, r: nat)
    requires |keys| == |keys'| >= 176 && keys[16..] == keys'[16..] && 1 <= r <= 10
    ensures RoundKey(keys, r) == RoundKey(keys', r)
  {
    var n := 16 * r;
    forall i | 0 <= i < 16
      ensures RoundKey(keys, r)[i] == RoundKey(keys', r)[i]
    {
      assert keys[n + i] == keys[16..][n + i - 16] && keys'[n + i] == keys'[16..][n + i - 16];
    }
  }

  lemma KeyedByte(s: seq<bv8>, k: seq<bv8>, i: nat)
    requires |s| == |k| == 16 && i < 16
    ensures AddRoundKey(s, k)[i] == Add(s[i], k[i])
  {
    hide Add;
  }

  /** The rounds before the last use the first ten round keys only. */
  lemma {:induction false} RoundsOfPrefix(block: seq<bv8>, keys: seq<bv8>, keys': seq<bv8>, r: nat)
    requires |block| == 16 && |keys| >= 176 && |keys'| >= 176 && keys[..160] == keys'[..160] && r <= 9
    ensures Rounds(block, keys, r) == Rounds(block, keys', r)
  {
    hide SubBytes, ShiftRows, MixColumns, AddRoundKey;
    SliceOfPrefix(keys, keys', r);
    if r > 0 {
      RoundsOfPrefix(block, keys, keys', r - 1);
    }
  }

  lemma AddTwice(x: bv8, k: bv8, l: bv8)
    ensures Add(Add(x, k), Add(x, l)) == Add(k, l)
  {
  }

  /** Round keys that differ in the last one only give ciphertexts that differ as these do, byte by byte. */
  lemma LastKeyShows(block: seq<bv8>, keys: seq<bv8>, keys': seq<bv8>, i: nat)
    requires |block| == 16 && |keys| >= 176 && |keys'| >= 176 && keys[..160] == keys'[..160] && i < 16
    ensures Add(Cipher(block, keys)[i], Cipher(block, keys')[i]) == Add(keys[160 + i], keys'[160 + i])
  {
    hide SubBytes, ShiftRows, AddRoundKey, Rounds, Add;
    RoundsOfPrefix(block, keys, keys', 9);
    var s, k, k' := ShiftRows(SubBytes(Rounds(block, keys, 9))), RoundKey(keys, 10), RoundKey(keys', 10);
    KeyedByte(s, k, i);
    KeyedByte(s, k', i);
    AddTwice(s[i], k[i], k'[i]);
  }

  lemma AddThrough(x: bv8, y: bv8, k: bv8)
    ensures Add(Add(x, y), Add(y, k)) == Add(x, k) && Add(Add(x, y), Add(x, k)) == Add(y, k)
  {
  }

  lemma SameSum(x: bv8, y: bv8, k: bv8, l: bv8)
    requires Add(x, y) == Add(k, l)
    ensures Add(x, k) == Add(y, l)
  {
    hide Add;
    AddThrough(x, y, k);
    AddThrough(k, l, y);
    AddCommutes(y, k);
    AddCommutes(l, y);
  }

  lemma {:induction false} RoundsOfTail(block: seq<bv8>, block': seq<bv8>, keys: seq<bv8>, keys': seq<bv8>, r: nat)
    requires |block| == |block'| == 16 && |keys| == |keys'| >= 176 && keys[16..] == keys'[16..] && r <= 9
    requires forall i :: 0 <= i < 16 ==> Add(block[i], block'[i]) == Add(keys[i], keys'[i])
    ensures Rounds(block, keys, r) == Rounds(block', keys', r)
  {
    hide SubBytes, ShiftRows, MixColumns, Add;
    if r == 0 {
      forall i | 0 <= i < 16
        ensures Add(block[i], keys[i]) == Add(block'[i], keys'[i])
      {
        SameSum(block[i], block'[i], keys[i], keys'[i]);
      }
    } else {
      RoundsOfTail(block, block', keys, keys', r - 1);
      SliceOfTail(keys, keys', r);
    }
  }

  /** A change of the first round key is a change of the block: differences that agree cancel, others show. */
  lemma FirstKeyWhitens(block: seq<bv8>, block': seq<bv8>, keys: seq<bv8>, keys': seq<bv8>)
    requires |block| == |block'| == 16 && |keys| == |keys'| >= 176 && keys[16..] == keys'[16..]
    ensures Cipher(block, keys) == Cipher(block', keys')
       <==> forall i :: 0 <= i < 16 ==> Add(block[i], block'[i]) == Add(keys[i], keys'[i])
  {
    hide SubBytes, ShiftRows, MixColumns, Rounds, InvRounds, InvSubBytes, InvShiftRows, Add;
    SliceOfTail(keys, keys', 10);
    if forall i :: 0 <= i < 16 ==> Add(block[i], block'[i]) == Add(keys[i], keys'[i]) {
      RoundsOfTail(block, block', keys, keys', 9);
    }
    if Cipher(block, keys) == Cipher(block', keys') {
      SameAfterKey(block, block', keys, keys');
    }
  }

  lemma SameAfterKey(block: seq<bv8>, block': seq<bv8>, keys: seq<bv8>, keys': seq<bv8>)
    requires |block| == |block'| == 16 && |keys| == |keys'| >= 176 && keys[16..] == keys'[16..]
    requires Cipher(block, keys) == Cipher(block', keys')
    ensures forall i :: 0 <= i < 16 ==> Add(block[i], block'[i]) == Add(keys[i], keys'[i])
  {
    hide SubBytes, ShiftRows, MixColumns, InvSubBytes, InvShiftRows, InvMixColumns, AddRoundKey, Cipher;
    DecryptUndoesEncrypt(block, keys);
    DecryptUndoesEncrypt(block', keys');
    var c := Cipher(block, keys);
    InvRoundsOfTail(c, keys, keys', 1);
    var s := InvSubBytes(InvShiftRows(InvRounds(c, keys, 1)));
    SameState(s, block, block', RoundKey(keys, 0), RoundKey(keys', 0));
  }

  lemma {:induction false} InvRoundsOfTail(block: seq<bv8>, keys: seq<bv8>, keys': seq<bv8>, r: nat)
    requires |block| == 16 && |keys| == |keys'| >= 176 && keys[16..] == keys'[16..] && 1 <= r <= 10
    ensures InvRounds(block, keys, r) == InvRounds(block, keys', r)
    decreases 10 - r
  {
    hide InvSubBytes, InvShiftRows, InvMixColumns, AddRoundKey;
    SliceOfTail(keys, keys', r);
    if r < 10 {
      InvRoundsOfTail(block, keys, keys', r + 1);
    }
  }

  lemma SameState(s: seq<bv8>, b: seq<bv8>, b': seq<bv8>, k: seq<bv8>, k': seq<bv8>)
    requires |s| == |k| == |k'| == 16 && b == AddRoundKey(s, k) && b' == AddRoundKey(s, k')
    ensures forall i :: 0 <= i < 16 ==> Add(b[i], b'[i]) == Add(k[i], k'[i])
  {
    hide Add;
    forall i | 0 <= i < 16
      ensures Add(b[i], b'[i]) == Add(k[i], k'[i])
    {
      AddTwice(s[i], k[i], k'[i]);
    }
  }

  // ---------- the in-place round steps ----------

  method Lookup(table: array<bv8>, s: array<bv8>) returns (t: array<bv8>)
    requires table.Length == 256 && s.Length == 16
    ensures fresh(t) && t.Length == 16
    ensures forall k :: 0 <= k < 16 ==> t[k] == table[Index(s[k])]
  {
    hide Index;
    t := new bv8[16];
    for i := 0 to 16
      invariant forall k :: 0 <= k < i ==> t[k] == table[Index(s[k])]
    {
      t[i] := table[Index(s[i])];
    }
  }

  /** The row rotations spelled out, one row a line. */
  ghost predicate RowsShifted<T>(t: seq<T>, s: seq<T>) {
    && |t| == |s| == 16
    && s[0] == t[0] && s[4] == t[4] && s[8] == t[8] && s[12] == t[12]
    && s[1] == t[5] && s[5] == t[9] && s[9] == t[13] && s[13] == t[1]
    && s[2] == t[10] && s[6] == t[14] && s[10] == t[2] && s[14] == t[6]
    && s[3] == t[15] && s[7] == t[3] && s[11] == t[7] && s[15] == t[11]
  }

  method PutShifted<T>(t: array<T>, s: array<T>)
    requires t.Length == s.Length == 16 && s != t
    modifies s
    ensures RowsShifted(t[..], s[..])
  {
    s[0] := t[0]; s[4] := t[4]; s[8] := t[8]; s[12] := t[12];
    s[1] := t[5]; s[5] := t[9]; s[9] := t[13]; s[13] := t[1];
    s[2] := t[10]; s[6] := t[14]; s[10] := t[2]; s[14] := t[6];
    s[3] := t[15]; s[7] := t[3]; s[11] := t[7]; s[15] := t[11];
  }

  /** The substitution and the row shift of one round, in place. */
  method SubShift(tables: Tables, s: array<bv8>)
    requires tables.Valid() && tables.ready && s.Length == 16
    modifies s
    ensures s[..] == ShiftRows(SubBytes(old(s[..])))
  {
    hide SBox, InvSBox, Index, SubBytes, ShiftRows, RowsShifted;
    var t := Lookup(tables.sbox, s);
    SubstitutedIs(s[..], t[..]);
    PutShifted(t, s);
    ShiftedIs(t[..], s[..]);
  }

  lemma SubstitutedIs(s: seq<bv8>, t: seq<bv8>)
    requires |s| == |t| == 16 && forall k :: 0 <= k < 16 ==> t[k] == SBox(s[k])
    ensures t == SubBytes(s)
  {
    hide SBox;
  }

  lemma InvSubstitutedIs(s: seq<bv8>, t: seq<bv8>)
    requires |s| == |t| == 16 && forall k :: 0 <= k < 16 ==> t[k] == InvSBox(s[k])
    ensures t == InvSubBytes(s)
  {
    hide InvSBox;
  }

  lemma ShiftedIs(t: seq<bv8>, s: seq<bv8>)
    requires RowsShifted(t, s)
    ensures s == ShiftRows(t)
  {
  }

  ghost predicate RowsUnshifted<T>(t: seq<T>, s: seq<T>) {
    && |t| == |s| == 16
    && s[0] == t[0] && s[4] == t[4] && s[8] == t[8] && s[12] == t[12]
    && s[1] == t[13] && s[5] == t[1] && s[9] == t[5] && s[13] == t[9]
    && s[2] == t[10] && s[6] == t[14] && s[10] == t[2] && s[14] == t[6]
    && s[3] == t[7] && s[7] == t[11] && s[11] == t[15] && s[15] == t[3]
  }

  method PutUnshifted<T>(t: array<T>, s: array<T>)
    requires t.Length == s.Length == 16 && s != t
    modifies s
    ensures RowsUnshifted(t[..], s[..])
  {
    s[0] := t[0]; s[4] := t[4]; s[8] := t[8]; s[12] := t[12];
    s[1] := t[13]; s[5] := t[1]; s[9] := t[5]; s[13] := t[9];
    s[2] := t[10]; s[6] := t[14]; s[10] := t[2]; s[14] := t[6];
    s[3] := t[7]; s[7] := t[11]; s[11] := t[15]; s[15] := t[3];
  }

  method InvSubShift(tables: Tables, s: array<bv8>)
    requires tables.Valid() && tables.ready && s.Length == 16
    modifies s
    ensures s[..] == InvSubBytes(InvShiftRows(old(s[..])))
  {
    hide SBox, InvSBox, Index, InvSubBytes, InvShiftRows, RowsUnshifted;
    var t := Lookup(tables.invSbox, s);
    InvSubstitutedIs(s[..], t[..]);
    PutUnshifted(t, s);
    InvShiftedIs(t[..], s[..]);
    ShiftAndSubCommute(old(s[..]));
  }

  lemma InvShiftedIs(t: seq<bv8>, s: seq<bv8>)
    requires RowsUnshifted(t, s)
    ensures s == InvShiftRows(t)
  {
  }

  lemma CellAt(s: seq<bv8>, c: nat, r: nat, k: nat)
    requires |s| == 16 && c < 4 && r < 4 && k < 4
    ensures Cell(s, 4 * c + r, k) == s[4 * c + if r + k < 4 then r + k else r + k - 4]
  {
    RowAndColumn(r, c);
    WrapFour(r + k);
  }

  lemma ColumnRows(s: seq<bv8>, c: nat)
    requires |s| == 16 && c < 4
    ensures var i := 4 * c;
      && Cell(s, i, 0) == s[i] && Cell(s, i, 1) == s[i + 1] && Cell(s, i, 2) == s[i + 2] && Cell(s, i, 3) == s[i + 3]
      && Cell(s, i + 1, 0) == s[i + 1] && Cell(s, i + 1, 1) == s[i + 2]
      && Cell(s, i + 1, 2) == s[i + 3] && Cell(s, i + 1, 3) == s[i]
      && Cell(s, i + 2, 0) == s[i + 2] && Cell(s, i + 2, 1) == s[i + 3]
      && Cell(s, i + 2, 2) == s[i] && Cell(s, i + 2, 3) == s[i + 1]
      && Cell(s, i + 3, 0) == s[i + 3] && Cell(s, i + 3, 1) == s[i]
      && Cell(s, i + 3, 2) == s[i + 1] && Cell(s, i + 3, 3) == s[i + 2]
  {
    hide Cell;
    CellAt(s, c, 0, 0); CellAt(s, c, 0, 1); CellAt(s, c, 0, 2); CellAt(s, c, 0, 3);
    CellAt(s, c, 1, 0); CellAt(s, c, 1, 1); CellAt(s, c, 1, 2); CellAt(s, c, 1, 3);
    CellAt(s, c, 2, 0); CellAt(s, c, 2, 1); CellAt(s, c, 2, 2); CellAt(s, c, 2, 3);
    CellAt(s, c, 3, 0); CellAt(s, c, 3, 1); CellAt(s, c, 3, 2); CellAt(s, c, 3, 3);
  }

  lemma MixRow(a: bv8, b: bv8, c: bv8, d: bv8)
    ensures Dot(MIX, a, b, c, d) == (Xtime(a) ^ (Xtime(b) ^ b)) ^ (c ^ d)
  {
    hide Mul, Xtime;
    SmallProducts(a); SmallProducts(b); SmallProducts(c); SmallProducts(d);
  }

  // The four bytes the loop writes into one column.

  function Mixed0(a0: bv8, a1: bv8, a2: bv8, a3: bv8): bv8 { Xtime(a0) ^ (Xtime(a1) ^ a1) ^ a2 ^ a3 }

  function Mixed1(a0: bv8, a1: bv8, a2: bv8, a3: bv8): bv8 { a0 ^ Xtime(a1) ^ (Xtime(a2) ^ a2) ^ a3 }

  function Mixed2(a0: bv8, a1: bv8, a2: bv8, a3: bv8): bv8 { a0 ^ a1 ^ Xtime(a2) ^ (Xtime(a3) ^ a3) }

  function Mixed3(a0: bv8, a1: bv8, a2: bv8, a3: bv8): bv8 { (Xtime(a0) ^ a0) ^ a1 ^ a2 ^ Xtime(a3) }

  // They are the products with the rows of the circulant.

  lemma Mixed0Is(a0: bv8, a1: bv8, a2: bv8, a3: bv8)
    ensures Mixed0(a0, a1, a2, a3) == Dot(MIX, a0, a1, a2, a3)
  {
    hide Dot, Xtime;
    MixRow(a0, a1, a2, a3);
  }

  lemma Mixed1Is(a0: bv8, a1: bv8, a2: bv8, a3: bv8)
    ensures Mixed1(a0, a1, a2, a3) == Dot(MIX, a1, a2, a3, a0)
  {
    hide Dot, Xtime;
    MixRow(a1, a2, a3, a0);
  }

  lemma Mixed2Is(a0: bv8, a1: bv8, a2: bv8, a3: bv8)
    ensures Mixed2(a0, a1, a2, a3) == Dot(MIX, a2, a3, a0, a1)
  {
    hide Dot, Xtime;
    MixRow(a2, a3, a0, a1);
  }

  lemma Mixed3Is(a0: bv8, a1: bv8, a2: bv8, a3: bv8)
    ensures Mixed3(a0, a1, a2, a3) == Dot(MIX, a3, a0, a1, a2)
  {
    hide Dot, Xtime;
    MixRow(a3, a0, a1, a2);
  }

  lemma MixedColumn(a0: bv8, a1: bv8, a2: bv8, a3: bv8)
    ensures Mixed0(a0, a1, a2, a3) == Dot(MIX, a0, a1, a2, a3)
    ensures Mixed1(a0, a1, a2, a3) == Dot(MIX, a1, a2, a3, a0)
    ensures Mixed2(a0, a1, a2, a3) == Dot(MIX, a2, a3, a0, a1)
    ensures Mixed3(a0, a1, a2, a3) == Dot(MIX, a3, a0, a1, a2)
  {
    hide Dot, Mixed0, Mixed1, Mixed2, Mixed3;
    Mixed0Is(a0, a1, a2, a3); Mixed1Is(a0, a1, a2, a3); Mixed2Is(a0, a1, a2, a3); Mixed3Is(a0, a1, a2, a3);
  }

  /** Column `c` of the mixed state, in the form the loop writes it. */
  lemma MixedRows(s: seq<bv8>, c: nat)
    requires |s| == 16 && c < 4
    ensures var a0, a1, a2, a3 := s[4 * c], s[4 * c + 1], s[4 * c + 2], s[4 * c + 3];
      var t := MixColumns(s);
      && t[4 * c] == Mixed0(a0, a1, a2, a3)
      && t[4 * c + 1] == Mixed1(a0, a1, a2, a3)
      && t[4 * c + 2] == Mixed2(a0, a1, a2, a3)
      && t[4 * c + 3] == Mixed3(a0, a1, a2, a3)
  {
    hide Dot, Cell, Mixed0, Mixed1, Mixed2, Mixed3;
    ColumnRows(s, c);
    MixedColumn(s[4 * c], s[4 * c + 1], s[4 * c + 2], s[4 * c + 3]);
  }

  method MixColumnsImpl(s: array<bv8>)
    requires s.Length == 16
    modifies s
    ensures s[..] == MixColumns(old(s[..]))
  {
    hide MixColumns, Mixed0, Mixed1, Mixed2, Mixed3;
    for c := 0 to 4
      invariant forall i :: 0 <= i < 4 * c ==> s[i] == MixColumns(old(s[..]))[i]
      invariant forall i :: 4 * c <= i < 16 ==> s[i] == old(s[i])
    {
      var a0, a1, a2, a3 := s[c * 4], s[c * 4 + 1], s[c * 4 + 2], s[c * 4 + 3];
      MixedRows(old(s[..]), c);
      s[c * 4] := Mixed0(a0, a1, a2, a3);
      s[c * 4 + 1] := Mixed1(a0, a1, a2, a3);
      s[c * 4 + 2] := Mixed2(a0, a1, a2, a3);
      s[c * 4 + 3] := Mixed3(a0, a1, a2, a3);
    }
  }

  function Mul9(x: bv8): bv8 { Xtime(Xtime(Xtime(x))) ^ x }

  function Mul11(x: bv8): bv8 { Xtime(Xtime(Xtime(x))) ^ Xtime(x) ^ x }

  function Mul13(x: bv8): bv8 { Xtime(Xtime(Xtime(x))) ^ Xtime(Xtime(x)) ^ x }

  function Mul14(x: bv8): bv8 { Xtime(Xtime(Xtime(x))) ^ Xtime(Xtime(x)) ^ Xtime(x) }

  lemma AddIs(a: bv8, b: bv8)
    ensures Add(a, b) == a ^ b
  {
  }

  lemma Mul9Is(x: bv8)
    ensures Mul9(x) == Mul(9, x)
  {
    hide Mul, Xtime, Add;
    SmallProducts(x);
    AddIs(Xtime(Xtime(Xtime(x))), x);
  }

  lemma Mul11Is(x: bv8)
    ensures Mul11(x) == Mul(11, x)
  {
    hide Mul, Xtime, Add;
    SmallProducts(x);
    AddIs(Xtime(Xtime(Xtime(x))), Xtime(x));
    AddIs(Xtime(Xtime(Xtime(x))) ^ Xtime(x), x);
  }

  lemma Mul13Is(x: bv8)
    ensures Mul13(x) == Mul(13, x)
  {
    hide Mul, Xtime, Add;
    SmallProducts(x);
    AddIs(Xtime(Xtime(Xtime(x))), Xtime(Xtime(x)));
    AddIs(Xtime(Xtime(Xtime(x))) ^ Xtime(Xtime(x)), x);
  }

  lemma Mul14Is(x: bv8)
    ensures Mul14(x) == Mul(14, x)
  {
    hide Mul, Xtime, Add;
    SmallProducts(x);
    AddIs(Xtime(Xtime(Xtime(x))), Xtime(Xtime(x)));
    AddIs(Xtime(Xtime(Xtime(x))) ^ Xtime(Xtime(x)), Xtime(x));
  }

  lemma UnmixRow(a: bv8, b: bv8, c: bv8, d: bv8)
    ensures Dot(UNMIX, a, b, c, d) == (Mul14(a) ^ Mul11(b)) ^ (Mul13(c) ^ Mul9(d))
  {
    hide Mul, Mul9, Mul11, Mul13, Mul14;
    Mul14Is(a); Mul11Is(b); Mul13Is(c); Mul9Is(d);
  }

  function Unmixed0(a0: bv8, a1: bv8, a2: bv8, a3: bv8): bv8 { Mul14(a0) ^ Mul11(a1) ^ Mul13(a2) ^ Mul9(a3) }

  function Unmixed1(a0: bv8, a1: bv8, a2: bv8, a3: bv8): bv8 { Mul9(a0) ^ Mul14(a1) ^ Mul11(a2) ^ Mul13(a3) }

  function Unmixed2(a0: bv8, a1: bv8, a2: bv8, a3: bv8): bv8 { Mul13(a0) ^ Mul9(a1) ^ Mul14(a2) ^ Mul11(a3) }

  function Unmixed3(a0: bv8, a1: bv8, a2: bv8, a3: bv8): bv8 { Mul11(a0) ^ Mul13(a1) ^ Mul9(a2) ^ Mul14(a3) }

  lemma Unmixed0Is(a0: bv8, a1: bv8, a2: bv8, a3: bv8)
    ensures Unmixed0(a0, a1, a2, a3) == Dot(UNMIX, a0, a1, a2, a3)
  {
    hide Dot, Mul9, Mul11, Mul13, Mul14;
    UnmixRow(a0, a1, a2, a3);
  }

  lemma Unmixed1Is(a0: bv8, a1: bv8, a2: bv8, a3: bv8)
    ensures Unmixed1(a0, a1, a2, a3) == Dot(UNMIX, a1, a2, a3, a0)
  {
    hide Dot, Mul9, Mul11, Mul13, Mul14;
    UnmixRow(a1, a2, a3, a0);
  }

  lemma Unmixed2Is(a0: bv8, a1: bv8, a2: bv8, a3: bv8)
    ensures Unmixed2(a0, a1, a2, a3) == Dot(UNMIX, a2, a3, a0, a1)
  {
    hide Dot, Mul9, Mul11, Mul13, Mul14;
    UnmixRow(a2, a3, a0, a1);
  }

  lemma Unmixed3Is(a0: bv8, a1: bv8, a2: bv8, a3: bv8)
    ensures Unmixed3(a0, a1, a2, a3) == Dot(UNMIX, a3, a0, a1, a2)
  {
    hide Dot, Mul9, Mul11, Mul13, Mul14;
    UnmixRow(a3, a0, a1, a2);
  }

  lemma UnmixedColumn(a0: bv8, a1: bv8, a2: bv8, a3: bv8)
    ensures Unmixed0(a0, a1, a2, a3) == Dot(UNMIX, a0, a1, a2, a3)
    ensures Unmixed1(a0, a1, a2, a3) == Dot(UNMIX, a1, a2, a3, a0)
    ensures Unmixed2(a0, a1, a2, a3) == Dot(UNMIX, a2, a3, a0, a1)
    ensures Unmixed3(a0, a1, a2, a3) == Dot(UNMIX, a3, a0, a1, a2)
  {
    hide Dot, Unmixed0, Unmixed1, Unmixed2, Unmixed3;
    Unmixed0Is(a0, a1, a2, a3); Unmixed1Is(a0, a1, a2, a3); Unmixed2Is(a0, a1, a2, a3); Unmixed3Is(a0, a1, a2, a3);
  }

  lemma UnmixedRows(s: seq<bv8>, c: nat)
    requires |s| == 16 && c < 4
    ensures var a0, a1, a2, a3 := s[4 * c], s[4 * c + 1], s[4 * c + 2], s[4 * c + 3];
      var t := InvMixColumns(s);
      && t[4 * c] == Unmixed0(a0, a1, a2, a3)
      && t[4 * c + 1] == Unmixed1(a0, a1, a2, a3)
      && t[4 * c + 2] == Unmixed2(a0, a1, a2, a3)
      && t[4 * c + 3] == Unmixed3(a0, a1, a2, a3)
  {
    hide Dot, Cell, Unmixed0, Unmixed1, Unmixed2, Unmixed3;
    ColumnRows(s, c);
    UnmixedColumn(s[4 * c], s[4 * c + 1], s[4 * c + 2], s[4 * c + 3]);
  }

  method InvMixColumnsImpl(s: array<bv8>)
    requires s.Length == 16
    modifies s
    ensures s[..] == InvMixColumns(old(s[..]))
  {
    hide InvMixColumns, Unmixed0, Unmixed1, Unmixed2, Unmixed3;
    for c := 0 to 4
      invariant forall i :: 0 <= i < 4 * c ==> s[i] == InvMixColumns(old(s[..]))[i]
      invariant forall i :: 4 * c <= i < 16 ==> s[i] == old(s[i])
    {
      var a0, a1, a2, a3 := s[c * 4], s[c * 4 + 1], s[c * 4 + 2], s[c * 4 + 3];
      UnmixedRows(old(s[..]), c);
      s[c * 4] := Unmixed0(a0, a1, a2, a3);
      s[c * 4 + 1] := Unmixed1(a0, a1, a2, a3);
      s[c * 4 + 2] := Unmixed2(a0, a1, a2, a3);
      s[c * 4 + 3] := Unmixed3(a0, a1, a2, a3);
    }
  }

  /** Adds the round key that starts at `from` in the key buffer. */
  method AddRoundKeyImpl(s: array<bv8>, keys: array<bv8>, from: nat)
    requires s.Length == 16 && from + 16 <= keys.Length && s != keys
    modifies s
    ensures s[..] == AddRoundKey(old(s[..]), keys[from..from + 16])
  {
    hide Add;
    for i := 0 to 16
      invariant forall k :: 0 <= k < i ==> s[k] == Add(old(s[k]), keys[from + k])
      invariant forall k :: i <= k < 16 ==> s[k] == old(s[k])
    {
      s[i] := Add(s[i], keys[from + i]);
    }
  }

  // ---------- whole blocks ----------

  /** The first 16 bytes of `p` plus the round key at `from`, in a buffer of its own. */
  method KeyedCopy(p: array<bv8>, keys: array<bv8>, from: nat) returns (s: array<bv8>)
    requires p.Length >= 16 && from + 16 <= keys.Length
    ensures fresh(s) && s.Length == 16
    ensures s[..] == AddRoundKey(p[..16], keys[from..from + 16])
  {
    hide Add;
    s := new bv8[16];
    for r := 0 to 16
      invariant forall k :: 0 <= k < r ==> s[k] == Add(p[k], keys[from + k])
    {
      s[r] := Add(p[r], keys[from + r]);
    }
  }

  method CopyBlock(s: array<bv8>, c: array<bv8>)
    requires s.Length == 16 && c.Length >= 16 && s != c
    modifies c
    ensures c[..] == s[..] + old(c[16..])
  {
    for r := 0 to 16
      invariant forall k :: 0 <= k < r ==> c[k] == s[k]
      invariant forall k :: r <= k < c.Length ==> c[k] == old(c[k])
    {
      c[r] := s[r];
    }
  }

  method FullRounds(tables: Tables, s: array<bv8>, keys: array<bv8>, ghost block: seq<bv8>)
    requires tables.Valid() && tables.ready && s.Length == 16 && keys.Length >= 176 && s != keys
    requires |block| == 16 && s[..] == Rounds(block, keys[..], 0)
    modifies s
    ensures s[..] == Rounds(block, keys[..], 9)
  {
    hide SubBytes, ShiftRows, MixColumns, AddRoundKey, SBox, InvSBox, Index;
    for r := 1 to 10
      invariant s[..] == Rounds(block, keys[..], r - 1)
    {
      SubShift(tables, s);
      MixColumnsImpl(s);
      AddRoundKeyImpl(s, keys, r * 16);
      assert keys[r * 16..r * 16 + 16] == RoundKey(keys[..], r);
    }
  }

  method FullInvRounds(tables: Tables, s: array<bv8>, keys: array<bv8>, ghost block: seq<bv8>)
    requires tables.Valid() && tables.ready && s.Length == 16 && keys.Length >= 176 && s != keys
    requires |block| == 16 && s[..] == InvRounds(block, keys[..], 10)
    modifies s
    ensures s[..] == InvRounds(block, keys[..], 1)
  {
    hide InvSubBytes, InvShiftRows, InvMixColumns, AddRoundKey, SBox, InvSBox, Index;
    for r := 10 downto 1
      invariant s[..] == InvRounds(block, keys[..], r)
    {
      InvSubShift(tables, s);
      AddRoundKeyImpl(s, keys, r * 16);
      assert keys[r * 16..r * 16 + 16] == RoundKey(keys[..], r);
      InvMixColumnsImpl(s);
    }
  }

  /** Encrypts `p[..16]` into `c[..16]`; the two buffers may be one. */
  method EncryptBlock(tables: Tables, p: array<bv8>, keys: array<bv8>, c: array<bv8>)
    requires tables.Valid() && p.Length >= 16 && keys.Length >= 176 && c.Length >= 16
    requires {p, keys, c} !! {tables.sbox, tables.invSbox}
    modifies tables`ready, tables.sbox, tables.invSbox, c
    ensures tables.Valid() && tables.ready
    ensures c[..] == Cipher(old(p[..16]), old(keys[..])) + old(c[16..])
  {
    hide SubBytes, ShiftRows, MixColumns, AddRoundKey, Tables.Valid;
    ghost var block, ks := p[..16], keys[..];
    tables.InitTables();
    assert p[..16] == block && keys[..] == ks;
    var s := KeyedCopy(p, keys, 0);
    FullRounds(tables, s, keys, block);
    SubShift(tables, s);
    AddRoundKeyImpl(s, keys, 160);
    assert keys[160..176] == RoundKey(ks, 10);
    CopyBlock(s, c);
  }

  method DecryptBlock(tables: Tables, c: array<bv8>, keys: array<bv8>, p: array<bv8>)
    requires tables.Valid() && c.Length >= 16 && keys.Length >= 176 && p.Length >= 16
    requires {c, keys, p} !! {tables.sbox, tables.invSbox}
    modifies tables`ready, tables.sbox, tables.invSbox, p
    ensures tables.Valid() && tables.ready
    ensures p[..] == InvCipher(old(c[..16]), old(keys[..])) + old(p[16..])
  {
    hide InvSubBytes, InvShiftRows, InvMixColumns, AddRoundKey, Tables.Valid;
    ghost var block, ks := c[..16], keys[..];
    tables.InitTables();
    assert c[..16] == block && keys[..] == ks;
    var s := KeyedCopy(c, keys, 160);
    FullInvRounds(tables, s, keys, block);
    InvSubShift(tables, s);
    AddRoundKeyImpl(s, keys, 0);
    assert keys[0..16] == RoundKey(ks, 0);
    CopyBlock(s, p);
  }
}
