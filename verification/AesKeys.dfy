/** The AES-128 key expansion, section 5.2 of FIPS 197, byte by byte. */
module AesKeys {
  import opened Aes128
  import opened Bytes
  import opened GaloisField

  const RCON: seq<bv8> := [0x01, 0x02, 0x04, 0x08, 0x10, 0x20, 0x40, 0x80, 0x1B, 0x36]

  /** The round constants are the powers of x in the field. */
  lemma {:induction false} RoundConstant(r: nat)
    requires r < 10
    ensures RCON[r] == Power(2, r)
  {
    hide Mul;
    if r > 0 {
      RoundConstant(r - 1);
      TimesTwo(RCON[r - 1]);
      assert Xtime(RCON[r - 1]) == RCON[r] by { NextConstant(r); }
    }
  }

  lemma NextConstant(r: nat)
    requires 0 < r < 10
    ensures Xtime(RCON[r - 1]) == RCON[r]
  {
  }

  /** The byte one row down, wrapping, in the word before the one that holds byte `i`. */
  function Rotated(i: nat): (k: nat)
    requires i >= 16
    ensures k < i
  {
    4 * (i / 4) - 4 + (i % 4 + 1) % 4
  }

  /** Byte `i` of the key schedule. */
  function KeyByte(key: seq<bv8>, i: nat): bv8
    requires |key| == 16
  {
    if i < 16 then key[i]
    else if i / 4 % 4 != 0 then Add(KeyByte(key, i - 16), KeyByte(key, i - 4))
    else Add(KeyByte(key, i - 16),
             Add(SBox(KeyByte(key, Rotated(i))), if i % 4 == 0 then Power(2, i / 16 - 1) else 0))
  }

  function Schedule(key: seq<bv8>): (keys: seq<bv8>)
    requires |key| == 16
    ensures |keys| == 176
  {
    seq(176, i requires 0 <= i < 176 => KeyByte(key, i))
  }

  lemma FirstWord(key: seq<bv8>, r: nat, i: nat)
    requires |key| == 16 && 1 <= r <= 10 && i < 4
    ensures var b := 16 * r;
      KeyByte(key, b + i) == Add(KeyByte(key, b + i - 16),
        Add(SBox(KeyByte(key, if i == 3 then b - 4 else b + i - 3)), if i == 0 then RCON[r - 1] else 0))
  {
    hide SBox, Power, Add, Rotated;
    RoundConstant(r - 1);
    WordIndex(r, i);
  }

  lemma WordIndex(r: nat, i: nat)
    requires r >= 1 && i < 4
    ensures (16 * r + i) / 4 % 4 == 0 && (16 * r + i) % 4 == i && (16 * r) / 16 == r
    ensures Rotated(16 * r + i) == if i == 3 then 16 * r - 4 else 16 * r + i - 3
  {
    assert (16 * r + i) / 4 == 4 * r;
  }

  lemma LaterWord(key: seq<bv8>, r: nat, i: nat)
    requires |key| == 16 && 1 <= r <= 10 && 4 <= i < 16
    ensures KeyByte(key, 16 * r + i) == Add(KeyByte(key, 16 * r + i - 16), KeyByte(key, 16 * r + i - 4))
  {
    assert (16 * r + i) / 4 == 4 * r + i / 4;
    assert (4 * r + i / 4) % 4 == i / 4;
    hide Add;
  }

  lemma OwnBytes(key: seq<bv8>)
    requires |key| == 16
    ensures forall j :: 0 <= j < 16 ==> KeyByte(key, j) == key[j]
  {
  }

  /** The first `n` bytes of the buffer are those of the schedule. */
  ghost predicate Expanded(rk: seq<bv8>, key: seq<bv8>, n: nat) {
    |key| == 16 && n <= |rk| && forall j :: 0 <= j < n ==> rk[j] == KeyByte(key, j)
  }

  /** The word that goes through the substitution box. */
  method FirstWordBytes(tables: Tables, rk: array<bv8>, r: nat, ghost key: seq<bv8>)
    returns (b0: bv8, b1: bv8, b2: bv8, b3: bv8)
    requires tables.Valid() && tables.ready
    requires rk.Length >= 176 && 1 <= r <= 10 && Expanded(rk[..], key, 16 * r)
    ensures b0 == KeyByte(key, 16 * r) && b1 == KeyByte(key, 16 * r + 1)
    ensures b2 == KeyByte(key, 16 * r + 2) && b3 == KeyByte(key, 16 * r + 3)
  {
    hide SBox, InvSBox, Index, KeyByte, Add;
    var prev := (r - 1) * 16;
    var t0 := Add(tables.sbox[Index(rk[prev + 13])], RCON[r - 1]);
    var t1 := tables.sbox[Index(rk[prev + 14])];
    var t2 := tables.sbox[Index(rk[prev + 15])];
    var t3 := tables.sbox[Index(rk[prev + 12])];
    FirstWord(key, r, 0); FirstWord(key, r, 1); FirstWord(key, r, 2); FirstWord(key, r, 3);
    AddZero(t1); AddZero(t2); AddZero(t3);
    b0, b1, b2, b3 := Add(rk[prev], t0), Add(rk[prev + 1], t1), Add(rk[prev + 2], t2), Add(rk[prev + 3], t3);
  }

  method PutLaterWords(rk: array<bv8>, r: nat, ghost key: seq<bv8>)
    requires rk.Length >= 176 && 1 <= r <= 10 && Expanded(rk[..], key, 16 * r + 4)
    modifies rk
    ensures Expanded(rk[..], key, 16 * r + 16) && rk[176..] == old(rk[176..])
  {
    hide KeyByte, Add;
    for i := 4 to 16
      invariant Expanded(rk[..], key, 16 * r + i) && rk[176..] == old(rk[176..])
    {
      LaterWord(key, r, i);
      rk[16 * r + i] := Add(rk[16 * (r - 1) + i], rk[16 * r + i - 4]);
    }
  }

  /** Expands `k[..16]` into the 176 bytes of round keys. */
  method KeyExpand(tables: Tables, k: array<bv8>, rk: array<bv8>)
    requires tables.Valid() && k.Length >= 16 && rk.Length >= 176
    requires {k, rk} !! {tables.sbox, tables.invSbox}
    modifies tables`ready, tables.sbox, tables.invSbox, rk
    ensures tables.Valid() && tables.ready
    ensures rk[..] == Schedule(old(k[..16])) + old(rk[176..])
  {
    hide SBox, InvSBox, Index, KeyByte, Add;
    ghost var key, tail := k[..16], rk[176..];
    tables.InitTables();
    OwnBytes(key);
    for i := 0 to 16
      invariant forall j :: 0 <= j < i ==> rk[j] == key[j]
      invariant forall j :: i <= j < 16 ==> k[j] == key[j]
      invariant rk[176..] == tail
      modifies rk
    {
      rk[i] := k[i];
    }
    for r := 1 to 11
      invariant Expanded(rk[..], key, 16 * r) && rk[176..] == tail
      modifies rk
    {
      var cur := r * 16;
      rk[cur], rk[cur + 1], rk[cur + 2], rk[cur + 3] := FirstWordBytes(tables, rk, r, key);
      PutLaterWords(rk, r, key);
    }
  }
}
