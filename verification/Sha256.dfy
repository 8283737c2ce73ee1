/** SHA-256 and SHA-224: the streaming context against FIPS 180-4. */
module Sha256 {
  import opened Bytes
  import opened Padding
  import opened Words

  /** Addition modulo 2^32. */
  function Plus(x: bv32, y: bv32): bv32 { x + y }

  // ---------- section 4.1.2 ----------

  function RotR(x: bv32, n: bv6): bv32
    requires n <= 32
  {
    (x >> n) | (x << (32 - n))
  }

  function Ch(x: bv32, y: bv32, z: bv32): bv32 { (x & y) ^ (!x & z) }

  function Maj(x: bv32, y: bv32, z: bv32): bv32 { (x & y) ^ (x & z) ^ (y & z) }

  function BigSigma0(x: bv32): bv32 { RotR(x, 2) ^ RotR(x, 13) ^ RotR(x, 22) }

  function BigSigma1(x: bv32): bv32 { RotR(x, 6) ^ RotR(x, 11) ^ RotR(x, 25) }

  function SmallSigma0(x: bv32): bv32 { RotR(x, 7) ^ RotR(x, 18) ^ (x >> 3) }

  function SmallSigma1(x: bv32): bv32 { RotR(x, 17) ^ RotR(x, 19) ^ (x >> 10) }

  function K(t: nat): bv32
    requires t < 64
  {
    match t
    case 0 => 0x428a2f98 case 1 => 0x71374491 case 2 => 0xb5c0fbcf case 3 => 0xe9b5dba5
    case 4 => 0x3956c25b case 5 => 0x59f111f1 case 6 => 0x923f82a4 case 7 => 0xab1c5ed5
    case 8 => 0xd807aa98 case 9 => 0x12835b01 case 10 => 0x243185be case 11 => 0x550c7dc3
    case 12 => 0x72be5d74 case 13 => 0x80deb1fe case 14 => 0x9bdc06a7 case 15 => 0xc19bf174
    case 16 => 0xe49b69c1 case 17 => 0xefbe4786 case 18 => 0x0fc19dc6 case 19 => 0x240ca1cc
    case 20 => 0x2de92c6f case 21 => 0x4a7484aa case 22 => 0x5cb0a9dc case 23 => 0x76f988da
    case 24 => 0x983e5152 case 25 => 0xa831c66d case 26 => 0xb00327c8 case 27 => 0xbf597fc7
    case 28 => 0xc6e00bf3 case 29 => 0xd5a79147 case 30 => 0x06ca6351 case 31 => 0x14292967
    case 32 => 0x27b70a85 case 33 => 0x2e1b2138 case 34 => 0x4d2c6dfc case 35 => 0x53380d13
    case 36 => 0x650a7354 case 37 => 0x766a0abb case 38 => 0x81c2c92e case 39 => 0x92722c85
    case 40 => 0xa2bfe8a1 case 41 => 0xa81a664b case 42 => 0xc24b8b70 case 43 => 0xc76c51a3
    case 44 => 0xd192e819 case 45 => 0xd6990624 case 46 => 0xf40e3585 case 47 => 0x106aa070
    case 48 => 0x19a4c116 case 49 => 0x1e376c08 case 50 => 0x2748774c case 51 => 0x34b0bcb5
    case 52 => 0x391c0cb3 case 53 => 0x4ed8aa4a case 54 => 0x5b9cca4f case 55 => 0x682e6ff3
    case 56 => 0x748f82ee case 57 => 0x78a5636f case 58 => 0x84c87814 case 59 => 0x8cc70208
    case 60 => 0x90befffa case 61 => 0xa4506ceb case 62 => 0xbef9a3f7 case 63 => 0xc67178f2
  }

  // ---------- section 6.2.2 ----------

  /** Four bytes as a word, most significant first. */
  function Word(b0: bv8, b1: bv8, b2: bv8, b3: bv8): bv32 {
    ((b0 as bv32) << 24) | ((b1 as bv32) << 16) | ((b2 as bv32) << 8) | (b3 as bv32)
  }

  function Extended(w2: bv32, w7: bv32, w15: bv32, w16: bv32): bv32 {
    Plus(Plus(Plus(SmallSigma1(w2), w7), SmallSigma0(w15)), w16)
  }

  /** Word `t` of the message schedule. */
  function W(block: seq<bv8>, t: nat): bv32
    requires |block| == 64 && t < 64
  {
    if t < 16 then Word(block[4 * t], block[4 * t + 1], block[4 * t + 2], block[4 * t + 3])
    else Extended(W(block, t - 2), W(block, t - 7), W(block, t - 15), W(block, t - 16))
  }

  datatype Vars = Vars(a: bv32, b: bv32, c: bv32, d: bv32, e: bv32, f: bv32, g: bv32, h: bv32)

  function T1(v: Vars, k: bv32, w: bv32): bv32 {
    Plus(Plus(Plus(Plus(v.h, BigSigma1(v.e)), Ch(v.e, v.f, v.g)), k), w)
  }

  function T2(v: Vars): bv32 { Plus(BigSigma0(v.a), Maj(v.a, v.b, v.c)) }

  function Round(v: Vars, k: bv32, w: bv32): Vars {
    Vars(Plus(T1(v, k, w), T2(v)), v.a, v.b, v.c, Plus(v.d, T1(v, k, w)), v.e, v.f, v.g)
  }

  function Rounds(v: Vars, block: seq<bv8>, t: nat): Vars
    requires |block| == 64 && t <= 64
  {
    if t == 0 then v else Round(Rounds(v, block, t - 1), K(t - 1), W(block, t - 1))
  }

  function Sum(u: Vars, v: Vars): Vars {
    Vars(Plus(u.a, v.a), Plus(u.b, v.b), Plus(u.c, v.c), Plus(u.d, v.d),
         Plus(u.e, v.e), Plus(u.f, v.f), Plus(u.g, v.g), Plus(u.h, v.h))
  }

  function Compress(v: Vars, block: seq<bv8>): Vars
    requires |block| == 64
  {
    Sum(v, Rounds(v, block, 64))
  }

  function Fold(iv: Vars, blocks: seq<seq<bv8>>): Vars
    requires forall i :: 0 <= i < |blocks| ==> |blocks[i]| == 64
  {
    if blocks == [] then iv else Compress(Fold(iv, blocks[..|blocks| - 1]), blocks[|blocks| - 1])
  }

  lemma FoldPush(iv: Vars, blocks: seq<seq<bv8>>, b: seq<bv8>)
    requires forall i :: 0 <= i < |blocks| ==> |blocks[i]| == 64
    requires |b| == 64
    ensures Fold(iv, blocks + [b]) == Compress(Fold(iv, blocks), b)
  {
    hide Compress;
    assert (blocks + [b])[..|blocks|] == blocks;
  }

  function ByteOf(x: bv32, i: nat): bv8
    requires i < 4
  {
    match i
    case 0 => ((x >> 24) & 0xff) as bv8
    case 1 => ((x >> 16) & 0xff) as bv8
    case 2 => ((x >> 8) & 0xff) as bv8
    case 3 => (x & 0xff) as bv8
  }

  /** Reading a word's bytes back gives the word. */
  lemma WordRoundTrip(x: bv32)
    ensures Word(ByteOf(x, 0), ByteOf(x, 1), ByteOf(x, 2), ByteOf(x, 3)) == x
  {
  }

  function StateWords(v: Vars): (s: seq<bv32>)
    ensures |s| == 8
  {
    [v.a, v.b, v.c, v.d, v.e, v.f, v.g, v.h]
  }

  /** Where byte `j` of word `w` goes. */
  function At(w: nat, j: nat): nat { 4 * w + j }

  /** The words in order, each most significant byte first. */
  function Serialized(v: Vars): (s: seq<bv8>)
    ensures |s| == 32
  {
    seq(32, k requires 0 <= k < 32 => ByteOf(StateWords(v)[k / 4], k % 4))
  }

  /** The 32-byte digest of a message under an initial hash value. */
  function Digest(iv: Vars, m: seq<bv8>): (s: seq<bv8>)
    ensures |s| == 32
  {
    Serialized(Fold(iv, Blocks(Pad(m, 64, 8), 64)))
  }

  const IV256: Vars := Vars(0x6a09e667, 0xbb67ae85, 0x3c6ef372, 0xa54ff53a,
                            0x510e527f, 0x9b05688c, 0x1f83d9ab, 0x5be0cd19)
  const IV224: Vars := Vars(0xc1059ed8, 0x367cd507, 0x3070dd17, 0xf70e5939,
                            0xffc00b31, 0x68581511, 0x64f98fa7, 0xbefa4fa4)

  // ---------- the streaming context ----------

  lemma ScheduleStep(block: seq<bv8>, t: nat)
    requires |block| == 64 && t < 64
    ensures t < 16 ==> W(block, t) == Word(block[4 * t], block[4 * t + 1], block[4 * t + 2], block[4 * t + 3])
    ensures t >= 16 ==> W(block, t) == Extended(W(block, t - 2), W(block, t - 7), W(block, t - 15), W(block, t - 16))
  {
    hide Word, Extended;
  }

  method Schedule(block: array<bv8>) returns (m: array<bv32>)
    requires block.Length == 64
    ensures fresh(m) && m.Length == 64
    ensures forall t :: 0 <= t < 64 ==> m[t] == W(block[..], t)
  {
    hide Plus, SmallSigma0, SmallSigma1, Word, W;
    m := new bv32[64];
    for i := 0 to 16
      invariant forall t :: 0 <= t < i ==> m[t] == W(block[..], t)
    {
      var j := 4 * i;
      ScheduleStep(block[..], i);
      m[i] := Word(block[j], block[j + 1], block[j + 2], block[j + 3]);
    }
    for i := 16 to 64
      invariant forall t :: 0 <= t < i ==> m[t] == W(block[..], t)
    {
      ScheduleStep(block[..], i);
      m[i] := Plus(Plus(Plus(SmallSigma1(m[i - 2]), m[i - 7]), SmallSigma0(m[i - 15])), m[i - 16]);
    }
  }

  method RunRounds(v: Vars, m: array<bv32>, ghost block: seq<bv8>) returns (r: Vars)
    requires |block| == 64 && m.Length == 64
    requires forall t :: 0 <= t < 64 ==> m[t] == W(block, t)
    ensures r == Rounds(v, block, 64)
  {
    hide Plus, BigSigma0, BigSigma1, Ch, Maj, K, W;
    var a, b, c, d, e, f, g, h := v.a, v.b, v.c, v.d, v.e, v.f, v.g, v.h;
    for i := 0 to 64
      invariant Vars(a, b, c, d, e, f, g, h) == Rounds(v, block, i)
    {
      var t1 := Plus(Plus(Plus(Plus(h, BigSigma1(e)), Ch(e, f, g)), K(i)), m[i]);
      var t2 := Plus(BigSigma0(a), Maj(a, b, c));
      h := g;
      g := f;
      f := e;
      e := Plus(d, t1);
      d := c;
      c := b;
      b := a;
      a := Plus(t1, t2);
    }
    r := Vars(a, b, c, d, e, f, g, h);
  }

  /** Column `i` of eight rows of four cells. */
  method PutStrided<T>(a: array<T>, i: nat, x0: T, x1: T, x2: T, x3: T, x4: T, x5: T, x6: T, x7: T)
    requires a.Length >= 32 && i < 4
    modifies a
    ensures forall w: nat :: w < 8 ==> a[At(w, i)] == [x0, x1, x2, x3, x4, x5, x6, x7][w]
    ensures forall w: nat, j: nat :: w < 8 && j < 4 && j != i ==> a[At(w, j)] == old(a[At(w, j)])
    ensures a[32..] == old(a[32..])
  {
    a[i] := x0;
    a[i + 4] := x1;
    a[i + 8] := x2;
    a[i + 12] := x3;
    a[i + 16] := x4;
    a[i + 20] := x5;
    a[i + 24] := x6;
    a[i + 28] := x7;
  }

  lemma BitlenTotal(n: nat, tail: nat)
    requires tail <= n
    ensures (8 * (n - tail) % TWO_64 + tail * 8) % TWO_64 == 8 * n % TWO_64
  {
  }

  lemma BitlenStep(n: nat)
    ensures (8 * n % TWO_64 + 512) % TWO_64 == 8 * (n + 64) % TWO_64
  {
  }

  class Context {
    const data: array<bv8>
    var datalen: nat
    var bitlen: nat
    const state: array<bv32>
    ghost var iv: Vars
    ghost var absorbed: seq<bv8>

    function HashValue(): Vars
      reads state
      requires state.Length == 8
    {
      Vars(state[0], state[1], state[2], state[3], state[4], state[5], state[6], state[7])
    }

    /** The hash value covers the whole blocks so far; the buffer holds the bytes after them. */
    ghost predicate Valid()
      reads this, data, state
    {
      && data.Length == 64 && state.Length == 8
      && datalen == |Tail(absorbed, 64)| && data[..datalen] == Tail(absorbed, 64)
      && bitlen == 8 * (|absorbed| - datalen) % TWO_64
      && HashValue() == Fold(iv, Blocks(absorbed, 64))
    }

    constructor ()
      ensures Valid() && fresh(data) && fresh(state)
      ensures iv == IV256 && absorbed == []
    {
      hide Compress, Blocks, Tail;
      NoBlocks(64);
      data := new bv8[64](i => 0);
      datalen := 0;
      bitlen := 0;
      state := new bv32[8](i => 0);
      iv := IV256;
      absorbed := [];
      new;
      PutCells(state, 0, [0x6a09e667, 0xbb67ae85, 0x3c6ef372, 0xa54ff53a,
                          0x510e527f, 0x9b05688c, 0x1f83d9ab, 0x5be0cd19]);
      assert forall i :: 0 <= i < 8 ==> state[i] == state[..][i];
    }

    /** One compression of a 64-byte block, which may be the context's own buffer. */
    method Transform(block: array<bv8>)
      requires state.Length == 8 && block.Length == 64
      modifies state
      ensures HashValue() == Compress(old(HashValue()), block[..])
    {
      hide Plus, W, Rounds;
      var m := Schedule(block);
      var r := RunRounds(HashValue(), m, block[..]);
      state[0] := Plus(state[0], r.a);
      state[1] := Plus(state[1], r.b);
      state[2] := Plus(state[2], r.c);
      state[3] := Plus(state[3], r.d);
      state[4] := Plus(state[4], r.e);
      state[5] := Plus(state[5], r.f);
      state[6] := Plus(state[6], r.g);
      state[7] := Plus(state[7], r.h);
    }

    /** Compresses a full buffer and empties it. */
    method FlushBlock()
      requires data.Length == 64 && state.Length == 8 && datalen == 64
      modifies this`datalen, this`bitlen, state
      ensures datalen == 0 && bitlen == (old(bitlen) + 512) % TWO_64
      ensures HashValue() == Compress(old(HashValue()), data[..])
    {
      hide Compress, HashValue;
      Transform(data);
      bitlen := (bitlen + 512) % TWO_64;
      datalen := 0;
    }

    method PushByte(x: bv8)
      requires Valid()
      modifies this`datalen, this`bitlen, this`absorbed, data, state
      ensures Valid() && absorbed == old(absorbed) + [x]
    {
      hide Compress, Fold, Blocks, Tail, HashValue;
      BlocksPush(absorbed, x, 64);
      data[datalen] := x;
      datalen := datalen + 1;
      absorbed := absorbed + [x];
      assert data[..datalen] == Tail(old(absorbed), 64) + [x];
      if datalen == 64 {
        assert data[..] == data[..64];
        FoldPush(iv, Blocks(old(absorbed), 64), data[..]);
        BitlenStep(|old(absorbed)| - 63);
        FlushBlock();
      }
    }

    /** Replaces the initial hash value of a context that has absorbed nothing. */
    method StartSha224()
      requires Valid() && absorbed == []
      modifies this`iv, state
      ensures Valid() && iv == IV224
    {
      hide Compress, Blocks, Tail;
      NoBlocks(64);
      PutCells(state, 0, [0xc1059ed8, 0x367cd507, 0x3070dd17, 0xf70e5939,
                          0xffc00b31, 0x68581511, 0x64f98fa7, 0xbefa4fa4]);
      assert forall i :: 0 <= i < 8 ==> state[i] == state[..][i];
      iv := IV224;
    }

    /** Absorbs a chunk. The index is a 32-bit word, so a chunk is shorter than 2^32 bytes. */
    method Update(chunk: array<bv8>)
      requires Valid() && chunk != data && chunk.Length < 0x1_0000_0000
      modifies this`datalen, this`bitlen, this`absorbed, data, state
      ensures Valid() && absorbed == old(absorbed) + chunk[..]
    {
      hide Valid;
      for i := 0 to chunk.Length
        invariant Valid() && absorbed == old(absorbed) + chunk[..i]
      {
        PushByte(chunk[i]);
      }
    }

    /** Pads the buffer up to the length field, compressing it when the length does not fit. */
    method PadTail()
      requires Valid()
      modifies data, state
      ensures var t := old(Tail(absorbed, 64));
        if |t| < 56 then data[..56] == t + [0x80] + Zeros(55 - |t|) && HashValue() == old(HashValue())
        else data[..56] == Zeros(56) && HashValue() == Compress(old(HashValue()), TailBlock(t, 64))
    {
      hide Compress, Fold, Blocks, Tail, HashValue;
      ghost var t := data[..datalen];
      var i := datalen;
      data[i] := 0x80;
      i := i + 1;
      while i < if datalen < 56 then 56 else 64
        invariant datalen < i <= if datalen < 56 then 56 else 64
        invariant data[..i] == t + [0x80] + Zeros(i - datalen - 1)
        modifies data
      {
        data[i] := 0x00;
        i := i + 1;
      }
      if datalen >= 56 {
        assert data[..] == data[..64] == TailBlock(t, 64);
        Transform(data);
        for j := 0 to 56
          invariant forall k :: 0 <= k < j ==> data[k] == 0
          modifies data
        {
          data[j] := 0;
        }
      }
    }

    /** Appends the message length in bits, most significant byte first. */
    method PutLength()
      requires data.Length == 64 && datalen <= |absorbed| && bitlen == 8 * (|absorbed| - datalen) % TWO_64
      modifies this`bitlen, data
      ensures data[..] == old(data[..56]) + BigEndian(8 * |absorbed|, 8)
    {
      hide BigEndian, Byte;
      bitlen := (bitlen + datalen * 8) % TWO_64;
      PutCells(data, 56, [
        Byte(bitlen / 0x100_0000_0000_0000 % 256), Byte(bitlen / 0x1_0000_0000_0000 % 256),
        Byte(bitlen / 0x100_0000_0000 % 256), Byte(bitlen / 0x1_0000_0000 % 256),
        Byte(bitlen / 0x100_0000 % 256), Byte(bitlen / 0x1_0000 % 256),
        Byte(bitlen / 0x100 % 256), Byte(bitlen % 256)]);
      LengthBytes(bitlen);
      BitlenTotal(|absorbed|, datalen);
      LengthWraps(8 * |absorbed|);
    }

    /** Writes the hash value out, one byte of every word a time. */
    method PutDigest(hash: array<bv8>)
      requires state.Length == 8 && hash.Length >= 32
      modifies hash
      ensures hash[..32] == Serialized(HashValue()) && hash[32..] == old(hash[32..])
    {
      hide ByteOf;
      ghost var words := StateWords(HashValue());
      for i := 0 to 4
        invariant forall w: nat, j: nat :: w < 8 && j < i ==> hash[At(w, j)] == ByteOf(words[w], j)
        invariant hash[32..] == old(hash[32..])
      {
        PutStrided(hash, i, ByteOf(state[0], i), ByteOf(state[1], i), ByteOf(state[2], i), ByteOf(state[3], i),
                            ByteOf(state[4], i), ByteOf(state[5], i), ByteOf(state[6], i), ByteOf(state[7], i));
      }
      forall k | 0 <= k < 32
        ensures hash[k] == Serialized(HashValue())[k]
      {
        assert k == At(k / 4, k % 4);
      }
    }

    /** The digest of everything absorbed, however it was split into chunks. */
    method Final(hash: array<bv8>)
      requires Valid() && hash.Length >= 32 && hash != data
      modifies this`bitlen, data, state, hash
      ensures hash[..32] == Digest(old(iv), old(absorbed)) && hash[32..] == old(hash[32..])
    {
      hide Compress, Fold, Blocks, Tail, HashValue, BigEndian, Serialized;
      ghost var bs, t, length := Blocks(absorbed, 64), Tail(absorbed, 64), BigEndian(8 * |absorbed|, 8);
      PadTail();
      PutLength();
      Transform(data);
      FoldFinal(iv, bs, t, length);
      PadBlocks(absorbed, 64, 8);
      PutDigest(hash);
    }
  }

  /** One-shot SHA-256; the two buffers may overlap only by being the same. */
  method HashSha256(input: array<bv8>, output: array<bv8>)
    requires input.Length < 0x1_0000_0000 && output.Length >= 32
    modifies output
    ensures output[..32] == Digest(IV256, old(input[..])) && output[32..] == old(output[32..])
  {
    hide Digest, Context.Valid;
    var ctx := new Context();
    ctx.Update(input);
    assert [] + input[..] == input[..];
    ctx.Final(output);
  }

  /** One-shot SHA-224: its own initial hash value, and the digest cut to 28 bytes. */
  method HashSha224(input: array<bv8>, output: array<bv8>)
    requires input.Length < 0x1_0000_0000 && output.Length >= 28
    modifies output
    ensures output[..28] == Digest(IV224, old(input[..]))[..28] && output[28..] == old(output[28..])
  {
    hide Digest, Context.Valid;
    var ctx := new Context();
    ctx.StartSha224();
    var tmp := new bv8[32];
    ctx.Update(input);
    assert [] + input[..] == input[..];
    ctx.Final(tmp);
    for i := 0 to 28
      invariant output[..i] == tmp[..i] && output[28..] == old(output[28..])
      modifies output
    {
      output[i] := tmp[i];
    }
    assert tmp[..28] == tmp[..32][..28];
  }

  lemma FoldFinal(iv: Vars, bs: seq<seq<bv8>>, t: seq<bv8>, length: seq<bv8>)
    requires forall i :: 0 <= i < |bs| ==> |bs[i]| == 64
    requires |t| < 64 && |length| == 8
    ensures forall i :: 0 <= i < |bs + FinalBlocks(t, 64, length)| ==> |(bs + FinalBlocks(t, 64, length))[i]| == 64
    ensures Fold(iv, bs + FinalBlocks(t, 64, length)) ==
      if |t| < 56 then Compress(Fold(iv, bs), LastBlock(t, 64, length))
      else Compress(Compress(Fold(iv, bs), TailBlock(t, 64)), LengthBlock(64, length))
  {
    hide Compress, Fold;
    if |t| < 56 {
      FoldPush(iv, bs, LastBlock(t, 64, length));
    } else {
      FoldPush(iv, bs, TailBlock(t, 64));
      FoldPush(iv, bs + [TailBlock(t, 64)], LengthBlock(64, length));
      assert bs + FinalBlocks(t, 64, length) == bs + [TailBlock(t, 64)] + [LengthBlock(64, length)];
    }
  }

  lemma Quotients(n: nat)
    ensures n / 256 / 256 == n / 0x1_0000
    ensures n / 0x1_0000 / 256 == n / 0x100_0000
    ensures n / 0x100_0000 / 256 == n / 0x1_0000_0000
    ensures n / 0x1_0000_0000 / 256 == n / 0x100_0000_0000
    ensures n / 0x100_0000_0000 / 256 == n / 0x1_0000_0000_0000
    ensures n / 0x1_0000_0000_0000 / 256 == n / 0x100_0000_0000_0000
  {
  }

  lemma BigEndianStep(n: nat, k: nat)
    ensures BigEndian(n, k + 1) == BigEndian(n / 256, k) + [Byte(n % 256)]
    ensures BigEndian(n, 0) == []
  {
  }

  lemma LengthBytes(n: nat)
    ensures BigEndian(n, 8) == [
      Byte(n / 0x100_0000_0000_0000 % 256), Byte(n / 0x1_0000_0000_0000 % 256),
      Byte(n / 0x100_0000_0000 % 256), Byte(n / 0x1_0000_0000 % 256),
      Byte(n / 0x100_0000 % 256), Byte(n / 0x1_0000 % 256), Byte(n / 0x100 % 256), Byte(n % 256)]
  {
    hide Byte, BigEndian;
    Quotients(n);
    BigEndianStep(n / 0x100_0000_0000_0000 / 256, 0);
    BigEndianStep(n / 0x100_0000_0000_0000, 0);
    BigEndianStep(n / 0x1_0000_0000_0000, 1);
    BigEndianStep(n / 0x100_0000_0000, 2);
    BigEndianStep(n / 0x1_0000_0000, 3);
    BigEndianStep(n / 0x100_0000, 4);
    BigEndianStep(n / 0x1_0000, 5);
    BigEndianStep(n / 0x100, 6);
    BigEndianStep(n, 7);
  }

  /** A length modulo 2^64 has the same low eight bytes. */
  lemma LengthWraps(n: nat)
    ensures BigEndian(n % TWO_64, 8) == BigEndian(n, 8)
  {
    hide BigEndian;
    assert Power256(8) == TWO_64 by { assert Power256(4) == 0x1_0000_0000; }
    BigEndianModulo(n % TWO_64, n / TWO_64, 8);
  }
}
