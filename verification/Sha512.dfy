/** The one-shot SHA-512 driver against FIPS 180-4. */
module Sha512 {
  import opened Bytes
  import opened Padding
  import opened Words

  /** Addition modulo 2^64. */
  function Plus(x: bv64, y: bv64): bv64 { x + y }

  // ---------- section 4.1.3 ----------

  function RotR(x: bv64, n: bv7): bv64
    requires n <= 64
  {
    (x >> n) | (x << (64 - n))
  }

  function Ch(x: bv64, y: bv64, z: bv64): bv64 { (x & y) ^ (!x & z) }

  function Maj(x: bv64, y: bv64, z: bv64): bv64 { (x & y) ^ (x & z) ^ (y & z) }

  function BigSigma0(x: bv64): bv64 { RotR(x, 28) ^ RotR(x, 34) ^ RotR(x, 39) }

  function BigSigma1(x: bv64): bv64 { RotR(x, 14) ^ RotR(x, 18) ^ RotR(x, 41) }

  function SmallSigma0(x: bv64): bv64 { RotR(x, 1) ^ RotR(x, 8) ^ (x >> 7) }

  function SmallSigma1(x: bv64): bv64 { RotR(x, 19) ^ RotR(x, 61) ^ (x >> 6) }

  function K(t: nat): bv64
    requires t < 80
  {
    match t
    case 0 => 0x428a2f98d728ae22 case 1 => 0x7137449123ef65cd case 2 => 0xb5c0fbcfec4d3b2f case 3 => 0xe9b5dba58189dbbc
    case 4 => 0x3956c25bf348b538 case 5 => 0x59f111f1b605d019 case 6 => 0x923f82a4af194f9b case 7 => 0xab1c5ed5da6d8118
    case 8 => 0xd807aa98a3030242 case 9 => 0x12835b0145706fbe
    case 10 => 0x243185be4ee4b28c case 11 => 0x550c7dc3d5ffb4e2
    case 12 => 0x72be5d74f27b896f case 13 => 0x80deb1fe3b1696b1
    case 14 => 0x9bdc06a725c71235 case 15 => 0xc19bf174cf692694
    case 16 => 0xe49b69c19ef14ad2 case 17 => 0xefbe4786384f25e3
    case 18 => 0x0fc19dc68b8cd5b5 case 19 => 0x240ca1cc77ac9c65
    case 20 => 0x2de92c6f592b0275 case 21 => 0x4a7484aa6ea6e483
    case 22 => 0x5cb0a9dcbd41fbd4 case 23 => 0x76f988da831153b5
    case 24 => 0x983e5152ee66dfab case 25 => 0xa831c66d2db43210
    case 26 => 0xb00327c898fb213f case 27 => 0xbf597fc7beef0ee4
    case 28 => 0xc6e00bf33da88fc2 case 29 => 0xd5a79147930aa725
    case 30 => 0x06ca6351e003826f case 31 => 0x142929670a0e6e70
    case 32 => 0x27b70a8546d22ffc case 33 => 0x2e1b21385c26c926
    case 34 => 0x4d2c6dfc5ac42aed case 35 => 0x53380d139d95b3df
    case 36 => 0x650a73548baf63de case 37 => 0x766a0abb3c77b2a8
    case 38 => 0x81c2c92e47edaee6 case 39 => 0x92722c851482353b
    case 40 => 0xa2bfe8a14cf10364 case 41 => 0xa81a664bbc423001
    case 42 => 0xc24b8b70d0f89791 case 43 => 0xc76c51a30654be30
    case 44 => 0xd192e819d6ef5218 case 45 => 0xd69906245565a910
    case 46 => 0xf40e35855771202a case 47 => 0x106aa07032bbd1b8
    case 48 => 0x19a4c116b8d2d0c8 case 49 => 0x1e376c085141ab53
    case 50 => 0x2748774cdf8eeb99 case 51 => 0x34b0bcb5e19b48a8
    case 52 => 0x391c0cb3c5c95a63 case 53 => 0x4ed8aa4ae3418acb
    case 54 => 0x5b9cca4f7763e373 case 55 => 0x682e6ff3d6b2b8a3
    case 56 => 0x748f82ee5defb2fc case 57 => 0x78a5636f43172f60
    case 58 => 0x84c87814a1f0ab72 case 59 => 0x8cc702081a6439ec
    case 60 => 0x90befffa23631e28 case 61 => 0xa4506cebde82bde9
    case 62 => 0xbef9a3f7b2c67915 case 63 => 0xc67178f2e372532b
    case 64 => 0xca273eceea26619c case 65 => 0xd186b8c721c0c207
    case 66 => 0xeada7dd6cde0eb1e case 67 => 0xf57d4f7fee6ed178
    case 68 => 0x06f067aa72176fba case 69 => 0x0a637dc5a2c898a6
    case 70 => 0x113f9804bef90dae case 71 => 0x1b710b35131c471b
    case 72 => 0x28db77f523047d84 case 73 => 0x32caab7b40c72493
    case 74 => 0x3c9ebe0a15c9bebc case 75 => 0x431d67c49c100d4c
    case 76 => 0x4cc5d4becb3e42b6 case 77 => 0x597f299cfc657e2a
    case 78 => 0x5fcb6fab3ad6faec case 79 => 0x6c44198c4a475817
  }

  // ---------- section 6.4.2 ----------

  /** Eight bytes as a word, most significant first. */
  function Word(b: seq<bv8>): bv64
    requires |b| == 8
  {
    ((b[0] as bv64) << 56) | ((b[1] as bv64) << 48) | ((b[2] as bv64) << 40) | ((b[3] as bv64) << 32)
    | ((b[4] as bv64) << 24) | ((b[5] as bv64) << 16) | ((b[6] as bv64) << 8) | (b[7] as bv64)
  }

  function Extended(w2: bv64, w7: bv64, w15: bv64, w16: bv64): bv64 {
    Plus(Plus(Plus(SmallSigma1(w2), w7), SmallSigma0(w15)), w16)
  }

  /** Word `t` of the message schedule. */
  function W(block: seq<bv8>, t: nat): bv64
    requires |block| == 128 && t < 80
  {
    if t < 16 then Word(block[8 * t..8 * t + 8])
    else Extended(W(block, t - 2), W(block, t - 7), W(block, t - 15), W(block, t - 16))
  }

  datatype Vars = Vars(a: bv64, b: bv64, c: bv64, d: bv64, e: bv64, f: bv64, g: bv64, h: bv64)

  function T1(v: Vars, k: bv64, w: bv64): bv64 {
    Plus(Plus(Plus(Plus(v.h, BigSigma1(v.e)), Ch(v.e, v.f, v.g)), k), w)
  }

  function T2(v: Vars): bv64 { Plus(BigSigma0(v.a), Maj(v.a, v.b, v.c)) }

  function Round(v: Vars, k: bv64, w: bv64): Vars {
    Vars(Plus(T1(v, k, w), T2(v)), v.a, v.b, v.c, Plus(v.d, T1(v, k, w)), v.e, v.f, v.g)
  }

  function Rounds(v: Vars, block: seq<bv8>, t: nat): Vars
    requires |block| == 128 && t <= 80
  {
    if t == 0 then v else Round(Rounds(v, block, t - 1), K(t - 1), W(block, t - 1))
  }

  function Sum(u: Vars, v: Vars): Vars {
    Vars(Plus(u.a, v.a), Plus(u.b, v.b), Plus(u.c, v.c), Plus(u.d, v.d),
         Plus(u.e, v.e), Plus(u.f, v.f), Plus(u.g, v.g), Plus(u.h, v.h))
  }

  function Compress(v: Vars, block: seq<bv8>): Vars
    requires |block| == 128
  {
    Sum(v, Rounds(v, block, 80))
  }

  function Fold(iv: Vars, blocks: seq<seq<bv8>>): Vars
    requires forall i :: 0 <= i < |blocks| ==> |blocks[i]| == 128
  {
    if blocks == [] then iv else Compress(Fold(iv, blocks[..|blocks| - 1]), blocks[|blocks| - 1])
  }

  lemma FoldPush(iv: Vars, blocks: seq<seq<bv8>>, b: seq<bv8>)
    requires forall i :: 0 <= i < |blocks| ==> |blocks[i]| == 128
    requires |b| == 128
    ensures Fold(iv, blocks + [b]) == Compress(Fold(iv, blocks), b)
  {
    hide Compress;
    assert (blocks + [b])[..|blocks|] == blocks;
  }

  function ByteOf(x: bv64, i: nat): bv8
    requires i < 8
  {
    match i
    case 0 => ((x >> 56) & 0xff) as bv8
    case 1 => ((x >> 48) & 0xff) as bv8
    case 2 => ((x >> 40) & 0xff) as bv8
    case 3 => ((x >> 32) & 0xff) as bv8
    case 4 => ((x >> 24) & 0xff) as bv8
    case 5 => ((x >> 16) & 0xff) as bv8
    case 6 => ((x >> 8) & 0xff) as bv8
    case 7 => (x & 0xff) as bv8
  }

  function WordBytes(x: bv64): (s: seq<bv8>)
    ensures |s| == 8
  {
    seq(8, j requires 0 <= j < 8 => ByteOf(x, j))
  }

  /** Reading a word's bytes back gives the word. */
  lemma WordRoundTrip(x: bv64)
    ensures Word(WordBytes(x)) == x
  {
  }

  function StateWords(v: Vars): (s: seq<bv64>)
    ensures |s| == 8
  {
    [v.a, v.b, v.c, v.d, v.e, v.f, v.g, v.h]
  }

  /** The words in order, each most significant byte first. */
  function Serialized(v: Vars): (s: seq<bv8>)
    ensures |s| == 64
  {
    seq(64, k requires 0 <= k < 64 => ByteOf(StateWords(v)[k / 8], k % 8))
  }

  /** The 64-byte digest; SHA-384 keeps the first 48 bytes of it under another initial value. */
  function Digest(iv: Vars, m: seq<bv8>): (s: seq<bv8>)
    ensures |s| == 64
  {
    Serialized(Fold(iv, Blocks(Pad(m, 128, 16), 128)))
  }

  /** The driver writes only the low eight bytes of the length. */
  function ShortLength(m: seq<bv8>): (s: seq<bv8>)
    ensures |s| == 16
  {
    Zeros(8) + BigEndian(8 * |m|, 8)
  }

  function DriverBlocks(m: seq<bv8>): (bs: seq<seq<bv8>>)
    ensures forall i :: 0 <= i < |bs| ==> |bs[i]| == 128
  {
    Blocks(m, 128) + FinalBlocks(Tail(m, 128), 128, ShortLength(m))
  }

  const IV512: Vars := Vars(
    0x6a09e667f3bcc908, 0xbb67ae8584caa73b, 0x3c6ef372fe94f82b, 0xa54ff53a5f1d36f1,
    0x510e527fade682d1, 0x9b05688c2b3e6c1f, 0x1f83d9abfb41bd6b, 0x5be0cd19137e2179)

  const IV384: Vars := Vars(
    0xcbbb9d5dc1059ed8, 0x629a292a367cd507, 0x9159015a3070dd17, 0x152fecd8f70e5939,
    0x67332667ffc00b31, 0x8eb44a8768581511, 0xdb0c2e0d64f98fa7, 0x47b5481dbefa4fa4)

  const TWO_61: nat := 0x2000_0000_0000_0000

  /** The blocks the driver compresses are those of the standard exactly below 2^61 bytes. */
  lemma DriverMatchesStandard(m: seq<bv8>)
    requires |m| < TWO_64
    ensures DriverBlocks(m) == Blocks(Pad(m, 128, 16), 128) <==> |m| < TWO_61
    ensures |m| < TWO_61 ==> forall iv :: Serialized(Fold(iv, DriverBlocks(m))) == Digest(iv, m)
  {
    hide BigEndian, Blocks, Tail, Zeros, Serialized, Fold;
    PadBlocks(m, 128, 16);
    var t, long, short := Tail(m, 128), BigEndian(8 * |m|, 16), ShortLength(m);
    LongLength(m);
    if |m| >= TWO_61 {
      LastBytes(t, long, short);
      assert DriverBlocks(m)[|Blocks(m, 128)|..] == FinalBlocks(t, 128, short);
      assert (Blocks(m, 128) + FinalBlocks(t, 128, long))[|Blocks(m, 128)|..] == FinalBlocks(t, 128, long);
    }
  }

  lemma LongLength(m: seq<bv8>)
    requires |m| < TWO_64
    ensures BigEndian(8 * |m|, 16) == ShortLength(m) <==> |m| < TWO_61
  {
    hide BigEndian;
    var n := 8 * |m|;
    var high := Dropped(n, 8);
    BigEndianSplit(n, 8, 8);
    ZeroBytes(8);
    EightBytes();
    DroppedVanishes(n, 8);
    var long := BigEndian(n, 16);
    assert long[..8] == BigEndian(high, 8) && ShortLength(m)[..8] == Zeros(8);
    if |m| >= TWO_61 && long == ShortLength(m) {
      DroppedSmall(n);
      BigEndianInjective(high, 0, 8);
    }
  }

  lemma EightBytes()
    ensures Power256(8) == TWO_64
  {
    assert Power256(4) == 0x1_0000_0000;
  }

  lemma {:induction false} DroppedShrinks(n: nat, k: nat)
    ensures Dropped(n, k) <= n
  {
    if k > 0 { DroppedShrinks(n / 256, k - 1); }
  }

  lemma DroppedSmall(n: nat)
    requires n < 8 * TWO_64
    ensures Dropped(n, 8) < Power256(8)
  {
    EightBytes();
    DroppedShrinks(n / 256, 7);
  }

  lemma LastBytes(t: seq<bv8>, long: seq<bv8>, short: seq<bv8>)
    requires |t| < 128 && |long| == |short| == 16
    ensures FinalBlocks(t, 128, long) == FinalBlocks(t, 128, short) ==> long == short
  {
    hide Zeros;
    var p, q := FinalBlocks(t, 128, long), FinalBlocks(t, 128, short);
    assert p[|p| - 1][112..] == long && q[|q| - 1][112..] == short;
  }

  // ---------- the driver ----------

  lemma ScheduleStep(block: seq<bv8>, t: nat)
    requires |block| == 128 && t < 80
    ensures t < 16 ==> W(block, t) == Word(block[8 * t..8 * t + 8])
    ensures t >= 16 ==> W(block, t) == Extended(W(block, t - 2), W(block, t - 7), W(block, t - 15), W(block, t - 16))
  {
    hide Word, Extended;
  }

  method Schedule(block: seq<bv8>) returns (m: array<bv64>)
    requires |block| == 128
    ensures fresh(m) && m.Length == 80
    ensures forall t :: 0 <= t < 80 ==> m[t] == W(block, t)
  {
    hide Plus, SmallSigma0, SmallSigma1, Word, W;
    m := new bv64[80];
    for i := 0 to 16
      invariant forall t :: 0 <= t < i ==> m[t] == W(block, t)
    {
      ScheduleStep(block, i);
      m[i] := Word(block[8 * i..8 * i + 8]);
    }
    for i := 16 to 80
      invariant forall t :: 0 <= t < i ==> m[t] == W(block, t)
    {
      ScheduleStep(block, i);
      m[i] := Plus(Plus(Plus(SmallSigma1(m[i - 2]), m[i - 7]), SmallSigma0(m[i - 15])), m[i - 16]);
    }
  }

  method RunRounds(v: Vars, m: array<bv64>, ghost block: seq<bv8>) returns (r: Vars)
    requires |block| == 128 && m.Length == 80
    requires forall t :: 0 <= t < 80 ==> m[t] == W(block, t)
    ensures r == Rounds(v, block, 80)
  {
    hide Plus, BigSigma0, BigSigma1, Ch, Maj, K, W;
    var a, b, c, d, e, f, g, h := v.a, v.b, v.c, v.d, v.e, v.f, v.g, v.h;
    for i := 0 to 80
      invariant Vars(a, b, c, d, e, f, g, h) == Rounds(v, block, i)
    {
      var t1 := Plus(Plus(Plus(Plus(h, BigSigma1(e)), Ch(e, f, g)), K(i)), m[i]);
      var t2 := Plus(BigSigma0(a), Maj(a, b, c));
      h := g;
      g := f;
      f := e;
      e := Plus(d, t1);
      d := c;
      c := b;
      b := a;
      a := Plus(t1, t2);
    }
    r := Vars(a, b, c, d, e, f, g, h);
  }

  function HashValue(state: array<bv64>): Vars
    reads state
    requires state.Length == 8
  {
    Vars(state[0], state[1], state[2], state[3], state[4], state[5], state[6], state[7])
  }

  method Transform(state: array<bv64>, block: seq<bv8>)
    requires state.Length == 8 && |block| == 128
    modifies state
    ensures HashValue(state) == Compress(old(HashValue(state)), block)
  {
    hide Plus, W, Rounds;
    var m := Schedule(block);
    var r := RunRounds(HashValue(state), m, block);
    state[0] := Plus(state[0], r.a);
    state[1] := Plus(state[1], r.b);
    state[2] := Plus(state[2], r.c);
    state[3] := Plus(state[3], r.d);
    state[4] := Plus(state[4], r.e);
    state[5] := Plus(state[5], r.f);
    state[6] := Plus(state[6], r.g);
    state[7] := Plus(state[7], r.h);
  }

  /** The last partial block with its one bit, zero-filled. */
  method LoadTail(tail: seq<bv8>) returns (block: array<bv8>)
    requires |tail| < 128
    ensures fresh(block) && block.Length == 128
    ensures block[..] == TailBlock(tail, 128)
  {
    block := new bv8[128](i => 0);
    for i := 0 to |tail|
      invariant block[..i] == tail[..i]
      invariant forall k :: i <= k < 128 ==> block[k] == 0
    {
      block[i] := tail[i];
    }
    block[|tail|] := 0x80;
  }

  /** Overwrites the last eight bytes with the bit length modulo 2^64. */
  method PutLength(block: array<bv8>, msglen: nat)
    requires block.Length == 128
    modifies block
    ensures block[..] == old(block[..120]) + BigEndian(8 * msglen, 8)
  {
    hide BigEndian, Byte;
    var bitlen := 8 * msglen % TWO_64;
    ghost var n := bitlen;
    assert BigEndian(n, 0) == [] by { BigEndianStart(n); }
    for i := 0 to 8
      invariant bitlen == Dropped(n, i)
      invariant block[128 - i..] == BigEndian(n, i)
      invariant block[..120] == old(block[..120])
    {
      BigEndianFront(n, i);
      DroppedStep(n, i);
      ghost var low := block[128 - i..];
      block[127 - i] := Byte(bitlen % 256);
      assert block[127 - i..] == [Byte(bitlen % 256)] + low;
      bitlen := bitlen / 256;
    }
    LengthWraps(8 * msglen);
    assert block[..] == block[..120] + block[120..];
  }

  lemma BigEndianStart(n: nat)
    ensures BigEndian(n, 0) == []
  {
  }

  lemma LengthWraps(n: nat)
    ensures BigEndian(n % TWO_64, 8) == BigEndian(n, 8)
  {
    hide BigEndian;
    EightBytes();
    BigEndianModulo(n % TWO_64, n / TWO_64, 8);
  }

  /** Compresses the whole blocks of the message. */
  method WholeBlocks(state: array<bv64>, msg: array<bv8>) returns (pos: nat)
    requires state.Length == 8 && msg.Length + 128 <= TWO_64
    modifies state
    ensures pos <= msg.Length && msg[pos..] == Tail(msg[..], 128)
    ensures HashValue(state) == Fold(old(HashValue(state)), Blocks(msg[..], 128))
  {
    hide Compress, Fold, HashValue;
    pos := 0;
    ghost var iv, done: seq<seq<bv8>> := HashValue(state), [];
    assert Fold(iv, []) == iv by { FoldNone(iv); }
    assert msg[0..] == msg[..];
    while pos + 128 <= msg.Length
      invariant 0 <= pos <= msg.Length
      invariant forall i :: 0 <= i < |done| ==> |done[i]| == 128
      invariant done + Blocks(msg[pos..], 128) == Blocks(msg[..], 128)
      invariant Tail(msg[pos..], 128) == Tail(msg[..], 128)
      invariant HashValue(state) == Fold(iv, done)
    {
      ghost var b := msg[pos..pos + 128];
      assert msg[pos..][..128] == b && msg[pos..][128..] == msg[pos + 128..];
      FoldPush(iv, done, b);
      Transform(state, msg[pos..pos + 128]);
      done := done + [b];
      pos := pos + 128;
    }
    assert done + [] == done;
  }

  lemma FoldNone(iv: Vars)
    ensures Fold(iv, []) == iv
  {
  }

  lemma FoldFinal(iv: Vars, bs: seq<seq<bv8>>, t: seq<bv8>, length: seq<bv8>)
    requires forall i :: 0 <= i < |bs| ==> |bs[i]| == 128
    requires |t| < 128 && |length| == 16
    ensures forall i :: 0 <= i < |bs + FinalBlocks(t, 128, length)| ==> |(bs + FinalBlocks(t, 128, length))[i]| == 128
    ensures Fold(iv, bs + FinalBlocks(t, 128, length)) ==
      if |t| < 112 then Compress(Fold(iv, bs), LastBlock(t, 128, length))
      else Compress(Compress(Fold(iv, bs), TailBlock(t, 128)), LengthBlock(128, length))
  {
    hide Compress, Fold;
    if |t| < 112 {
      FoldPush(iv, bs, LastBlock(t, 128, length));
    } else {
      FoldPush(iv, bs, TailBlock(t, 128));
      FoldPush(iv, bs + [TailBlock(t, 128)], LengthBlock(128, length));
      assert bs + FinalBlocks(t, 128, length) == bs + [TailBlock(t, 128)] + [LengthBlock(128, length)];
    }
  }

  /** The eight bytes left zero are the high half of the length field. */
  lemma LengthInPlace(t: seq<bv8>, low: seq<bv8>)
    requires |t| < 128 && |low| == 8
    ensures |t| < 112 ==> TailBlock(t, 128)[..120] + low == LastBlock(t, 128, Zeros(8) + low)
    ensures Zeros(128)[..120] + low == LengthBlock(128, Zeros(8) + low)
  {
  }

  /** Hashes a whole message from the given initial value and writes the first `words` words. */
  method Core(state: array<bv64>, msg: array<bv8>, out: array<bv8>, words: nat)
    requires state.Length == 8 && msg.Length + 128 <= TWO_64
    requires words <= 8 && out.Length >= 8 * words
    modifies state, out
    ensures HashValue(state) == Fold(old(HashValue(state)), DriverBlocks(old(msg[..])))
    ensures out[..8 * words] == Serialized(HashValue(state))[..8 * words]
    ensures out[8 * words..] == old(out[8 * words..])
  {
    hide Compress, Fold, Blocks, Tail, HashValue, BigEndian, Serialized, Zeros, TailBlock;
    ghost var iv, m := HashValue(state), msg[..];
    var pos := WholeBlocks(state, msg);
    ghost var t := msg[pos..];
    var rem := msg.Length - pos;
    var block := LoadTail(msg[pos..]);
    FoldFinal(iv, Blocks(m, 128), t, ShortLength(m));
    LengthInPlace(t, BigEndian(8 * |m|, 8));
    if rem >= 112 {
      Transform(state, block[..]);
      block := new bv8[128](i => 0);
      assert block[..] == Zeros(128) by { AllZero(block[..]); }
    }
    assert block[..120] == block[..][..120];
    PutLength(block, msg.Length);
    Transform(state, block[..]);
    PutWords(state, out, words);
  }

  lemma AllZero(s: seq<bv8>)
    requires forall i :: 0 <= i < |s| ==> s[i] == 0
    ensures s == Zeros(|s|)
  {
  }

  lemma SerializedStep(v: Vars, i: nat)
    requires i < 8
    ensures Serialized(v)[..8 * i] + WordBytes(StateWords(v)[i]) == Serialized(v)[..8 * (i + 1)]
  {
    hide ByteOf, StateWords;
    var s, w := Serialized(v), WordBytes(StateWords(v)[i]);
    forall j | 0 <= j < 8
      ensures s[8 * i + j] == w[j]
    {
      RowOfIndex(i, j);
    }
    assert s[8 * i..8 * i + 8] == w;
    hide Serialized, WordBytes;
    assert s[..8 * i + 8] == s[..8 * i] + s[8 * i..8 * i + 8];
  }

  lemma RowOfIndex(i: nat, j: nat)
    requires j < 8
    ensures (8 * i + j) / 8 == i && (8 * i + j) % 8 == j
  {
  }

  method PutWords(state: array<bv64>, out: array<bv8>, words: nat)
    requires state.Length == 8 && words <= 8 && out.Length >= 8 * words
    modifies out
    ensures out[..8 * words] == Serialized(HashValue(state))[..8 * words]
    ensures out[8 * words..] == old(out[8 * words..])
  {
    hide ByteOf, Serialized, WordBytes;
    ghost var v := HashValue(state);
    for i := 0 to words
      invariant out[..8 * i] == Serialized(v)[..8 * i]
      invariant out[8 * words..] == old(out[8 * words..])
    {
      SerializedStep(v, i);
      ghost var before := out[..];
      PutCells(out, 8 * i, WordBytes(state[i]));
      assert out[..8 * (i + 1)] == before[..8 * i] + WordBytes(state[i]);
      assert out[8 * words..] == before[8 * words..];
    }
  }

  /** SHA-512. */
  method HashSha512(msg: array<bv8>, out: array<bv8>)
    requires msg.Length + 128 <= TWO_64 && out.Length >= 64
    modifies out
    ensures msg.Length < TWO_61 ==> out[..64] == Digest(IV512, old(msg[..]))
    ensures out[64..] == old(out[64..])
  {
    hide Serialized, Fold, DriverBlocks, Pad, Blocks;
    var state := new bv64[8];
    PutCells(state, 0, StateWords(IV512));
    StateIs(state, IV512);
    DriverMatchesStandard(msg[..]);
    Core(state, msg, out, 8);
  }

  /** SHA-384: its own initial hash value, and the first six words. */
  method HashSha384(msg: array<bv8>, out: array<bv8>)
    requires msg.Length < 0x1_0000_0000 && out.Length >= 48
    modifies out
    ensures out[..48] == Digest(IV384, old(msg[..]))[..48]
    ensures out[48..] == old(out[48..])
  {
    hide Serialized, Fold, DriverBlocks, Pad, Blocks;
    var state := new bv64[8];
    PutCells(state, 0, StateWords(IV384));
    StateIs(state, IV384);
    DriverMatchesStandard(msg[..]);
    Core(state, msg, out, 6);
  }

  lemma StateIs(state: array<bv64>, v: Vars)
    requires state.Length == 8 && state[..] == StateWords(v)
    ensures HashValue(state) == v
  {
    assert forall i :: 0 <= i < 8 ==> state[i] == state[..][i];
  }
}
