/** Message padding and parsing of the SHA-2 family, sections 5.1 and 5.2 of FIPS 180-4, on whole bytes. */
module Padding {
  import opened Arithmetic
  import opened Bytes

  /** The whole blocks of a message, in order. */
  function Blocks(m: seq<bv8>, size: nat): (bs: seq<seq<bv8>>)
    requires size > 0
    ensures forall i :: 0 <= i < |bs| ==> |bs[i]| == size
  {
    if |m| < size then [] else [m[..size]] + Blocks(m[size..], size)
  }

  /** The bytes after the last whole block. */
  function Tail(m: seq<bv8>, size: nat): (t: seq<bv8>)
    requires size > 0
    ensures |t| < size && |t| <= |m|
  {
    if |m| < size then m else Tail(m[size..], size)
  }

  /**
   * The padding of section 5.1: a one bit, the zero bits up to `lengthBytes` short of a block
   * boundary, and the length in bits.
   */
  function PadZeros(tail: nat, size: nat, lengthBytes: nat): nat
    requires tail < size && lengthBytes < size
  {
    if tail < size - lengthBytes then size - lengthBytes - 1 - tail else 2 * size - lengthBytes - 1 - tail
  }

  function Pad(m: seq<bv8>, size: nat, lengthBytes: nat): seq<bv8>
    requires 0 < size && lengthBytes < size
  {
    m + [0x80] + Zeros(PadZeros(|Tail(m, size)|, size, lengthBytes)) + BigEndian(8 * |m|, lengthBytes)
  }

  lemma {:induction false} BlocksAppend(a: seq<bv8>, b: seq<bv8>, size: nat)
    requires size > 0
    ensures Blocks(a + b, size) == Blocks(a, size) + Blocks(Tail(a, size) + b, size)
    ensures Tail(a + b, size) == Tail(Tail(a, size) + b, size)
  {
    if |a| >= size {
      assert (a + b)[..size] == a[..size] && (a + b)[size..] == a[size..] + b;
      BlocksAppend(a[size..], b, size);
    }
  }

  /** One more byte either completes a block or lengthens the tail. */
  lemma BlocksPush(m: seq<bv8>, x: bv8, size: nat)
    requires size > 0
    ensures var t := Tail(m, size) + [x];
      if |t| == size then Blocks(m + [x], size) == Blocks(m, size) + [t] && Tail(m + [x], size) == []
      else Blocks(m + [x], size) == Blocks(m, size) && Tail(m + [x], size) == t
  {
    BlocksAppend(m, [x], size);
    var t := Tail(m, size) + [x];
    assert t[..|t|] == t && t[|t|..] == [];
  }

  lemma {:induction false} TailIsRemainder(m: seq<bv8>, size: nat)
    requires size > 0
    ensures |Tail(m, size)| == |m| % size
  {
    if |m| >= size {
      TailIsRemainder(m[size..], size);
      assert |m| % size == (|m| - size) % size by { ModLess(|m|, size); }
    }
  }

  lemma ModLess(n: nat, size: nat)
    requires n >= size > 0
    ensures n % size == (n - size) % size
  {
    var q, r := (n - size) / size, (n - size) % size;
    assert n == (q + 1) * size + r;
    QuotientUnique(n, size, q + 1, r);
  }

  /** The last block when the length fits behind the tail. */
  function LastBlock(tail: seq<bv8>, size: nat, length: seq<bv8>): (b: seq<bv8>)
    requires |tail| + |length| < size
    ensures |b| == size
  {
    tail + [0x80] + Zeros(size - |length| - 1 - |tail|) + length
  }

  /** Otherwise the tail gets a block of its own. */
  function TailBlock(tail: seq<bv8>, size: nat): (b: seq<bv8>)
    requires |tail| < size
    ensures |b| == size
  {
    tail + [0x80] + Zeros(size - 1 - |tail|)
  }

  function LengthBlock(size: nat, length: seq<bv8>): (b: seq<bv8>)
    requires |length| <= size
    ensures |b| == size
  {
    Zeros(size - |length|) + length
  }

  function FinalBlocks(tail: seq<bv8>, size: nat, length: seq<bv8>): seq<seq<bv8>>
    requires |tail| < size && |length| < size
  {
    if |tail| < size - |length| then [LastBlock(tail, size, length)]
    else [TailBlock(tail, size), LengthBlock(size, length)]
  }

  lemma OneBlock(b: seq<bv8>, rest: seq<bv8>, size: nat)
    requires |b| == size > 0
    ensures Blocks(b + rest, size) == [b] + Blocks(rest, size) && Tail(b + rest, size) == Tail(rest, size)
  {
    assert (b + rest)[..size] == b && (b + rest)[size..] == rest;
  }

  /** The padded message is the message's whole blocks and one or two more. */
  lemma PadBlocks(m: seq<bv8>, size: nat, lengthBytes: nat)
    requires lengthBytes < size
    ensures Blocks(Pad(m, size, lengthBytes), size)
         == Blocks(m, size) + FinalBlocks(Tail(m, size), size, BigEndian(8 * |m|, lengthBytes))
    ensures Tail(Pad(m, size, lengthBytes), size) == []
  {
    hide BigEndian, Blocks, Tail, Zeros;
    var t, length := Tail(m, size), BigEndian(8 * |m|, lengthBytes);
    var more := [0x80] + Zeros(PadZeros(|t|, size, lengthBytes)) + length;
    assert Pad(m, size, lengthBytes) == m + more;
    BlocksAppend(m, more, size);
    NoBlocks(size);
    if |t| < size - lengthBytes {
      var b := LastBlock(t, size, length);
      OneBlock(b, [], size);
      assert t + more == b + [];
    } else {
      var b, c := TailBlock(t, size), LengthBlock(size, length);
      ZerosJoin(size - 1 - |t|, size - lengthBytes);
      assert t + more == b + (c + []);
      OneBlock(b, c + [], size);
      OneBlock(c, [], size);
    }
  }

  lemma NoBlocks(size: nat)
    requires size > 0
    ensures Blocks([], size) == [] && Tail([], size) == []
  {
  }

  lemma ZerosJoin(a: nat, b: nat)
    ensures Zeros(a + b) == Zeros(a) + Zeros(b)
  {
  }

  /** The padded length is a multiple of the block size, reached with the fewest zero bytes. */
  lemma PadIsMinimal(m: seq<bv8>, size: nat, lengthBytes: nat)
    requires lengthBytes < size
    ensures |Pad(m, size, lengthBytes)| % size == 0
    ensures |Pad(m, size, lengthBytes)| - |m| - 1 - lengthBytes < size
  {
    hide BigEndian, Zeros;
    PadBlocks(m, size, lengthBytes);
    TailIsRemainder(Pad(m, size, lengthBytes), size);
  }

  /** Messages whose bit length fits the length field have different paddings. */
  lemma PadIsInjective(a: seq<bv8>, b: seq<bv8>, size: nat, lengthBytes: nat)
    requires lengthBytes < size
    requires 8 * |a| < Power256(lengthBytes) && 8 * |b| < Power256(lengthBytes)
    requires Pad(a, size, lengthBytes) == Pad(b, size, lengthBytes)
    ensures a == b
  {
    hide BigEndian, Zeros, Tail;
    var p, q := Pad(a, size, lengthBytes), Pad(b, size, lengthBytes);
    assert p[|p| - lengthBytes..] == BigEndian(8 * |a|, lengthBytes);
    assert q[|q| - lengthBytes..] == BigEndian(8 * |b|, lengthBytes);
    BigEndianInjective(8 * |a|, 8 * |b|, lengthBytes);
    assert p[..|a|] == a && q[..|b|] == b;
  }
}
