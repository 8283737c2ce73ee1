/** Byte-addressed memory with little-endian 64-bit words. */
module GuardMemory {
  import Bytes
  import opened Words

  type Byte = x: int | 0 <= x < 256

  type Mem = int -> Byte

  function ReadLe(m: Mem, a: int, k: nat): nat
    decreases k
  {
    if k == 0 then 0 else m(a) + 256 * ReadLe(m, a + 1, k - 1)
  }

  /** Byte `i` of a number. */
  function ByteAt(v: nat, i: nat): Byte
    decreases i
  {
    if i == 0 then v % 256 else ByteAt(v / 256, i - 1)
  }

  function Read64(m: Mem, a: int): nat { ReadLe(m, a, 8) }

  function Write64(m: Mem, a: int, v: nat): Mem {
    x => if a <= x < a + 8 then ByteAt(v, x - a) else m(x)
  }

  /** Zeroes the bytes from `lo` up to `hi`. */
  function Zeroed(m: Mem, lo: int, hi: int): Mem {
    x => if lo <= x < hi then 0 else m(x)
  }

  /** The byte at `x` after `n` bytes have been copied from `src` to `dst`. */
  function CopiedByte(m: Mem, dst: int, src: int, n: nat, x: int): Byte {
    if dst <= x < dst + n then m(src + (x - dst)) else m(x)
  }

  /** Copies `n` bytes from `src` to `dst`. */
  function Copied(m: Mem, dst: int, src: int, n: nat): Mem {
    x => CopiedByte(m, dst, src, n, x)
  }

  /** Two memories agree on an interval. */
  ghost predicate Agree(m: Mem, m': Mem, lo: int, hi: int) {
    forall x :: lo <= x < hi ==> m'(x) == m(x)
  }

  lemma {:induction false} ReadFrame(m: Mem, m': Mem, a: int, k: nat)
    requires Agree(m, m', a, a + k)
    ensures ReadLe(m', a, k) == ReadLe(m, a, k)
    decreases k
  {
    if k > 0 { ReadFrame(m, m', a + 1, k - 1); }
  }

  lemma SameWord(m: Mem, m': Mem, a: int)
    requires Agree(m, m', a, a + 8)
    ensures Read64(m', a) == Read64(m, a)
  {
    ReadFrame(m, m', a, 8);
  }

  lemma {:induction false} ReadBack(m: Mem, a: int, v: nat, k: nat)
    requires v < Bytes.Power256(k)
    requires forall i :: 0 <= i < k ==> m(a + i) == ByteAt(v, i)
    ensures ReadLe(m, a, k) == v
    decreases k
  {
    if k > 0 {
      assert m(a + 0) == ByteAt(v, 0);
      forall i | 0 <= i < k - 1
        ensures m(a + 1 + i) == ByteAt(v / 256, i)
      {
        assert m(a + (i + 1)) == ByteAt(v, i + 1);
      }
      ReadBack(m, a + 1, v / 256, k - 1);
    }
  }

  /** A stored word is read back. */
  lemma WriteRead(m: Mem, a: int, v: nat)
    requires v < TWO_64
    ensures Read64(Write64(m, a, v), a) == v
  {
    assert Bytes.Power256(8) == TWO_64 by { assert Bytes.Power256(4) == 0x1_0000_0000; }
    ReadBack(Write64(m, a, v), a, v, 8);
  }
}
