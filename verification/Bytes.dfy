/** Bytes as numbers, and big-endian numbers as byte strings. */
module Bytes {
  function Index(x: bv8): (k: nat)
    ensures k < 256
  {
    x as int
  }

  function Byte(k: nat): bv8
    requires k < 256
  {
    k as bv8
  }

  lemma IndexOfByte(k: nat)
    requires k < 256
    ensures Index(Byte(k)) == k
  {
    assert k % 256 == k;
  }

  lemma ByteOfIndex(x: bv8)
    ensures Byte(Index(x)) == x
  {
  }

  function Zeros(n: nat): (z: seq<bv8>)
    ensures |z| == n
  {
    seq(n, i => 0)
  }

  /** The low `k` bytes of `n`, most significant first. */
  function BigEndian(n: nat, k: nat): (s: seq<bv8>)
    ensures |s| == k
  {
    if k == 0 then [] else BigEndian(n / 256, k - 1) + [Byte(n % 256)]
  }

  /** `n` without its low `k` bytes. */
  function Dropped(n: nat, k: nat): nat {
    if k == 0 then n else Dropped(n / 256, k - 1)
  }

  function Power256(k: nat): (p: nat)
    ensures p > 0
  {
    if k == 0 then 1 else 256 * Power256(k - 1)
  }

  lemma {:induction false} DroppedStep(n: nat, k: nat)
    ensures Dropped(n, k + 1) == Dropped(n, k) / 256
  {
    if k > 0 { DroppedStep(n / 256, k - 1); }
  }

  /** One more byte goes in front. */
  lemma {:induction false} BigEndianFront(n: nat, k: nat)
    ensures BigEndian(n, k + 1) == [Byte(Dropped(n, k) % 256)] + BigEndian(n, k)
  {
    hide Byte;
    if k > 0 { BigEndianFront(n / 256, k - 1); }
  }

  /** The high bytes and the low bytes. */
  lemma {:induction false} BigEndianSplit(n: nat, j: nat, k: nat)
    ensures BigEndian(n, j + k) == BigEndian(Dropped(n, k), j) + BigEndian(n, k)
  {
    hide Byte;
    if k > 0 { BigEndianSplit(n / 256, j, k - 1); }
  }

  lemma {:induction false} DroppedVanishes(n: nat, k: nat)
    ensures Dropped(n, k) == 0 <==> n < Power256(k)
  {
    if k > 0 { DroppedVanishes(n / 256, k - 1); }
  }

  /** Numbers that fit are determined by their bytes. */
  lemma {:induction false} BigEndianInjective(m: nat, n: nat, k: nat)
    requires m < Power256(k) && n < Power256(k)
    requires BigEndian(m, k) == BigEndian(n, k)
    ensures m == n
  {
    if k > 0 {
      hide Byte;
      var x, y := BigEndian(m, k), BigEndian(n, k);
      assert x[..k - 1] == BigEndian(m / 256, k - 1) && y[..k - 1] == BigEndian(n / 256, k - 1);
      assert x[k - 1] == Byte(m % 256) && y[k - 1] == Byte(n % 256);
      IndexOfByte(m % 256);
      IndexOfByte(n % 256);
      BigEndianInjective(m / 256, n / 256, k - 1);
    }
  }

  lemma MultipleMoves(q: nat, p: nat)
    ensures q * (256 * p) == 256 * (q * p)
  {
  }

  lemma HighPart(n: nat, p: nat)
    ensures (n + 256 * p) / 256 == n / 256 + p && (n + 256 * p) % 256 == n % 256
  {
  }

  /** Multiples of 256^k have no influence on the low `k` bytes. */
  lemma {:induction false} BigEndianModulo(n: nat, q: nat, k: nat)
    ensures BigEndian(n + q * Power256(k), k) == BigEndian(n, k)
  {
    if k > 0 {
      var p := q * Power256(k - 1);
      MultipleMoves(q, Power256(k - 1));
      hide Byte, Power256;
      BigEndianModulo(n / 256, q, k - 1);
      HighPart(n, p);
    }
  }

  lemma {:induction false} ZeroBytes(k: nat)
    ensures BigEndian(0, k) == Zeros(k)
  {
    if k > 0 {
      ZeroBytes(k - 1);
      assert Byte(0) == 0;
    }
  }

  /** Consecutive cells from `from` on. */
  method PutCells<T>(a: array<T>, from: nat, xs: seq<T>)
    requires from + |xs| <= a.Length
    modifies a
    ensures a[..] == old(a[..from]) + xs + old(a[from + |xs|..])
  {
    for i := 0 to |xs|
      invariant a[..from] == old(a[..from]) && a[from..from + i] == xs[..i]
      invariant a[from + |xs|..] == old(a[from + |xs|..])
    {
      a[from + i] := xs[i];
    }
    assert a[..] == a[..from] + a[from..from + |xs|] + a[from + |xs|..];
  }
}
