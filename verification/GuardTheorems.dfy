/** What the arena invariant, kept by every operation, says about a reachable arena. */
module GuardTheorems {
  import opened GuardMemory
  import opened GuardHeap
  import opened GuardSlabs
  import opened GuardSteps
  import opened GuardArena

  /**
   * The carved bytes are partitioned: a byte is carved exactly when it is in a block, and then in
   * one block only. Each block is in use, orphaned by a reallocation, or free.
   */
  lemma CarvedBytesPartitioned(a: Arena, x: int)
    requires a.Valid()
    ensures |a.carved| == |a.slabs|
    ensures (exists s :: 0 <= s < |a.slabs| && InExtent(a.slabs[s], a.carved[s], x)) <==> Covered(a.blocks, x)
    ensures forall p, q ::
      p in a.blocks && q in a.blocks && Covers(p, a.blocks[p], x) && Covers(q, a.blocks[q], x) ==> p == q
    ensures forall p :: p in a.orphans || IsLive(a.blocks, a.free, p) || IsFree(a.blocks, a.free, p) <==> p in a.blocks
    ensures forall p :: p in a.orphans ==> IsLive(a.blocks, a.free, p)
    ensures forall p :: !(IsLive(a.blocks, a.free, p) && IsFree(a.blocks, a.free, p))
  {
    hide Read64, Bucket;
    if Covered(a.blocks, x) {
      var p :| p in a.blocks && Covers(p, a.blocks[p], x);
      var s :| 0 <= s < |a.slabs| && Within(a.slabs[s], a.carved[s], p, a.blocks[p]);
      assert InExtent(a.slabs[s], a.carved[s], x);
    }
  }

  /** Every block is aligned, has room for a payload, and lies inside one slab. */
  lemma BlocksInSlabs(a: Arena, p: nat)
    requires a.Valid() && p in a.blocks
    ensures p % 16 == 0 && a.blocks[p] % 16 == 0 && a.blocks[p] >= 32
    ensures exists s :: 0 <= s < |a.slabs| && Within(a.slabs[s], a.slabs[s].size, p, a.blocks[p])
  {
    hide Read64, Bucket, SpaceLaw;
    var s :| 0 <= s < |a.slabs| && Within(a.slabs[s], a.carved[s], p, a.blocks[p]);
    assert Within(a.slabs[s], a.slabs[s].size, p, a.blocks[p]);
  }

  /** A free block is at one place of one list; a live block is on none. */
  lemma FreeExactlyOnce(a: Arena, p: nat)
    requires a.Valid() && p in a.blocks
    ensures IsLive(a.blocks, a.free, p)
       <==> forall b, i :: 0 <= b < BUCKETS && 0 <= i < |a.free[b]| ==> a.free[b][i] != p
    ensures forall b, i, c, j ::
      (0 <= b < BUCKETS && 0 <= i < |a.free[b]| && a.free[b][i] == p &&
       0 <= c < BUCKETS && 0 <= j < |a.free[c]| && a.free[c][j] == p) ==> b == c && i == j
  {
    hide Read64, Bucket, SpaceLaw, Linked, Headed, Tiled;
    forall b, i, c, j | 0 <= b < BUCKETS && 0 <= i < |a.free[b]| && a.free[b][i] == p &&
      0 <= c < BUCKETS && 0 <= j < |a.free[c]| && a.free[c][j] == p
      ensures b == c && i == j
    {
      assert Bucket(a.blocks[a.free[b][i]]) == b && Bucket(a.blocks[a.free[c][j]]) == c;
    }
  }

  /** An indexed list holds blocks of one size, the last one only blocks of at least 1024 bytes. */
  lemma BucketSizes(a: Arena, b: nat, i: nat)
    requires a.Valid() && b < BUCKETS && i < |a.free[b]|
    ensures a.free[b][i] in a.blocks
    ensures var t := a.blocks[a.free[b][i]]; if b < BUCKETS - 1 then t == 16 * b else t >= 1024
  {
    hide Read64, SpaceLaw, Linked, Headed, Tiled, Apart;
  }

  /** Following the links in memory from a list head visits the list and stops at null. */
  function Follow(m: Mem, p: nat, n: nat): nat
    decreases n
  {
    if n == 0 || p == 0 then p else Follow(m, Read64(m, p), n - 1)
  }

  lemma {:induction false} ChainIsList(m: Mem, heads: seq<nat>, blocks: Blocks, free: seq<seq<nat>>,
                                       b: nat, i: nat, n: nat)
    requires Sound(m, heads, blocks, free) && |free| == BUCKETS && b < BUCKETS && i + n <= |free[b]|
    ensures Follow(m, At(free[b], i), n) == At(free[b], i + n)
    decreases n
  {
    hide Read64, Sound;
    if n > 0 {
      ListPointers(m, heads, blocks, free, b, i);
      ChainIsList(m, heads, blocks, free, b, i + 1, n - 1);
    }
  }

  /** Free lists in memory are acyclic: the chain from the head ends after as many links as blocks. */
  lemma ChainsEnd(a: Arena, b: nat)
    requires a.Valid() && b < BUCKETS
    ensures Follow(a.mem, a.freeLists[b], |a.free[b]|) == 0
    ensures forall n :: 0 <= n < |a.free[b]| ==> Follow(a.mem, a.freeLists[b], n) == a.free[b][n] != 0
  {
    hide Read64, SpaceLaw, Tiled, Follow, Sound;
    EmptyList(a.mem, a.freeLists[..], a.blocks, a.free, b);
    ChainIsList(a.mem, a.freeLists[..], a.blocks, a.free, b, 0, |a.free[b]|);
    forall n | 0 <= n < |a.free[b]|
      ensures Follow(a.mem, a.freeLists[b], n) == a.free[b][n] != 0
    {
      ChainIsList(a.mem, a.freeLists[..], a.blocks, a.free, b, 0, n);
      ListPointers(a.mem, a.freeLists[..], a.blocks, a.free, b, n);
    }
  }

  /**
   * Space law. As many blocks of a size have been carved as were ever live at once; so while fewer
   * are live than at the peak one of them is free, and the next allocation carves nothing.
   */
  lemma CarvedEqualsPeak(a: Arena, t: nat)
    requires a.Valid()
    ensures |OfSize(a.blocks, t)| == a.peak(t)
    ensures |LiveOfSize(a.blocks, a.free, t)| < a.peak(t) ==> HasFree(a.blocks, a.free, t)
  {
    hide Sound, Tiled;
    LiveBounded(a.blocks, a.free, t);
  }

  /** The block freed last is the first fit for its size. */
  lemma LastFreedFits(blocks: Blocks, free: seq<seq<nat>>, free': seq<seq<nat>>, p: nat, q: nat, t: nat)
    requires |free| == BUCKETS && p in blocks && blocks[p] == t
    requires FirstFit(blocks, Pushed(free, p, Bucket(t)), free', Bucket(t), q, t)
    ensures q == p && free' == free
  {
    hide Bucket;
    var b := Bucket(t);
    var pushed := Pushed(free, p, b);
    assert pushed[b][0] == p && pushed[b][..0] + pushed[b][1..] == free[b];
    assert Taken(pushed, b, 0) == free;
  }

  /** Freeing a block and allocating its size again gives the same block and takes no memory. */
  method FreeThenAlloc(a: Arena, p: nat, size: int, first: Reply, second: Reply) returns (q: nat)
    requires a.Valid() && a.active > 0 && 0 < size <= LLONG_MAX - 31
    requires IsLive(a.blocks, a.free, p) && a.blocks[p] == Rounded(size)
    requires Replies(first, second, Max(Rounded(size), SLAB), a.slabs, a.mainHeap)
    modifies a, a.freeLists
    ensures a.Valid() && a.active == old(a.active) && a.mainHeap == old(a.mainHeap)
    ensures q == p && a.slabs == old(a.slabs) && a.blocks == old(a.blocks) && a.free == old(a.free)
  {
    hide Sound, Tiled, SpaceLaw, SlabsOk, MainApart, Cursor, Contained, LiveSame, MainSame, KeepsMain, Replies;
    hide HandedOut, PeakStep, Read64, ZeroBytes, OnlyIn, FirstFit, Pushed;
    a.Free(p);
    FreeOrLive(a.blocks, a.free, p);
    q := a.Alloc(size, first, second, 0);
    LastFreedFits(a.blocks, old(a.free), a.free, p, q, Rounded(size));
  }

  /** Balanced alloc/free loops stay flat: after any number of rounds the slabs, blocks and lists are as before. */
  method BalancedLoop(a: Arena, p: nat, size: int, answers: seq<(Reply, Reply)>)
    requires a.Valid() && a.active > 0 && 0 < size <= LLONG_MAX - 31
    requires IsLive(a.blocks, a.free, p) && a.blocks[p] == Rounded(size)
    requires forall i :: 0 <= i < |answers| ==>
      Replies(answers[i].0, answers[i].1, Max(Rounded(size), SLAB), a.slabs, a.mainHeap)
    modifies a, a.freeLists
    ensures a.Valid() && a.slabs == old(a.slabs) && a.blocks == old(a.blocks) && a.free == old(a.free)
  {
    for i := 0 to |answers|
      invariant a.Valid() && a.active > 0 && a.slabs == old(a.slabs) && a.mainHeap == old(a.mainHeap)
      invariant a.blocks == old(a.blocks) && a.free == old(a.free)
    {
      hide Sound, Tiled, SpaceLaw, SlabsOk, MainApart, Cursor, Replies, IsLive;
      var _ := FreeThenAlloc(a, p, size, answers[i].0, answers[i].1);
    }
  }

  /** No main-heap allocation the arena knows of shares a byte with the arena. */
  lemma MainHeapOutside(a: Arena, r: Slab, x: int)
    requires a.Valid() && r in a.mainHeap && r.base <= x < r.base + r.size
    ensures !Contained(a.slabs, x)
  {
    hide Sound, Tiled, SpaceLaw;
  }

  // ---------- what was copied out survives ----------

  /** What can be seen of the main heap at one instant. */
  datatype MainView = MainView(mem: Mem, mainHeap: set<Slab>)

  /**
   * Over any history of operations, nested exits included, a main-heap allocation keeps its bytes
   * while it is recorded: each operation keeps them, and only freeing or reallocating at its own
   * address takes it off the record.
   */
  lemma {:induction false} MainHeapSurvives(history: seq<MainView>, r: Slab, x: int)
    requires history != [] && r.base <= x < r.base + r.size
    requires forall i :: 0 <= i < |history| ==> r in history[i].mainHeap
    requires forall i :: 0 < i < |history| ==>
      KeepsMain(history[i - 1].mem, history[i - 1].mainHeap, history[i].mem, history[i].mainHeap)
    ensures history[|history| - 1].mem(x) == history[0].mem(x)
  {
    var n := |history| - 1;
    if n > 0 {
      MainHeapSurvives(history[..n], r, x);
      assert history[..n][n - 1] == history[n - 1];
    }
  }

  lemma MovedKept(m: Mem, m1: Mem, h1: set<Slab>, m2: Mem, h2: set<Slab>, r: Slab, src: int)
    requires Moved(m, m1, r.base, src, r.size) && KeepsMain(m1, h1, m2, h2) && r in h1 && r in h2
    ensures Moved(m, m2, r.base, src, r.size)
  {
  }

  /** Copying out of the arena and leaving the unsafe block: the copy holds what the arena held. */
  method CopyOutThenExit(a: Arena, src: nat, len: int, dst: nat, junk: Mem) returns (p: nat)
    requires a.Valid() && (len > 0 && dst != 0 ==> Unused(Slab(dst, len), a.slabs, a.mainHeap))
    modifies a, a.freeLists
    ensures a.Valid() && a.active == Max(old(a.active), 1) - 1
    ensures p == if src == 0 || len <= 0 then 0 else dst
    ensures p != 0 ==> Slab(p, len) in a.mainHeap && Moved(old(a.mem), a.mem, p, src, len)
  {
    hide *;
    p := a.CopyOut(src, len, dst);
    ghost var m, h := a.mem, a.mainHeap;
    a.Exit(junk);
    if p != 0 { MovedKept(old(a.mem), m, h, a.mem, a.mainHeap, Slab(p, len), src); }
  }
}
