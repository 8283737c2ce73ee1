/**
 * The effect of each arena operation on memory, blocks, lists, extents and peaks, as lemmas about
 * values: carving, reuse, freeing, reallocation, copying out, new slabs and the empty arena.
 */
module GuardSteps {
  import opened GuardMemory
  import opened GuardHeap
  import opened GuardSlabs
  import opened Words

  const SLAB: nat := 65536
  const LLONG_MAX: int := 0x7FFF_FFFF_FFFF_FFFF

  /** Whether the two slab tables could grow, and the address of the new slab or null. */
  datatype Reply = Reply(growSlabs: bool, growSizes: bool, slab: nat)

  /** Payload and header, rounded up to 16 bytes. */
  function Rounded(size: int): (t: nat)
    requires size > 0
    ensures t % 16 == 0 && t >= 32 && size + 16 <= t < size + 32
  {
    (size + 31) / 16 * 16
  }

  /** Where the next block goes: the end of the carved part of the last slab. */
  ghost predicate Cursor(slabs: seq<Slab>, carved: seq<nat>, curSlab: int, curOff: nat)
    requires |carved| == |slabs|
  {
    && curSlab == |slabs| - 1
    && (slabs != [] ==>
        var last, c := slabs[|slabs| - 1], carved[|slabs| - 1];
        curOff <= SLAB <= last.size && (c == curOff || (curOff == SLAB && last.size > SLAB)))
  }

  ghost predicate MainApart(mainHeap: set<Slab>, slabs: seq<Slab>) {
    forall r, s :: r in mainHeap && 0 <= s < |slabs| ==> Disjoint(r, slabs[s])
  }

  /** The main heap once the allocation at `p` is gone. */
  ghost function Without(mainHeap: set<Slab>, p: nat): (rest: set<Slab>)
    ensures forall r :: r in rest <==> r in mainHeap && r.base != p
  {
    set r | r in mainHeap && r.base != p
  }

  ghost function NoLists(): (free: seq<seq<nat>>)
    ensures |free| == BUCKETS && forall b :: 0 <= b < BUCKETS ==> free[b] == []
  {
    seq(BUCKETS, i => [])
  }

  /** A region the operating system or the main heap may hand out now. */
  ghost predicate Unused(r: Slab, slabs: seq<Slab>, mainHeap: set<Slab>) {
    && (forall s :: 0 <= s < |slabs| ==> Disjoint(slabs[s], r))
    && (forall q :: q in mainHeap ==> Disjoint(q, r))
  }

  /** A new slab is page-aligned and unused. */
  ghost predicate FreshSlab(reply: Reply, size: nat, slabs: seq<Slab>, mainHeap: set<Slab>) {
    reply.slab != 0 ==>
      && reply.slab % 4096 == 0 && reply.slab + size <= TWO_63
      && Unused(Slab(reply.slab, size), slabs, mainHeap)
  }

  /** The `n` bytes from `src` on are now at `dst`. */
  ghost predicate Moved(m: Mem, m': Mem, dst: int, src: int, n: nat) {
    forall x :: dst <= x < dst + n ==> m'(x) == m(src + (x - dst))
  }

  ghost predicate ZeroBytes(m: Mem, lo: int, hi: int) {
    forall x :: lo <= x < hi ==> m(x) == 0
  }

  lemma HandedOutZero(m: Mem, p: nat, t: nat, size: int)
    requires HandedOut(m, p, t) && size + 16 <= t
    ensures ZeroBytes(m, p, p + size)
  {
    hide Read64;
  }

  /** No byte of a live block has changed. */
  ghost predicate LiveSame(m: Mem, m': Mem, blocks: Blocks, free: seq<seq<nat>>)
    requires |free| == BUCKETS
  {
    forall q, x :: IsLive(blocks, free, q) && Covers(q, blocks[q], x) ==> m'(x) == m(x)
  }

  function Max(a: nat, b: nat): nat { if a < b then b else a }

  /** The most blocks of each size that have been live at once so far. */
  ghost function Peaked(peak: nat -> nat, blocks: Blocks, free: seq<seq<nat>>): nat -> nat
    requires |free| == BUCKETS
  {
    u => Max(peak(u), |LiveOfSize(blocks, free, u)|)
  }

  /** The record of peaks after one more operation. */
  ghost predicate PeakStep(peak: nat -> nat, peak': nat -> nat, blocks: Blocks, free: seq<seq<nat>>)
    requires |free| == BUCKETS
  {
    forall t :: peak'(t) == Max(peak(t), |LiveOfSize(blocks, free, t)|)
  }

  lemma PeakIdle(peak: nat -> nat, blocks: Blocks, free: seq<seq<nat>>)
    requires |free| == BUCKETS && SpaceLaw(peak, blocks)
    ensures PeakStep(peak, peak, blocks, free)
  {
    forall t: nat
      ensures peak(t) == Max(peak(t), |LiveOfSize(blocks, free, t)|)
    {
      LiveBounded(blocks, free, t);
    }
  }

  /** A step that found nothing to record, then one that may have. */
  lemma PeakAgain(peak: nat -> nat, peak1: nat -> nat, peak2: nat -> nat, blocks: Blocks, free: seq<seq<nat>>)
    requires |free| == BUCKETS && (forall t :: peak1(t) == peak(t)) && PeakStep(peak1, peak2, blocks, free)
    ensures PeakStep(peak, peak2, blocks, free)
  {
  }

  lemma PeakSame(peak: nat -> nat, peak1: nat -> nat, blocks: Blocks, free: seq<seq<nat>>)
    requires |free| == BUCKETS && SpaceLaw(peak, blocks) && PeakStep(peak, peak1, blocks, free)
    ensures forall t :: peak1(t) == peak(t)
  {
    PeakIdle(peak, blocks, free);
  }

  lemma PeakedSteps(peak: nat -> nat, blocks: Blocks, free: seq<seq<nat>>)
    requires |free| == BUCKETS
    ensures PeakStep(peak, Peaked(peak, blocks, free), blocks, free)
  {
  }

  /** Space law: as many blocks of a size have been carved as were ever live at once. */
  ghost predicate SpaceLaw(peak: nat -> nat, blocks: Blocks) {
    forall t :: peak(t) == |OfSize(blocks, t)|
  }

  lemma CarvePeak(peak: nat -> nat, blocks: Blocks, free: seq<seq<nat>>, p: nat, t: nat)
    requires Listed(blocks, free) && SpaceLaw(peak, blocks) && p !in blocks && !HasFree(blocks, free, t)
    ensures SpaceLaw(Peaked(peak, blocks[p := t], free), blocks[p := t])
  {
    var blocks' := blocks[p := t];
    CarvedLive(blocks, free, p, t);
    forall u: nat
      ensures Max(peak(u), |LiveOfSize(blocks', free, u)|) == |OfSize(blocks', u)|
    {
      CarvedSizes(blocks, p, t, u);
      LiveBounded(blocks', free, u);
      if u == t { StillNoneFree(blocks, free, p, t); }
    }
  }

  lemma StillNoneFree(blocks: Blocks, free: seq<seq<nat>>, p: nat, t: nat)
    requires Listed(blocks, free) && p !in blocks && !HasFree(blocks, free, t)
    ensures !HasFree(blocks[p := t], free, t)
  {
    CarvedLive(blocks, free, p, t);
    hide IsLive, IsFree, Bucket;
    FreeOrLive(blocks[p := t], free, p);
  }

  lemma SamePeak(peak: nat -> nat, blocks: Blocks, free: seq<seq<nat>>)
    requires |free| == BUCKETS && SpaceLaw(peak, blocks)
    ensures SpaceLaw(Peaked(peak, blocks, free), blocks)
  {
    forall u: nat
      ensures Max(peak(u), |LiveOfSize(blocks, free, u)|) == |OfSize(blocks, u)|
    {
      LiveBounded(blocks, free, u);
    }
  }

  /** Bytes outside the arena have not changed. */
  ghost predicate MainSame(m: Mem, m': Mem, slabs: seq<Slab>) {
    forall x :: !Contained(slabs, x) ==> m'(x) == m(x)
  }

  /** The main-heap allocations that are there before and after still hold the same bytes. */
  ghost predicate KeepsMain(m: Mem, mainHeap: set<Slab>, m': Mem, mainHeap': set<Slab>) {
    forall r, x :: r in mainHeap && r in mainHeap' && r.base <= x < r.base + r.size ==> m'(x) == m(x)
  }

  lemma NothingMoved(m: Mem)
    ensures forall h, h' :: KeepsMain(m, h, m, h')
  {
  }

  /** They do when nothing outside the arena has been written. */
  lemma MainSameKeeps(m: Mem, m': Mem, slabs: seq<Slab>, mainHeap: set<Slab>, mainHeap': set<Slab>)
    requires MainSame(m, m', slabs) && (MainApart(mainHeap, slabs) || MainApart(mainHeap', slabs))
    ensures KeepsMain(m, mainHeap, m', mainHeap')
  {
    forall r, x | r in mainHeap && r in mainHeap' && r.base <= x < r.base + r.size
      ensures !Contained(slabs, x)
    {
      forall s | 0 <= s < |slabs|
        ensures !(slabs[s].base <= x < slabs[s].base + slabs[s].size)
      {
        assert Disjoint(r, slabs[s]);
      }
    }
  }

  /** They do when only a region is written that was unused. */
  lemma UnusedKeeps(m: Mem, m': Mem, slabs: seq<Slab>, mainHeap: set<Slab>, r: Slab)
    requires Unused(r, slabs, mainHeap) && OnlyIn(m, m', r.base, r.base + r.size)
    ensures KeepsMain(m, mainHeap, m', mainHeap + {r})
  {
    forall q, x | q in mainHeap && q.base <= x < q.base + q.size
      ensures m'(x) == m(x)
    {
      assert Disjoint(q, r);
    }
  }

  /** A new main-heap allocation, zeroed. */
  lemma MainZero(m: Mem, heads: seq<nat>, slabs: seq<Slab>, carved: seq<nat>, blocks: Blocks, free: seq<seq<nat>>,
                 mainHeap: set<Slab>, r: Slab)
    requires Sound(m, heads, blocks, free) && Tiled(slabs, carved, blocks) && MainApart(mainHeap, slabs)
    requires Unused(r, slabs, mainHeap)
    ensures var m' := Zeroed(m, r.base, r.base + r.size);
      && Sound(m', heads, blocks, free) && MainApart(mainHeap + {r}, slabs)
      && ZeroBytes(m', r.base, r.base + r.size) && OnlyIn(m, m', r.base, r.base + r.size)
      && LiveSame(m, m', blocks, free) && KeepsMain(m, mainHeap, m', mainHeap + {r})
  {
    hide Sound, Tiled, MainApart, Unused, ZeroBytes, OnlyIn, Zeroed, KeepsMain;
    var m' := Zeroed(m, r.base, r.base + r.size);
    ZeroedIs(m, r.base, r.base + r.size);
    MainGrows(mainHeap, slabs, r);
    MainStep(m, m', heads, slabs, carved, blocks, free, mainHeap, r);
    UnusedKeeps(m, m', slabs, mainHeap, r);
  }

  lemma ZeroedIs(m: Mem, lo: int, hi: int)
    ensures ZeroBytes(Zeroed(m, lo, hi), lo, hi) && OnlyIn(m, Zeroed(m, lo, hi), lo, hi)
  {
  }

  /** The main heap moves an allocation of `n` bytes or more from `was` to `r`, possibly in place. */
  lemma MainMove(m: Mem, heads: seq<nat>, slabs: seq<Slab>, carved: seq<nat>, blocks: Blocks, free: seq<seq<nat>>,
                 mainHeap: set<Slab>, was: nat, r: Slab, n: nat)
    requires Sound(m, heads, blocks, free) && Tiled(slabs, carved, blocks) && MainApart(mainHeap, slabs)
    requires Unused(r, slabs, Without(mainHeap, was)) && n <= r.size && r.size > 0
    ensures var m' := Copied(m, r.base, was, n);
      && Sound(m', heads, blocks, free) && MainApart(Without(mainHeap, was) + {r}, slabs)
      && Moved(m, m', r.base, was, n) && OnlyIn(m, m', r.base, r.base + r.size)
      && LiveSame(m, m', blocks, free)
      && KeepsMain(m, mainHeap, m', Without(mainHeap, was) + {r})
  {
    hide Sound, Tiled, MainApart, Unused, Copied, Moved, OnlyIn, Without;
    var m' := Copied(m, r.base, was, n);
    CopiedIs(m, r.base, was, n, r.size);
    MainGrowsWithout(mainHeap, slabs, was, r);
    MainStep(m, m', heads, slabs, carved, blocks, free, Without(mainHeap, was), r);
    UnusedKeeps(m, m', slabs, Without(mainHeap, was), r);
    MovedKeeps(m, m', mainHeap, was, r, n);
  }

  lemma MovedKeeps(m: Mem, m': Mem, mainHeap: set<Slab>, was: nat, r: Slab, n: nat)
    requires m' == Copied(m, r.base, was, n) && n <= r.size && r.size > 0
    requires KeepsMain(m, Without(mainHeap, was), m', Without(mainHeap, was) + {r})
    ensures KeepsMain(m, mainHeap, m', Without(mainHeap, was) + {r})
  {
    forall q, x | q in mainHeap && q in Without(mainHeap, was) + {r} && q.base <= x < q.base + q.size
      ensures m'(x) == m(x)
    {
      if q in Without(mainHeap, was) {
      } else {
        assert q == r && q.base == was;
        CopiedAt(m, was, was, n, x);
      }
    }
  }

  /** A change confined to one new block's bytes. */
  lemma CarveFrame(m: Mem, m': Mem, slabs: seq<Slab>, blocks: Blocks, free: seq<seq<nat>>, p: nat, t: nat, s: nat)
    requires |free| == BUCKETS && p !in blocks && Apart(blocks[p := t]) && OnlyIn(m, m', p - 16, p - 16 + t)
    requires s < |slabs| && Within(slabs[s], slabs[s].size, p, t)
    ensures LiveSame(m, m', blocks, free) && MainSame(m, m', slabs)
  {
    hide Bucket;
    forall q, x | IsLive(blocks, free, q) && Covers(q, blocks[q], x)
      ensures m'(x) == m(x)
    {
      assert q in blocks[p := t] && p in blocks[p := t];
    }
    forall x | p - 16 <= x < p - 16 + t
      ensures Contained(slabs, x)
    {
      assert slabs[s].base <= x < slabs[s].base + slabs[s].size;
    }
  }

  lemma MultipleOf16(k: nat)
    ensures 16 * k % 16 == 0
  {
  }

  lemma PageIsAligned(a: nat)
    requires a % 4096 == 0
    ensures a % 16 == 0
  {
    var k := a / 4096;
    assert a == 4096 * k == 16 * (256 * k);
    MultipleOf16(256 * k);
  }

  lemma SlabsGrow(slabs: seq<Slab>, slab: Slab)
    requires SlabsOk(slabs) && slab.base > 0 && slab.base % 16 == 0 && slab.base + slab.size <= TWO_63
    requires forall s :: 0 <= s < |slabs| ==> Disjoint(slabs[s], slab)
    ensures SlabsOk(slabs + [slab])
  {
    hide Disjoint;
  }

  lemma MainStaysApart(mainHeap: set<Slab>, slabs: seq<Slab>, slab: Slab)
    requires MainApart(mainHeap, slabs) && forall r :: r in mainHeap ==> Disjoint(r, slab)
    ensures MainApart(mainHeap, slabs + [slab])
  {
    hide Disjoint;
  }

  /** Everything about the slab tables still holds with a new, empty slab at the end. */
  lemma SlabAdded(slabs: seq<Slab>, carved: seq<nat>, mainHeap: set<Slab>, reply: Reply, size: nat)
    requires SlabsOk(slabs) && MainApart(mainHeap, slabs) && |carved| == |slabs|
    requires reply.slab != 0 && size >= SLAB && FreshSlab(reply, size, slabs, mainHeap)
    ensures SlabsOk(slabs + [Slab(reply.slab, size)]) && MainApart(mainHeap, slabs + [Slab(reply.slab, size)])
    ensures Cursor(slabs + [Slab(reply.slab, size)], carved + [0], |slabs|, 0)
  {
    hide Disjoint, SlabsOk, MainApart;
    PageIsAligned(reply.slab);
    SlabsGrow(slabs, Slab(reply.slab, size));
    MainStaysApart(mainHeap, slabs, Slab(reply.slab, size));
  }

  /** The memory after a block of `t` bytes is first handed out at address `base`. */
  function Carved(m: Mem, base: nat, t: nat): Mem {
    Write64(Write64(Zeroed(m, base, base + t), base, MAGIC), base + 8, t)
  }

  lemma CarvedMemory(m: Mem, heads: seq<nat>, blocks: Blocks, free: seq<seq<nat>>, p: nat, t: nat)
    requires Sound(m, heads, blocks, free) && p !in blocks && p >= 16 && 32 <= t < TWO_64
    requires Shaped(blocks[p := t]) && Apart(blocks[p := t])
    ensures var m' := Carved(m, p - 16, t);
      && OnlyIn(m, m', p - 16, p - 16 + t) && HandedOut(m', p, t)
      && Sound(m', heads, blocks[p := t], free) && IsLive(blocks[p := t], free, p)
  {
    FirstUse(m, p, t);
    hide Read64, Write64, OnlyIn, Apart, Shaped, IsLive, HandedOut;
    Carve(m, Carved(m, p - 16, t), heads, blocks, free, p, t);
  }

  lemma HandOutStep(m: Mem, heads: seq<nat>, slabs: seq<Slab>, carved: seq<nat>, blocks: Blocks,
                    free: seq<seq<nat>>, peak: nat -> nat, s: nat, t: nat)
    requires Sound(m, heads, blocks, free) && SlabsOk(slabs) && Tiled(slabs, carved, blocks) && SpaceLaw(peak, blocks)
    requires s < |slabs| == |carved| && t % 16 == 0 && t >= 32 && carved[s] + t <= slabs[s].size
    requires !HasFree(blocks, free, t)
    ensures var p := slabs[s].base + carved[s] + 16;
      var m', blocks' := Carved(m, p - 16, t), blocks[p := t];
      && p !in blocks && HandedOut(m', p, t) && IsLive(blocks', free, p)
      && Sound(m', heads, blocks', free) && Tiled(slabs, carved[s := carved[s] + t], blocks')
      && SpaceLaw(Peaked(peak, blocks', free), blocks')
      && LiveSame(m, m', blocks, free) && MainSame(m, m', slabs)
  {
    hide Read64, HandedOut, IsLive, OnlyIn, HasFree, Bucket, Peaked, SpaceLaw, Apart, LiveSame, MainSame, Carved;
    var p := slabs[s].base + carved[s] + 16;
    TileFresh(slabs, carved, blocks, s, t);
    TileCarve(slabs, carved, blocks, s, t);
    CarvedMemory(m, heads, blocks, free, p, t);
    CarveFrame(m, Carved(m, p - 16, t), slabs, blocks, free, p, t, s);
    CarvePeak(peak, blocks, free, p, t);
  }

  /** A change confined to blocks that are not live. */
  lemma FreeFrame(m: Mem, m': Mem, slabs: seq<Slab>, carved: seq<nat>, blocks: Blocks, free: seq<seq<nat>>,
                  q: nat, lo: int, hi: int)
    requires Shaped(blocks) && Apart(blocks) && Tiled(slabs, carved, blocks)
    requires |free| == BUCKETS && q in blocks && !IsLive(blocks, free, q)
    requires q - 16 <= lo && hi <= q - 16 + blocks[q] && OnlyIn(m, m', lo, hi)
    ensures LiveSame(m, m', blocks, free) && MainSame(m, m', slabs)
  {
    BlocksContained(slabs, carved, blocks, q);
    hide Tiled, Bucket, Contained;
  }

  /** The memory after a freed block has been handed out again. */
  function Reused(m: Mem, q: nat, t: nat): Mem {
    Zeroed(Write64(Write64(m, q - 16, MAGIC), q - 8, t), q, q - 16 + t)
  }

  lemma UnlinkIsLocal(m: Mem, l: seq<nat>, i: nat)
    requires i < |l|
    ensures i > 0 ==> OnlyIn(m, Unlinked(m, l, i), l[i - 1], l[i - 1] + 8)
  {
  }

  lemma TakeFrame(m: Mem, slabs: seq<Slab>, carved: seq<nat>, blocks: Blocks, free: seq<seq<nat>>, b: nat, i: nat)
    requires Shaped(blocks) && Apart(blocks) && Tiled(slabs, carved, blocks) && Listed(blocks, free)
    requires b < BUCKETS && i < |free[b]|
    ensures free[b][i] in blocks
    ensures var m1, q := Unlinked(m, free[b], i), free[b][i]; var m2 := Reused(m1, q, blocks[q]);
      LiveSame(m, m2, blocks, free) && MainSame(m, m2, slabs)
  {
    hide Read64, Bucket, Tiled, Unlinked, Reused, MainSame, HandedOut, Apart, OnlyIn;
    var l, q := free[b], free[b][i];
    assert q in blocks && IsFree(blocks, free, q);
    var m1 := Unlinked(m, l, i);
    var m2 := Reused(m1, q, blocks[q]);
    ReuseIsLocal(m1, q, blocks[q]);
    FreeFrame(m1, m2, slabs, carved, blocks, free, q, q - 16, q - 16 + blocks[q]);
    if i == 0 {
      assert m1 == m by { UnlinkFirst(m, l); }
    } else {
      assert l[i - 1] in blocks && IsFree(blocks, free, l[i - 1]);
      UnlinkIsLocal(m, l, i);
      FreeFrame(m, m1, slabs, carved, blocks, free, l[i - 1], l[i - 1], l[i - 1] + 8);
      MainChains(m, m1, m2, slabs);
    }
  }

  lemma UnlinkFirst(m: Mem, l: seq<nat>)
    requires l != []
    ensures Unlinked(m, l, 0) == m
  {
  }

  lemma MainChains(m: Mem, m1: Mem, m2: Mem, slabs: seq<Slab>)
    requires MainSame(m, m1, slabs) && MainSame(m1, m2, slabs)
    ensures MainSame(m, m2, slabs)
  {
  }

  lemma ReuseIsLocal(m: Mem, q: nat, t: nat)
    requires q >= 16 && 32 <= t < TWO_64
    ensures OnlyIn(m, Reused(m, q, t), q - 16, q - 16 + t) && HandedOut(Reused(m, q, t), q, t)
  {
    Recycle(m, q, t);
  }

  lemma TakeStep(m: Mem, heads: seq<nat>, slabs: seq<Slab>, carved: seq<nat>, blocks: Blocks,
                 free: seq<seq<nat>>, peak: nat -> nat, b: nat, i: nat)
    requires Sound(m, heads, blocks, free) && Tiled(slabs, carved, blocks) && SpaceLaw(peak, blocks)
    requires b < BUCKETS && i < |free[b]|
    ensures free[b][i] in blocks && IsFree(blocks, free, free[b][i])
    ensures var q, free' := free[b][i], Taken(free, b, i);
      var m2 := Reused(Unlinked(m, free[b], i), q, blocks[q]);
      && Sound(m2, UnlinkedHeads(heads, free[b], b, i), blocks, free') && HandedOut(m2, q, blocks[q])
      && (forall p :: IsLive(blocks, free', p) <==> p == q || IsLive(blocks, free, p))
      && SpaceLaw(Peaked(peak, blocks, free'), blocks)
      && LiveSame(m, m2, blocks, free) && MainSame(m, m2, slabs)
  {
    var q, free' := free[b][i], Taken(free, b, i);
    assert q in blocks && IsFree(blocks, free, q);
    TakeListed(blocks, free, b, i);
    hide Read64, Bucket, Tiled, Unlinked, Reused, LiveSame, MainSame, HandedOut, OnlyIn, Peaked, SpaceLaw, Taken, Apart;
    TakeFrame(m, slabs, carved, blocks, free, b, i);
    var m1 := Unlinked(m, free[b], i);
    ReuseIsLocal(m1, q, blocks[q]);
    Take(m, m1, Reused(m1, q, blocks[q]), heads, blocks, free, b, i);
    SamePeak(peak, blocks, free');
    forall p
      ensures IsLive(blocks, free', p) <==> p == q || IsLive(blocks, free, p)
    {
      if p in blocks { FreeOrLive(blocks, free, p); FreeOrLive(blocks, free', p); }
    }
  }

  /** The heads and links as the pointers that are read. */
  lemma ListPointers(m: Mem, heads: seq<nat>, blocks: Blocks, free: seq<seq<nat>>, b: nat, i: nat)
    requires Sound(m, heads, blocks, free) && b < BUCKETS && i < |free[b]|
    ensures var q := free[b][i];
      && q != 0 && q in blocks && 16 <= q && 32 <= blocks[q] < TWO_64 && blocks[q] % 16 == 0
      && Bucket(blocks[q]) == b
      && Read64(m, q - 8) == blocks[q] && Read64(m, q) == At(free[b], i + 1)
    ensures i == 0 ==> heads[b] == free[b][0]
  {
    hide Read64, Bucket;
  }

  lemma EmptyList(m: Mem, heads: seq<nat>, blocks: Blocks, free: seq<seq<nat>>, b: nat)
    requires Sound(m, heads, blocks, free) && b < BUCKETS
    ensures heads[b] == At(free[b], 0)
    ensures heads[b] == 0 <==> free[b] == []
  {
    hide Read64, Bucket;
    if free[b] != [] { ListPointers(m, heads, blocks, free, b, 0); }
  }

  /** When no block on the list of a size has that size, none is free. */
  lemma NoneFree(blocks: Blocks, free: seq<seq<nat>>, t: nat)
    requires |free| == BUCKETS
    requires forall j :: 0 <= j < |free[Bucket(t)]| ==> free[Bucket(t)][j] in blocks && blocks[free[Bucket(t)][j]] != t
    ensures !HasFree(blocks, free, t)
  {
    hide Bucket;
  }

  /** `p` is the first block of size `t` on list `b`, and has been taken off it. */
  ghost predicate FirstFit(blocks: Blocks, free: seq<seq<nat>>, free': seq<seq<nat>>, b: nat, p: nat, t: nat)
    requires |free| == BUCKETS && b < BUCKETS
  {
    exists i :: 0 <= i < |free[b]| && free[b][i] == p && free' == Taken(free, b, i)
      && forall j :: 0 <= j < i ==> free[b][j] in blocks && blocks[free[b][j]] != t
  }

  lemma LiveStaysLive(blocks: Blocks, free: seq<seq<nat>>, p: nat, t: nat)
    requires |free| == BUCKETS && p !in blocks
    ensures forall q :: IsLive(blocks, free, q) ==> IsLive(blocks[p := t], free, q)
    ensures forall q :: IsLive(blocks[p := t], free, q) ==> q == p || IsLive(blocks, free, q)
  {
    hide Bucket;
  }

  /** Two answers that may both be used in one call. */
  ghost predicate Replies(first: Reply, second: Reply, size: nat, slabs: seq<Slab>, mainHeap: set<Slab>) {
    && FreshSlab(first, SLAB, slabs, mainHeap) && FreshSlab(second, size, slabs, mainHeap)
    && (first.slab != 0 && second.slab != 0 ==> Disjoint(Slab(first.slab, SLAB), Slab(second.slab, size)))
  }

  lemma StillFresh(first: Reply, second: Reply, size: nat, slabs: seq<Slab>, slabs': seq<Slab>, mainHeap: set<Slab>)
    requires Replies(first, second, size, slabs, mainHeap)
    requires slabs' == slabs || (first.slab != 0 && slabs' == slabs + [Slab(first.slab, SLAB)])
    ensures FreshSlab(second, size, slabs', mainHeap)
  {
    hide Disjoint;
  }

  lemma CursorAt(slabs: seq<Slab>, carved: seq<nat>, curSlab: int, curOff: nat)
    requires |carved| == |slabs| && Cursor(slabs, carved, curSlab, curOff)
    ensures curSlab == |slabs| - 1
    ensures curSlab >= 0 ==> slabs[curSlab].size >= SLAB
    ensures curSlab >= 0 && curOff < SLAB ==> curOff == carved[curSlab]
  {
  }

  lemma MainGrows(mainHeap: set<Slab>, slabs: seq<Slab>, r: Slab)
    requires MainApart(mainHeap, slabs) && Unused(r, slabs, mainHeap)
    ensures MainApart(mainHeap + {r}, slabs)
  {
  }

  lemma LiveIsContained(slabs: seq<Slab>, carved: seq<nat>, m: Mem, heads: seq<nat>, blocks: Blocks,
                        free: seq<seq<nat>>, p: nat)
    requires Sound(m, heads, blocks, free) && Tiled(slabs, carved, blocks) && p in blocks
    ensures p >= 16 && Contained(slabs, p) && blocks[p] >= 32 && blocks[p] < TWO_64
    ensures forall x :: Covers(p, blocks[p], x) ==> Contained(slabs, x)
    ensures Read64(m, p - 16) == MAGIC <==> IsLive(blocks, free, p)
    ensures Read64(m, p - 8) == blocks[p]
  {
    hide Read64, Contained, Bucket, Tiled;
    BlocksContained(slabs, carved, blocks, p);
    assert Covers(p, blocks[p], p);
    FreeOrLive(blocks, free, p);
  }

  lemma TwoWrites(m: Mem, p: nat, v: nat)
    ensures OnlyIn(m, Write64(Write64(m, p - 16, 0), p, v), p - 16, p + 8)
  {
  }

  lemma FreeStep(m: Mem, heads: seq<nat>, slabs: seq<Slab>, carved: seq<nat>, blocks: Blocks,
                 free: seq<seq<nat>>, peak: nat -> nat, p: nat, b: nat)
    requires Sound(m, heads, blocks, free) && Tiled(slabs, carved, blocks) && SpaceLaw(peak, blocks)
    requires IsLive(blocks, free, p) && b == Bucket(blocks[p]) && |heads| == BUCKETS
    ensures p >= 16
    ensures var m', free' := Write64(Write64(m, p - 16, 0), p, heads[b]), Pushed(free, p, b);
      && Sound(m', heads[b := p], blocks, free')
      && (forall q :: IsLive(blocks, free', q) <==> q != p && IsLive(blocks, free, q))
      && SpaceLaw(Peaked(peak, blocks, free'), blocks)
      && LiveSame(m, m', blocks, free') && MainSame(m, m', slabs)
  {
    hide Read64, Write64, Bucket, Tiled, LiveSame, MainSame, Peaked, SpaceLaw, Pushed, Apart, OnlyIn, Linked, Headed;
    var m', free' := Write64(Write64(m, p - 16, 0), p, heads[b]), Pushed(free, p, b);
    LiveIsBlock(blocks, free, p);
    TwoWrites(m, p, heads[b]);
    Put(m, m', heads, blocks, free, p, b);
    hide IsFree, IsLive;
    PushListed(blocks, free, p);
    SamePeak(peak, blocks, free');
    forall q
      ensures IsLive(blocks, free', q) <==> q != p && IsLive(blocks, free, q)
    {
      LiveIsBlock(blocks, free, q); LiveIsBlock(blocks, free', q);
      if q in blocks { FreeOrLive(blocks, free, q); FreeOrLive(blocks, free', q); }
    }
    FreeFrame(m, m', slabs, carved, blocks, free', p, p - 16, p + 8);
  }

  /** A write inside a live block's payload. */
  lemma PayloadStep(m: Mem, m': Mem, heads: seq<nat>, slabs: seq<Slab>, carved: seq<nat>, blocks: Blocks,
                    free: seq<seq<nat>>, p: nat)
    requires Sound(m, heads, blocks, free) && Tiled(slabs, carved, blocks) && IsLive(blocks, free, p)
    requires OnlyIn(m, m', p, p - 16 + blocks[p])
    ensures Sound(m', heads, blocks, free) && MainSame(m, m', slabs)
    ensures forall q, x :: q in blocks && q != p && Covers(q, blocks[q], x) ==> m'(x) == m(x)
  {
    PayloadWrite(m, m', heads, blocks, free, p);
    LiveIsContained(slabs, carved, m, heads, blocks, free, p);
    hide Read64, Bucket, Tiled, Listed, Linked, Headed, Contained;
  }

  /** A write outside the arena. */
  lemma MainStep(m: Mem, m': Mem, heads: seq<nat>, slabs: seq<Slab>, carved: seq<nat>, blocks: Blocks,
                 free: seq<seq<nat>>, mainHeap: set<Slab>, r: Slab)
    requires Sound(m, heads, blocks, free) && Tiled(slabs, carved, blocks)
    requires Unused(r, slabs, mainHeap) && OnlyIn(m, m', r.base, r.base + r.size)
    ensures Sound(m', heads, blocks, free)
    ensures forall p, x :: p in blocks && Covers(p, blocks[p], x) ==> m'(x) == m(x)
  {
    forall p | p in blocks
      ensures r.base + r.size <= p - 16 || p - 16 + blocks[p] <= r.base
    {
      var s :| 0 <= s < |slabs| && Within(slabs[s], carved[s], p, blocks[p]);
      assert Disjoint(slabs[s], r);
    }
    hide Read64, Bucket, Tiled, Unused, Listed, Linked, Headed;
    OutsideWrite(m, m', heads, blocks, free, r.base, r.base + r.size);
  }

  lemma CursorMoves(slabs: seq<Slab>, carved: seq<nat>, curSlab: int, curOff: nat, t: nat, newOff: nat)
    requires slabs != [] && |carved| == |slabs| && newOff <= SLAB && curSlab == |slabs| - 1
    requires Cursor(slabs, carved, curSlab, curOff)
    requires newOff == carved[curSlab] + t || (newOff == SLAB && slabs[curSlab].size > SLAB)
    ensures Cursor(slabs, carved[curSlab := carved[curSlab] + t], curSlab, newOff)
  {
  }

  lemma TiledExtents(slabs: seq<Slab>, carved: seq<nat>, blocks: Blocks)
    requires Tiled(slabs, carved, blocks)
    ensures |carved| == |slabs|
  {
  }

  lemma NothingChanged(m: Mem, slabs: seq<Slab>, blocks: Blocks, free: seq<seq<nat>>)
    requires |free| == BUCKETS
    ensures LiveSame(m, m, blocks, free) && MainSame(m, m, slabs)
  {
  }

  lemma LiveIsBlock(blocks: Blocks, free: seq<seq<nat>>, p: nat)
    requires |free| == BUCKETS
    ensures IsLive(blocks, free, p) ==> p in blocks
  {
  }

  lemma MainDrops(mainHeap: set<Slab>, slabs: seq<Slab>, p: nat)
    requires MainApart(mainHeap, slabs)
    ensures MainApart(Without(mainHeap, p), slabs)
  {
  }

  lemma MovedBytes(m: Mem, m': Mem, p: int, was: int, mainSize: nat, newSize: int, n: nat)
    requires Moved(m, m', p, was, n)
    requires n == if was == 0 then 0 else if mainSize < newSize then mainSize else newSize
    ensures forall x :: was != 0 && 0 <= x - p < mainSize && x - p < newSize ==> m'(x) == m(was + (x - p))
  {
  }

  lemma MovedThenZero(m: Mem, m': Mem, p: int, was: int, oldSize: int, newSize: int, n: nat, hi: int)
    requires Moved(m, m', p, was, n) && ZeroBytes(m', p + n, hi) && newSize > 0
    requires n == if was == 0 || oldSize <= 0 then 0 else if oldSize < newSize then oldSize else newSize
    ensures forall x :: p <= x < hi ==>
      m'(x) == if was != 0 && x - p < oldSize && x - p < newSize then m(was + (x - p)) else 0
  {
  }

  lemma NoSlabs(p: int)
    ensures !Contained([], p)
  {
  }

  lemma MainGrowsWithout(mainHeap: set<Slab>, slabs: seq<Slab>, was: nat, r: Slab)
    requires MainApart(mainHeap, slabs) && Unused(r, slabs, Without(mainHeap, was))
    ensures MainApart(Without(mainHeap, was) + {r}, slabs)
  {
    MainDrops(mainHeap, slabs, was);
    MainGrows(Without(mainHeap, was), slabs, r);
  }

  /** Copying the old contents over a newly handed out block. */
  lemma ReallocStep(m: Mem, m1: Mem, m2: Mem, heads: seq<nat>, slabs: seq<Slab>, carved: seq<nat>, blocks: Blocks,
                    blocks': Blocks, free: seq<seq<nat>>, free': seq<seq<nat>>, p: nat, was: nat, n: nat)
    requires Sound(m1, heads, blocks', free') && Tiled(slabs, carved, blocks') && |free| == BUCKETS
    requires p in blocks' && HandedOut(m1, p, blocks'[p]) && IsLive(blocks', free', p) && n + 16 <= blocks'[p]
    requires forall q :: IsLive(blocks', free', q) <==> q == p || IsLive(blocks, free, q)
    requires !IsLive(blocks, free, p) && blocks' == blocks[p := blocks'[p]]
    requires LiveSame(m, m1, blocks, free) && MainSame(m, m1, slabs)
    requires n > 0 ==> IsLive(blocks, free, was) && n + 16 <= blocks[was]
    requires m2 == if n > 0 then Copied(m1, p, was, n) else m1
    ensures Sound(m2, heads, blocks', free')
    ensures Moved(m, m2, p, was, n) && ZeroBytes(m2, p + n, p - 16 + blocks'[p])
    ensures LiveSame(m, m2, blocks, free) && MainSame(m, m2, slabs)
  {
    hide Read64, Bucket, Tiled, Sound, IsLive, LiveSame, MainSame, Moved, ZeroBytes, OnlyIn;
    LiveIsBlock(blocks, free, was);
    CopyMoves(m, m1, m2, p, was, n, p - 16 + blocks'[p], blocks, free);
    if n > 0 {
      PayloadStep(m1, m2, heads, slabs, carved, blocks', free', p);
      LiveChains(m, m1, m2, blocks, free, blocks', p);
      MainChains(m, m1, m2, slabs);
    }
  }

  lemma CopyMoves(m: Mem, m1: Mem, m2: Mem, p: nat, was: nat, n: nat, hi: nat, blocks: Blocks, free: seq<seq<nat>>)
    requires |free| == BUCKETS && p + n <= hi && (forall x :: p <= x < hi ==> m1(x) == 0)
    requires LiveSame(m, m1, blocks, free)
    requires n > 0 ==> IsLive(blocks, free, was) && was in blocks && n + 16 <= blocks[was]
    requires m2 == if n > 0 then Copied(m1, p, was, n) else m1
    ensures Moved(m, m2, p, was, n) && ZeroBytes(m2, p + n, hi) && OnlyIn(m1, m2, p, hi)
  {
    hide IsLive;
    forall x | was <= x < was + n
      ensures m1(x) == m(x)
    {
      assert Covers(was, blocks[was], x);
    }
  }

  lemma LiveChains(m: Mem, m1: Mem, m2: Mem, blocks: Blocks, free: seq<seq<nat>>, blocks': Blocks, p: nat)
    requires |free| == BUCKETS && LiveSame(m, m1, blocks, free) && !IsLive(blocks, free, p)
    requires p in blocks' && blocks' == blocks[p := blocks'[p]]
    requires forall q, x :: q in blocks' && q != p && Covers(q, blocks'[q], x) ==> m2(x) == m1(x)
    ensures LiveSame(m, m2, blocks, free)
  {
    hide Bucket;
    forall q, x | IsLive(blocks, free, q) && Covers(q, blocks[q], x)
      ensures m2(x) == m(x)
    {
      assert q in blocks' && q != p && blocks'[q] == blocks[q];
    }
  }

  lemma CopyStep(m: Mem, heads: seq<nat>, slabs: seq<Slab>, carved: seq<nat>, blocks: Blocks, free: seq<seq<nat>>,
                 mainHeap: set<Slab>, r: Slab, src: nat, n: nat)
    requires Sound(m, heads, blocks, free) && Tiled(slabs, carved, blocks) && MainApart(mainHeap, slabs)
    requires Unused(r, slabs, mainHeap) && n <= r.size && r.size > 0
    ensures Sound(Copied(m, r.base, src, n), heads, blocks, free)
    ensures MainApart(mainHeap + {r}, slabs) && !Contained(slabs, r.base)
    ensures Moved(m, Copied(m, r.base, src, n), r.base, src, n)
    ensures OnlyIn(m, Copied(m, r.base, src, n), r.base, r.base + n)
  {
    hide Sound, Tiled, MainApart, Unused, Copied, Contained, Moved, OnlyIn;
    CopiedIs(m, r.base, src, n, r.size);
    MainGrows(mainHeap, slabs, r);
    NotContained(r, slabs, mainHeap);
    MainStep(m, Copied(m, r.base, src, n), heads, slabs, carved, blocks, free, mainHeap, r);
  }

  lemma CopiedIs(m: Mem, dst: nat, src: nat, n: nat, size: nat)
    requires n <= size
    ensures Moved(m, Copied(m, dst, src, n), dst, src, n)
    ensures OnlyIn(m, Copied(m, dst, src, n), dst, dst + n) && OnlyIn(m, Copied(m, dst, src, n), dst, dst + size)
  {
    hide Moved, OnlyIn;
    CopiedMoves(m, dst, src, n);
    CopiedStays(m, dst, src, n, n);
    CopiedStays(m, dst, src, n, size);
  }

  lemma CopiedMoves(m: Mem, dst: nat, src: nat, n: nat)
    ensures Moved(m, Copied(m, dst, src, n), dst, src, n)
  {
    forall x | dst <= x < dst + n
      ensures Copied(m, dst, src, n)(x) == m(src + (x - dst))
    {
      CopiedAt(m, dst, src, n, x);
    }
    hide Copied;
  }

  lemma CopiedAt(m: Mem, dst: int, src: int, n: nat, x: int)
    ensures Copied(m, dst, src, n)(x) == if dst <= x < dst + n then m(src + (x - dst)) else m(x)
  {
  }

  lemma CopiedStays(m: Mem, dst: nat, src: nat, n: nat, size: nat)
    requires n <= size
    ensures OnlyIn(m, Copied(m, dst, src, n), dst, dst + size)
  {
  }

  lemma NotContained(r: Slab, slabs: seq<Slab>, mainHeap: set<Slab>)
    requires Unused(r, slabs, mainHeap) && r.size > 0
    ensures !Contained(slabs, r.base)
  {
  }

  lemma UnmapStep(m: Mem, m1: Mem, m2: Mem, slabs: seq<Slab>, i: nat)
    requires MainSame(m, m1, slabs) && i < |slabs|
    requires forall x :: !(slabs[i].base <= x < slabs[i].base + slabs[i].size) ==> m2(x) == m1(x)
    ensures MainSame(m, m2, slabs)
  {
  }

  lemma EmptyArena(m: Mem, heads: seq<nat>, mainHeap: set<Slab>, peak: nat -> nat)
    requires |heads| == BUCKETS && (forall b :: 0 <= b < BUCKETS ==> heads[b] == 0) && (forall t :: peak(t) == 0)
    ensures Sound(m, heads, map[], NoLists()) && SlabsOk([]) && Tiled([], [], map[])
    ensures Cursor([], [], -1, 0) && SpaceLaw(peak, map[]) && MainApart(mainHeap, [])
  {
    hide Read64;
  }
}
