/**
 * The guard arena: nested unsafe blocks share one bump allocator over slabs, with size-bucketed
 * free lists. The operating system's answers are parameters.
 */
module GuardArena {
  import opened GuardMemory
  import opened GuardHeap
  import opened GuardSlabs
  import opened GuardSteps
  import opened Words

  class Arena {
    var slabs: seq<Slab>
    var slabCap: nat
    var curSlab: int
    var curOff: nat
    var active: nat
    const freeLists: array<nat>
    var mem: Mem
    ghost var blocks: Blocks
    ghost var free: seq<seq<nat>>
    ghost var carved: seq<nat>
    ghost var peak: nat -> nat
    ghost var orphans: set<nat>
    ghost var mainHeap: set<Slab>

    ghost predicate Valid()
      reads this, freeLists
    {
      && freeLists.Length == |free| == BUCKETS
      && Sound(mem, freeLists[..], blocks, free)
      && SlabsOk(slabs) && Tiled(slabs, carved, blocks)
      && Cursor(slabs, carved, curSlab, curOff)
      && (active == 0 ==> slabs == [])
      && SpaceLaw(peak, blocks)
      && (forall p :: p in orphans ==> IsLive(blocks, free, p))
      && MainApart(mainHeap, slabs)
    }

    constructor (m: Mem)
      ensures Valid() && fresh(freeLists) && active == 0 && mainHeap == {} && mem == m
    {
      hide Read64;
      slabs, slabCap, curSlab, curOff, active := [], 0, -1, 0, 0;
      freeLists := new nat[BUCKETS](i => 0);
      mem, blocks, free, carved := m, map[], NoLists(), [];
      peak, orphans, mainHeap := u => 0, {}, {};
    }

    method Enter()
      requires Valid()
      modifies this`active
      ensures Valid() && active == old(active) + 1
    {
      active := active + 1;
    }

    /** Pushes a new slab when the tables can grow and the system has memory. */
    method AddSlab(reply: Reply, size: nat) returns (ok: bool)
      requires Valid() && active > 0 && size >= SLAB && FreshSlab(reply, size, slabs, mainHeap)
      modifies this`slabs, this`slabCap, this`curSlab, this`curOff, this`carved
      ensures Valid()
      ensures ok <==> reply.slab != 0 && (|old(slabs)| < old(slabCap) || (reply.growSlabs && reply.growSizes))
      ensures ok ==> slabs == old(slabs) + [Slab(reply.slab, size)] && carved == old(carved) + [0] && curOff == 0
      ensures !ok ==> slabs == old(slabs) && carved == old(carved) && curOff == old(curOff) && curSlab == old(curSlab)
    {
      hide Sound, Tiled, SpaceLaw, IsLive, SlabsOk, MainApart, Cursor, FreshSlab;
      if |slabs| >= slabCap {
        var newCap := if slabCap == 0 then 8 else slabCap * 2;
        if !reply.growSlabs || !reply.growSizes { return false; }
        slabCap := newCap;
      }
      if reply.slab == 0 { return false; }
      TiledExtents(slabs, carved, blocks);
      TileSlab(slabs, carved, blocks, Slab(reply.slab, size));
      SlabAdded(slabs, carved, mainHeap, reply, size);
      slabs := slabs + [Slab(reply.slab, size)];
      carved := carved + [0];
      curSlab := |slabs| - 1;
      curOff := 0;
      ok := true;
    }

    /** Makes sure the current slab has room left, if the system allows. */
    method EnsureSlab(reply: Reply)
      requires Valid() && active > 0 && FreshSlab(reply, SLAB, slabs, mainHeap)
      modifies this`slabs, this`slabCap, this`curSlab, this`curOff, this`carved
      ensures Valid()
      ensures
        var needed := !(old(curSlab) >= 0 && old(curOff) < SLAB);
        var granted := reply.slab != 0 && (|old(slabs)| < old(slabCap) || (reply.growSlabs && reply.growSizes));
        if needed && granted then
          slabs == old(slabs) + [Slab(reply.slab, SLAB)] && carved == old(carved) + [0] && curOff == 0
        else
          slabs == old(slabs) && carved == old(carved) && curOff == old(curOff) && curSlab == old(curSlab)
    {
      if curSlab >= 0 && curOff < SLAB { return; }
      var _ := AddSlab(reply, SLAB);
    }

    /** Hands out `t` bytes of the current slab from `off`, where its carved part ends. */
    method HandOut(off: nat, t: nat, newOff: nat) returns (p: nat)
      requires Valid() && curSlab >= 0 && t % 16 == 0 && t >= 32 && !HasFree(blocks, free, t)
      requires |carved| == |slabs| && curSlab == |slabs| - 1
      requires off == carved[curSlab] && off + t <= slabs[curSlab].size && newOff <= SLAB
      requires newOff == off + t || (newOff == SLAB && slabs[curSlab].size > SLAB)
      modifies this`mem, this`curOff, this`blocks, this`carved, this`peak
      ensures Valid() && p >= 16 && p !in old(blocks) && blocks == old(blocks)[p := t]
      ensures p == slabs[curSlab].base + off + 16 && curOff == newOff
      ensures IsLive(blocks, free, p) && HandedOut(mem, p, t) && PeakStep(old(peak), peak, blocks, free)
      ensures LiveSame(old(mem), mem, old(blocks), free) && MainSame(old(mem), mem, slabs)
      ensures forall q :: IsLive(blocks, free, q) <==> q == p || IsLive(old(blocks), free, q)
    {
      hide Sound, Tiled, SlabsOk, MainApart, Cursor, SpaceLaw, Carved, HandedOut, IsLive, HasFree, Peaked;
      hide LiveSame, MainSame;
      var base := slabs[curSlab].base + off;
      p := base + 16;
      HandOutStep(mem, freeLists[..], slabs, carved, blocks, free, peak, curSlab, t);
      LiveStaysLive(blocks, free, p, t);
      CursorMoves(slabs, carved, curSlab, curOff, t, newOff);
      mem := Carved(mem, base, t);
      curOff := newOff;
      carved := carved[curSlab := carved[curSlab] + t];
      blocks := blocks[p := t];
      PeakedSteps(peak, blocks, free);
      peak := Peaked(peak, blocks, free);
    }

    /** Unlinks the free block `p` behind `link`, null for the list head, and hands it out again. */
    method Reuse(b: nat, link: nat, p: nat, t: nat, ghost i: nat)
      requires Valid() && b < BUCKETS && i < |free[b]| && p == free[b][i] && p in blocks && t == blocks[p]
      requires p >= 16 && link == if i == 0 then 0 else free[b][i - 1]
      requires (i == 0 <==> link == 0) && Read64(mem, p) == At(free[b], i + 1)
      modifies this`mem, this`free, this`peak, freeLists
      ensures Valid() && IsFree(blocks, old(free), p) && HandedOut(mem, p, t)
      ensures PeakStep(old(peak), peak, blocks, free) && free == Taken(old(free), b, i)
      ensures forall q :: IsLive(blocks, free, q) <==> q == p || IsLive(blocks, old(free), q)
      ensures LiveSame(old(mem), mem, blocks, old(free)) && MainSame(old(mem), mem, slabs)
    {
      hide Sound, Tiled, SlabsOk, MainApart, Cursor, SpaceLaw, HandedOut, IsLive, IsFree, Peaked, LiveSame, MainSame;
      hide Read64, Write64, Zeroed;
      ghost var heads := freeLists[..];
      TakeStep(mem, freeLists[..], slabs, carved, blocks, free, peak, b, i);
      var next := Read64(mem, p);
      if link == 0 {
        freeLists[b] := next;
      } else {
        mem := Write64(mem, link, next);
      }
      assert freeLists[..] == UnlinkedHeads(heads, free[b], b, i);
      mem := Write64(mem, p - 16, MAGIC);
      mem := Write64(mem, p - 8, t);
      mem := Zeroed(mem, p, p - 16 + t);
      free := Taken(free, b, i);
      PeakedSteps(peak, blocks, free);
      peak := Peaked(peak, blocks, free);
    }

    /** Recycles a freed block of exactly `t` bytes; null exactly when there is none. */
    method TakeFree(t: nat) returns (p: nat)
      requires Valid() && t % 16 == 0 && 32 <= t < TWO_64
      modifies this`mem, this`free, this`peak, freeLists
      ensures Valid() && (p != 0 <==> HasFree(blocks, old(free), t))
      ensures p == 0 ==> mem == old(mem) && free == old(free)
      ensures PeakStep(old(peak), peak, blocks, free)
      ensures p != 0 ==> FirstFit(blocks, old(free), free, Bucket(t), p, t)
      ensures p != 0 ==> p in blocks && blocks[p] == t && IsFree(blocks, old(free), p) && HandedOut(mem, p, t)
      ensures p != 0 ==> forall q :: IsLive(blocks, free, q) <==> q == p || IsLive(blocks, old(free), q)
      ensures LiveSame(old(mem), mem, blocks, old(free)) && MainSame(old(mem), mem, slabs)
    {
      hide Sound, Tiled, SlabsOk, MainApart, Cursor, SpaceLaw, HandedOut, IsLive, Peaked, PeakStep, Read64;
      PeakIdle(peak, blocks, free);
      var b := Bucket(t);
      EmptyList(mem, freeLists[..], blocks, free, b);
      p := freeLists[b];
      if b < BUCKETS - 1 {
        if p == 0 {
          NoneFree(blocks, free, t);
          return;
        }
        ListPointers(mem, freeLists[..], blocks, free, b, 0);
        Reuse(b, 0, p, t, 0);
        return;
      }
      var link := 0;
      ghost var i, heads := 0, freeLists[..];
      if p != 0 { ListPointers(mem, heads, blocks, free, b, 0); }
      while p != 0 && Read64(mem, p - 8) != t
        invariant i <= |free[b]| && p == At(free[b], i) && (p == 0 <==> i == |free[b]|)
        invariant link == (if i == 0 then 0 else free[b][i - 1]) && (i == 0 <==> link == 0)
        invariant forall j :: 0 <= j < i ==> free[b][j] in blocks && blocks[free[b][j]] != t
        decreases |free[b]| - i
        modifies {}
      {
        ListPointers(mem, heads, blocks, free, b, i);
        link := p;
        p := Read64(mem, p);
        i := i + 1;
        if i < |free[b]| { ListPointers(mem, heads, blocks, free, b, i); }
      }
      if p != 0 {
        ListPointers(mem, heads, blocks, free, b, i);
        Reuse(b, link, p, t, i);
        return;
      }
      NoneFree(blocks, free, t);
    }

    /** Carves a new block of `t` bytes, from a new slab when the current one has no room for it. */
    method CarveNew(t: nat, first: Reply, second: Reply) returns (p: nat)
      requires Valid() && active > 0 && t % 16 == 0 && 32 <= t < TWO_64 && !HasFree(blocks, free, t)
      requires Replies(first, second, Max(t, SLAB), slabs, mainHeap)
      modifies this`slabs, this`slabCap, this`curSlab, this`curOff, this`carved, this`mem, this`blocks, this`peak
      ensures Valid()
      ensures p == 0 ==> mem == old(mem) && blocks == old(blocks)
      ensures PeakStep(old(peak), peak, blocks, free)
      ensures p == 0 ==> second.slab == 0 || !second.growSlabs || !second.growSizes
      ensures old(slabs) <= slabs
      ensures old(curSlab) >= 0 && old(curOff) + t <= SLAB ==> p != 0 && slabs == old(slabs)
      ensures p != 0 ==> p !in old(blocks) && blocks == old(blocks)[p := t] && HandedOut(mem, p, t)
      ensures p != 0 ==> forall q :: IsLive(blocks, free, q) <==> q == p || IsLive(old(blocks), free, q)
      ensures LiveSame(old(mem), mem, old(blocks), free) && MainSame(old(mem), mem, slabs)
    {
      hide Sound, SlabsOk, MainApart, Cursor, SpaceLaw, HandedOut, IsLive, HasFree, FreshSlab, Disjoint, Tiled;
      hide PeakStep;
      PeakIdle(peak, blocks, free);
      EnsureSlab(first);
      StillFresh(first, second, Max(t, SLAB), old(slabs), slabs, mainHeap);
      TiledExtents(slabs, carved, blocks);
      CursorAt(slabs, carved, curSlab, curOff);
      if curSlab < 0 || curOff + t > SLAB {
        var need := if t > SLAB then t else SLAB;
        var ok := AddSlab(second, need);
        if !ok { return 0; }
        CursorAt(slabs, carved, curSlab, curOff);
        if t > SLAB {
          p := HandOut(0, t, SLAB);
          return;
        }
      }
      CursorAt(slabs, carved, curSlab, curOff);
      p := HandOut(curOff, t, curOff + t);
    }

    /** The plain allocator: `size` zeroed bytes of the main heap; `reply` is the main heap's answer. */
    method MainAlloc(size: int, reply: nat) returns (p: nat)
      requires Valid()
      requires size > 0 && reply != 0 ==> Unused(Slab(reply, size), slabs, mainHeap)
      modifies this`mem, this`mainHeap
      ensures Valid() && p == if size <= 0 then 0 else reply
      ensures p == 0 ==> mem == old(mem) && mainHeap == old(mainHeap)
      ensures p != 0 ==>
        && ZeroBytes(mem, p, p + size) && OnlyIn(old(mem), mem, p, p + size)
        && mainHeap == old(mainHeap) + {Slab(p, size)}
      ensures LiveSame(old(mem), mem, blocks, free) && KeepsMain(old(mem), old(mainHeap), mem, mainHeap)
    {
      hide Sound, SlabsOk, MainApart, Cursor, SpaceLaw, IsLive, Tiled, Unused, LiveSame, KeepsMain, ZeroBytes, OnlyIn;
      hide Zeroed;
      NothingChanged(mem, slabs, blocks, free);
      NothingMoved(mem);
      if size <= 0 { return 0; }
      p := reply;
      if p == 0 { return; }
      MainZero(mem, freeLists[..], slabs, carved, blocks, free, mainHeap, Slab(p, size));
      mem := Zeroed(mem, p, p + size);
      mainHeap := mainHeap + {Slab(p, size)};
    }

    /**
     * Allocates `size` zeroed bytes: from the main heap outside unsafe blocks; otherwise a freed
     * block of the rounded size when there is one, and only then a new one.
     */
    method Alloc(size: int, first: Reply, second: Reply, fallback: nat) returns (p: nat)
      requires Valid()
      requires size > 0 ==> Replies(first, second, Max(Rounded(size), SLAB), slabs, mainHeap)
      requires size > 0 && fallback != 0 ==> Unused(Slab(fallback, size), slabs, mainHeap)
      modifies this, freeLists
      ensures Valid() && active == old(active) && orphans == old(orphans)
      ensures PeakStep(old(peak), peak, blocks, free)
      ensures size <= 0 || size > LLONG_MAX - 31 ==> p == 0 && mainHeap == old(mainHeap)
      ensures 0 < size <= LLONG_MAX - 31 && active == 0 ==> p == fallback
      ensures active > 0 ==> mainHeap == old(mainHeap)
      ensures p == 0 ==> mem == old(mem)
      ensures p != 0 ==> ZeroBytes(mem, p, p + size)
      ensures active == 0 || p == 0 ==> blocks == old(blocks) && free == old(free)
      ensures active > 0 && p == 0 && 0 < size <= LLONG_MAX - 31 ==>
        !HasFree(blocks, free, Rounded(size)) && (second.slab == 0 || !second.growSlabs || !second.growSizes)
      ensures active > 0 && p != 0 ==>
        && blocks == old(blocks)[p := Rounded(size)] && HandedOut(mem, p, Rounded(size))
        && (p in old(blocks) <==> HasFree(old(blocks), old(free), Rounded(size)))
        && (HasFree(old(blocks), old(free), Rounded(size)) ==>
              blocks == old(blocks) && FirstFit(blocks, old(free), free, Bucket(Rounded(size)), p, Rounded(size)))
        && !IsLive(old(blocks), old(free), p)
        && (forall q :: IsLive(blocks, free, q) <==> q == p || IsLive(old(blocks), old(free), q))
      ensures old(slabs) <= slabs
      ensures 0 < size <= LLONG_MAX - 31 && active > 0 && HasFree(old(blocks), old(free), Rounded(size)) ==>
        p != 0 && slabs == old(slabs)
      ensures 0 < size <= LLONG_MAX - 31 && active > 0 && old(curSlab) >= 0 && old(curOff) + Rounded(size) <= SLAB ==>
        p != 0 && slabs == old(slabs)
      ensures LiveSame(old(mem), mem, old(blocks), old(free)) && (active > 0 ==> MainSame(old(mem), mem, slabs))
      ensures active == 0 && p != 0 ==>
        OnlyIn(old(mem), mem, p, p + size) && mainHeap == old(mainHeap) + {Slab(p, size)} && slabs == old(slabs)
      ensures active == 0 && p == 0 ==> mainHeap == old(mainHeap)
      ensures KeepsMain(old(mem), old(mainHeap), mem, mainHeap)
    {
      hide Sound, SlabsOk, MainApart, Cursor, SpaceLaw, HandedOut, IsLive, HasFree, FreshSlab, Disjoint, Tiled, Replies;
      hide LiveSame, MainSame, PeakStep, KeepsMain, ZeroBytes, OnlyIn, Unused, FirstFit;
      NothingChanged(mem, slabs, blocks, free);
      NothingMoved(mem);
      PeakIdle(peak, blocks, free);
      if size <= 0 { return 0; }
      if size > LLONG_MAX - 31 { return 0; }
      if active == 0 {
        p := MainAlloc(size, fallback);
        return;
      }
      var t := Rounded(size);
      p := TakeFree(t);
      if p != 0 {
        FreeOrLive(blocks, old(free), p);
        HandedOutZero(mem, p, t, size);
        MainSameKeeps(old(mem), mem, slabs, old(mainHeap), mainHeap);
        return;
      }
      PeakSame(old(peak), peak, blocks, free);
      ghost var between := peak;
      p := CarveNew(t, first, second);
      PeakAgain(old(peak), between, peak, blocks, free);
      LiveIsBlock(old(blocks), old(free), p);
      if p != 0 { HandedOutZero(mem, p, t, size); }
      MainSameKeeps(old(mem), mem, slabs, old(mainHeap), mainHeap);
    }

    /** Whether an address lies in one of the slabs. */
    method Contains(p: nat) returns (r: bool)
      ensures r <==> p != 0 && Contained(slabs, p)
    {
      if p == 0 || |slabs| == 0 { return false; }
      for i := 0 to |slabs|
        invariant forall s :: 0 <= s < i ==> !(slabs[s].base <= p < slabs[s].base + slabs[s].size)
      {
        if slabs[i].base <= p < slabs[i].base + slabs[i].size { return true; }
      }
      r := false;
    }

    /**
     * Frees a live block, so that the next allocation of its size reuses it. Freeing a block twice
     * changes nothing, and neither does an arena address that follows no live header; any other
     * address belongs to the main heap.
     */
    method Free(p: nat)
      requires Valid()
      requires Contained(slabs, p) ==> p in blocks || Read64(mem, p - 16) != MAGIC
      modifies this`mem, this`free, this`peak, this`orphans, this`mainHeap, freeLists
      ensures Valid() && PeakStep(old(peak), peak, blocks, free)
      ensures !IsLive(blocks, old(free), p) ==> mem == old(mem) && free == old(free) && orphans == old(orphans)
      ensures IsLive(blocks, old(free), p) ==>
        && (forall q :: IsLive(blocks, free, q) <==> q != p && IsLive(blocks, old(free), q))
        && free == Pushed(old(free), p, Bucket(blocks[p]))
        && orphans == old(orphans) - {p} && mainHeap == old(mainHeap)
      ensures mainHeap == if p == 0 || Contained(slabs, p) then old(mainHeap) else Without(old(mainHeap), p)
      ensures LiveSame(old(mem), mem, blocks, free) && MainSame(old(mem), mem, slabs)
      ensures KeepsMain(old(mem), old(mainHeap), mem, mainHeap)
    {
      hide Sound, SlabsOk, MainApart, Cursor, SpaceLaw, IsLive, Tiled, LiveSame, MainSame, Contained, Read64, Peaked;
      hide PeakStep, KeepsMain;
      NothingChanged(mem, slabs, blocks, free);
      NothingMoved(mem);
      PeakIdle(peak, blocks, free);
      if p in blocks { LiveIsContained(slabs, carved, mem, freeLists[..], blocks, free, p); }
      LiveIsBlock(blocks, free, p);
      if p == 0 { return; }
      var inside := Contains(p);
      if !inside {
        MainDrops(mainHeap, slabs, p);
        mainHeap := Without(mainHeap, p);
        return;
      }
      if Read64(mem, p - 16) != MAGIC { return; }
      var t := Read64(mem, p - 8);
      var b := Bucket(t);
      FreeStep(mem, freeLists[..], slabs, carved, blocks, free, peak, p, b);
      ghost var heads := freeLists[..];
      mem := Write64(mem, p - 16, 0);
      mem := Write64(mem, p, freeLists[b]);
      freeLists[b] := p;
      assert freeLists[..] == heads[b := p];
      free := Pushed(free, p, b);
      PeakedSteps(peak, blocks, free);
      peak := Peaked(peak, blocks, free);
      orphans := orphans - {p};
      MainSameKeeps(old(mem), mem, slabs, old(mainHeap), mainHeap);
    }

    /** The program stores one byte in a live block. */
    method Store(p: nat, k: nat, v: Byte)
      requires Valid() && IsLive(blocks, free, p) && k + 16 < blocks[p]
      modifies this`mem
      ensures Valid() && mem(p + k) == v
      ensures KeepsMain(old(mem), old(mainHeap), mem, mainHeap)
      ensures forall q, x :: q in blocks && Covers(q, blocks[q], x) && x != p + k ==> mem(x) == old(mem)(x)
    {
      hide Sound, SlabsOk, MainApart, Cursor, SpaceLaw, Tiled, MainSame, KeepsMain;
      var m := mem;
      var m' := (x: int) => if x == p + k then v else m(x);
      PayloadStep(m, m', freeLists[..], slabs, carved, blocks, free, p);
      MainSameKeeps(m, m', slabs, mainHeap, mainHeap);
      mem := m';
    }

    /**
     * The C library's reallocation of a main-heap allocation of `mainSize` bytes at `was`, possibly in
     * place: what fits is carried over. `reply` is its answer.
     */
    method MainRealloc(was: nat, mainSize: nat, newSize: int, reply: nat) returns (p: nat)
      requires Valid() && newSize > 0 && (was != 0 ==> Slab(was, mainSize) in mainHeap)
      requires reply != 0 ==> Unused(Slab(reply, newSize), slabs, Without(mainHeap, was))
      modifies this`mem, this`mainHeap
      ensures Valid() && p == reply
      ensures p == 0 ==> mem == old(mem) && mainHeap == old(mainHeap)
      ensures p != 0 ==>
        && mainHeap == Without(old(mainHeap), was) + {Slab(p, newSize)}
        && OnlyIn(old(mem), mem, p, p + newSize)
        && forall x :: was != 0 && 0 <= x - p < mainSize && x - p < newSize ==> mem(x) == old(mem)(was + (x - p))
      ensures LiveSame(old(mem), mem, blocks, free) && KeepsMain(old(mem), old(mainHeap), mem, mainHeap)
    {
      hide Sound, SlabsOk, MainApart, Cursor, SpaceLaw, IsLive, Tiled, Unused, LiveSame, KeepsMain, OnlyIn, Copied;
      hide Without, Moved;
      NothingChanged(mem, slabs, blocks, free);
      NothingMoved(mem);
      p := reply;
      if p == 0 { return; }
      var n := if was == 0 then 0 else if mainSize < newSize then mainSize else newSize;
      MainMove(mem, freeLists[..], slabs, carved, blocks, free, mainHeap, was, Slab(p, newSize), n);
      mem := Copied(mem, p, was, n);
      mainHeap := Without(mainHeap, was) + {Slab(p, newSize)};
      MovedBytes(old(mem), mem, p, was, mainSize, newSize, n);
    }

    /** Copies an arena block, if any, to a new one and orphans it: it stays live in the books. */
    method MoveBlock(was: nat, oldSize: int, newSize: int, first: Reply, second: Reply) returns (p: nat)
      requires Valid() && newSize > 0 && active > 0
      requires was != 0 ==> IsLive(blocks, free, was) && oldSize + 16 <= blocks[was]
      requires Replies(first, second, Max(Rounded(newSize), SLAB), slabs, mainHeap)
      modifies this, freeLists
      ensures Valid() && active == old(active) && PeakStep(old(peak), peak, blocks, free) && mainHeap == old(mainHeap)
      ensures p == 0 ==> mem == old(mem) && blocks == old(blocks) && free == old(free) && orphans == old(orphans)
      ensures p != 0 ==>
        && IsLive(blocks, free, p) && !IsLive(old(blocks), old(free), p) && blocks[p] == Rounded(newSize)
        && (forall x :: p <= x < p - 16 + Rounded(newSize) ==>
              mem(x) == if was != 0 && x - p < oldSize && x - p < newSize then old(mem)(was + (x - p)) else 0)
        && (forall q :: IsLive(blocks, free, q) <==> q == p || IsLive(old(blocks), old(free), q))
        && orphans == old(orphans) + (if was != 0 then {was} else {})
      ensures LiveSame(old(mem), mem, old(blocks), old(free)) && MainSame(old(mem), mem, slabs)
    {
      hide Sound, SlabsOk, MainApart, Cursor, SpaceLaw, HandedOut, HasFree, FreshSlab, Disjoint, Tiled, Replies;
      hide LiveSame, MainSame, Copied, Read64, Rounded, IsLive, Moved, ZeroBytes, PeakStep, KeepsMain, OnlyIn, FirstFit;
      NothingChanged(mem, slabs, blocks, free);
      p := Alloc(newSize, first, second, 0);
      if p == 0 { return; }
      var n := if was == 0 || oldSize <= 0 then 0 else if oldSize < newSize then oldSize else newSize;
      ghost var m1 := mem;
      if n > 0 {
        LiveIsBlock(old(blocks), old(free), was);
        mem := Copied(mem, p, was, n);
      }
      ReallocStep(old(mem), m1, mem, freeLists[..], slabs, carved, old(blocks), blocks, old(free), free, p, was, n);
      MovedThenZero(old(mem), mem, p, was, oldSize, newSize, n, p - 16 + Rounded(newSize));
      if was != 0 { orphans := orphans + {was}; }
    }

    /** Reallocation: main-heap pointers stay in the main heap; arena blocks are moved in the arena. */
    method Realloc(was: nat, oldSize: int, newSize: int, first: Reply, second: Reply, mainSize: nat, mainResult: nat)
      returns (p: nat)
      requires Valid()
      requires Contained(slabs, was) ==> IsLive(blocks, free, was) && oldSize + 16 <= blocks[was]
      requires newSize > 0 && was != 0 && !Contained(slabs, was) ==> Slab(was, mainSize) in mainHeap
      requires newSize > 0 ==> Replies(first, second, Max(Rounded(newSize), SLAB), slabs, mainHeap)
      requires newSize > 0 && mainResult != 0 ==> Unused(Slab(mainResult, newSize), slabs, Without(mainHeap, was))
      modifies this, freeLists
      ensures Valid() && active == old(active) && PeakStep(old(peak), peak, blocks, free)
      ensures newSize <= 0 ==> p == 0
      ensures p == 0 ==>
        && mem == old(mem) && blocks == old(blocks) && free == old(free)
        && orphans == old(orphans) && mainHeap == old(mainHeap)
      ensures newSize > 0 && (active == 0 || (was != 0 && !Contained(old(slabs), was))) ==>
        && p == mainResult && blocks == old(blocks) && free == old(free) && orphans == old(orphans)
        && (p != 0 ==>
              && mainHeap == Without(old(mainHeap), was) + {Slab(p, newSize)}
              && OnlyIn(old(mem), mem, p, p + newSize)
              && forall x :: was != 0 && 0 <= x - p < mainSize && x - p < newSize ==> mem(x) == old(mem)(was + (x - p)))
      ensures newSize > 0 && active > 0 && (was == 0 || Contained(old(slabs), was)) && p != 0 ==>
        && IsLive(blocks, free, p) && !IsLive(old(blocks), old(free), p) && blocks[p] == Rounded(newSize)
        && (forall x :: p <= x < p - 16 + Rounded(newSize) ==>
              mem(x) == if was != 0 && x - p < oldSize && x - p < newSize then old(mem)(was + (x - p)) else 0)
        && (forall q :: IsLive(blocks, free, q) <==> q == p || IsLive(old(blocks), old(free), q))
        && orphans == old(orphans) + (if was != 0 then {was} else {}) && mainHeap == old(mainHeap)
        && MainSame(old(mem), mem, slabs)
      ensures LiveSame(old(mem), mem, old(blocks), old(free))
      ensures KeepsMain(old(mem), old(mainHeap), mem, mainHeap)
    {
      hide Sound, SlabsOk, MainApart, Cursor, SpaceLaw, Tiled, Replies, Without;
      hide LiveSame, MainSame, Contained, Unused, Rounded, IsLive, PeakStep, KeepsMain, OnlyIn;
      NothingChanged(mem, slabs, blocks, free);
      NothingMoved(mem);
      PeakIdle(peak, blocks, free);
      if newSize <= 0 { return 0; }
      var inside := Contains(was);
      if active == 0 || (was != 0 && !inside) {
        if active == 0 { NoSlabs(was); }
        p := MainRealloc(was, mainSize, newSize, mainResult);
        return;
      }
      p := MoveBlock(was, oldSize, newSize, first, second);
      MainSameKeeps(old(mem), mem, slabs, old(mainHeap), mainHeap);
    }

    /** Copies `len` bytes to the main heap; `dst` is the main heap's answer. */
    method CopyOut(src: nat, len: int, dst: nat) returns (p: nat)
      requires Valid()
      requires len > 0 && dst != 0 ==> Unused(Slab(dst, len), slabs, mainHeap)
      modifies this`mem, this`mainHeap
      ensures Valid()
      ensures p == if src == 0 || len <= 0 then 0 else dst
      ensures p == 0 ==> mem == old(mem) && mainHeap == old(mainHeap)
      ensures p != 0 ==>
        && Moved(old(mem), mem, p, src, len) && OnlyIn(old(mem), mem, p, p + len)
        && mainHeap == old(mainHeap) + {Slab(p, len)} && !Contained(slabs, p)
      ensures KeepsMain(old(mem), old(mainHeap), mem, mainHeap)
    {
      hide Sound, SlabsOk, MainApart, Cursor, SpaceLaw, IsLive, Tiled, Contained, Unused, Copied, KeepsMain;
      NothingMoved(mem);
      if src == 0 || len <= 0 { return 0; }
      p := dst;
      if p != 0 {
        CopyStep(mem, freeLists[..], slabs, carved, blocks, free, mainHeap, Slab(p, len), src, len);
        UnusedKeeps(mem, Copied(mem, p, src, len), slabs, mainHeap, Slab(p, len));
        mem := Copied(mem, p, src, len);
        mainHeap := mainHeap + {Slab(p, len)};
      }
    }

    /** Promotes a buffer only when it is in the arena; a main-heap pointer is returned as it is. */
    method CopyOutIfArena(src: nat, copyLen: int, allocLen: int, dst: nat) returns (p: nat)
      requires Valid() && (allocLen > 0 ==> copyLen <= allocLen)
      requires allocLen > 0 && dst != 0 ==> Unused(Slab(dst, allocLen), slabs, mainHeap)
      modifies this`mem, this`mainHeap
      ensures Valid() && (p != 0 ==> !Contained(slabs, p))
      ensures !Contained(slabs, src) ==> p == src && mem == old(mem) && mainHeap == old(mainHeap)
      ensures Contained(slabs, src) && src != 0 ==> p == if allocLen <= 0 then 0 else dst
      ensures Contained(slabs, src) && p != 0 ==>
        && (copyLen > 0 ==> Moved(old(mem), mem, p, src, copyLen)) && OnlyIn(old(mem), mem, p, p + allocLen)
        && mainHeap == old(mainHeap) + {Slab(p, allocLen)}
      ensures KeepsMain(old(mem), old(mainHeap), mem, mainHeap)
    {
      hide Sound, SlabsOk, MainApart, Cursor, SpaceLaw, IsLive, Tiled, Contained, Unused, Copied, KeepsMain;
      NothingMoved(mem);
      if src == 0 { return 0; }
      var inside := Contains(src);
      if !inside { return src; }
      if allocLen <= 0 { return 0; }
      p := dst;
      if p != 0 {
        var n := if copyLen > 0 then copyLen else 0;
        CopyStep(mem, freeLists[..], slabs, carved, blocks, free, mainHeap, Slab(p, allocLen), src, n);
        UnusedKeeps(mem, Copied(mem, p, src, n), slabs, mainHeap, Slab(p, allocLen));
        if copyLen > 0 { mem := Copied(mem, p, src, copyLen); }
        mainHeap := mainHeap + {Slab(p, allocLen)};
      }
    }

    /** Gives a slab back; its bytes become whatever the system puts there. */
    method Unmap(slab: Slab, junk: Mem)
      modifies this`mem
      ensures forall x :: !(slab.base <= x < slab.base + slab.size) ==> mem(x) == old(mem)(x)
    {
      var m := mem;
      mem := x => if slab.base <= x < slab.base + slab.size then junk(x) else m(x);
    }

    method UnmapAll(junk: Mem)
      modifies this`mem
      ensures MainSame(old(mem), mem, slabs)
    {
      for i := 0 to |slabs|
        invariant MainSame(old(mem), mem, slabs)
      {
        ghost var before := mem;
        Unmap(slabs[i], junk);
        UnmapStep(old(mem), before, mem, slabs, i);
      }
    }

    method ClearLists()
      requires freeLists.Length == BUCKETS
      modifies freeLists
      ensures forall b :: 0 <= b < BUCKETS ==> freeLists[b] == 0
    {
      for b := 0 to BUCKETS
        invariant forall c :: 0 <= c < b ==> freeLists[c] == 0
      {
        freeLists[b] := 0;
      }
    }

    /** Leaves an unsafe block; leaving the outermost one drops every slab and empties the free lists. */
    method Exit(junk: Mem)
      requires Valid()
      modifies this, freeLists
      ensures Valid() && active == Max(old(active), 1) - 1 && mainHeap == old(mainHeap)
      ensures active > 0 ==>
        && mem == old(mem) && blocks == old(blocks) && free == old(free) && slabs == old(slabs)
        && orphans == old(orphans) && curSlab == old(curSlab) && curOff == old(curOff) && slabCap == old(slabCap)
        && carved == old(carved) && peak == old(peak)
      ensures active == 0 ==> slabs == [] && blocks == map[] && forall b :: 0 <= b < BUCKETS ==> free[b] == []
      ensures MainSame(old(mem), mem, old(slabs))
      ensures KeepsMain(old(mem), old(mainHeap), mem, mainHeap)
    {
      hide Sound, SlabsOk, MainApart, Cursor, SpaceLaw, Tiled, MainSame, IsLive, NoLists, KeepsMain;
      NothingChanged(mem, slabs, blocks, free);
      NothingMoved(mem);
      if active > 0 { active := active - 1; }
      if active > 0 { return; }
      Drop(junk);
      MainSameKeeps(old(mem), mem, old(slabs), old(mainHeap), mainHeap);
    }

    /** Unmaps every slab and resets the tables. */
    method Drop(junk: Mem)
      requires freeLists.Length == BUCKETS && active == 0
      modifies this, freeLists
      ensures Valid() && active == 0 && mainHeap == old(mainHeap)
      ensures slabs == [] && blocks == map[] && free == NoLists()
      ensures MainSame(old(mem), mem, old(slabs))
    {
      hide Sound, SlabsOk, MainApart, Cursor, SpaceLaw, Tiled, MainSame, IsLive, NoLists;
      UnmapAll(junk);
      slabs, slabCap, curSlab, curOff := [], 0, -1, 0;
      ClearLists();
      blocks, free, carved := map[], NoLists(), [];
      peak, orphans := u => 0, {};
      EmptyArena(mem, freeLists[..], mainHeap, peak);
    }
  }
}
