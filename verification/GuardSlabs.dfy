/** The arena's slabs, how blocks tile their carved parts, and how many blocks of a size there are. */
module GuardSlabs {
  import opened Words
  import opened GuardHeap

  datatype Slab = Slab(base: nat, size: nat)

  ghost predicate Disjoint(a: Slab, b: Slab) {
    a.base + a.size <= b.base || b.base + b.size <= a.base
  }

  ghost predicate SlabsOk(slabs: seq<Slab>) {
    && (forall s :: 0 <= s < |slabs| ==>
         slabs[s].base > 0 && slabs[s].base % 16 == 0 && slabs[s].base + slabs[s].size <= TWO_63)
    && (forall s, u :: 0 <= s < u < |slabs| ==> Disjoint(slabs[s], slabs[u]))
  }

  ghost predicate Contained(slabs: seq<Slab>, p: int) {
    exists s :: 0 <= s < |slabs| && slabs[s].base <= p < slabs[s].base + slabs[s].size
  }

  /** Block `p` with its header lies in the first `extent` bytes of a slab. */
  ghost predicate Within(slab: Slab, extent: nat, p: nat, t: nat) {
    slab.base + 16 <= p && p - 16 + t <= slab.base + extent
  }

  ghost predicate Covers(p: nat, t: nat, a: int) { p - 16 <= a < p - 16 + t }

  ghost predicate Covered(blocks: Blocks, a: int) {
    exists p :: p in blocks && Covers(p, blocks[p], a)
  }

  ghost predicate InExtent(slab: Slab, extent: nat, a: int) { slab.base <= a < slab.base + extent }

  ghost predicate Extents(slabs: seq<Slab>, carved: seq<nat>) {
    && |carved| == |slabs|
    && forall s :: 0 <= s < |slabs| ==> carved[s] <= slabs[s].size && carved[s] % 16 == 0
  }

  /** Each block is inside one slab's carved part, and each carved byte is in a block. */
  ghost predicate Tiled(slabs: seq<Slab>, carved: seq<nat>, blocks: Blocks) {
    && Extents(slabs, carved)
    && (forall p :: p in blocks ==> exists s :: 0 <= s < |slabs| && Within(slabs[s], carved[s], p, blocks[p]))
    && (forall s, a :: 0 <= s < |slabs| && InExtent(slabs[s], carved[s], a) ==> Covered(blocks, a))
  }

  lemma TileSlab(slabs: seq<Slab>, carved: seq<nat>, blocks: Blocks, slab: Slab)
    requires Tiled(slabs, carved, blocks)
    ensures Tiled(slabs + [slab], carved + [0], blocks)
  {
    var slabs', carved' := slabs + [slab], carved + [0];
    forall p | p in blocks
      ensures exists s :: 0 <= s < |slabs'| && Within(slabs'[s], carved'[s], p, blocks[p])
    {
      var s :| 0 <= s < |slabs| && Within(slabs[s], carved[s], p, blocks[p]);
      assert Within(slabs'[s], carved'[s], p, blocks[p]);
    }
    forall s, a | 0 <= s < |slabs'| && InExtent(slabs'[s], carved'[s], a)
      ensures Covered(blocks, a)
    {
      assert s < |slabs| && InExtent(slabs[s], carved[s], a);
    }
  }

  lemma PlaceFree(slabs: seq<Slab>, carved: seq<nat>, blocks: Blocks, s: nat, t: nat, q: nat)
    requires SlabsOk(slabs) && Tiled(slabs, carved, blocks) && s < |slabs| && carved[s] + t <= slabs[s].size
    requires q in blocks
    ensures var p := slabs[s].base + carved[s] + 16; q + blocks[q] <= p || p + t <= q
  {
    var u :| 0 <= u < |slabs| && Within(slabs[u], carved[u], q, blocks[q]);
    if u < s { assert Disjoint(slabs[u], slabs[s]); }
    if s < u { assert Disjoint(slabs[s], slabs[u]); }
  }

  /** A block placed right after the carved part of a slab. */
  lemma TileFresh(slabs: seq<Slab>, carved: seq<nat>, blocks: Blocks, s: nat, t: nat)
    requires SlabsOk(slabs) && Tiled(slabs, carved, blocks) && Shaped(blocks) && Apart(blocks)
    requires s < |slabs| && t % 16 == 0 && t >= 32 && carved[s] + t <= slabs[s].size
    ensures var p := slabs[s].base + carved[s] + 16;
      p !in blocks && Shaped(blocks[p := t]) && Apart(blocks[p := t])
  {
    var p := slabs[s].base + carved[s] + 16;
    hide Apart, Tiled;
    forall q | q in blocks
      ensures q + blocks[q] <= p || p + t <= q
    {
      PlaceFree(slabs, carved, blocks, s, t, q);
    }
    hide SlabsOk;
    FreshApart(blocks, p, t);
  }

  lemma FreshApart(blocks: Blocks, p: nat, t: nat)
    requires Apart(blocks) && t > 0 && (forall q :: q in blocks ==> blocks[q] > 0)
    requires forall q :: q in blocks ==> q + blocks[q] <= p || p + t <= q
    ensures p !in blocks && Apart(blocks[p := t])
  {
  }

  lemma TileCarve(slabs: seq<Slab>, carved: seq<nat>, blocks: Blocks, s: nat, t: nat)
    requires Tiled(slabs, carved, blocks) && s < |slabs| && t % 16 == 0 && carved[s] + t <= slabs[s].size
    requires slabs[s].base + carved[s] + 16 !in blocks
    ensures Tiled(slabs, carved[s := carved[s] + t], blocks[slabs[s].base + carved[s] + 16 := t])
  {
    var p, carved' := slabs[s].base + carved[s] + 16, carved[s := carved[s] + t];
    var blocks' := blocks[p := t];
    forall q | q in blocks'
      ensures exists u :: 0 <= u < |slabs| && Within(slabs[u], carved'[u], q, blocks'[q])
    {
      if q == p {
        assert Within(slabs[s], carved'[s], q, blocks'[q]);
      } else {
        var u :| 0 <= u < |slabs| && Within(slabs[u], carved[u], q, blocks[q]);
        assert Within(slabs[u], carved'[u], q, blocks'[q]);
      }
    }
    forall u, a | 0 <= u < |slabs| && InExtent(slabs[u], carved'[u], a)
      ensures Covered(blocks', a)
    {
      if InExtent(slabs[u], carved[u], a) {
        assert Covered(blocks, a);
        var q :| q in blocks && Covers(q, blocks[q], a);
        assert q in blocks' && Covers(q, blocks'[q], a);
      } else {
        assert Covers(p, blocks'[p], a);
      }
    }
  }

  /** Blocks are inside the arena; with no slab there are none. */
  lemma BlocksContained(slabs: seq<Slab>, carved: seq<nat>, blocks: Blocks, p: nat)
    requires Tiled(slabs, carved, blocks) && Shaped(blocks) && p in blocks
    ensures forall a :: p - 16 <= a < p - 16 + blocks[p] ==> Contained(slabs, a)
    ensures slabs != []
  {
    var s :| 0 <= s < |slabs| && Within(slabs[s], carved[s], p, blocks[p]);
  }

  // ---------- the space law ----------

  ghost function OfSize(blocks: Blocks, t: nat): set<nat> {
    set p | p in blocks && blocks[p] == t
  }

  ghost function LiveOfSize(blocks: Blocks, free: seq<seq<nat>>, t: nat): set<nat>
    requires |free| == BUCKETS
  {
    set p | p in blocks && blocks[p] == t && IsLive(blocks, free, p)
  }

  ghost predicate HasFree(blocks: Blocks, free: seq<seq<nat>>, t: nat)
    requires |free| == BUCKETS
  {
    exists p :: p in blocks && blocks[p] == t && IsFree(blocks, free, p)
  }

  lemma LiveBounded(blocks: Blocks, free: seq<seq<nat>>, t: nat)
    requires |free| == BUCKETS
    ensures |LiveOfSize(blocks, free, t)| <= |OfSize(blocks, t)|
    ensures !HasFree(blocks, free, t) ==> LiveOfSize(blocks, free, t) == OfSize(blocks, t)
  {
    hide IsLive, IsFree;
    forall p | p in OfSize(blocks, t)
      ensures IsLive(blocks, free, p) || IsFree(blocks, free, p)
    {
      FreeOrLive(blocks, free, p);
    }
    SubsetSize(LiveOfSize(blocks, free, t), OfSize(blocks, t));
  }

  lemma {:induction false} SubsetSize(a: set<nat>, b: set<nat>)
    requires a <= b
    ensures |a| <= |b|
  {
    if a != {} {
      var x :| x in a;
      SubsetSize(a - {x}, b - {x});
    }
  }

  lemma CarvedSizes(blocks: Blocks, p: nat, t: nat, u: nat)
    requires p !in blocks
    ensures OfSize(blocks[p := t], u) == if u == t then OfSize(blocks, t) + {p} else OfSize(blocks, u)
    ensures |OfSize(blocks[p := t], u)| == if u == t then |OfSize(blocks, t)| + 1 else |OfSize(blocks, u)|
  {
    var a, b := OfSize(blocks, u), OfSize(blocks[p := t], u);
    if u == t {
      assert b == a + {p};
    } else {
      assert b == a;
    }
  }
}
