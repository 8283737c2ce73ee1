/**
 * The guard arena's blocks, headers and free lists in memory: what is kept by carving a block,
 * taking one off a free list and putting one on.
 */
module GuardHeap {
  import opened GuardMemory
  import opened Words

  const MAGIC: nat := 0x5849414D47554152
  const BUCKETS: nat := 65

  /** The free list of a block of `t` bytes, header included; the last one is shared. */
  function Bucket(t: nat): (b: nat)
    ensures b < BUCKETS
    ensures b < BUCKETS - 1 ==> t == 16 * b
    ensures t % 16 == 0 && t >= 16 && b == BUCKETS - 1 ==> t >= 1024
  {
    if 16 <= t <= 1024 && t % 16 == 0 then t / 16 else BUCKETS - 1
  }

  /** Blocks are known by their payload pointers and total sizes. */
  type Blocks = map<nat, nat>

  ghost predicate Shaped(blocks: Blocks) {
    forall p :: p in blocks ==>
      p >= 16 && p % 16 == 0 && blocks[p] % 16 == 0 && blocks[p] >= 32 && p + blocks[p] < TWO_64
  }

  ghost predicate Apart(blocks: Blocks) {
    forall p, q :: p in blocks && q in blocks && p != q ==> p + blocks[p] <= q || q + blocks[q] <= p
  }

  /** The pointer at place `i` of a list, null past its end. */
  function At(l: seq<nat>, i: nat): nat {
    if i < |l| then l[i] else 0
  }

  /** Every listed pointer is a block in its own bucket, and no list has a pointer twice. */
  ghost predicate Listed(blocks: Blocks, free: seq<seq<nat>>) {
    && |free| == BUCKETS
    && (forall b, i :: 0 <= b < BUCKETS && 0 <= i < |free[b]| ==>
         free[b][i] in blocks && Bucket(blocks[free[b][i]]) == b)
    && (forall b, i, j :: 0 <= b < BUCKETS && 0 <= i < j < |free[b]| ==> free[b][i] != free[b][j])
  }

  /** The list heads and the links in the payloads spell out the lists; the links end in null. */
  ghost predicate Linked(m: Mem, heads: seq<nat>, free: seq<seq<nat>>) {
    && |heads| == |free| == BUCKETS
    && (forall b :: 0 <= b < BUCKETS ==> heads[b] == At(free[b], 0))
    && (forall b, i :: 0 <= b < BUCKETS && 0 <= i < |free[b]| ==> Read64(m, free[b][i]) == At(free[b], i + 1))
  }

  ghost predicate IsFree(blocks: Blocks, free: seq<seq<nat>>, p: nat)
    requires |free| == BUCKETS
  {
    p in blocks && p in free[Bucket(blocks[p])]
  }

  ghost predicate IsLive(blocks: Blocks, free: seq<seq<nat>>, p: nat)
    requires |free| == BUCKETS
  {
    p in blocks && p !in free[Bucket(blocks[p])]
  }

  /** The headers record the sizes, and the magic number marks exactly the live blocks. */
  ghost predicate Headed(m: Mem, blocks: Blocks, free: seq<seq<nat>>)
    requires |free| == BUCKETS
  {
    forall p :: p in blocks ==>
      Read64(m, p - 8) == blocks[p] && Read64(m, p - 16) == if IsFree(blocks, free, p) then 0 else MAGIC
  }

  ghost predicate Sound(m: Mem, heads: seq<nat>, blocks: Blocks, free: seq<seq<nat>>) {
    Shaped(blocks) && Apart(blocks) && Listed(blocks, free) && Linked(m, heads, free) && Headed(m, blocks, free)
  }

  // ---------- writes inside one block leave the others alone ----------

  /** Two memories differ only in an interval. */
  ghost predicate OnlyIn(m: Mem, m': Mem, lo: int, hi: int) {
    forall x :: !(lo <= x < hi) ==> m'(x) == m(x)
  }

  /** The two header words and the link word of a block. */
  ghost predicate SameWords(m: Mem, m': Mem, p: nat) {
    && Read64(m', p - 16) == Read64(m, p - 16)
    && Read64(m', p - 8) == Read64(m, p - 8)
    && Read64(m', p) == Read64(m, p)
  }

  lemma WordAway(m: Mem, m': Mem, lo: int, hi: int, a: int)
    requires OnlyIn(m, m', lo, hi) && (a + 8 <= lo || hi <= a)
    ensures Read64(m', a) == Read64(m, a)
  {
    hide Read64;
    SameWord(m, m', a);
  }

  lemma OtherBlock(m: Mem, m': Mem, blocks: Blocks, q: nat, p: nat)
    requires Shaped(blocks) && Apart(blocks) && p in blocks && q in blocks && p != q
    requires OnlyIn(m, m', q - 16, q - 16 + blocks[q])
    ensures SameWords(m, m', p)
  {
    hide OnlyIn, Read64;
    WordAway(m, m', q - 16, q - 16 + blocks[q], p - 16);
    WordAway(m, m', q - 16, q - 16 + blocks[q], p - 8);
    WordAway(m, m', q - 16, q - 16 + blocks[q], p);
  }

  lemma WiderOnlyIn(m: Mem, m': Mem, lo: int, hi: int, lo': int, hi': int)
    requires OnlyIn(m, m', lo, hi) && lo' <= lo && hi <= hi'
    ensures OnlyIn(m, m', lo', hi')
  {
  }

  lemma LinksStay(m: Mem, m': Mem, heads: seq<nat>, free: seq<seq<nat>>)
    requires Linked(m, heads, free)
    requires forall c, i :: 0 <= c < BUCKETS && 0 <= i < |free[c]| ==> Read64(m', free[c][i]) == Read64(m, free[c][i])
    ensures Linked(m', heads, free)
  {
    hide Read64;
  }

  lemma HeadersStay(m: Mem, m': Mem, blocks: Blocks, free: seq<seq<nat>>, q: nat)
    requires |free| == BUCKETS && Headed(m, blocks, free) && HeadersSame(m, m', blocks, q)
    requires Read64(m', q - 16) == Read64(m, q - 16) && Read64(m', q - 8) == Read64(m, q - 8)
    ensures Headed(m', blocks, free)
  {
    hide Read64, IsFree;
  }

  lemma PayloadWords(m: Mem, m': Mem, blocks: Blocks, q: nat)
    requires Shaped(blocks) && Apart(blocks) && q in blocks && OnlyIn(m, m', q, q - 16 + blocks[q])
    ensures OthersSame(m, m', blocks, q)
    ensures Read64(m', q - 16) == Read64(m, q - 16) && Read64(m', q - 8) == Read64(m, q - 8)
  {
    hide Read64, OnlyIn, OthersSame;
    WiderOnlyIn(m, m', q, q - 16 + blocks[q], q - 16, q - 16 + blocks[q]);
    AllOthers(m, m', blocks, q);
    WordAway(m, m', q, q - 16 + blocks[q], q - 16);
    WordAway(m, m', q, q - 16 + blocks[q], q - 8);
  }

  /** A write to the payload of a live block keeps the heap sound. */
  lemma PayloadWrite(m: Mem, m': Mem, heads: seq<nat>, blocks: Blocks, free: seq<seq<nat>>, q: nat)
    requires Sound(m, heads, blocks, free) && IsLive(blocks, free, q)
    requires OnlyIn(m, m', q, q - 16 + blocks[q])
    ensures Sound(m', heads, blocks, free)
  {
    assert |free| == BUCKETS && q in blocks;
    hide Read64, Bucket, OnlyIn, OthersSame, HeadersSame, Listed, Linked, Headed, Shaped, Apart, IsLive, IsFree;
    PayloadWords(m, m', blocks, q);
    LinksKept(m, m', blocks, free, q);
    LinksStay(m, m', heads, free);
    OthersHeaders(m, m', blocks, q);
    HeadersStay(m, m', blocks, free, q);
  }

  ghost predicate OutsideBlocks(blocks: Blocks, lo: int, hi: int) {
    forall p :: p in blocks ==> hi <= p - 16 || p - 16 + blocks[p] <= lo
  }

  lemma OutsideWords(m: Mem, m': Mem, blocks: Blocks, lo: int, hi: int, p: nat)
    requires Shaped(blocks) && OutsideBlocks(blocks, lo, hi) && OnlyIn(m, m', lo, hi) && p in blocks
    ensures SameWords(m, m', p)
  {
    hide Read64, OnlyIn;
    WordAway(m, m', lo, hi, p - 16);
    WordAway(m, m', lo, hi, p - 8);
    WordAway(m, m', lo, hi, p);
  }

  /** A write outside every block keeps the heap sound. */
  lemma OutsideWrite(m: Mem, m': Mem, heads: seq<nat>, blocks: Blocks, free: seq<seq<nat>>, lo: int, hi: int)
    requires Sound(m, heads, blocks, free) && OutsideBlocks(blocks, lo, hi) && OnlyIn(m, m', lo, hi)
    ensures Sound(m', heads, blocks, free)
  {
    assert |free| == BUCKETS;
    hide Read64, OnlyIn, Bucket, OutsideBlocks, SameWords, Listed, Linked, Headed, Shaped, Apart;
    forall p | p in blocks
      ensures SameWords(m, m', p)
    {
      OutsideWords(m, m', blocks, lo, hi, p);
    }
    CarvedLinks(m, m', heads, blocks, free);
    AllHeaders(m, m', blocks, free);
  }

  lemma AllHeaders(m: Mem, m': Mem, blocks: Blocks, free: seq<seq<nat>>)
    requires |free| == BUCKETS && Headed(m, blocks, free) && forall p :: p in blocks ==> SameWords(m, m', p)
    ensures Headed(m', blocks, free)
  {
    hide Read64, IsFree;
  }

  // ---------- carving ----------

  /** A block's memory when it is handed out: header written, payload zero. */
  ghost predicate HandedOut(m: Mem, p: nat, t: nat) {
    && Read64(m, p - 16) == MAGIC && Read64(m, p - 8) == t
    && forall x :: p <= x < p - 16 + t ==> m(x) == 0
  }

  ghost predicate OthersSame(m: Mem, m': Mem, blocks: Blocks, q: nat) {
    forall p :: p in blocks && p != q ==> SameWords(m, m', p)
  }

  ghost predicate HeadersSame(m: Mem, m': Mem, blocks: Blocks, q: nat) {
    forall p :: p in blocks && p != q ==>
      Read64(m', p - 16) == Read64(m, p - 16) && Read64(m', p - 8) == Read64(m, p - 8)
  }

  lemma AllOthers(m: Mem, m': Mem, blocks: Blocks, q: nat)
    requires Shaped(blocks) && Apart(blocks) && q in blocks
    requires OnlyIn(m, m', q - 16, q - 16 + blocks[q])
    ensures OthersSame(m, m', blocks, q)
  {
    forall p | p in blocks && p != q
      ensures SameWords(m, m', p)
    {
      OtherBlock(m, m', blocks, q, p);
    }
  }

  lemma Carve(m: Mem, m': Mem, heads: seq<nat>, blocks: Blocks, free: seq<seq<nat>>, p: nat, t: nat)
    requires Sound(m, heads, blocks, free) && p !in blocks
    requires Shaped(blocks[p := t]) && Apart(blocks[p := t])
    requires OnlyIn(m, m', p - 16, p - 16 + t) && HandedOut(m', p, t)
    ensures Sound(m', heads, blocks[p := t], free) && IsLive(blocks[p := t], free, p)
    ensures forall q :: q in blocks ==> (IsLive(blocks[p := t], free, q) <==> IsLive(blocks, free, q))
  {
    hide Read64, Bucket, Apart, OnlyIn, IsLive;
    var blocks' := blocks[p := t];
    AllOthers(m, m', blocks', p);
    assert HandedOut(m', p, t);
    CarvedLive(blocks, free, p, t);
    hide HandedOut;
    CarvedHeads(m, m', blocks, free, p, t);
    forall q | q in blocks
      ensures SameWords(m, m', q)
    {
      assert q in blocks' && q != p;
    }
    CarvedLinks(m, m', heads, blocks, free);
  }

  lemma CarvedLive(blocks: Blocks, free: seq<seq<nat>>, p: nat, t: nat)
    requires Listed(blocks, free) && p !in blocks
    ensures Listed(blocks[p := t], free) && IsLive(blocks[p := t], free, p)
    ensures forall q :: q in blocks ==> (IsLive(blocks[p := t], free, q) <==> IsLive(blocks, free, q))
    ensures forall q :: q in blocks ==> (IsFree(blocks[p := t], free, q) <==> IsFree(blocks, free, q))
  {
    hide Bucket;
  }

  lemma CarvedHeads(m: Mem, m': Mem, blocks: Blocks, free: seq<seq<nat>>, p: nat, t: nat)
    requires |free| == BUCKETS && p !in blocks && Headed(m, blocks, free)
    requires OthersSame(m, m', blocks[p := t], p)
    requires Read64(m', p - 16) == MAGIC && Read64(m', p - 8) == t && IsLive(blocks[p := t], free, p)
    requires forall q :: q in blocks ==> (IsFree(blocks[p := t], free, q) <==> IsFree(blocks, free, q))
    ensures Headed(m', blocks[p := t], free)
  {
    hide Read64;
    forall q | q in blocks
      ensures SameWords(m, m', q)
    {
      assert q in blocks[p := t] && q != p;
    }
  }

  lemma CarvedLinks(m: Mem, m': Mem, heads: seq<nat>, blocks: Blocks, free: seq<seq<nat>>)
    requires Listed(blocks, free) && Linked(m, heads, free)
    requires forall q :: q in blocks ==> SameWords(m, m', q)
    ensures Linked(m', heads, free)
  {
    hide Read64, Bucket;
  }

  // ---------- putting a block on its free list ----------

  function Pushed(free: seq<seq<nat>>, p: nat, b: nat): (free': seq<seq<nat>>)
    requires |free| == BUCKETS && b < BUCKETS
    ensures |free'| == BUCKETS
  {
    free[b := [p] + free[b]]
  }

  lemma PushListed(blocks: Blocks, free: seq<seq<nat>>, p: nat)
    requires Listed(blocks, free) && IsLive(blocks, free, p)
    ensures Listed(blocks, Pushed(free, p, Bucket(blocks[p])))
    ensures forall q :: q in blocks ==>
      (IsFree(blocks, Pushed(free, p, Bucket(blocks[p])), q) <==> IsFree(blocks, free, q) || q == p)
  {
    hide Bucket;
    var b := Bucket(blocks[p]);
    var l, l' := free[b], [p] + free[b];
    assert forall i :: 0 < i < |l'| ==> l'[i] == l[i - 1];
    assert forall q :: q in l' <==> q in l || q == p;
  }

  lemma PushLinked(m: Mem, m': Mem, heads: seq<nat>, free: seq<seq<nat>>, p: nat, b: nat)
    requires Linked(m, heads, free) && b < BUCKETS && Read64(m', p) == heads[b]
    requires forall c, i :: 0 <= c < BUCKETS && 0 <= i < |free[c]| ==> Read64(m', free[c][i]) == Read64(m, free[c][i])
    ensures Linked(m', heads[b := p], Pushed(free, p, b))
  {
    hide Read64;
    var l' := [p] + free[b];
    assert forall i :: 0 < i < |l'| ==> l'[i] == free[b][i - 1];
  }

  lemma LinksKept(m: Mem, m': Mem, blocks: Blocks, free: seq<seq<nat>>, q: nat)
    requires Listed(blocks, free) && IsLive(blocks, free, q) && OthersSame(m, m', blocks, q)
    ensures forall c, i :: 0 <= c < BUCKETS && 0 <= i < |free[c]| ==> Read64(m', free[c][i]) == Read64(m, free[c][i])
  {
    hide Read64, Bucket;
    forall c, i | 0 <= c < BUCKETS && 0 <= i < |free[c]|
      ensures Read64(m', free[c][i]) == Read64(m, free[c][i])
    {
      assert free[c][i] in blocks && free[c][i] != q;
    }
  }

  /** Clearing the magic number and linking the payload in front of the list frees a live block. */
  lemma Put(m: Mem, m': Mem, heads: seq<nat>, blocks: Blocks, free: seq<seq<nat>>, p: nat, b: nat)
    requires Sound(m, heads, blocks, free) && IsLive(blocks, free, p) && b == Bucket(blocks[p])
    requires m' == Write64(Write64(m, p - 16, 0), p, heads[b])
    ensures Sound(m', heads[b := p], blocks, Pushed(free, p, b))
  {
    hide Read64, Bucket, Apart, Pushed, Write64, OnlyIn, OthersSame, HeadersSame, IsFree;
    HeadIsSmall(m, heads, blocks, free, b);
    PutWords(m, m', p, heads[b]);
    WiderOnlyIn(m, m', p - 16, p + 8, p - 16, p - 16 + blocks[p]);
    AllOthers(m, m', blocks, p);
    LinksKept(m, m', blocks, free, p);
    PushListed(blocks, free, p);
    PushLinked(m, m', heads, free, p, b);
    OthersHeaders(m, m', blocks, p);
    hide Listed, Linked, Shaped;
    PutHeaded(m, m', blocks, free, Pushed(free, p, b), p);
  }

  lemma PutHeaded(m: Mem, m': Mem, blocks: Blocks, free: seq<seq<nat>>, free': seq<seq<nat>>, p: nat)
    requires |free| == |free'| == BUCKETS && p in blocks && Headed(m, blocks, free) && HeadersSame(m, m', blocks, p)
    requires forall q :: q in blocks ==> (IsFree(blocks, free', q) <==> IsFree(blocks, free, q) || q == p)
    requires Read64(m', p - 8) == Read64(m, p - 8) && Read64(m', p - 16) == 0
    ensures Headed(m', blocks, free')
  {
    hide Read64, IsFree;
  }

  lemma HeadIsSmall(m: Mem, heads: seq<nat>, blocks: Blocks, free: seq<seq<nat>>, b: nat)
    requires Shaped(blocks) && Listed(blocks, free) && Linked(m, heads, free) && b < BUCKETS
    ensures heads[b] < TWO_64
  {
    hide Read64, Bucket;
  }

  lemma OthersHeaders(m: Mem, m': Mem, blocks: Blocks, q: nat)
    requires OthersSame(m, m', blocks, q)
    ensures HeadersSame(m, m', blocks, q)
  {
    hide Read64;
  }

  lemma PutWords(m: Mem, m': Mem, p: nat, head: nat)
    requires p >= 16 && head < TWO_64 && m' == Write64(Write64(m, p - 16, 0), p, head)
    ensures Read64(m', p - 16) == 0 && Read64(m', p - 8) == Read64(m, p - 8) && Read64(m', p) == head
    ensures OnlyIn(m, m', p - 16, p + 8)
  {
    hide Read64;
    var m1 := Write64(m, p - 16, 0);
    WriteRead(m, p - 16, 0);
    WriteRead(m1, p, head);
    WordAway(m1, m', p, p + 8, p - 16);
    WordAway(m1, m', p, p + 8, p - 8);
    WordAway(m, m1, p - 16, p - 8, p - 8);
  }

  // ---------- taking a block off a free list ----------

  function Taken(free: seq<seq<nat>>, b: nat, i: nat): (free': seq<seq<nat>>)
    requires |free| == BUCKETS && b < BUCKETS && i < |free[b]|
    ensures |free'| == BUCKETS
  {
    free[b := free[b][..i] + free[b][i + 1..]]
  }

  lemma TakeListed(blocks: Blocks, free: seq<seq<nat>>, b: nat, i: nat)
    requires Listed(blocks, free) && b < BUCKETS && i < |free[b]|
    ensures Listed(blocks, Taken(free, b, i))
    ensures forall q :: q in blocks ==>
      (IsFree(blocks, Taken(free, b, i), q) <==> IsFree(blocks, free, q) && q != free[b][i])
  {
    hide Bucket;
    var l := free[b];
    var l' := l[..i] + l[i + 1..];
    assert forall j :: 0 <= j < |l'| ==> l'[j] == if j < i then l[j] else l[j + 1];
    forall q
      ensures q in l' <==> q in l && q != l[i]
    {
      if q in l && q != l[i] {
        var j :| 0 <= j < |l| && l[j] == q;
        assert l'[if j < i then j else j - 1] == q;
      }
    }
  }

  /** The link that pointed at place `i` now points past it. */
  lemma TakeLinked(m: Mem, m': Mem, heads: seq<nat>, heads': seq<nat>, free: seq<seq<nat>>, b: nat, i: nat)
    requires Linked(m, heads, free) && b < BUCKETS && i < |free[b]|
    requires heads' == if i == 0 then heads[b := At(free[b], 1)] else heads
    requires i > 0 ==> Read64(m', free[b][i - 1]) == At(free[b], i + 1)
    requires forall c, j :: 0 <= c < BUCKETS && 0 <= j < |free[c]| && !(c == b && (j == i || j == i - 1)) ==>
      Read64(m', free[c][j]) == Read64(m, free[c][j])
    ensures Linked(m', heads', Taken(free, b, i))
  {
    hide Read64;
    var l, free' := free[b], Taken(free, b, i);
    var l' := free'[b];
    assert forall j :: 0 <= j < |l'| ==> l'[j] == if j < i then l[j] else l[j + 1];
    assert forall c :: 0 <= c < BUCKETS && c != b ==> free'[c] == free[c];
    forall j | 0 <= j < |l'|
      ensures Read64(m', l'[j]) == At(l', j + 1)
    {
      if j < i - 1 {
        assert Read64(m', l[j]) == Read64(m, l[j]);
      } else if j >= i {
        assert Read64(m', l[j + 1]) == Read64(m, l[j + 1]);
      }
    }
    forall c, j | 0 <= c < BUCKETS && c != b && 0 <= j < |free'[c]|
      ensures Read64(m', free'[c][j]) == At(free'[c], j + 1)
    {
      assert free'[c] == free[c];
    }
  }

  /** Memory after the pointer at place `i` has been unlinked: the head is not in memory. */
  function Unlinked(m: Mem, l: seq<nat>, i: nat): Mem
    requires i < |l|
  {
    if i == 0 then m else Write64(m, l[i - 1], At(l, i + 1))
  }

  function UnlinkedHeads(heads: seq<nat>, l: seq<nat>, b: nat, i: nat): seq<nat>
    requires b < |heads|
  {
    if i == 0 then heads[b := At(l, 1)] else heads
  }

  /** Unlinking changes one link and no header. */
  lemma UnlinkWords(m: Mem, m1: Mem, blocks: Blocks, free: seq<seq<nat>>, b: nat, i: nat)
    requires Shaped(blocks) && Apart(blocks) && Listed(blocks, free) && b < BUCKETS && i < |free[b]|
    requires m1 == Unlinked(m, free[b], i)
    ensures forall p :: p in blocks ==> Read64(m1, p - 16) == Read64(m, p - 16) && Read64(m1, p - 8) == Read64(m, p - 8)
    ensures forall p :: p in blocks && (i == 0 || p != free[b][i - 1]) ==> Read64(m1, p) == Read64(m, p)
    ensures i > 0 ==> Read64(m1, free[b][i - 1]) == At(free[b], i + 1)
  {
    hide Read64, Bucket;
    if i > 0 {
      var prev, next := free[b][i - 1], At(free[b], i + 1);
      assert prev in blocks && next < TWO_64;
      WriteRead(m, prev, next);
      assert OnlyIn(m, m1, prev, prev + 8);
      AllOthers(m, m1, blocks, prev);
      WordAway(m, m1, prev, prev + 8, prev - 16);
      WordAway(m, m1, prev, prev + 8, prev - 8);
    }
  }

  lemma TakenLinks(m: Mem, m1: Mem, m2: Mem, heads: seq<nat>, blocks: Blocks, free: seq<seq<nat>>, b: nat, i: nat)
    requires Sound(m, heads, blocks, free) && b < BUCKETS && i < |free[b]|
    requires m1 == Unlinked(m, free[b], i) && OthersSame(m1, m2, blocks, free[b][i])
    ensures Linked(m2, UnlinkedHeads(heads, free[b], b, i), Taken(free, b, i))
  {
    UnlinkWords(m, m1, blocks, free, b, i);
    hide Read64, Bucket, Headed, Apart, Shaped, Unlinked;
    var l := free[b];
    if i > 0 { assert l[i - 1] in blocks && l[i - 1] != l[i]; }
    forall c, j | 0 <= c < BUCKETS && 0 <= j < |free[c]| && !(c == b && (j == i || j == i - 1))
      ensures Read64(m2, free[c][j]) == Read64(m, free[c][j])
    {
      assert free[c][j] in blocks;
      assert Bucket(blocks[free[c][j]]) == c && Bucket(blocks[l[i]]) == b;
      assert i > 0 ==> Bucket(blocks[l[i - 1]]) == b;
      assert free[c][j] != l[i] && (i > 0 ==> free[c][j] != l[i - 1]);
    }
    TakeLinked(m, m2, heads, UnlinkedHeads(heads, l, b, i), free, b, i);
  }

  /** Unlinking any place of a list and handing the block out again keeps the heap sound. */
  lemma Take(m: Mem, m1: Mem, m2: Mem, heads: seq<nat>, blocks: Blocks, free: seq<seq<nat>>, b: nat, i: nat)
    requires Sound(m, heads, blocks, free) && b < BUCKETS && i < |free[b]|
    requires m1 == Unlinked(m, free[b], i)
    requires var q := free[b][i];
      q in blocks && OnlyIn(m1, m2, q - 16, q - 16 + blocks[q]) && HandedOut(m2, q, blocks[q])
    ensures Sound(m2, UnlinkedHeads(heads, free[b], b, i), blocks, Taken(free, b, i))
    ensures IsLive(blocks, Taken(free, b, i), free[b][i])
  {
    hide Read64, Bucket, Apart, Taken, Unlinked, OnlyIn, OthersSame, HeadersSame, IsFree, SameWords;
    var q := free[b][i];
    AllOthers(m1, m2, blocks, q);
    UnlinkWords(m, m1, blocks, free, b, i);
    TakenLinks(m, m1, m2, heads, blocks, free, b, i);
    TakeListed(blocks, free, b, i);
    OthersHeaders(m1, m2, blocks, q);
    TakenHeaded(m, m1, m2, blocks, free, Taken(free, b, i), q);
    FreeOrLive(blocks, Taken(free, b, i), q);
  }

  lemma FreeOrLive(blocks: Blocks, free: seq<seq<nat>>, p: nat)
    requires |free| == BUCKETS && p in blocks
    ensures IsLive(blocks, free, p) <==> !IsFree(blocks, free, p)
  {
  }

  lemma TakenHeaded(m: Mem, m1: Mem, m2: Mem, blocks: Blocks, free: seq<seq<nat>>, free': seq<seq<nat>>, q: nat)
    requires |free| == |free'| == BUCKETS && q in blocks && Headed(m, blocks, free)
    requires forall p :: p in blocks ==>
      Read64(m1, p - 16) == Read64(m, p - 16) && Read64(m1, p - 8) == Read64(m, p - 8)
    requires HeadersSame(m1, m2, blocks, q) && HandedOut(m2, q, blocks[q])
    requires forall p :: p in blocks ==> (IsFree(blocks, free', p) <==> IsFree(blocks, free, p) && p != q)
    ensures Headed(m2, blocks, free')
  {
    hide Read64, IsFree;
  }

  lemma Recycle(m: Mem, q: nat, t: nat)
    requires q >= 16 && 32 <= t < TWO_64
    ensures var m' := Zeroed(Write64(Write64(m, q - 16, MAGIC), q - 8, t), q, q - 16 + t);
      HandedOut(m', q, t) && OnlyIn(m, m', q - 16, q - 16 + t)
  {
    hide Read64;
    var m1 := Write64(m, q - 16, MAGIC);
    var m2 := Write64(m1, q - 8, t);
    var m3 := Zeroed(m2, q, q - 16 + t);
    WriteRead(m, q - 16, MAGIC);
    WriteRead(m1, q - 8, t);
    WordAway(m1, m2, q - 8, q, q - 16);
    WordAway(m2, m3, q, q - 16 + t, q - 16);
    WordAway(m2, m3, q, q - 16 + t, q - 8);
  }

  lemma FirstUse(m: Mem, q: nat, t: nat)
    requires q >= 16 && 32 <= t < TWO_64
    ensures var m' := Write64(Write64(Zeroed(m, q - 16, q - 16 + t), q - 16, MAGIC), q - 8, t);
      HandedOut(m', q, t) && OnlyIn(m, m', q - 16, q - 16 + t)
  {
    hide Read64;
    var m1 := Zeroed(m, q - 16, q - 16 + t);
    var m2 := Write64(m1, q - 16, MAGIC);
    var m3 := Write64(m2, q - 8, t);
    WriteRead(m1, q - 16, MAGIC);
    WriteRead(m2, q - 8, t);
    WordAway(m2, m3, q - 8, q, q - 16);
  }
}
