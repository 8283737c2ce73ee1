/** Ring-buffer contents: `count` items from `head`, wrapping at the end of the storage. */
module Ring {
  import opened Arithmetic

  function Slot(head: nat, i: nat, cap: nat): (k: nat)
    requires cap > 0
    ensures k < cap
  {
    (head + i) % cap
  }

  function Contents<T>(buf: seq<T>, head: nat, count: nat): (q: seq<T>)
    requires head < |buf| && count <= |buf|
    ensures |q| == count
    ensures forall i :: 0 <= i < count ==> q[i] == buf[Slot(head, i, |buf|)]
  {
    seq(count, i requires 0 <= i < count => buf[Slot(head, i, |buf|)])
  }

  lemma SlotSplit(head: nat, i: nat, cap: nat)
    requires head < cap && i <= cap
    ensures Slot(head, i, cap) == if head + i < cap then head + i else head + i - cap
  {
    if head + i < cap {
      QuotientUnique(head + i, cap, 0, head + i);
    } else {
      QuotientUnique(head + i, cap, 1, head + i - cap);
    }
  }

  /** Writing one past the last item and counting it appends it; a full ring is left alone. */
  lemma Push<T>(buf: seq<T>, head: nat, count: nat, x: T)
    requires head < |buf| && count < |buf|
    ensures Contents(buf[Slot(head, count, |buf|) := x], head, count + 1) == Contents(buf, head, count) + [x]
  {
    SlotSplit(head, count, |buf|);
    forall i | 0 <= i < count
      ensures Slot(head, i, |buf|) != Slot(head, count, |buf|)
    {
      SlotSplit(head, i, |buf|);
    }
  }

  /** Advancing the head drops the first item. */
  lemma Pop<T>(buf: seq<T>, head: nat, count: nat)
    requires head < |buf| && 0 < count <= |buf|
    ensures Contents(buf, head, count)[0] == buf[head]
    ensures Contents(buf, Slot(head, 1, |buf|), count - 1) == Contents(buf, head, count)[1..]
  {
    SlotSplit(head, 0, |buf|);
    SlotSplit(head, 1, |buf|);
    forall i | 0 <= i < count - 1
      ensures Slot(Slot(head, 1, |buf|), i, |buf|) == Slot(head, i + 1, |buf|)
    {
      SlotSplit(head, i + 1, |buf|);
      SlotSplit(Slot(head, 1, |buf|), i, |buf|);
    }
  }

  /** The write position stays `count` places after the read position when an item is pushed. */
  lemma TailPush(head: nat, count: nat, cap: nat)
    requires head < cap && count < cap
    ensures Slot(Slot(head, count, cap), 1, cap) == Slot(head, count + 1, cap)
  {
    SlotSplit(head, count, cap);
    SlotSplit(head, count + 1, cap);
    SlotSplit(Slot(head, count, cap), 1, cap);
  }

  /** It also stays there when an item is popped. */
  lemma TailPop(head: nat, count: nat, cap: nat)
    requires head < cap && 0 < count <= cap
    ensures Slot(Slot(head, 1, cap), count - 1, cap) == Slot(head, count, cap)
  {
    SlotSplit(head, count, cap);
    SlotSplit(head, 1, cap);
    SlotSplit(Slot(head, 1, cap), count - 1, cap);
  }
}
