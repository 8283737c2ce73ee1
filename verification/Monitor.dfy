/** Condition variables over a fixed set of threads, and weights for termination arguments. */
module Monitor {

  /** `i` is a legal choice of waiter for a signal: some parked thread when there is one. */
  ghost predicate SignalChoice<T>(threads: seq<T>, parked: T, i: nat) {
    parked in threads ==> i < |threads| && threads[i] == parked
  }

  /** There is always a legal choice. */
  lemma SomeChoice<T>(threads: seq<T>, parked: T) returns (i: nat)
    ensures SignalChoice(threads, parked, i)
  {
    i := 0;
    if parked in threads {
      i :| i < |threads| && threads[i] == parked;
    }
  }

  /** Wakes one parked thread, or nobody when nobody is parked. */
  ghost function Signal<T>(threads: seq<T>, parked: T, notified: T, i: nat): (r: seq<T>)
    requires SignalChoice(threads, parked, i)
    ensures |r| == |threads|
  {
    if parked in threads then threads[i := notified] else threads
  }

  /** Wakes every parked thread. */
  ghost function Broadcast<T>(threads: seq<T>, parked: T, notified: T): (r: seq<T>)
    ensures |r| == |threads|
    ensures forall i :: 0 <= i < |threads| ==> r[i] == if threads[i] == parked then notified else threads[i]
    ensures parked != notified ==> parked !in r
  {
    seq(|threads|, i requires 0 <= i < |threads| => if threads[i] == parked then notified else threads[i])
  }

  /** What a signal does to the number of parked and of notified threads: one moves, or none is parked. */
  lemma SignalCounts<T>(threads: seq<T>, parked: T, notified: T, i: nat)
    requires SignalChoice(threads, parked, i) && parked != notified
    ensures var r, woken := Signal(threads, parked, notified, i), if parked in threads then 1 else 0;
            && multiset(r)[notified] == multiset(threads)[notified] + woken
            && multiset(r)[parked] == multiset(threads)[parked] - woken
            && (forall t :: t != parked && t != notified ==> multiset(r)[t] == multiset(threads)[t])
  {
    if parked in threads {
      UpdateCounts(threads, i, notified);
    }
  }

  lemma UpdateCounts<T>(threads: seq<T>, i: nat, t: T)
    requires i < |threads|
    ensures multiset(threads[i := t]) == multiset(threads) - multiset{threads[i]} + multiset{t}
    ensures threads[i] in threads
  {
  }

  /** Sum of the weights of all threads. */
  ghost function Total<T>(threads: seq<T>, weight: T -> nat): nat {
    if threads == [] then 0 else weight(threads[0]) + Total(threads[1..], weight)
  }

  lemma {:induction false} TotalUpdate<T>(threads: seq<T>, weight: T -> nat, i: nat, t: T)
    requires i < |threads|
    ensures Total(threads[i := t], weight) + weight(threads[i]) == Total(threads, weight) + weight(t)
  {
    if i == 0 {
      assert threads[0 := t][1..] == threads[1..];
    } else {
      assert threads[i := t][1..] == threads[1..][i - 1 := t];
      TotalUpdate(threads[1..], weight, i - 1, t);
    }
  }

  lemma TotalSignal<T>(threads: seq<T>, parked: T, notified: T, i: nat, weight: T -> nat)
    requires SignalChoice(threads, parked, i)
    requires weight(notified) == weight(parked) + 1
    ensures Total(threads, weight) <= Total(Signal(threads, parked, notified, i), weight) <= Total(threads, weight) + 1
  {
    if parked in threads {
      TotalUpdate(threads, weight, i, notified);
    }
  }

  lemma {:induction false} TotalBroadcast<T>(threads: seq<T>, parked: T, notified: T, weight: T -> nat)
    requires weight(notified) == weight(parked) + 1
    ensures Total(Broadcast(threads, parked, notified), weight) <= Total(threads, weight) + |threads|
  {
    if threads != [] {
      assert Broadcast(threads, parked, notified)[1..] == Broadcast(threads[1..], parked, notified);
      TotalBroadcast(threads[1..], parked, notified, weight);
    }
  }
}
