/** The bounded channel: a 64-slot ring behind one mutex. Each method is one lock-held section. */
module Channels {
  import opened Ring

  const CAP: nat := 64

  datatype Sent = MustPark | SentOne
  datatype Received = MustWait | Got(value: int)

  function Send(q: seq<int>, value: int): (Sent, seq<int>) {
    if |q| >= CAP then (MustPark, q) else (SentOne, q + [value])
  }

  function Receive(q: seq<int>): (Received, seq<int>) {
    if q == [] then (MustWait, q) else (Got(q[0]), q[1..])
  }

  class Channel {
    var data: array<int>
    var head: nat
    var tail: nat
    var count: nat
    var closed: bool

    /** Nothing in the runtime ever sets `closed`. */
    ghost predicate Valid()
      reads this, data
    {
      && data.Length == CAP
      && head < CAP && count <= CAP
      && tail == Slot(head, count, CAP)
      && !closed
    }

    ghost function Items(): (q: seq<int>)
      reads this, data
      requires Valid()
      ensures |q| == count
    {
      Contents(data[..], head, count)
    }

    constructor ()
      ensures Valid() && fresh(data) && Items() == []
    {
      data := new int[CAP](i => 0);
      head, tail, count, closed := 0, 0, 0, false;
    }

    method SendSection(value: int) returns (r: Sent)
      requires Valid()
      modifies this, data
      ensures Valid() && data == old(data)
      ensures (r, Items()) == Send(old(Items()), value)
    {
      if count >= CAP && !closed { return MustPark; }
      Push(data[..], head, count, value);
      TailPush(head, count, CAP);
      ghost var before := data[..];
      data[tail] := value;
      assert data[..] == before[tail := value];
      tail := (tail + 1) % CAP;
      count := count + 1;
      r := SentOne;
    }

    method ReceiveSection() returns (r: Received)
      requires Valid()
      modifies this
      ensures Valid() && data == old(data)
      ensures (r, Items()) == Receive(old(Items()))
    {
      if count == 0 && !closed { return MustWait; }
      Pop(data[..], head, count);
      TailPop(head, count, CAP);
      r := Got(data[head]);
      head := (head + 1) % CAP;
      count := count - 1;
    }

    /** The non-blocking form takes an item when there is one and never waits. */
    method TryReceiveSection() returns (ok: bool, value: int)
      requires Valid()
      modifies this
      ensures Valid() && data == old(data)
      ensures ok == (old(Items()) != [])
      ensures if ok then (Got(value), Items()) == Receive(old(Items())) else Items() == old(Items())
    {
      if count == 0 || closed { return false, 0; }
      Pop(data[..], head, count);
      TailPop(head, count, CAP);
      ok, value := true, data[head];
      head := (head + 1) % CAP;
      count := count - 1;
    }
  }
}

/** Any number of senders and receivers on one channel, in any interleaving. */
module ChannelSystem {
  import opened Monitor
  import opened Channels

  datatype Phase =
    | Idle
    | SendReady | SendParked | SendNotified
    | RecvReady | RecvParked | RecvNotified

  /** `args[t]` is the value thread `t` is sending; the history is what went in and came out. */
  datatype System = System(
    queue: seq<int>, threads: seq<Phase>, args: seq<int>, sent: seq<int>, received: seq<int>)

  datatype Action =
    | CallSend(t: nat, value: int)
    | CallRecv(t: nat)
    | SendStep(t: nat, wake: nat)
    | RecvStep(t: nat, wake: nat)
    | TryRecv(t: nat, wake: nat)
    | Spurious(t: nat)

  ghost predicate Enabled(s: System, a: Action) {
    && a.t < |s.threads| == |s.args|
    && match a
       case CallSend(t, value) => s.threads[t] == Idle
       case CallRecv(t) => s.threads[t] == Idle
       case SendStep(t, wake) =>
         s.threads[t] in {SendReady, SendNotified} && SignalChoice(s.threads[t := Idle], RecvParked, wake)
       case RecvStep(t, wake) =>
         s.threads[t] in {RecvReady, RecvNotified} && SignalChoice(s.threads[t := Idle], SendParked, wake)
       case TryRecv(t, wake) => s.threads[t] == Idle && SignalChoice(s.threads, SendParked, wake)
       case Spurious(t) => s.threads[t] in {SendParked, RecvParked}
  }

  ghost function Apply(s: System, a: Action): System
    requires Enabled(s, a)
  {
    match a
    case CallSend(t, value) => s.(threads := s.threads[t := SendReady], args := s.args[t := value])
    case CallRecv(t) => s.(threads := s.threads[t := RecvReady])
    case SendStep(t, wake) =>
      var (r, q) := Send(s.queue, s.args[t]);
      if r == MustPark then s.(threads := s.threads[t := SendParked])
      else s.(queue := q, sent := s.sent + [s.args[t]],
              threads := Signal(s.threads[t := Idle], RecvParked, RecvNotified, wake))
    case RecvStep(t, wake) =>
      if Receive(s.queue).0 == MustWait then s.(threads := s.threads[t := RecvParked])
      else Taken(s, s.threads[t := Idle], wake)
    case TryRecv(t, wake) =>
      if s.queue == [] then s else Taken(s, s.threads, wake)
    case Spurious(t) =>
      s.(threads := s.threads[t := if s.threads[t] == SendParked then SendNotified else RecvNotified])
  }

  /** One item delivered, and one sender told that there is space. */
  ghost function Taken(s: System, threads: seq<Phase>, wake: nat): System
    requires s.queue != [] && SignalChoice(threads, SendParked, wake)
  {
    var (r, q) := Receive(s.queue);
    s.(queue := q, received := s.received + [r.value],
       threads := Signal(threads, SendParked, SendNotified, wake))
  }

  ghost predicate Initial(s: System) {
    && s.queue == [] && s.sent == [] && s.received == []
    && |s.threads| == |s.args| && (forall t :: 0 <= t < |s.threads| ==> s.threads[t] == Idle)
  }

  ghost predicate Legal(s: System, run: seq<Action>)
    decreases |run|
  {
    run == [] || (Enabled(s, run[0]) && Legal(Apply(s, run[0]), run[1..]))
  }

  ghost function After(s: System, run: seq<Action>): System
    requires Legal(s, run)
    decreases |run|
  {
    if run == [] then s else After(Apply(s, run[0]), run[1..])
  }

  /** A receiver waits only while notified receivers cover the items, and dually for senders. */
  ghost predicate WakeLaws(queue: seq<int>, threads: seq<Phase>) {
    && (RecvParked in threads ==> |queue| <= multiset(threads)[RecvNotified])
    && (SendParked in threads ==> CAP <= |queue| + multiset(threads)[SendNotified])
  }

  ghost predicate Inv(s: System) {
    && |s.queue| <= CAP && |s.threads| == |s.args|
    && s.sent == s.received + s.queue
    && WakeLaws(s.queue, s.threads)
  }

  /** One thread changes state without touching the ring. */
  lemma MoveKeeps(s: System, t: nat, p: Phase)
    requires Inv(s) && t < |s.threads|
    requires p == SendParked ==> |s.queue| >= CAP
    requires p == RecvParked ==> s.queue == []
    requires s.threads[t] == RecvNotified ==> s.queue == []
    requires s.threads[t] == SendNotified ==> |s.queue| >= CAP
    ensures |s.threads[t := p]| == |s.threads| && WakeLaws(s.queue, s.threads[t := p])
  {
    UpdateCounts(s.threads, t, p);
  }

  lemma SentKeeps(s: System, t: nat, wake: nat)
    requires Inv(s) && Enabled(s, SendStep(t, wake)) && |s.queue| < CAP
    ensures var threads := Signal(s.threads[t := Idle], RecvParked, RecvNotified, wake);
            WakeLaws(s.queue + [s.args[t]], threads)
  {
    hide Signal;
    UpdateCounts(s.threads, t, Idle);
    SignalCounts(s.threads[t := Idle], RecvParked, RecvNotified, wake);
    var threads := Signal(s.threads[t := Idle], RecvParked, RecvNotified, wake);
    assert multiset(threads)[SendParked] == multiset(s.threads)[SendParked];
  }

  lemma SendKeeps(s: System, t: nat, wake: nat)
    requires Inv(s) && Enabled(s, SendStep(t, wake))
    ensures Inv(Apply(s, SendStep(t, wake)))
  {
    hide WakeLaws, Signal;
    if |s.queue| >= CAP {
      MoveKeeps(s, t, SendParked);
    } else {
      SentKeeps(s, t, wake);
      assert s.received + (s.queue + [s.args[t]]) == s.sent + [s.args[t]];
    }
  }

  lemma TakenKeeps(s: System, threads: seq<Phase>, wake: nat)
    requires s.queue != [] && SignalChoice(threads, SendParked, wake) && Inv(s)
    requires |threads| == |s.threads| && (RecvParked in threads ==> RecvParked in s.threads)
    requires SendParked in threads ==> SendParked in s.threads
    requires multiset(threads)[RecvNotified] + 1 >= multiset(s.threads)[RecvNotified]
    requires multiset(threads)[SendNotified] == multiset(s.threads)[SendNotified]
    ensures Inv(Taken(s, threads, wake))
  {
    hide Signal;
    SignalCounts(threads, SendParked, SendNotified, wake);
    assert multiset(Signal(threads, SendParked, SendNotified, wake))[RecvParked] == multiset(threads)[RecvParked];
    assert s.received + [s.queue[0]] + s.queue[1..] == s.sent;
  }

  lemma RecvKeeps(s: System, t: nat, wake: nat)
    requires Inv(s) && Enabled(s, RecvStep(t, wake))
    ensures Inv(Apply(s, RecvStep(t, wake)))
  {
    if s.queue == [] {
      MoveKeeps(s, t, RecvParked);
    } else {
      UpdateCounts(s.threads, t, Idle);
      TakenKeeps(s, s.threads[t := Idle], wake);
    }
  }

  lemma StepKeepsInv(s: System, a: Action)
    requires Inv(s) && Enabled(s, a)
    ensures Inv(Apply(s, a))
  {
    hide WakeLaws, Signal;
    match a
    case CallSend(t, value) => MoveKeeps(s, t, SendReady);
    case CallRecv(t) => MoveKeeps(s, t, RecvReady);
    case SendStep(t, wake) => SendKeeps(s, t, wake);
    case RecvStep(t, wake) => RecvKeeps(s, t, wake);
    case TryRecv(t, wake) =>
      if s.queue != [] { TakenKeeps(s, s.threads, wake); }
    case Spurious(t) =>
      MoveKeeps(s, t, if s.threads[t] == SendParked then SendNotified else RecvNotified);
  }

  /**
   * In every reachable state the wake laws hold and what has been received is a prefix of
   * what has been sent, in order, with the rest still in the ring.
   */
  lemma {:induction false} DeliversInOrder(s: System, run: seq<Action>)
    requires Inv(s) && Legal(s, run)
    ensures Inv(After(s, run)) && After(s, run).received <= After(s, run).sent
    decreases |run|
  {
    if run != [] {
      StepKeepsInv(s, run[0]);
      DeliversInOrder(Apply(s, run[0]), run[1..]);
    }
  }

  // ---- the values handed in are the values delivered ----------------------------------

  /** The value of thread `t`'s latest call to send. */
  ghost function LatestValue(run: seq<Action>, t: nat): int {
    if run == [] then 0
    else
      var n := |run| - 1;
      if run[n].CallSend? && run[n].t == t then run[n].value else LatestValue(run[..n], t)
  }

  lemma {:induction false} LegalSplits(s: System, run: seq<Action>, a: Action)
    requires Legal(s, run + [a])
    ensures Legal(s, run) && Enabled(After(s, run), a) && After(s, run + [a]) == Apply(After(s, run), a)
    decreases |run|
  {
    if run != [] {
      hide Apply, Enabled;
      assert (run + [a])[0] == run[0] && (run + [a])[1..] == run[1..] + [a];
      LegalSplits(Apply(s, run[0]), run[1..], a);
    } else {
      assert run + [a] == [a] && [a][1..] == [];
    }
  }

  /** A send completes exactly when the ring has room. */
  ghost predicate Completes(s: System, a: Action) { a.SendStep? && |s.queue| < CAP }

  /** The values the senders handed in, in the order in which their sends completed. */
  ghost function HandedIn(s: System, run: seq<Action>): seq<int>
    requires Legal(s, run)
  {
    if run == [] then []
    else
      var n := |run| - 1;
      assert run == run[..n] + [run[n]];
      LegalSplits(s, run[..n], run[n]);
      HandedIn(s, run[..n])
        + if Completes(After(s, run[..n]), run[n]) then [LatestValue(run[..n], run[n].t)] else []
  }

  ghost predicate HoldsValues(s: System, run: seq<Action>) {
    && |s.threads| == |s.args|
    && forall t :: 0 <= t < |s.threads| && s.threads[t] in {SendReady, SendParked, SendNotified} ==>
      s.args[t] == LatestValue(run, t)
  }

  lemma LatestStep(run: seq<Action>, a: Action, t: nat)
    ensures LatestValue(run + [a], t) == if a.CallSend? && a.t == t then a.value else LatestValue(run, t)
  {
    assert (run + [a])[..|run|] == run;
  }

  lemma StepHolds(s: System, run: seq<Action>, a: Action)
    requires HoldsValues(s, run) && Enabled(s, a)
    ensures HoldsValues(Apply(s, a), run + [a])
  {
    hide LatestValue;
    forall t: nat
      ensures LatestValue(run + [a], t) == if a.CallSend? && a.t == t then a.value else LatestValue(run, t)
    {
      LatestStep(run, a, t);
    }
  }

  lemma StepSends(s: System, run: seq<Action>, a: Action)
    requires HoldsValues(s, run) && Enabled(s, a)
    ensures Apply(s, a).sent == s.sent + if Completes(s, a) then [LatestValue(run, a.t)] else []
  {
    hide LatestValue, Signal;
  }

  /** What is received is what the senders handed in, in the order in which their sends completed. */
  lemma {:induction false} DeliversWhatWasHandedIn(s: System, run: seq<Action>)
    requires Initial(s) && Legal(s, run)
    ensures HoldsValues(After(s, run), run)
    ensures After(s, run).sent == HandedIn(s, run) && After(s, run).received <= HandedIn(s, run)
    decreases |run|
  {
    InitialInv(s);
    DeliversInOrder(s, run);
    if run != [] {
      var n := |run| - 1;
      var before, a := run[..n], run[n];
      assert run == before + [a];
      LegalSplits(s, before, a);
      DeliversWhatWasHandedIn(s, before);
      hide Initial, Apply, Enabled, HoldsValues, LatestValue, Inv;
      StepHolds(After(s, before), before, a);
      StepSends(After(s, before), before, a);
    }
  }

  /** A receive delivers the oldest value not yet received, if there is one; only the waiting form waits. */
  lemma ReceiveDelivers(s: System, a: Action)
    requires Inv(s) && Enabled(s, a) && (a.RecvStep? || a.TryRecv?)
    ensures var s' := Apply(s, a);
      if |s.received| < |s.sent| then s'.received == s.received + [s.sent[|s.received|]] && s'.threads[a.t] == Idle
      else s'.received == s.received && s'.threads[a.t] == if a.RecvStep? then RecvParked else Idle
  {
    hide WakeLaws;
    assert s.sent[|s.received|..] == s.queue;
  }

  lemma InitialInv(s: System)
    requires Initial(s)
    ensures Inv(s)
  {
    if RecvParked in s.threads || SendParked in s.threads {
      assert false;
    }
  }

  /** Steps of calls under way. */
  predicate Progress(a: Action) { a.SendStep? || a.RecvStep? }

  ghost function Weight(): Phase -> nat {
    (p: Phase) => match p
      case Idle => 0
      case SendReady => 3
      case SendParked => 2
      case SendNotified => 3
      case RecvReady => 2
      case RecvParked => 1
      case RecvNotified => 2
  }

  ghost function Measure(s: System): nat { |s.queue| + Total(s.threads, Weight()) }

  lemma ProgressDescends(s: System, a: Action)
    requires Enabled(s, a) && Progress(a)
    ensures Measure(Apply(s, a)) < Measure(s)
  {
    hide Signal;
    TotalUpdate(s.threads, Weight(), a.t, Idle);
    if a.SendStep? {
      TotalUpdate(s.threads, Weight(), a.t, SendParked);
      TotalSignal(s.threads[a.t := Idle], RecvParked, RecvNotified, a.wake, Weight());
    } else {
      TotalUpdate(s.threads, Weight(), a.t, RecvParked);
      TotalSignal(s.threads[a.t := Idle], SendParked, SendNotified, a.wake, Weight());
    }
  }

  /** Without new calls and spurious wake-ups every run is finite. */
  lemma {:induction false} RunsAreBounded(s: System, run: seq<Action>)
    requires Legal(s, run) && forall i :: 0 <= i < |run| ==> Progress(run[i])
    ensures |run| + Measure(After(s, run)) <= Measure(s)
    decreases |run|
  {
    if run != [] {
      ProgressDescends(s, run[0]);
      RunsAreBounded(Apply(s, run[0]), run[1..]);
    }
  }

  ghost predicate Quiescent(s: System) {
    forall a :: Progress(a) ==> !Enabled(s, a)
  }

  lemma NobodyReady(s: System)
    requires Inv(s) && Quiescent(s)
    ensures forall t :: 0 <= t < |s.threads| ==> s.threads[t] in {Idle, SendParked, RecvParked}
  {
    forall t | 0 <= t < |s.threads|
      ensures s.threads[t] in {Idle, SendParked, RecvParked}
    {
      var i := SomeChoice(s.threads[t := Idle], RecvParked);
      var j := SomeChoice(s.threads[t := Idle], SendParked);
      var send, recv := SendStep(t, i), RecvStep(t, j);
      assert Progress(send) && Enabled(s, send) == (s.threads[t] in {SendReady, SendNotified});
      assert Progress(recv) && Enabled(s, recv) == (s.threads[t] in {RecvReady, RecvNotified});
      match s.threads[t]
      case Idle | SendParked | RecvParked =>
      case SendReady | SendNotified | RecvReady | RecvNotified =>
    }
  }

  /**
   * No wake-up is lost: when nothing can move, a waiting sender means a full ring and a
   * waiting receiver an empty one, so senders and receivers never wait at the same time.
   */
  lemma NoLostWakeups(s: System)
    requires Inv(s) && Quiescent(s)
    ensures forall t :: 0 <= t < |s.threads| ==> s.threads[t] in {Idle, SendParked, RecvParked}
    ensures SendParked in s.threads ==> |s.queue| == CAP
    ensures RecvParked in s.threads ==> s.queue == []
    ensures !(SendParked in s.threads && RecvParked in s.threads)
  {
    NobodyReady(s);
    assert SendNotified !in s.threads && RecvNotified !in s.threads;
  }
}
