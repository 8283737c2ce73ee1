/** What every run of the worker pool guarantees. */
module PoolTheorems {
  import opened Monitor
  import opened WorkerPools
  import opened PoolSystem

  // ---- exactly once, in order ---------------------------------------------------------

  /** The job an action starts: the one the ring hands out. */
  ghost function Starts(s: System, a: Action): seq<Task>
    requires Enabled(s, a)
  {
    if a.WorkerPoll? && Poll(s.pool).0.Took? then [Poll(s.pool).0.task] else []
  }

  /** The jobs started over a run, in starting order. */
  ghost function StartedOver(s: System, run: seq<Action>): seq<Task>
    requires Legal(s, run)
    decreases |run|
  {
    if run == [] then [] else Starts(s, run[0]) + StartedOver(Apply(s, run[0]), run[1..])
  }

  /** What a step does to the history: accepted jobs only grow, and at most the next one starts. */
  ghost predicate Continues(s: System, s': System, starts: seq<Task>) {
    && s.accepted <= s'.accepted && s.started <= s'.started <= |s'.accepted|
    && starts == s'.accepted[s.started..s'.started] && s.done <= s'.done
  }

  lemma PollHistory(s: System, w: nat, wake: nat)
    requires Enabled(s, WorkerPoll(w, wake)) && s.started <= |s.accepted| && s.pool.queue == s.accepted[s.started..]
    ensures Continues(s, ApplyPoll(s, w, wake), Starts(s, WorkerPoll(w, wake)))
  {
    hide Signal, Enabled;
    if s.pool.queue != [] {
      assert s.accepted[s.started..s.started + 1] == [s.pool.queue[0]];
    }
  }

  lemma SubmitHistory(s: System, c: nat, wake: nat)
    requires Enabled(s, SubmitStep(c, wake)) && s.started <= |s.accepted|
    ensures Continues(s, ApplySubmit(s, c, wake), [])
  {
    hide Signal, Enabled;
  }

  /** Other steps start nothing and accept nothing. */
  lemma OtherHistory(s: System, a: Action)
    requires Enabled(s, a) && !a.WorkerPoll? && !a.SubmitStep? && s.started <= |s.accepted|
    ensures Continues(s, Apply(s, a), [])
  {
    hide Broadcast, Enabled;
  }

  /** One step appends to the accepted jobs at most, and starts at most the next one. */
  lemma StepHistory(s: System, a: Action)
    requires Inv(s) && Enabled(s, a)
    ensures Continues(s, Apply(s, a), Starts(s, a))
  {
    hide WakeLaws, ShutdownLaws, RunningJobs, OneWorkerPerJob, Below, Continues, Enabled;
    match a
    case WorkerPoll(w, wake) => PollHistory(s, w, wake);
    case SubmitStep(c, wake) => SubmitHistory(s, c, wake);
    case _ => OtherHistory(s, a);
  }

  lemma SliceJoin<T>(x: seq<T>, y: seq<T>, a: nat, b: nat, c: nat)
    requires x <= y && a <= b <= |x| && b <= c <= |y|
    ensures x[a..b] + y[b..c] == y[a..c]
  {
  }

  /** Jobs start in acceptance order, each exactly once: the started jobs are the next accepted ones. */
  lemma {:induction false} StartedInOrder(s: System, run: seq<Action>)
    requires Inv(s) && Legal(s, run)
    ensures var t := After(s, run);
            && s.accepted <= t.accepted
            && s.started <= t.started <= |t.accepted|
            && StartedOver(s, run) == t.accepted[s.started..t.started]
            && s.done <= t.done
    decreases |run|
  {
    if run != [] {
      hide Inv, Apply, Enabled, Starts;
      var s' := Apply(s, run[0]);
      StepHistory(s, run[0]);
      StepKeepsInv(s, run[0]);
      StartedInOrder(s', run[1..]);
      var t := After(s, run);
      SliceJoin(s'.accepted, t.accepted, s.started, s'.started, t.started);
    }
  }

  /** From creation: the jobs started are the first accepted ones, and none is anywhere twice. */
  lemma ExactlyOnce(s: System, run: seq<Action>)
    requires Initial(s) && Legal(s, run)
    ensures var t := After(s, run);
            && t.started <= |t.accepted|
            && StartedOver(s, run) == t.accepted[..t.started]
            && t.accepted == StartedOver(s, run) + t.pool.queue
            && |t.accepted| == |t.pool.queue| + |RunningJobs(t.workers)| + t.pool.completed
            && t.pool.outstanding == |t.pool.queue| + |RunningJobs(t.workers)|
            && OneWorkerPerJob(t.workers) && t.done !! RunningJobs(t.workers)
  {
    InitialInv(s);
    StartedInOrder(s, run);
    RunKeepsInv(s, run);
    var t := After(s, run);
    assert t.accepted == t.accepted[..t.started] + t.accepted[t.started..];
    assert |t.done + RunningJobs(t.workers)| == |t.done| + |RunningJobs(t.workers)|;
  }

  // ---- the jobs handed in are the jobs run --------------------------------------------

  /** The job of client `c`'s latest call to submit; a call without a function is no call. */
  ghost function LatestJob(run: seq<Action>, c: nat): Task {
    if run == [] then Task(0, 0, false)
    else
      var n := |run| - 1;
      if run[n].CallSubmit? && run[n].c == c && run[n].task.fn != 0 then run[n].task else LatestJob(run[..n], c)
  }

  lemma {:induction false} LegalSplits(s: System, run: seq<Action>, a: Action)
    requires Legal(s, run + [a])
    ensures Legal(s, run) && Enabled(After(s, run), a) && After(s, run + [a]) == Apply(After(s, run), a)
    decreases |run|
  {
    if run != [] {
      hide Apply, Enabled;
      assert (run + [a])[0] == run[0] && (run + [a])[1..] == run[1..] + [a];
      LegalSplits(Apply(s, run[0]), run[1..], a);
    } else {
      assert run + [a] == [a] && [a][1..] == [];
    }
  }

  /** The pool takes a job exactly when it is open and the ring has room. */
  ghost predicate TakesJob(s: System, a: Action) {
    a.SubmitStep? && !s.pool.shutdown && |s.pool.queue| < s.pool.cap
  }

  /** The jobs the callers handed in, in the order in which the pool took them. */
  ghost function HandedIn(s: System, run: seq<Action>): seq<Task>
    requires Legal(s, run)
  {
    if run == [] then []
    else
      var n := |run| - 1;
      assert run == run[..n] + [run[n]];
      LegalSplits(s, run[..n], run[n]);
      HandedIn(s, run[..n])
        + if TakesJob(After(s, run[..n]), run[n]) then [LatestJob(run[..n], run[n].c)] else []
  }

  /** A client inside a submit call still holds the job it called with. */
  ghost predicate HoldsJobs(s: System, run: seq<Action>) {
    && |s.clients| == |s.args|
    && forall c :: 0 <= c < |s.clients| && s.clients[c] in {SubReady, SubParked, SubNotified} ==>
      s.args[c] == LatestJob(run, c)
  }

  lemma LatestStep(run: seq<Action>, a: Action, c: nat)
    ensures LatestJob(run + [a], c)
         == if a.CallSubmit? && a.c == c && a.task.fn != 0 then a.task else LatestJob(run, c)
  {
    assert (run + [a])[..|run|] == run;
  }

  lemma StepHolds(s: System, run: seq<Action>, a: Action)
    requires HoldsJobs(s, run) && Enabled(s, a)
    ensures HoldsJobs(Apply(s, a), run + [a])
  {
    hide LatestJob;
    forall c: nat ensures LatestJob(run + [a], c)
         == if a.CallSubmit? && a.c == c && a.task.fn != 0 then a.task else LatestJob(run, c)
    {
      LatestStep(run, a, c);
    }
  }

  /** What a step accepts: the job held by the client, or nothing. */
  lemma StepAccepts(s: System, a: Action)
    requires Enabled(s, a) && |s.clients| == |s.args| && |s.pool.queue| <= s.pool.cap
    ensures Apply(s, a).accepted == s.accepted + if TakesJob(s, a) then [s.args[a.c]] else []
    ensures a.SubmitStep? ==>
      (Apply(s, a).clients[a.c] == SubParked <==> !s.pool.shutdown && |s.pool.queue| == s.pool.cap)
  {
    hide Signal, Broadcast;
  }

  lemma {:induction false} RunHolds(s: System, run: seq<Action>)
    requires Initial(s) && Legal(s, run)
    ensures HoldsJobs(After(s, run), run) && After(s, run).accepted == HandedIn(s, run)
    decreases |run|
  {
    if run != [] {
      var n := |run| - 1;
      var before, a := run[..n], run[n];
      assert run == before + [a];
      LegalSplits(s, before, a);
      RunHolds(s, before);
      InitialInv(s);
      RunKeepsInv(s, before);
      hide Initial, Apply, Enabled, HoldsJobs, LatestJob;
      StepHolds(After(s, before), before, a);
      HeldJob(After(s, before), before, a);
    }
  }

  lemma HeldJob(s: System, run: seq<Action>, a: Action)
    requires HoldsJobs(s, run) && Enabled(s, a) && |s.pool.queue| <= s.pool.cap
    ensures Apply(s, a).accepted == s.accepted + if TakesJob(s, a) then [LatestJob(run, a.c)] else []
  {
    hide Apply, LatestJob;
    StepAccepts(s, a);
  }

  /**
   * The accepted jobs are the jobs the callers handed in, in the order in which the pool took
   * them, and the started jobs are the first of these.
   */
  lemma RunsWhatWasHandedIn(s: System, run: seq<Action>)
    requires Initial(s) && Legal(s, run)
    ensures After(s, run).accepted == HandedIn(s, run)
    ensures StartedOver(s, run) <= HandedIn(s, run)
    ensures |HandedIn(s, run)| == |StartedOver(s, run)| + |After(s, run).pool.queue|
  {
    hide Initial, Legal, After, HandedIn, StartedOver, OneWorkerPerJob, RunningJobs;
    RunHolds(s, run);
    ExactlyOnce(s, run);
  }

  // ---- join ---------------------------------------------------------------------------

  ghost predicate AllAcceptedDone(s: System) { s.done == Below(|s.accepted|) }

  lemma NothingOutstanding(s: System)
    requires Inv(s)
    ensures s.pool.outstanding == 0 <==> AllAcceptedDone(s)
    ensures s.pool.outstanding == 0 ==> s.pool.queue == [] && s.started == |s.accepted|
  {
    if AllAcceptedDone(s) {
      assert Below(s.started) <= Below(|s.accepted|);
      assert |s.done + RunningJobs(s.workers)| == |s.done| + |RunningJobs(s.workers)|;
      assert RunningJobs(s.workers) == {};
    }
  }

  /** A join step returns exactly when every job accepted so far has completed; otherwise it parks. */
  lemma JoinReturnsWhenDone(s: System, c: nat)
    requires Inv(s) && Enabled(s, JoinStep(c))
    ensures var s' := Apply(s, JoinStep(c));
            && (s'.clients[c] == Idle <==> AllAcceptedDone(s))
            && (s'.clients[c] == JoinParked <==> !AllAcceptedDone(s))
  {
    NothingOutstanding(s);
  }

  // ---- shutdown -----------------------------------------------------------------------

  lemma StepShutDown(s: System, a: Action)
    requires Enabled(s, a) && s.pool.shutdown
    ensures Apply(s, a).pool.shutdown && Apply(s, a).accepted == s.accepted
  {
    hide Signal, Broadcast;
  }

  /** Once the flag is set it stays set, nothing more is accepted, and nobody waits for work or space. */
  lemma {:induction false} ShutdownIsFinal(s: System, run: seq<Action>)
    requires Inv(s) && Legal(s, run) && s.pool.shutdown
    ensures var t := After(s, run);
            && t.pool.shutdown && t.accepted == s.accepted
            && Parked !in t.workers && SubParked !in t.clients
    decreases |run|
  {
    if run != [] {
      StepShutDown(s, run[0]);
      hide Inv, Apply, Enabled;
      StepKeepsInv(s, run[0]);
      ShutdownIsFinal(Apply(s, run[0]), run[1..]);
    }
  }

  ghost predicate AllExited(s: System) {
    forall w :: 0 <= w < |s.workers| ==> s.workers[w] == Exited
  }

  ghost predicate Drained(s: System) {
    s.pool.queue == [] && s.pool.outstanding == 0 && AllAcceptedDone(s)
  }

  /** Once every worker has exited, every accepted job has run. */
  lemma ShutdownDrains(s: System)
    requires Inv(s) && AllExited(s)
    ensures Drained(s)
  {
    assert s.workers[0] == Exited;
    assert RunningJobs(s.workers) == {};
    NothingOutstanding(s);
  }

  /** The first shutdown call goes on to join the threads; every other one returns at once. */
  lemma FirstCallJoins(s: System, c: nat)
    requires Enabled(s, ShutdownStep(c))
    ensures var s' := Apply(s, ShutdownStep(c));
            && s'.pool.shutdown && s'.pool.joined && |s'.clients| == |s.clients|
            && s'.clients[c] == (if s.pool.joined then Idle else Joining)
  {
  }

  /** Client `c` is joining the threads, or they have all exited. */
  ghost predicate Awaits(s: System, c: nat) {
    s.pool.shutdown && c < |s.clients| && (s.clients[c] == Joining || AllExited(s))
  }

  lemma StepKeepsExited(s: System, a: Action)
    requires Enabled(s, a) && AllExited(s)
    ensures AllExited(Apply(s, a))
  {
  }

  lemma StepAwaits(s: System, a: Action, c: nat)
    requires Enabled(s, a) && Awaits(s, c)
    ensures Awaits(Apply(s, a), c)
  {
    if AllExited(s) {
      StepKeepsExited(s, a);
    }
  }

  /**
   * Over any run, a call that joins the threads stays in the join until the pool is drained:
   * wherever it has returned, every accepted job has run.
   */
  lemma {:induction false} JoiningUntilDrained(s: System, run: seq<Action>, c: nat)
    requires Inv(s) && Legal(s, run) && Awaits(s, c)
    ensures var t := After(s, run); c < |t.clients| && (t.clients[c] == Joining || Drained(t))
    decreases |run|
  {
    if run == [] {
      if AllExited(s) { ShutdownDrains(s); }
    } else {
      hide Inv, Awaits, Apply, Enabled;
      StepKeepsInv(s, run[0]);
      StepAwaits(s, run[0], c);
      JoiningUntilDrained(Apply(s, run[0]), run[1..], c);
    }
  }

  /** After shutdown a drained pool stays drained. */
  lemma StaysDrained(s: System, run: seq<Action>)
    requires Inv(s) && Legal(s, run) && s.pool.shutdown && Drained(s)
    ensures Drained(After(s, run))
  {
    ShutdownIsFinal(s, run);
    StartedInOrder(s, run);
    RunKeepsInv(s, run);
    var t := After(s, run);
    assert t.done <= Below(t.started) <= Below(|t.accepted|);
    NothingOutstanding(t);
  }

  /** Wherever the shutdown call of client `c` has returned, the pool is drained. */
  ghost predicate ReturnsDrained(s: System, c: nat)
    requires Enabled(s, ShutdownStep(c))
  {
    var s' := Apply(s, ShutdownStep(c));
    forall run :: Legal(s', run) && c < |After(s', run).clients| && After(s', run).clients[c] != Joining ==>
      Drained(After(s', run))
  }

  /**
   * Exactly when a shutdown call returns on a drained pool only: when no other call joined the
   * threads before it, or nothing was outstanding when it was made.
   */
  lemma ShutdownReturnsDrained(s: System, c: nat)
    requires Inv(s) && Enabled(s, ShutdownStep(c))
    ensures ReturnsDrained(s, c) <==> !s.pool.joined || s.pool.outstanding == 0
  {
    var s' := Apply(s, ShutdownStep(c));
    FirstCallJoins(s, c);
    StepKeepsInv(s, ShutdownStep(c));
    NothingOutstanding(s);
    if s.pool.joined && s.pool.outstanding != 0 {
      assert Legal(s', []) && After(s', []) == s';
      assert !Drained(s');
    } else {
      forall run | Legal(s', run) && c < |After(s', run).clients| && After(s', run).clients[c] != Joining
        ensures Drained(After(s', run))
      {
        if s.pool.joined {
          StaysDrained(s', run);
        } else {
          JoiningUntilDrained(s', run, c);
        }
      }
    }
  }

  /** One idle worker, three clients, and nothing started yet. */
  ghost function Scene(t: Task, queue: seq<Task>, closed: bool, clients: seq<Client>): System {
    System(Pool(MIN_QUEUE, queue, closed, closed, |queue|, 0), [Ready], clients, [t, t, t], queue, 0, {})
  }

  lemma SceneSubmit(t: Task)
    requires t.fn != 0
    ensures var s, a := Scene(t, [], false, [Idle, Idle, Idle]), CallSubmit(0, t);
            Enabled(s, a) && Apply(s, a) == Scene(t, [], false, [SubReady, Idle, Idle])
    ensures var s, a := Scene(t, [], false, [SubReady, Idle, Idle]), SubmitStep(0, 0);
            Enabled(s, a) && Apply(s, a) == Scene(t, [t], false, [Idle, Idle, Idle])
  {
  }

  lemma SceneShutdown(t: Task)
    ensures var s, a := Scene(t, [t], false, [Idle, Idle, Idle]), CallShutdown(1);
            Enabled(s, a) && Apply(s, a) == Scene(t, [t], false, [Idle, ShutReady, Idle])
    ensures var s, a := Scene(t, [t], false, [Idle, ShutReady, Idle]), ShutdownStep(1);
            Enabled(s, a) && Apply(s, a) == Scene(t, [t], true, [Idle, Joining, Idle])
  {
  }

  lemma SceneSecond(t: Task)
    ensures var s, a := Scene(t, [t], true, [Idle, Joining, Idle]), CallShutdown(2);
            Enabled(s, a) && Apply(s, a) == Scene(t, [t], true, [Idle, Joining, ShutReady])
    ensures var s, a := Scene(t, [t], true, [Idle, Joining, ShutReady]), ShutdownStep(2);
            Enabled(s, a) && Apply(s, a) == Scene(t, [t], true, [Idle, Joining, Idle])
  {
  }

  /**
   * A shutdown call that finds the join already under way returns at once, and then the pool
   * need not be drained: here the only accepted job is still waiting in the ring.
   */
  lemma SecondShutdownReturnsEarly(t: Task) returns (s: System, run: seq<Action>)
    requires t.fn != 0
    ensures Initial(s) && Legal(s, run) && |run| > 0 && run[|run| - 1] == ShutdownStep(2)
    ensures var end := After(s, run);
            |end.clients| == 3 && end.clients[2] == Idle && end.pool.queue == [t]
  {
    s := Scene(t, [], false, [Idle, Idle, Idle]);
    hide Apply, Enabled;
    SceneSubmit(t);
    SceneShutdown(t);
    SceneSecond(t);
    var r5 := [ShutdownStep(2)] + [];
    var r4 := [CallShutdown(2)] + r5;
    var r3 := [ShutdownStep(1)] + r4;
    var r2 := [CallShutdown(1)] + r3;
    var r1 := [SubmitStep(0, 0)] + r2;
    LegalStep(Scene(t, [t], true, [Idle, Joining, ShutReady]), ShutdownStep(2), []);
    LegalStep(Scene(t, [t], true, [Idle, Joining, Idle]), CallShutdown(2), r5);
    LegalStep(Scene(t, [t], false, [Idle, ShutReady, Idle]), ShutdownStep(1), r4);
    LegalStep(Scene(t, [t], false, [Idle, Idle, Idle]), CallShutdown(1), r3);
    LegalStep(Scene(t, [], false, [SubReady, Idle, Idle]), SubmitStep(0, 0), r2);
    LegalStep(s, CallSubmit(0, t), r1);
    run := [CallSubmit(0, t)] + r1;
  }

  lemma LegalStep(s: System, a: Action, rest: seq<Action>)
    requires Enabled(s, a) && Legal(Apply(s, a), rest)
    ensures Legal(s, [a] + rest) && After(s, [a] + rest) == After(Apply(s, a), rest)
  {
    assert ([a] + rest)[1..] == rest;
  }

  // ---- progress -----------------------------------------------------------------------

  /** A step of a call or worker under way, as opposed to a new call or a spurious wake-up. */
  predicate Progress(a: Action) {
    !a.CallSubmit? && !a.CallJoin? && !a.CallShutdown? && !a.SpuriousWorker? && !a.SpuriousClient?
  }

  ghost function WorkerWeight(j: nat): Worker -> nat {
    (w: Worker) => match w
      case Parked => 0
      case Exited => 0
      case Ready => 1
      case Notified => 1
      case Running(_) => 2 + j
  }

  ghost function ClientWeight(n: nat, j: nat): Client -> nat {
    (c: Client) => match c
      case Idle => 0
      case SubReady => j + 5
      case SubParked => j + 4
      case SubNotified => j + 5
      case JoinReady => 1
      case JoinParked => 0
      case JoinNotified => 1
      case ShutReady => n + j + 2
      case Joining => 1
  }

  /** Work left: what is queued, what the workers hold, and what the calls under way may still cause. */
  ghost function Measure(s: System): nat {
    var n, j := |s.workers|, |s.clients|;
    |s.pool.queue| * (j + 3) + Total(s.workers, WorkerWeight(j)) + Total(s.clients, ClientWeight(n, j))
  }

  lemma QueueWeight(a: nat, j: nat)
    ensures (a + 1) * (j + 3) == a * (j + 3) + (j + 3)
  {
  }

  lemma PollDescends(s: System, w: nat, wake: nat)
    requires Enabled(s, WorkerPoll(w, wake))
    ensures Measure(ApplyPoll(s, w, wake)) < Measure(s)
  {
    hide Signal;
    var s' := ApplyPoll(s, w, wake);
    var n, j := |s.workers|, |s.clients|;
    TotalUpdate(s.workers, WorkerWeight(j), w, s'.workers[w]);
    if s.pool.queue != [] {
      TotalSignal(s.clients, SubParked, SubNotified, wake, ClientWeight(n, j));
      QueueWeight(|s'.pool.queue|, j);
    }
  }

  lemma FinishDescends(s: System, w: nat)
    requires Enabled(s, WorkerFinish(w))
    ensures Measure(ApplyFinish(s, w)) < Measure(s)
  {
    hide Broadcast;
    var n, j := |s.workers|, |s.clients|;
    TotalUpdate(s.workers, WorkerWeight(j), w, Ready);
    TotalBroadcast(s.clients, JoinParked, JoinNotified, ClientWeight(n, j));
  }

  lemma SubmitDescends(s: System, c: nat, wake: nat)
    requires Enabled(s, SubmitStep(c, wake))
    ensures Measure(ApplySubmit(s, c, wake)) < Measure(s)
  {
    hide Signal;
    var s' := ApplySubmit(s, c, wake);
    var n, j := |s.workers|, |s.clients|;
    TotalUpdate(s.clients, ClientWeight(n, j), c, s'.clients[c]);
    TotalSignal(s.workers, Parked, Notified, wake, WorkerWeight(j));
    QueueWeight(|s.pool.queue|, j);
  }

  lemma ShutdownDescends(s: System, c: nat)
    requires Enabled(s, ShutdownStep(c)) && c < |s.clients| && s.clients[c] == ShutReady
    ensures Measure(ApplyShutdown(s, c)) < Measure(s)
  {
    hide Broadcast, Total, Enabled;
    var n, j := |s.workers|, |s.clients|;
    var clients := s.clients[c := if s.pool.joined then Idle else Joining];
    TotalUpdate(s.clients, ClientWeight(n, j), c, clients[c]);
    TotalBroadcast(clients, SubParked, SubNotified, ClientWeight(n, j));
    TotalBroadcast(s.workers, Parked, Notified, WorkerWeight(j));
  }

  /** Every worker or client step makes the measure smaller, open or shut down. */
  lemma ProgressDescends(s: System, a: Action)
    requires Enabled(s, a) && Progress(a)
    ensures Measure(Apply(s, a)) < Measure(s)
  {
    var n, j := |s.workers|, |s.clients|;
    match a
    case WorkerPoll(w, wake) => PollDescends(s, w, wake);
    case WorkerFinish(w) => FinishDescends(s, w);
    case SubmitStep(c, wake) => SubmitDescends(s, c, wake);
    case JoinStep(c) =>
      TotalUpdate(s.clients, ClientWeight(n, j), c, if s.pool.outstanding > 0 then JoinParked else Idle);
    case ShutdownStep(c) => ShutdownDescends(s, c);
    case ThreadsJoined(c) => TotalUpdate(s.clients, ClientWeight(n, j), c, Idle);
  }

  /** Without new calls and spurious wake-ups every run is finite, bounded by the measure. */
  lemma {:induction false} RunsAreBounded(s: System, run: seq<Action>)
    requires Legal(s, run) && forall i :: 0 <= i < |run| ==> Progress(run[i])
    ensures |run| + Measure(After(s, run)) <= Measure(s)
    decreases |run|
  {
    if run != [] {
      ProgressDescends(s, run[0]);
      RunsAreBounded(Apply(s, run[0]), run[1..]);
    }
  }

  /** No worker and no call under way can take a step. */
  ghost predicate Quiescent(s: System) {
    forall a :: Progress(a) ==> !Enabled(s, a)
  }

  lemma QuiescentWorkers(s: System)
    requires Inv(s) && Quiescent(s)
    ensures forall w :: 0 <= w < |s.workers| ==> s.workers[w] in {Parked, Exited}
  {
    var wake := SomeChoice(s.clients, SubParked);
    forall w | 0 <= w < |s.workers|
      ensures s.workers[w] in {Parked, Exited}
    {
      assert !Enabled(s, WorkerPoll(w, wake));
      assert !Enabled(s, WorkerFinish(w));
    }
  }

  lemma QuiescentClients(s: System)
    requires Inv(s) && Quiescent(s)
    ensures forall c :: 0 <= c < |s.clients| ==> s.clients[c] in {Idle, SubParked, JoinParked, Joining}
  {
    var wake := SomeChoice(s.workers, Parked);
    forall c | 0 <= c < |s.clients|
      ensures s.clients[c] in {Idle, SubParked, JoinParked, Joining}
    {
      assert !Enabled(s, SubmitStep(c, wake));
      assert !Enabled(s, JoinStep(c));
      assert !Enabled(s, ShutdownStep(c));
    }
  }

  /**
   * No wake-up is ever lost: a state in which nothing can move has an empty ring, every
   * accepted job completed, and every call returned. The workers then wait for work, or have
   * all exited if the pool was shut down.
   */
  lemma NoLostWakeups(s: System)
    requires Inv(s) && Quiescent(s)
    ensures s.pool.queue == [] && AllAcceptedDone(s)
    ensures forall c :: 0 <= c < |s.clients| ==> s.clients[c] == Idle
    ensures forall w :: 0 <= w < |s.workers| ==> s.workers[w] == if s.pool.shutdown then Exited else Parked
  {
    QuiescentWorkers(s);
    QuiescentClients(s);
    assert Notified !in s.workers && SubNotified !in s.clients;
    assert s.workers[0] in s.workers;
    assert s.pool.queue == [];
    assert RunningJobs(s.workers) == {};
    NothingOutstanding(s);
    forall c | 0 <= c < |s.clients|
      ensures s.clients[c] == Idle
    {
      assert s.clients[c] in s.clients;
      assert !Enabled(s, ThreadsJoined(c));
    }
  }

  ghost predicate EverythingDone(s: System) {
    Drained(s) && forall c :: 0 <= c < |s.clients| ==> s.clients[c] == Idle
  }

  /** From creation, a run that has come to rest has done every accepted job and returned every call. */
  lemma RestMeansDone(s: System, run: seq<Action>)
    requires Initial(s) && Legal(s, run) && Quiescent(After(s, run))
    ensures EverythingDone(After(s, run))
  {
    hide Quiescent, Inv;
    InitialInv(s);
    RunKeepsInv(s, run);
    NoLostWakeups(After(s, run));
    NothingOutstanding(After(s, run));
  }

  /** Taking steps while there are any leads to rest. */
  lemma {:induction false} GoToRest(s: System) returns (run: seq<Action>)
    requires Inv(s)
    ensures Legal(s, run) && |run| <= Measure(s) && forall i :: 0 <= i < |run| ==> Progress(run[i])
    ensures EverythingDone(After(s, run))
    decreases Measure(s)
  {
    hide Inv, Enabled, Apply, Measure, Progress;
    if Quiescent(s) {
      run := [];
      NoLostWakeups(s);
      NothingOutstanding(s);
    } else {
      var a :| Progress(a) && Enabled(s, a);
      ProgressDescends(s, a);
      StepKeepsInv(s, a);
      var rest := GoToRest(Apply(s, a));
      LegalStep(s, a, rest);
      run := [a] + rest;
    }
  }

  /**
   * Whatever steps a run of the threads under way has taken, it can be continued to rest, and the
   * steps altogether are no more than the measure of the first state.
   */
  lemma ComesToRest(s: System, run: seq<Action>) returns (rest: seq<Action>)
    requires Inv(s) && Legal(s, run) && forall i :: 0 <= i < |run| ==> Progress(run[i])
    ensures forall i :: 0 <= i < |rest| ==> Progress(rest[i])
    ensures Legal(After(s, run), rest) && |run| + |rest| <= Measure(s)
    ensures EverythingDone(After(After(s, run), rest))
  {
    hide Inv, Enabled, Apply, Measure, EverythingDone;
    RunsAreBounded(s, run);
    RunKeepsInv(s, run);
    rest := GoToRest(After(s, run));
  }
}
