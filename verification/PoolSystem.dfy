/**
 * The worker pool as a transition system: any number of workers and client threads, one
 * lock-held section per step, arbitrary interleaving, signals that wake an arbitrary waiter,
 * and spurious wake-ups.
 */
module PoolSystem {
  import opened Monitor
  import opened WorkerPools

  /** `Running(k)` executes the k-th accepted job outside the lock. */
  datatype Worker = Ready | Parked | Notified | Running(job: nat) | Exited

  datatype Client =
    | Idle
    | SubReady | SubParked | SubNotified
    | JoinReady | JoinParked | JoinNotified
    | ShutReady | Joining

  /**
   * `args[c]` is the job client `c` is submitting. The history is the jobs accepted so far in
   * acceptance order, how many of them were started, and the indices of those that finished.
   */
  datatype System = System(
    pool: Pool, workers: seq<Worker>, clients: seq<Client>, args: seq<Task>,
    accepted: seq<Task>, started: nat, done: set<nat>)

  datatype Action =
    | WorkerPoll(w: nat, wake: nat)
    | WorkerFinish(w: nat)
    | CallSubmit(c: nat, task: Task)
    | CallJoin(c: nat)
    | CallShutdown(c: nat)
    | SubmitStep(c: nat, wake: nat)
    | JoinStep(c: nat)
    | ShutdownStep(c: nat)
    | ThreadsJoined(c: nat)
    | SpuriousWorker(w: nat)
    | SpuriousClient(c: nat)

  // ---- steps --------------------------------------------------------------------------

  ghost predicate Enabled(s: System, a: Action) {
    match a
    case WorkerPoll(w, wake) =>
      && w < |s.workers| && s.workers[w] in {Ready, Notified}
      && SignalChoice(s.clients, SubParked, wake)
    case WorkerFinish(w) => w < |s.workers| && s.workers[w].Running?
    case CallSubmit(c, task) => c < |s.clients| == |s.args| && s.clients[c] == Idle
    case CallJoin(c) => c < |s.clients| && s.clients[c] == Idle
    case CallShutdown(c) => c < |s.clients| && s.clients[c] == Idle
    case SubmitStep(c, wake) =>
      && c < |s.clients| == |s.args| && s.clients[c] in {SubReady, SubNotified}
      && SignalChoice(s.workers, Parked, wake)
    case JoinStep(c) => c < |s.clients| && s.clients[c] in {JoinReady, JoinNotified}
    case ShutdownStep(c) => c < |s.clients| && s.clients[c] == ShutReady
    case ThreadsJoined(c) =>
      && c < |s.clients| && s.clients[c] == Joining
      && forall w :: 0 <= w < |s.workers| ==> s.workers[w] == Exited
    case SpuriousWorker(w) => w < |s.workers| && s.workers[w] == Parked
    case SpuriousClient(c) => c < |s.clients| && s.clients[c] in {SubParked, JoinParked}
  }

  ghost function Apply(s: System, a: Action): System
    requires Enabled(s, a)
  {
    match a
    case WorkerPoll(w, wake) => ApplyPoll(s, w, wake)
    case WorkerFinish(w) => ApplyFinish(s, w)
    case CallSubmit(c, task) =>
      // a null function pointer is refused before the lock is taken
      if task.fn == 0 then s else s.(clients := s.clients[c := SubReady], args := s.args[c := task])
    case CallJoin(c) => s.(clients := s.clients[c := JoinReady])
    case CallShutdown(c) => s.(clients := s.clients[c := ShutReady])
    case SubmitStep(c, wake) => ApplySubmit(s, c, wake)
    case JoinStep(c) => s.(clients := s.clients[c := if Join(s.pool) == MustAwait then JoinParked else Idle])
    case ShutdownStep(c) => ApplyShutdown(s, c)
    case ThreadsJoined(c) => s.(clients := s.clients[c := Idle])
    case SpuriousWorker(w) => s.(workers := s.workers[w := Notified])
    case SpuriousClient(c) =>
      s.(clients := s.clients[c := if s.clients[c] == SubParked then SubNotified else JoinNotified])
  }

  ghost function ApplyPoll(s: System, w: nat, wake: nat): System
    requires Enabled(s, WorkerPoll(w, wake))
  {
    var (r, pool) := Poll(s.pool);
    match r
    case MustWait => s.(workers := s.workers[w := Parked])
    case MustExit => s.(workers := s.workers[w := Exited])
    case Took(_) =>
      s.(pool := pool, started := s.started + 1,
         workers := s.workers[w := Running(s.started)],
         clients := Signal(s.clients, SubParked, SubNotified, wake))
  }

  ghost function ApplyFinish(s: System, w: nat): System
    requires Enabled(s, WorkerFinish(w))
  {
    var pool := Finish(s.pool);
    s.(pool := pool, done := s.done + {s.workers[w].job}, workers := s.workers[w := Ready],
       clients := if pool.outstanding == 0 then Broadcast(s.clients, JoinParked, JoinNotified) else s.clients)
  }

  ghost function ApplySubmit(s: System, c: nat, wake: nat): System
    requires Enabled(s, SubmitStep(c, wake))
  {
    var (r, pool) := Submit(s.pool, s.args[c]);
    match r
    case MustPark => s.(clients := s.clients[c := SubParked])
    case Rejected => s.(clients := s.clients[c := Idle])
    case Accepted =>
      s.(pool := pool, accepted := s.accepted + [s.args[c]], clients := s.clients[c := Idle],
         workers := Signal(s.workers, Parked, Notified, wake))
  }

  /** The broadcasts come from the first call alone; only the first call joins the threads. */
  ghost function ApplyShutdown(s: System, c: nat): System
    requires Enabled(s, ShutdownStep(c))
  {
    var (broadcast, joins, pool) := Shutdown(s.pool);
    var clients := s.clients[c := if joins then Joining else Idle];
    s.(pool := pool,
       workers := if broadcast then Broadcast(s.workers, Parked, Notified) else s.workers,
       clients := if broadcast then Broadcast(clients, SubParked, SubNotified) else clients)
  }

  ghost predicate Initial(s: System) {
    && s.pool.cap > 0 && s.pool == Pool(s.pool.cap, [], false, false, 0, 0)
    && |s.workers| > 0 && (forall w :: 0 <= w < |s.workers| ==> s.workers[w] == Ready)
    && |s.clients| == |s.args| && (forall c :: 0 <= c < |s.clients| ==> s.clients[c] == Idle)
    && s.accepted == [] && s.started == 0 && s.done == {}
  }

  /** A run is a sequence of actions, each enabled where it is taken. */
  ghost predicate Legal(s: System, run: seq<Action>)
    decreases |run|
  {
    run == [] || (Enabled(s, run[0]) && Legal(Apply(s, run[0]), run[1..]))
  }

  ghost function After(s: System, run: seq<Action>): System
    requires Legal(s, run)
    decreases |run|
  {
    if run == [] then s else After(Apply(s, run[0]), run[1..])
  }

  // ---- invariants ---------------------------------------------------------------------

  /** Jobs being executed right now. */
  ghost function RunningJobs(workers: seq<Worker>): set<nat> {
    set w | 0 <= w < |workers| && workers[w].Running? :: workers[w].job
  }

  ghost predicate OneWorkerPerJob(workers: seq<Worker>) {
    forall v, w :: 0 <= v < w < |workers| && workers[v].Running? ==> workers[v] != workers[w]
  }

  ghost function Below(n: nat): (r: set<nat>)
    ensures forall k: nat :: k in r <==> k < n
    ensures |r| == n
  {
    if n == 0 then {} else Below(n - 1) + {n - 1}
  }

  /** Every accepted job is in exactly one place, and the counters count the places. */
  ghost predicate Accounting(s: System) {
    && s.started <= |s.accepted|
    && s.pool.queue == s.accepted[s.started..]
    && s.done !! RunningJobs(s.workers)
    && s.done + RunningJobs(s.workers) == Below(s.started)
    && OneWorkerPerJob(s.workers)
    && s.pool.completed == |s.done|
    && s.pool.outstanding == |s.pool.queue| + |RunningJobs(s.workers)|
  }

  /** The three laws that rule out lost wake-ups while the pool is open. */
  ghost predicate WakeLaws(s: System) {
    && (!s.pool.shutdown && Parked in s.workers ==>
          |s.pool.queue| <= multiset(s.workers)[Notified])
    && (!s.pool.shutdown && SubParked in s.clients ==>
          s.pool.cap <= |s.pool.queue| + multiset(s.clients)[SubNotified])
    && (JoinParked in s.clients ==> s.pool.outstanding > 0)
  }

  ghost predicate ShutdownLaws(s: System) {
    && (s.pool.shutdown ==> Parked !in s.workers && SubParked !in s.clients)
    && (Exited in s.workers ==> s.pool.shutdown && s.pool.queue == [])
    && (Joining in s.clients ==> s.pool.shutdown)
  }

  ghost predicate Inv(s: System) {
    && |s.pool.queue| <= s.pool.cap && s.pool.cap > 0
    && |s.workers| > 0 && |s.clients| == |s.args|
    && Accounting(s) && WakeLaws(s) && ShutdownLaws(s)
  }

  // ---- every step keeps the invariants ------------------------------------------------

  /** Replacing one worker's state changes the running jobs by that worker's job. */
  lemma RunningAfter(workers: seq<Worker>, w: nat, state: Worker)
    requires w < |workers| && OneWorkerPerJob(workers)
    requires state.Running? ==> state.job !in RunningJobs(workers)
    ensures OneWorkerPerJob(workers[w := state])
    ensures RunningJobs(workers[w := state])
         == RunningJobs(workers)
            - (if workers[w].Running? then {workers[w].job} else {})
            + (if state.Running? then {state.job} else {})
  {
    var after := workers[w := state];
    forall k
      ensures k in RunningJobs(after) <==>
              k in RunningJobs(workers) - (if workers[w].Running? then {workers[w].job} else {})
                   + (if state.Running? then {state.job} else {})
    {
      if k in RunningJobs(workers) {
        var v :| 0 <= v < |workers| && workers[v].Running? && workers[v].job == k;
        if v != w { assert after[v] == workers[v]; }
      }
      if state.Running? && k == state.job { assert after[w].Running?; }
    }
  }

  /** Waking workers starts and stops no job. */
  lemma RunningUnchanged(before: seq<Worker>, after: seq<Worker>)
    requires |before| == |after| && OneWorkerPerJob(before)
    requires forall w :: 0 <= w < |before| ==>
               after[w] == before[w] || (!before[w].Running? && !after[w].Running?)
    ensures OneWorkerPerJob(after) && RunningJobs(after) == RunningJobs(before)
  {
    forall k
      ensures k in RunningJobs(after) <==> k in RunningJobs(before)
    {
      if k in RunningJobs(before) {
        var v :| 0 <= v < |before| && before[v].Running? && before[v].job == k;
        assert after[v] == before[v];
      }
      if k in RunningJobs(after) {
        var v :| 0 <= v < |after| && after[v].Running? && after[v].job == k;
        assert after[v] == before[v];
      }
    }
  }

  /** A worker that neither holds nor takes a job changes state. */
  lemma WorkerMoveKeeps(s: System, w: nat, state: Worker)
    requires Inv(s) && w < |s.workers| && !s.workers[w].Running? && !state.Running?
    requires s.workers[w] == Notified ==> s.pool.queue == []
    requires state == Parked ==> !s.pool.shutdown && s.pool.queue == []
    requires state == Exited ==> s.pool.shutdown && s.pool.queue == []
    ensures Inv(s.(workers := s.workers[w := state]))
  {
    hide RunningJobs, OneWorkerPerJob;
    UpdateCounts(s.workers, w, state);
    RunningUnchanged(s.workers, s.workers[w := state]);
  }

  lemma TakeAccounts(s: System, w: nat, wake: nat)
    requires Inv(s) && Enabled(s, WorkerPoll(w, wake)) && s.pool.queue != []
    ensures Accounting(ApplyPoll(s, w, wake))
  {
    hide WakeLaws, ShutdownLaws, RunningJobs, OneWorkerPerJob, Signal, Below;
    var s' := ApplyPoll(s, w, wake);
    JobTaken(s.done, RunningJobs(s.workers), s.started);
    RunningAfter(s.workers, w, Running(s.started));
    assert s.pool.queue[1..] == s.accepted[s.started + 1..];
    assert RunningJobs(s'.workers) == RunningJobs(s.workers) + {s.started};
  }

  lemma JobTaken(done: set<nat>, running: set<nat>, k: nat)
    requires done !! running && done + running == Below(k)
    ensures k !in running && k !in done
    ensures done !! running + {k} && done + (running + {k}) == Below(k + 1)
    ensures |running + {k}| == |running| + 1
  {
    assert k !in Below(k);
  }

  lemma TakeKeepsLaws(s: System, w: nat, wake: nat)
    requires Inv(s) && Enabled(s, WorkerPoll(w, wake)) && s.pool.queue != []
    ensures WakeLaws(ApplyPoll(s, w, wake)) && ShutdownLaws(ApplyPoll(s, w, wake))
  {
    hide RunningJobs, OneWorkerPerJob, Signal;
    var s' := ApplyPoll(s, w, wake);
    var busy := Running(s.started);
    UpdateCounts(s.workers, w, busy);
    assert Parked in s'.workers ==> Parked in s.workers;
    assert Exited in s'.workers ==> Exited in s.workers;
    SignalCounts(s.clients, SubParked, SubNotified, wake);
    assert multiset(s'.clients)[JoinParked] == multiset(s.clients)[JoinParked];
    assert multiset(s'.clients)[Joining] == multiset(s.clients)[Joining];
  }

  lemma PollKeeps(s: System, w: nat, wake: nat)
    requires Inv(s) && Enabled(s, WorkerPoll(w, wake))
    ensures Inv(ApplyPoll(s, w, wake))
  {
    if s.pool.queue == [] {
      WorkerMoveKeeps(s, w, if s.pool.shutdown then Exited else Parked);
    } else {
      TakeAccounts(s, w, wake);
      TakeKeepsLaws(s, w, wake);
    }
  }

  lemma FinishAccounts(s: System, w: nat)
    requires Inv(s) && Enabled(s, WorkerFinish(w))
    ensures Accounting(ApplyFinish(s, w))
  {
    var s' := ApplyFinish(s, w);
    var k := s.workers[w].job;
    assert k in RunningJobs(s.workers);
    hide WakeLaws, ShutdownLaws, RunningJobs, OneWorkerPerJob, Broadcast, Below;
    RunningAfter(s.workers, w, Ready);
    assert RunningJobs(s'.workers) == RunningJobs(s.workers) - {k};
    JobFinished(s.done, RunningJobs(s.workers), k);
  }

  lemma JobFinished(done: set<nat>, running: set<nat>, k: nat)
    requires done !! running && k in running
    ensures done + {k} !! running - {k} && done + {k} + (running - {k}) == done + running
    ensures |done + {k}| == |done| + 1 && |running - {k}| == |running| - 1
  {
  }

  lemma FinishKeepsLaws(s: System, w: nat)
    requires Inv(s) && Enabled(s, WorkerFinish(w))
    ensures WakeLaws(ApplyFinish(s, w)) && ShutdownLaws(ApplyFinish(s, w))
  {
    hide Accounting, RunningJobs, Broadcast;
    UpdateCounts(s.workers, w, Ready);
    BroadcastKeepsOthers(s.clients, JoinParked, JoinNotified);
    var s' := ApplyFinish(s, w);
    assert multiset(s'.clients)[SubParked] == multiset(s.clients)[SubParked];
    assert multiset(s'.clients)[Joining] == multiset(s.clients)[Joining];
  }

  lemma FinishKeeps(s: System, w: nat)
    requires Inv(s) && Enabled(s, WorkerFinish(w))
    ensures Inv(ApplyFinish(s, w))
  {
    FinishAccounts(s, w);
    FinishKeepsLaws(s, w);
  }

  lemma BroadcastKeepsOthers<T>(threads: seq<T>, parked: T, notified: T)
    ensures var r := Broadcast(threads, parked, notified);
            && (forall t :: t != parked && t != notified ==> multiset(r)[t] == multiset(threads)[t])
            && multiset(r)[notified] >= multiset(threads)[notified]
  {
    if threads != [] {
      BroadcastKeepsOthers(threads[1..], parked, notified);
      var r := Broadcast(threads, parked, notified);
      assert r[1..] == Broadcast(threads[1..], parked, notified);
      assert r == [r[0]] + r[1..];
      assert threads == [threads[0]] + threads[1..];
    }
  }

  lemma AcceptAccounts(s: System, c: nat, wake: nat)
    requires Inv(s) && Enabled(s, SubmitStep(c, wake))
    requires |s.pool.queue| < s.pool.cap && !s.pool.shutdown
    ensures Accounting(ApplySubmit(s, c, wake))
  {
    hide WakeLaws, ShutdownLaws, RunningJobs, OneWorkerPerJob;
    var s' := ApplySubmit(s, c, wake);
    RunningUnchanged(s.workers, s'.workers);
    assert s'.accepted[s.started..] == s.accepted[s.started..] + [s.args[c]];
  }

  lemma AcceptKeepsLaws(s: System, c: nat, wake: nat)
    requires Inv(s) && Enabled(s, SubmitStep(c, wake))
    requires |s.pool.queue| < s.pool.cap && !s.pool.shutdown
    ensures WakeLaws(ApplySubmit(s, c, wake)) && ShutdownLaws(ApplySubmit(s, c, wake))
  {
    hide RunningJobs, OneWorkerPerJob, Signal;
    var s' := ApplySubmit(s, c, wake);
    UpdateCounts(s.clients, c, Idle);
    SignalCounts(s.workers, Parked, Notified, wake);
    assert multiset(s'.workers)[Exited] == multiset(s.workers)[Exited];
    assert s.pool.outstanding >= 0;
  }

  lemma SubmitKeeps(s: System, c: nat, wake: nat)
    requires Inv(s) && Enabled(s, SubmitStep(c, wake))
    ensures Inv(ApplySubmit(s, c, wake))
  {
    if s.pool.shutdown || |s.pool.queue| == s.pool.cap {
      UpdateCounts(s.clients, c, if s.pool.shutdown then Idle else SubParked);
    } else {
      AcceptAccounts(s, c, wake);
      AcceptKeepsLaws(s, c, wake);
    }
  }

  lemma ShutdownKeeps(s: System, c: nat)
    requires Inv(s) && Enabled(s, ShutdownStep(c))
    ensures Inv(ApplyShutdown(s, c))
  {
    var s' := ApplyShutdown(s, c);
    RunningUnchanged(s.workers, s'.workers);
  }

  lemma ClientMoveKeeps(s: System, c: nat, state: Client)
    requires Inv(s) && c < |s.clients|
    requires state == SubParked ==> s.clients[c] == SubParked
    requires state == JoinParked ==> s.pool.outstanding > 0
    requires state == Joining ==> s.clients[c] == Joining
    requires s.clients[c] != SubNotified
    ensures Inv(s.(clients := s.clients[c := state]))
  {
    UpdateCounts(s.clients, c, state);
  }

  /** Inductiveness: whatever step is taken, the invariants hold again. */
  lemma StepKeepsInv(s: System, a: Action)
    requires Inv(s) && Enabled(s, a)
    ensures Inv(Apply(s, a))
  {
    match a
    case WorkerPoll(w, wake) => PollKeeps(s, w, wake);
    case WorkerFinish(w) => FinishKeeps(s, w);
    case CallSubmit(c, task) => ClientMoveKeeps(s, c, SubReady);
    case CallJoin(c) => ClientMoveKeeps(s, c, JoinReady);
    case CallShutdown(c) => ClientMoveKeeps(s, c, ShutReady);
    case SubmitStep(c, wake) => SubmitKeeps(s, c, wake);
    case JoinStep(c) => ClientMoveKeeps(s, c, if s.pool.outstanding > 0 then JoinParked else Idle);
    case ShutdownStep(c) => ShutdownKeeps(s, c);
    case ThreadsJoined(c) => ClientMoveKeeps(s, c, Idle);
    case SpuriousWorker(w) =>
      WorkerMoveKeeps(s, w, Notified);
    case SpuriousClient(c) =>
      ClientMoveKeeps(s, c, if s.clients[c] == SubParked then SubNotified else JoinNotified);
  }

  /** Safety over whole runs: the invariants hold in every reachable state. */
  lemma {:induction false} RunKeepsInv(s: System, run: seq<Action>)
    requires Inv(s) && Legal(s, run)
    ensures Inv(After(s, run))
    decreases |run|
  {
    if run != [] {
      StepKeepsInv(s, run[0]);
      RunKeepsInv(Apply(s, run[0]), run[1..]);
    }
  }

  lemma InitialInv(s: System)
    requires Initial(s)
    ensures Inv(s)
  {
    assert RunningJobs(s.workers) == {};
  }
}
