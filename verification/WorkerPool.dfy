/**
 * The owned worker pool: one bounded FIFO ring behind one mutex. Each method below is one
 * lock-held section of the runtime, from taking the lock to releasing it or to waiting.
 */
module WorkerPools {
  import opened Ring

  const MAX_WORKERS: nat := 256
  const MIN_QUEUE: nat := 1024

  datatype Task = Task(fn: int, arg: int, hasArg: bool)

  /** What the fields of the pool mean: the waiting jobs in order, and the accounting. */
  datatype Pool = Pool(
    cap: nat, queue: seq<Task>, shutdown: bool, joined: bool, outstanding: int, completed: int)

  datatype Polled = MustWait | MustExit | Took(task: Task)
  datatype Submitted = MustPark | Rejected | Accepted
  datatype Joined = MustAwait | AllDone

  function Poll(p: Pool): (Polled, Pool) {
    if p.queue == [] && !p.shutdown then (MustWait, p)
    else if p.queue == [] then (MustExit, p)
    else (Took(p.queue[0]), p.(queue := p.queue[1..]))
  }

  function Finish(p: Pool): Pool {
    p.(completed := p.completed + 1, outstanding := p.outstanding - 1)
  }

  function Submit(p: Pool, t: Task): (Submitted, Pool) {
    if |p.queue| == p.cap && !p.shutdown then (MustPark, p)
    else if p.shutdown then (Rejected, p)
    else (Accepted, p.(queue := p.queue + [t], outstanding := p.outstanding + 1))
  }

  function Join(p: Pool): Joined {
    if p.outstanding > 0 then MustAwait else AllDone
  }

  /** Whether the caller wakes everybody, whether it goes on to join the threads, and the pool after. */
  function Shutdown(p: Pool): (bool, bool, Pool) {
    (!p.shutdown, !p.joined, p.(shutdown := true, joined := true))
  }

  /** Workers actually asked for: a request within bounds is kept, any other goes to the nearer bound. */
  function Clamped(workers: int): (n: nat)
    ensures 1 <= n <= MAX_WORKERS
    ensures 1 <= workers <= MAX_WORKERS ==> n == workers
    ensures workers < n ==> n == 1
    ensures n < workers ==> n == MAX_WORKERS
  {
    if workers < 1 then 1 else if workers > MAX_WORKERS then MAX_WORKERS else workers
  }

  /** The least ring that meets both bounds. */
  function Capacity(workers: nat): (cap: nat)
    ensures cap >= MIN_QUEUE && cap >= 256 * workers
    ensures cap == MIN_QUEUE || cap == 256 * workers
  {
    if workers * 256 < MIN_QUEUE then MIN_QUEUE else workers * 256
  }

  class WorkerPool {
    var tasks: array<Task>
    var cap: nat
    var head: nat
    var tail: nat
    var count: nat
    var workers: nat
    var shutdown: bool
    var joined: bool
    var outstanding: int
    var completed: int

    ghost predicate Valid()
      reads this, tasks
    {
      && tasks.Length == cap > 0
      && head < cap && count <= cap
      && tail == Slot(head, count, cap)
    }

    ghost function View(): Pool
      reads this, tasks
      requires Valid()
    {
      Pool(cap, Contents(tasks[..], head, count), shutdown, joined, outstanding, completed)
    }

    constructor (size: nat)
      ensures Valid() && fresh(tasks) && workers == size
      ensures View() == Pool(Capacity(size), [], false, false, 0, 0)
    {
      var c := Capacity(size);
      tasks := new Task[c](i => Task(0, 0, false));
      cap, head, tail, count := c, 0, 0, 0;
      shutdown, joined := false, false;
      outstanding, completed := 0, 0;
      workers := size;
    }

    /**
     * The system's answers are parameters: whether each allocation succeeds, and for each worker
     * asked for whether its thread starts. Threads are started up to the first refusal, and the
     * pool works with those.
     */
    static method Create(requested: int, poolOk: bool, tasksOk: bool, threadsOk: bool, starts: seq<bool>)
      returns (p: WorkerPool?)
      requires |starts| == Clamped(requested)
      ensures p == null <==> !(poolOk && tasksOk && threadsOk && starts[0])
      ensures p != null ==> fresh(p) && fresh(p.tasks) && p.Valid()
      ensures p != null ==> p.View() == Pool(Capacity(Clamped(requested)), [], false, false, 0, 0)
      ensures p != null ==> 0 < p.workers <= |starts| && (forall i :: 0 <= i < p.workers ==> starts[i])
      ensures p != null ==> p.workers < |starts| ==> !starts[p.workers]
    {
      if !poolOk { return null; }
      if !tasksOk || !threadsOk { return null; }
      p := new WorkerPool(Clamped(requested));
      var started := 0;
      for i := 0 to |starts|
        invariant started == i && forall k :: 0 <= k < i ==> starts[k]
      {
        if !starts[i] { break; }
        started := started + 1;
      }
      if started == 0 { return null; }
      p.workers := started;
    }

    /** Worker: take the oldest job, wait for one, or leave. A taken job frees a slot. */
    method PollSection() returns (r: Polled)
      requires Valid()
      modifies this
      ensures Valid() && tasks == old(tasks) && workers == old(workers)
      ensures (r, View()) == Poll(old(View()))
    {
      if count == 0 && !shutdown { return MustWait; }
      if count == 0 && shutdown { return MustExit; }
      Pop(tasks[..], head, count);
      TailPop(head, count, cap);
      r := Took(tasks[head]);
      head := (head + 1) % cap;
      count := count - 1;
    }

    /** Worker: account for a finished job; `broadcast` when joiners are to be woken. */
    method FinishSection() returns (broadcast: bool)
      requires Valid()
      modifies this
      ensures Valid() && tasks == old(tasks) && workers == old(workers)
      ensures View() == Finish(old(View()))
      ensures broadcast == (View().outstanding == 0)
    {
      completed := completed + 1;
      outstanding := outstanding - 1;
      broadcast := outstanding == 0;
    }

    /** Submitter: append the job, wait for space, or give up after shutdown. */
    method SubmitSection(t: Task) returns (r: Submitted)
      requires Valid()
      modifies this, tasks
      ensures Valid() && tasks == old(tasks) && workers == old(workers)
      ensures (r, View()) == Submit(old(View()), t)
    {
      if count == cap && !shutdown { return MustPark; }
      if shutdown { return Rejected; }
      Push(tasks[..], head, count, t);
      TailPush(head, count, cap);
      ghost var before := tasks[..];
      tasks[tail] := t;
      assert tasks[..] == before[tail := t];
      tail := (tail + 1) % cap;
      count := count + 1;
      outstanding := outstanding + 1;
      r := Accepted;
    }

    /** Joiner: whether it must wait for `done`. */
    method JoinSection() returns (r: Joined)
      requires Valid()
      ensures r == Join(View())
    {
      r := if outstanding > 0 then MustAwait else AllDone;
    }

    /** Shutdown: set the flag once; `joins` for the one caller that goes on to join the threads. */
    method ShutdownSection() returns (broadcast: bool, joins: bool)
      requires Valid()
      modifies this
      ensures Valid() && tasks == old(tasks) && workers == old(workers)
      ensures (broadcast, joins, View()) == Shutdown(old(View()))
    {
      broadcast := !shutdown;
      if !shutdown {
        shutdown := true;
      }
      joins := !joined;
      if joined { return; }
      joined := true;
    }
  }
}
