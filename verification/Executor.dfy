/** `ThreadExecutor`: any number of producers and one worker that swaps the guarded queue with a batch of
    its own. A step is a critical section or a read of an atomic; runs interleave steps in any order. */
module Executor {
  import opened Basics

  type Task = nat

  /** A producer in `putTask`: about to compare the queue size with the capacity, sleeping because the queue was
      too long, or past that test and about to take the lock. */
  datatype Producer = Idle | Checking(task: Task, force: bool) | Sleeping(task: Task, force: bool)
                    | Passed(task: Task, force: bool)

  /** The worker: without a thread, at the head of its loop, about to take the lock, waiting on the
      condition, or running its batch. */
  datatype Worker = Absent | AtLoop | AtLock | Parked(notified: bool) | Working

  /** The thread that owns the executor: in neither `start` nor `stop`, about to create the thread, about to
      notify it, or joining it. It alone writes `stopped_`. */
  datatype Owner = Ready | Starting | Stopping | Joining

  datatype State = State(queue: seq<Task>, batch: seq<Task>, executed: seq<Task>, accepted: seq<Task>,
                         stopped: bool, needNotify: bool, worker: Worker, producers: seq<Producer>, owner: Owner)

  datatype Step = Begin(p: nat, task: Task, force: bool) | Check(p: nat) | Recheck(p: nat) | Put(p: nat)
                | WorkerTest | WorkerLock | WorkerWake | WorkerRun | WorkerDone
                | Start | CreateThread | Stop | NotifyStop | Join

  function Notified(w: Worker): Worker {
    if w.Parked? then Parked(true) else w
  }

  /** The queue becomes the batch, unless it is empty. */
  function Swapped(s: State): State {
    (if s.queue == [] then s else s.(queue := [], batch := s.queue)).(worker := Working)
  }

  /** The effect of a step, or nothing when it cannot be taken. A parked worker may wake at any time: by
      a notification, by its timeout, or spuriously. */
  function Next(capacity: nat, s: State, step: Step): Option<State> {
    match step
    case Begin(p, task, force) =>
      if p < |s.producers| && s.producers[p] == Idle && !s.stopped then
        Some(s.(producers := s.producers[p := Checking(task, force)]))
      else None
    case Check(p) =>
      if p < |s.producers| && s.producers[p].Checking? then
        var q := s.producers[p];
        Some(s.(producers := s.producers[p :=
          if capacity != 0 && |s.queue| > capacity && !q.force then Sleeping(q.task, q.force)
          else Passed(q.task, q.force)]))
      else None
    case Recheck(p) =>
      if p < |s.producers| && s.producers[p].Sleeping? then
        var q := s.producers[p];
        Some(s.(producers := s.producers[p := if s.stopped then Idle else Checking(q.task, q.force)]))
      else None
    case Put(p) =>
      if p < |s.producers| && s.producers[p].Passed? then
        var task := s.producers[p].task;
        Some(s.(queue := s.queue + [task], accepted := s.accepted + [task], needNotify := false,
                worker := if s.needNotify then Notified(s.worker) else s.worker,
                producers := s.producers[p := Idle]))
      else None
    case WorkerTest =>
      if s.worker == AtLoop then Some(s.(worker := if s.stopped then Absent else AtLock)) else None
    case WorkerLock =>
      if s.worker != AtLock then None
      else if s.queue == [] then Some(s.(needNotify := true, worker := Parked(false)))
      else Some(Swapped(s))
    case WorkerWake => if s.worker.Parked? then Some(Swapped(s.(needNotify := false))) else None
    case WorkerRun =>
      if s.worker == Working && s.batch != [] then
        Some(s.(executed := s.executed + [s.batch[0]], batch := s.batch[1..]))
      else None
    case WorkerDone => if s.worker == Working && s.batch == [] then Some(s.(worker := AtLoop)) else None
    case Start => if s.owner == Ready && s.stopped then Some(s.(stopped := false, owner := Starting)) else None
    case CreateThread => if s.owner == Starting then Some(s.(worker := AtLoop, owner := Ready)) else None
    case Stop => if s.owner == Ready && !s.stopped then Some(s.(stopped := true, owner := Stopping)) else None
    case NotifyStop =>
      if s.owner == Stopping then Some(s.(worker := Notified(s.worker), owner := Joining)) else None
    case Join => if s.owner == Joining && s.worker == Absent then Some(s.(owner := Ready)) else None
  }

  function Initial(producers: nat): State {
    State([], [], [], [], true, true, Absent, seq(producers, _ => Idle), Ready)
  }

  /** The state after a run, if every step of it could be taken. */
  function After(capacity: nat, producers: nat, run: seq<Step>): Option<State> {
    if run == [] then Some(Initial(producers))
    else
      match After(capacity, producers, run[..|run| - 1])
      case None => None
      case Some(s) => Next(capacity, s, run[|run| - 1])
  }

  // ---------------------------------------------------------------- what every run keeps

  /** Nothing is lost, run twice or reordered: run tasks, the rest of the batch and the queue are the
      accepted tasks, in order. */
  ghost predicate InOrder(s: State) {
    s.executed + s.batch + s.queue == s.accepted && (s.worker != Working ==> s.batch == [])
  }

  /** A worker that is parked over a non-empty queue has been notified since it parked. */
  ghost predicate NoLostWakeup(s: State) {
    s.worker.Parked? ==> (s.queue != [] ==> s.worker.notified) && (s.needNotify || s.worker.notified)
  }

  /** A thread is there except between a join and the next start, so that `start` never finds one. */
  ghost predicate OneWorker(s: State) {
    && (s.owner == Starting || (s.owner == Ready && s.stopped) ==> s.worker == Absent)
    && (s.worker == Absent ==> s.stopped || s.owner == Starting)
    && (s.owner == Starting ==> !s.stopped) && (s.owner == Stopping || s.owner == Joining ==> s.stopped)
  }

  ghost predicate Sound(s: State) {
    InOrder(s) && NoLostWakeup(s) && OneWorker(s)
  }

  lemma QueueGrows(e: seq<Task>, b: seq<Task>, q: seq<Task>, task: Task)
    ensures e + b + (q + [task]) == e + b + q + [task]
  {
  }

  lemma BatchShrinks(e: seq<Task>, b: seq<Task>, q: seq<Task>)
    requires b != []
    ensures e + [b[0]] + b[1..] + q == e + b + q
  {
    assert b == [b[0]] + b[1..];
  }

  lemma QueueBecomesBatch(e: seq<Task>, b: seq<Task>, q: seq<Task>)
    requires b == []
    ensures e + q + [] == e + b + q
  {
  }

  lemma StepKeepsOrder(capacity: nat, s: State, step: Step)
    requires InOrder(s) && OneWorker(s) && Next(capacity, s, step).Some?
    ensures InOrder(Next(capacity, s, step).value)
  {
    match step
    case Put(p) => QueueGrows(s.executed, s.batch, s.queue, s.producers[p].task);
    case WorkerRun => BatchShrinks(s.executed, s.batch, s.queue);
    case WorkerLock | WorkerWake => QueueBecomesBatch(s.executed, s.batch, s.queue);
    case _ =>
  }

  lemma StepKeepsSound(capacity: nat, s: State, step: Step)
    requires Sound(s) && Next(capacity, s, step).Some?
    ensures Sound(Next(capacity, s, step).value)
  {
    StepKeepsOrder(capacity, s, step);
  }

  /** Every interleaving of producers, worker and owner. */
  lemma {:induction false} EveryRun(capacity: nat, producers: nat, run: seq<Step>)
    requires After(capacity, producers, run).Some?
    ensures Sound(After(capacity, producers, run).value)
  {
    if run != [] {
      var front, step := run[..|run| - 1], run[|run| - 1];
      EveryRun(capacity, producers, front);
      StepKeepsSound(capacity, After(capacity, producers, front).value, step);
    }
  }

  /** What has been run is a beginning of what was accepted. */
  lemma ExecutedInOrder(capacity: nat, producers: nat, run: seq<Step>)
    requires After(capacity, producers, run).Some?
    ensures After(capacity, producers, run).value.executed <= After(capacity, producers, run).value.accepted
  {
    EveryRun(capacity, producers, run);
    var s := After(capacity, producers, run).value;
    IsPrefix(s.executed, s.batch, s.queue);
  }

  lemma IsPrefix(e: seq<Task>, b: seq<Task>, q: seq<Task>)
    ensures e <= e + b + q
  {
  }

  // ---------------------------------------------------------------- the bound

  function PassedCount(ps: seq<Producer>): (n: nat)
    ensures n <= |ps|
  {
    if ps == [] then 0 else PassedCount(ps[..|ps| - 1]) + if ps[|ps| - 1].Passed? then 1 else 0
  }

  lemma {:induction false} PassedUpdate(ps: seq<Producer>, p: nat, q: Producer)
    requires p < |ps|
    ensures PassedCount(ps[p := q]) ==
      PassedCount(ps) + (if q.Passed? then 1 else 0) - (if ps[p].Passed? then 1 else 0)
  {
    var n := |ps| - 1;
    if p == n {
      assert ps[p := q][..n] == ps[..n];
    } else {
      PassedUpdate(ps[..n], p, q);
      assert ps[p := q][..n] == ps[..n][p := q];
    }
  }

  /** No producer forces its task in. */
  ghost predicate Unforced(run: seq<Step>) {
    forall k :: 0 <= k < |run| && run[k].Begin? ==> !run[k].force
  }

  ghost predicate NoneForced(ps: seq<Producer>) {
    forall p :: 0 <= p < |ps| ==> ps[p] == Idle || !ps[p].force
  }

  ghost predicate Bounded(capacity: nat, s: State) {
    |s.queue| + PassedCount(s.producers) <= capacity + |s.producers| && NoneForced(s.producers)
  }

  lemma StepKeepsUnforced(capacity: nat, s: State, step: Step)
    requires NoneForced(s.producers) && Next(capacity, s, step).Some? && (step.Begin? ==> !step.force)
    ensures NoneForced(Next(capacity, s, step).value.producers)
  {
  }

  lemma {:induction false} StepKeepsBound(capacity: nat, s: State, step: Step)
    requires 0 < capacity && Bounded(capacity, s) && Next(capacity, s, step).Some? && (step.Begin? ==> !step.force)
    ensures Bounded(capacity, Next(capacity, s, step).value)
  {
    StepKeepsUnforced(capacity, s, step);
    var t := Next(capacity, s, step).value;
    match step
    case Begin(p, _, _) => PassedUpdate(s.producers, p, t.producers[p]);
    case Check(p) => PassedUpdate(s.producers, p, t.producers[p]);
    case Recheck(p) => PassedUpdate(s.producers, p, t.producers[p]);
    case Put(p) => PassedUpdate(s.producers, p, t.producers[p]);
    case _ =>
  }

  /** The test for the capacity comes before the lock, so every producer can go past it by one. */
  lemma {:induction false} QueueBound(capacity: nat, producers: nat, run: seq<Step>)
    requires 0 < capacity && Unforced(run) && After(capacity, producers, run).Some?
    ensures Bounded(capacity, After(capacity, producers, run).value)
    ensures |After(capacity, producers, run).value.queue| <= capacity + producers
    ensures |After(capacity, producers, run).value.producers| == producers
  {
    if run == [] {
      NonePassed(Initial(producers).producers);
    } else {
      var front, step := run[..|run| - 1], run[|run| - 1];
      QueueBound(capacity, producers, front);
      StepKeepsBound(capacity, After(capacity, producers, front).value, step);
    }
  }

  lemma {:induction false} NonePassed(ps: seq<Producer>)
    requires forall p :: 0 <= p < |ps| ==> !ps[p].Passed?
    ensures PassedCount(ps) == 0
  {
    if ps != [] {
      NonePassed(ps[..|ps| - 1]);
    }
  }

  // ---------------------------------------------------------------- forcing

  /** A producer that waits does not force its task, and there is a capacity. */
  ghost predicate OnlyUnforcedWait(capacity: nat, s: State) {
    forall p :: 0 <= p < |s.producers| && s.producers[p].Sleeping? ==> !s.producers[p].force && 0 < capacity
  }

  lemma StepKeepsWaiting(capacity: nat, s: State, step: Step)
    requires OnlyUnforcedWait(capacity, s) && Next(capacity, s, step).Some?
    ensures OnlyUnforcedWait(capacity, Next(capacity, s, step).value)
  {
  }

  /** In no run a producer with a forced task waits, and without a capacity none does. */
  lemma {:induction false} ForcedNeverWaits(capacity: nat, producers: nat, run: seq<Step>)
    requires After(capacity, producers, run).Some?
    ensures OnlyUnforcedWait(capacity, After(capacity, producers, run).value)
  {
    if run != [] {
      var front, step := run[..|run| - 1], run[|run| - 1];
      ForcedNeverWaits(capacity, producers, front);
      StepKeepsWaiting(capacity, After(capacity, producers, front).value, step);
    }
  }

  /** From every state a producer at the size test either passes it or waits: it waits exactly when its task is not
      forced and more tasks are queued than a positive capacity allows. Nothing else changes. */
  lemma WaitsIff(capacity: nat, s: State, p: nat, task: Task, force: bool)
    requires p < |s.producers| && s.producers[p] == Checking(task, force)
    ensures Next(capacity, s, Check(p)).Some?
    ensures var t := Next(capacity, s, Check(p)).value;
      && t == s.(producers := s.producers[p := t.producers[p]])
      && (t.producers[p] == Sleeping(task, force) <==> !force && 0 < capacity < |s.queue|)
      && (t.producers[p] == Passed(task, force) <==> force || capacity == 0 || |s.queue| <= capacity)
  {
  }

  /** A forced task is taken in by three steps that nothing holds up, however long the queue is. */
  lemma ForcedIsTaken(capacity: nat, s: State, p: nat, task: Task) returns (a: State, b: State, c: State)
    requires p < |s.producers| && s.producers[p] == Idle && !s.stopped
    ensures Next(capacity, s, Begin(p, task, true)) == Some(a) && Next(capacity, a, Check(p)) == Some(b)
    ensures Next(capacity, b, Put(p)) == Some(c)
    ensures c.queue == s.queue + [task] && c.accepted == s.accepted + [task] && c.producers == s.producers
  {
    a := Next(capacity, s, Begin(p, task, true)).value;
    b := Next(capacity, a, Check(p)).value;
    c := Next(capacity, b, Put(p)).value;
  }

  // ---------------------------------------------------------------- progress

  /** The steps lead from `s` to `t`. */
  predicate LeadTo(capacity: nat, s: State, run: seq<Step>, t: State)
    decreases |run|
  {
    if run == [] then s == t
    else Next(capacity, s, run[0]).Some? && LeadTo(capacity, Next(capacity, s, run[0]).value, run[1..], t)
  }

  lemma StepFirst(capacity: nat, s: State, step: Step, u: State, run: seq<Step>, t: State)
    requires Next(capacity, s, step) == Some(u) && LeadTo(capacity, u, run, t)
    ensures LeadTo(capacity, s, [step] + run, t)
  {
    assert ([step] + run)[1..] == run;
  }

  predicate ByWorker(run: seq<Step>) {
    forall k :: 0 <= k < |run| ==> run[k] in {WorkerTest, WorkerLock, WorkerWake, WorkerRun, WorkerDone}
  }

  /** What the worker does next. */
  function WorkerStep(s: State): Step
    requires s.worker != Absent
  {
    match s.worker
    case AtLoop => WorkerTest
    case AtLock => WorkerLock
    case Parked(_) => WorkerWake
    case Working => if s.batch == [] then WorkerDone else WorkerRun
  }

  function Rank(w: Worker): nat {
    match w
    case Absent => 0
    case AtLoop => 2
    case AtLock => 1
    case Parked(_) => 1
    case Working => 3
  }

  /** The worker alone can always run everything that was accepted, in order, unless the executor is stopped. */
  lemma {:induction false} Drains(capacity: nat, s: State) returns (run: seq<Step>, t: State)
    requires Sound(s) && !s.stopped && s.worker != Absent
    ensures ByWorker(run) && LeadTo(capacity, s, run, t)
    ensures t.executed == t.accepted == s.accepted && t.queue == []
    decreases |s.queue|, |s.batch|, Rank(s.worker)
  {
    if s.queue == [] && s.batch == [] {
      run, t := [], s;
    } else {
      var step := WorkerStep(s);
      var u := Next(capacity, s, step).value;
      StepKeepsSound(capacity, s, step);
      run, t := Drains(capacity, u);
      StepFirst(capacity, s, step, u, run, t);
      run := [step] + run;
    }
  }

  function Phase(w: Worker): nat {
    if w == AtLock then 2 else if w.Parked? then 1 else 0
  }

  /** A stop can always be completed: the worker ends by itself, and the join returns. */
  lemma {:induction false} StopEnds(capacity: nat, s: State) returns (run: seq<Step>, t: State)
    requires Sound(s) && s.owner == Joining
    ensures LeadTo(capacity, s, run + [Join], t) && ByWorker(run)
    ensures t.owner == Ready && t.stopped && t.worker == Absent && t.accepted == s.accepted
    decreases Phase(s.worker), |s.batch|, Rank(s.worker)
  {
    if s.worker == Absent {
      run, t := [], Next(capacity, s, Join).value;
      StepFirst(capacity, s, Join, t, [], t);
      assert [Join] + [] == [] + [Join];
    } else {
      var step := WorkerStep(s);
      var u := Next(capacity, s, step).value;
      StepKeepsSound(capacity, s, step);
      run, t := StopEnds(capacity, u);
      StepFirst(capacity, s, step, u, run + [Join], t);
      assert [step] + (run + [Join]) == [step] + run + [Join];
      run := [step] + run;
    }
  }

  // ---------------------------------------------------------------- runs that reach the limits

  /** A started executor whose worker has not moved yet, with `n` tasks queued and the producers from
      `lo` to `hi` past the test. */
  ghost predicate Stage(s: State, producers: nat, n: nat, lo: nat, hi: nat) {
    && !s.stopped && s.owner == Ready && s.worker == AtLoop && |s.queue| == n && |s.producers| == producers
    && forall p :: 0 <= p < producers ==> s.producers[p] == if lo <= p < hi then Passed(0, false) else Idle
  }

  lemma Extends(capacity: nat, producers: nat, run: seq<Step>, step: Step)
    requires After(capacity, producers, run).Some? && Unforced(run) && (step.Begin? ==> !step.force)
    ensures After(capacity, producers, run + [step]) == Next(capacity, After(capacity, producers, run).value, step)
    ensures Unforced(run + [step])
  {
    assert (run + [step])[..|run|] == run;
  }

  lemma PassesTest(capacity: nat, producers: nat, run: seq<Step>, n: nat, lo: nat, hi: nat) returns (run': seq<Step>)
    requires Unforced(run) && After(capacity, producers, run).Some? && n <= capacity && lo <= hi < producers
    requires Stage(After(capacity, producers, run).value, producers, n, lo, hi)
    ensures Unforced(run') && After(capacity, producers, run').Some?
    ensures Stage(After(capacity, producers, run').value, producers, n, lo, hi + 1)
  {
    Extends(capacity, producers, run, Begin(hi, 0, false));
    run' := run + [Begin(hi, 0, false)];
    Extends(capacity, producers, run', Check(hi));
    run' := run' + [Check(hi)];
  }

  lemma PutsTask(capacity: nat, producers: nat, run: seq<Step>, n: nat, lo: nat, hi: nat) returns (run': seq<Step>)
    requires Unforced(run) && After(capacity, producers, run).Some? && lo < hi <= producers
    requires Stage(After(capacity, producers, run).value, producers, n, lo, hi)
    ensures Unforced(run') && After(capacity, producers, run').Some?
    ensures Stage(After(capacity, producers, run').value, producers, n + 1, lo + 1, hi)
  {
    Extends(capacity, producers, run, Put(lo));
    run' := run + [Put(lo)];
  }

  lemma Nothing(capacity: nat, producers: nat, none: seq<Step>)
    requires none == []
    ensures Unforced(none) && After(capacity, producers, none) == Some(Initial(producers))
  {
  }

  lemma OwnerStarts(capacity: nat, producers: nat, none: seq<Step>) returns (run: seq<Step>)
    requires none == []
    ensures Unforced(run)
    ensures After(capacity, producers, run) == Some(Initial(producers).(stopped := false, owner := Starting))
  {
    Nothing(capacity, producers, none);
    Extends(capacity, producers, none, Start);
    run := none + [Start];
  }

  lemma Starts(capacity: nat, producers: nat) returns (run: seq<Step>)
    ensures Unforced(run) && After(capacity, producers, run).Some?
    ensures Stage(After(capacity, producers, run).value, producers, 0, 0, 0)
  {
    run := OwnerStarts(capacity, producers, []);
    Extends(capacity, producers, run, CreateThread);
    run := run + [CreateThread];
  }

  /** The notification of `stop`, which is made without the lock, can come too early: the worker has tested
      `stopped_` before and waits afterwards, so that the join lasts until its wait times out. */
  lemma StopCanBeMissed(capacity: nat, producers: nat) returns (run: seq<Step>)
    ensures After(capacity, producers, run).Some?
    ensures var s := After(capacity, producers, run).value;
      s.stopped && s.owner == Joining && s.worker == Parked(false)
  {
    run := Starts(capacity, producers);
    Extends(capacity, producers, run, WorkerTest);
    run := run + [WorkerTest];
    Extends(capacity, producers, run, Stop);
    run := run + [Stop];
    Extends(capacity, producers, run, NotifyStop);
    run := run + [NotifyStop];
    Extends(capacity, producers, run, WorkerLock);
    run := run + [WorkerLock];
  }

  lemma {:induction false} Fills(capacity: nat, producers: nat, n: nat) returns (run: seq<Step>)
    requires 0 < producers && n <= capacity
    ensures Unforced(run) && After(capacity, producers, run).Some?
    ensures Stage(After(capacity, producers, run).value, producers, n, 0, 0)
  {
    if n == 0 {
      run := Starts(capacity, producers);
    } else {
      run := Fills(capacity, producers, n - 1);
      run := PassesTest(capacity, producers, run, n - 1, 0, 0);
      run := PutsTask(capacity, producers, run, n - 1, 0, 1);
    }
  }

  lemma {:induction false} Crowds(capacity: nat, producers: nat, k: nat) returns (run: seq<Step>)
    requires 0 < producers && k <= producers
    ensures Unforced(run) && After(capacity, producers, run).Some?
    ensures Stage(After(capacity, producers, run).value, producers, capacity, 0, k)
  {
    if k == 0 {
      run := Fills(capacity, producers, capacity);
    } else {
      run := Crowds(capacity, producers, k - 1);
      run := PassesTest(capacity, producers, run, capacity, 0, k - 1);
    }
  }

  /** The bound is reached: some run without forcing fills the queue that far. */
  lemma {:induction false} BoundIsReached(capacity: nat, producers: nat, k: nat) returns (run: seq<Step>)
    requires 0 < producers && k <= producers
    ensures Unforced(run) && After(capacity, producers, run).Some?
    ensures Stage(After(capacity, producers, run).value, producers, capacity + k, k, producers)
    ensures |After(capacity, producers, run).value.queue| == capacity + k
  {
    if k == 0 {
      run := Crowds(capacity, producers, producers);
    } else {
      run := BoundIsReached(capacity, producers, k - 1);
      run := PutsTask(capacity, producers, run, capacity + k - 1, k - 1, producers);
    }
  }

  // ---------------------------------------------------------------- the executor

  /** The executor's own fields, its worker's batch, and where its threads are. Each method is one step. */
  class ThreadExecutor {
    const capacity: nat
    var queue: seq<Task>
    var stopped: bool
    var needNotify: bool
    var tmpQueue: seq<Task>
    var worker: Worker
    var producers: seq<Producer>
    var owner: Owner

    ghost var executed: seq<Task>
    ghost var accepted: seq<Task>

    ghost function Now(): State
      reads this
    {
      State(queue, tmpQueue, executed, accepted, stopped, needNotify, worker, producers, owner)
    }

    ghost predicate Valid()
      reads this
    {
      Sound(Now())
    }

    constructor (capacity: nat, producers: nat)
      ensures Valid() && Now() == Initial(producers) && this.capacity == capacity
    {
      this.capacity := capacity;
      queue, stopped, needNotify, tmpQueue, worker, executed, accepted := [], true, true, [], Absent, [], [];
      this.producers := seq(producers, _ => Idle);
      owner := Ready;
    }

    /** `notifyOne` reaches the worker only while it waits. */
    method NotifyOne()
      modifies `worker
      ensures worker == Notified(old(worker))
    {
      if worker.Parked? {
        worker := Parked(true);
      }
    }

    /** The first test of `putTask`. */
    method BeginPut(p: nat, task: Task, force: bool) returns (accepted: bool)
      requires Valid() && p < |producers| && producers[p] == Idle
      modifies `producers
      ensures Valid() && accepted == !stopped
      ensures accepted ==> Some(Now()) == Next(capacity, old(Now()), Begin(p, task, force))
      ensures !accepted ==> Now() == old(Now())
    {
      accepted := !stopped;
      if accepted {
        StepKeepsSound(capacity, Now(), Begin(p, task, force));
        producers := producers[p := Checking(task, force)];
      }
    }

    /** The size test of `putTask`. */
    method CheckCapacity(p: nat)
      requires Valid() && p < |producers| && producers[p].Checking?
      modifies `producers
      ensures Valid() && Some(Now()) == Next(capacity, old(Now()), Check(p))
      ensures producers[p].Sleeping? <==> !old(producers)[p].force && 0 < capacity < |queue|
    {
      StepKeepsSound(capacity, Now(), Check(p));
      if capacity != 0 && |queue| > capacity && !producers[p].force {
        producers := producers[p := Sleeping(producers[p].task, producers[p].force)];
      } else {
        producers := producers[p := Passed(producers[p].task, producers[p].force)];
      }
    }

    /** The end of its sleep: the producer gives up when the executor has been stopped. */
    method RecheckStopped(p: nat)
      requires Valid() && p < |producers| && producers[p].Sleeping?
      modifies `producers
      ensures Valid() && Some(Now()) == Next(capacity, old(Now()), Recheck(p))
      ensures producers == old(producers)[p := if stopped then Idle
        else Checking(old(producers)[p].task, old(producers)[p].force)]
    {
      StepKeepsSound(capacity, Now(), Recheck(p));
      if stopped {
        producers := producers[p := Idle];
      } else {
        producers := producers[p := Checking(producers[p].task, producers[p].force)];
      }
    }

    /** The critical section of `putTask`. */
    method PutTask(p: nat)
      requires Valid() && p < |producers| && producers[p].Passed?
      modifies this
      ensures Valid() && Some(Now()) == Next(capacity, old(Now()), Put(p))
    {
      StepKeepsSound(capacity, Now(), Put(p));
      queue := queue + [producers[p].task];
      accepted := accepted + [producers[p].task];
      if needNotify {
        NotifyOne();
        needNotify := false;
      }
      producers := producers[p := Idle];
    }

    /** The head of the worker's loop. */
    method TestStopped()
      requires Valid() && worker == AtLoop
      modifies `worker
      ensures Valid() && Some(Now()) == Next(capacity, old(Now()), WorkerTest)
    {
      StepKeepsSound(capacity, Now(), WorkerTest);
      worker := if stopped then Absent else AtLock;
    }

    /** The critical section of the worker up to the point where it waits. */
    method LockQueue()
      requires Valid() && worker == AtLock
      modifies this
      ensures Valid() && Some(Now()) == Next(capacity, old(Now()), WorkerLock)
    {
      StepKeepsSound(capacity, Now(), WorkerLock);
      if queue == [] {
        needNotify := true;
        worker := Parked(false);
      } else {
        SwapQueue();
      }
    }

    /** The rest of it, when the wait is over. */
    method WakeUp()
      requires Valid() && worker.Parked?
      modifies this
      ensures Valid() && Some(Now()) == Next(capacity, old(Now()), WorkerWake)
    {
      StepKeepsSound(capacity, Now(), WorkerWake);
      needNotify := false;
      SwapQueue();
    }

    method SwapQueue()
      requires tmpQueue == []
      modifies `queue, `tmpQueue, `worker
      ensures Now() == Swapped(old(Now()))
    {
      if queue != [] {
        queue, tmpQueue := tmpQueue, queue;
      }
      worker := Working;
    }

    /** The loop over the batch runs its next task. */
    method RunTask()
      requires Valid() && worker == Working && tmpQueue != []
      modifies this
      ensures Valid() && Some(Now()) == Next(capacity, old(Now()), WorkerRun)
    {
      StepKeepsSound(capacity, Now(), WorkerRun);
      executed := executed + [tmpQueue[0]];
      tmpQueue := tmpQueue[1..];
    }

    /** The batch has been run. */
    method FinishBatch()
      requires Valid() && worker == Working && tmpQueue == []
      modifies `worker
      ensures Valid() && Some(Now()) == Next(capacity, old(Now()), WorkerDone)
    {
      StepKeepsSound(capacity, Now(), WorkerDone);
      worker := AtLoop;
    }

    /** `start`: the executor runs from here on. */
    method StartRunning()
      requires Valid() && stopped && owner == Ready
      modifies `stopped, `owner
      ensures Valid() && Some(Now()) == Next(capacity, old(Now()), Start)
    {
      StepKeepsSound(capacity, Now(), Start);
      stopped, owner := false, Starting;
    }

    /** The rest of it creates the thread, when there is none. */
    method StartWorker()
      requires Valid() && owner == Starting
      modifies `worker, `owner
      ensures Valid() && Some(Now()) == Next(capacity, old(Now()), CreateThread) && old(worker) == Absent
    {
      StepKeepsSound(capacity, Now(), CreateThread);
      worker, owner := AtLoop, Ready;
    }

    /** `stop` */
    method RequestStop()
      requires Valid() && !stopped && owner == Ready
      modifies `stopped, `owner
      ensures Valid() && Some(Now()) == Next(capacity, old(Now()), Stop)
    {
      StepKeepsSound(capacity, Now(), Stop);
      stopped, owner := true, Stopping;
    }

    /** Its notification, without the lock. */
    method WakeToStop()
      requires Valid() && owner == Stopping
      modifies `worker, `owner
      ensures Valid() && Some(Now()) == Next(capacity, old(Now()), NotifyStop)
    {
      StepKeepsSound(capacity, Now(), NotifyStop);
      NotifyOne();
      owner := Joining;
    }

    /** The join, which returns when the thread has ended. */
    method JoinWorker()
      requires Valid() && owner == Joining && worker == Absent
      modifies `owner
      ensures Valid() && Some(Now()) == Next(capacity, old(Now()), Join)
    {
      StepKeepsSound(capacity, Now(), Join);
      owner := Ready;
    }
  }
}
