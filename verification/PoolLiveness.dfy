// Termination of the pool's own activity: a measure that every internal event lowers, and the one
// state in which no internal event is possible.
module PoolLiveness {
  import opened Options
  import opened PoolSafety
  import opened PoolTheorems
  import opened ThreadPool

  // ---------- The measure ----------

  /** The number of jobs in a submission tree. */
  function Size(job: Job): nat
    decreases job, 1
  {
    1 + Sizes(job.children)
  }

  function Sizes(jobs: seq<Job>): nat
    decreases jobs, 0
  {
    if jobs == [] then 0 else Size(jobs[0]) + Sizes(jobs[1..])
  }

  // A raised semaphore pays 11 for one pass of a worker from bsem_wait back to it. An unsubmitted
  // job pays 30 for its push, two posts and the steps around it; once queued it has 15 less left.

  function QueuedWeight(job: Job): nat { 30 * Size(job) - 15 }

  function QueueWeight(q: seq<Ticket>): nat {
    if q == [] then 0 else QueuedWeight(q[0].job) + QueueWeight(q[1..])
  }

  function Weight(w: Worker): nat {
    match w
    case Starting => 3
    case Top => 2
    case Entering => 1
    case Asleep => 0
    case Woken => 1
    case Passed => 11
    case Counting => 10
    case Pulling => 9
    case PullPosting(ticket) => 23 + 30 * Sizes(ticket.job.children)
    case PullUnlocking(got) => if got.Some? then 10 + 30 * Sizes(got.value.job.children) else 8
    case Calling(ticket) => 9 + 30 * Sizes(ticket.job.children)
    case Running(_, rest) => 8 + 30 * Sizes(rest)
    case PushPosting(_, rest) => 22 + 30 * Sizes(rest)
    case PushUnlocking(_, rest) => 9 + 30 * Sizes(rest)
    case Uncounting => 7
    case Leaving => 1
    case Gone => 0
  }

  function CallerWeight(c: Caller): nat {
    match c
    case Booting => 1
    case PushPost => 14
    case PushUnlock => 1
    case Locking => 4
    case Signalled => 4
    case ReadLen => 3
    case ReadWorking => 2
    case GoSleep => 1
    case Clearing => 1
    case _ => 0
  }

  function Measure(s: Pool): nat {
    (if s.v then 11 else 0) + Total(Weight, s.workers) + QueueWeight(s.queue) + CallerWeight(s.caller)
  }

  lemma {:induction false} QueueWeightAppend(q: seq<Ticket>, t: Ticket)
    ensures QueueWeight(q + [t]) == QueueWeight(q) + QueuedWeight(t.job)
  {
    if q == [] {
      assert q + [t] == [t];
    } else {
      assert (q + [t])[1..] == q[1..] + [t];
      QueueWeightAppend(q[1..], t);
    }
  }

  predicate InDestroyLoop(c: Caller) { c.Polling? || c.Posting? }

  lemma QueuePays(s: Pool, i: nat, t: nat)
    requires WorkerEnabled(s, i)
    ensures var q', w := WorkerNext(s, i, t).queue, s.workers[i];
      QueueWeight(q') + (if w.Pulling? && s.queue != [] then QueuedWeight(s.queue[0].job) else 0)
      == QueueWeight(s.queue) + (if w.Running? && w.rest != [] then QueuedWeight(w.rest[0]) else 0)
  {
    var w := s.workers[i];
    if w.Running? && w.rest != [] { QueueWeightAppend(s.queue, Ticket(|s.log.accepted|, w.rest[0])); }
  }

  /** What a move takes from the worker and the semaphore, and gives to the signal and the waiter it may wake. */
  lemma WorkerPays(s: Pool, i: nat, t: nat)
    requires WorkerEnabled(s, i)
    ensures var s', w := WorkerNext(s, i, t), s.workers[i];
      (if s'.v then 11 else 0) + Weight(Moved(s, w)) + (if Signalling(w) then 1 else 0) + (if w.Uncounting? then 4 else 0)
      + (if w.Running? && w.rest != [] then QueuedWeight(w.rest[0]) else 0)
      < (if s.v then 11 else 0) + Weight(w)
        + (if w.Pulling? && s.queue != [] then QueuedWeight(s.queue[0].job) else 0)
  {}

  lemma CallerWoken(s: Pool, i: nat, t: nat)
    requires WorkerEnabled(s, i)
    ensures CallerWeight(WorkerNext(s, i, t).caller)
         <= CallerWeight(s.caller) + (if s.workers[i].Uncounting? then 4 else 0)
    ensures InDestroyLoop(WorkerNext(s, i, t).caller) == InDestroyLoop(s.caller)
  {}

  lemma MeasureWork(s: Pool, i: nat, t: nat)
    requires WorkerEnabled(s, i)
    ensures Measure(WorkerNext(s, i, t)) < Measure(s)
  {
    WorkTotal(Weight, s, i, t);
    QueuePays(s, i, t);
    WorkerPays(s, i, t);
    CallerWoken(s, i, t);
  }

  lemma PostPays(s: Pool, t: nat)
    requires s.caller.PushPost?
    ensures Measure(CallerNext(s, t)) < Measure(s)
  {
    SignalTotal(Weight, s.workers, t);
  }

  lemma MeasureAdvance(s: Pool, t: nat)
    requires CallerEnabled(s) && !InDestroyLoop(s.caller)
    ensures Measure(CallerNext(s, t)) < Measure(s)
  {
    if s.caller.PushPost? {
      PostPays(s, t);
    } else {
      assert CallerNext(s, t).workers == s.workers;
    }
  }

  lemma StaysOutside(s: Pool, t: nat)
    requires !InDestroyLoop(s.caller)
    ensures !InDestroyLoop(CallerNext(s, t).caller)
  {}

  lemma MeasureFalls(s: Pool, e: Event)
    requires Enabled(s, e) && Internal(e) && !InDestroyLoop(s.caller)
    ensures Measure(Next(s, e)) < Measure(s) && !InDestroyLoop(Next(s, e).caller)
  {
    match e
    case Work(i, t) => MeasureWork(s, i, t); CallerWoken(s, i, t);
    case Advance(t) => MeasureAdvance(s, t); StaysOutside(s, t);
  }

  /** No run of internal events is longer than the measure of the state it starts in. */
  lemma {:induction false} InternalRunsEnd(s: Pool, es: seq<Event>, s': Pool)
    requires Run(s, es, s') && !InDestroyLoop(s.caller)
    requires forall e | e in es :: Internal(e)
    ensures |es| + Measure(s') <= Measure(s) && !InDestroyLoop(s'.caller)
    decreases |es|
  {
    if es != [] {
      MeasureFalls(s, es[0]);
      InternalRunsEnd(Next(s, es[0]), es[1..], s');
    }
  }

  // ---------- The final states ----------

  ghost predicate Stuck(s: Pool) {
    forall e | Internal(e) :: !Enabled(s, e)
  }

  /** Nothing is queued or running, every worker sleeps on the lowered semaphore, and no call is in progress. */
  ghost predicate Quiescent(s: Pool) {
    && s.queue == [] && s.working == 0 && !s.v && s.caller.Idle?
    && forall i | 0 <= i < |s.workers| :: s.workers[i].Asleep?
  }

  lemma {:induction false} TotalAsleep(f: Worker -> nat, ws: seq<Worker>)
    requires forall i | 0 <= i < |ws| :: ws[i].Asleep?
    ensures Total(f, ws) == |ws| * f(Asleep)
  {
    if ws != [] { TotalAsleep(f, ws[1..]); }
  }

  lemma SomeTarget(ws: seq<Worker>) returns (t: nat)
    ensures Target(ws, t)
  {
    t := 0;
    if Total(Sleeps, ws) > 0 { t := TotalWitness(Sleeps, ws); }
  }

  /** Whoever holds a lock can move. */
  lemma HolderMoves(s: Pool) returns (e: Event)
    requires Inv(s) && (s.rw || s.th || CallerEnabled(s))
    ensures Internal(e) && Enabled(s, e)
  {
    var t := SomeTarget(s.workers);
    if CallerEnabled(s) {
      e := Advance(t);
    } else {
      var i := TotalWitness(Holds, s.workers);
      e := Work(i, t);
    }
  }

  /** With the locks free, so can every worker that is neither asleep nor gone. */
  lemma AwakeMoves(s: Pool, i: nat) returns (e: Event)
    requires !s.rw && !s.th && i < |s.workers| && !s.workers[i].Asleep? && !s.workers[i].Gone?
    ensures Internal(e) && Enabled(s, e)
  {
    var t := SomeTarget(s.workers);
    e := Work(i, t);
  }

  lemma StuckLocksFree(s: Pool)
    requires Inv(s) && Stuck(s)
    ensures !s.rw && !s.th && !CallerEnabled(s)
  {
    if s.rw || s.th || CallerEnabled(s) {
      var e := HolderMoves(s);
      assert false;
    }
  }

  lemma StuckAllAsleep(s: Pool, i: nat)
    requires Inv(s) && s.keepalive && Stuck(s) && i < |s.workers|
    ensures s.workers[i].Asleep?
  {
    StuckLocksFree(s);
    TotalMember(Leaves, s.workers, i);
    if !s.workers[i].Asleep? {
      var e := AwakeMoves(s, i);
      assert false;
    }
  }

  lemma StuckIsQuiescent(s: Pool)
    requires Inv(s) && s.keepalive && Stuck(s) && |s.workers| > 0
    ensures Quiescent(s)
  {
    StuckLocksFree(s);
    forall i | 0 <= i < |s.workers| ensures s.workers[i].Asleep? { StuckAllAsleep(s, i); }
    TotalAsleep(Live, s.workers);
    TotalAsleep(Busy, s.workers);
    TotalAsleep(Sleeps, s.workers);
    TotalAsleep(Wakes, s.workers);
    TotalAsleep(Takes, s.workers);
    TotalAsleep(Posts, s.workers);
  }

  /** While the pool is alive and has a worker, the pool can be stuck only where nothing is left to do.
      In particular it never deadlocks. */
  lemma StuckIffQuiescent(n: nat, s: Pool)
    requires Reachable(n, s) && n > 0 && s.keepalive
    ensures Stuck(s) <==> Quiescent(s)
  {
    ReachableInv(n, s);
    if Stuck(s) { StuckIsQuiescent(s); }
  }

  /** A caller asleep in thpool_wait has something to wait for, and some worker can move. */
  lemma WaiterNeverStranded(n: nat, s: Pool)
    requires Reachable(n, s) && n > 0 && s.caller.Waiting?
    ensures s.queue != [] || s.working > 0
    ensures exists i, t :: Enabled(s, Work(i, t))
  {
    ReachableInv(n, s);
    StuckIffQuiescent(n, s);
    var e :| Internal(e) && Enabled(s, e);
    match e
    case Work(i, t) => assert Enabled(s, Work(i, t));
    case Advance(_) =>
  }

  predicate InWait(c: Caller) {
    c.Locking? || c.ReadLen? || c.ReadWorking? || c.GoSleep? || c.Waiting? || c.Signalled?
  }

  lemma {:induction false} KeepsAlive(s: Pool, es: seq<Event>, s': Pool)
    requires Run(s, es, s') && forall e | e in es :: Internal(e)
    ensures s'.keepalive == s.keepalive
    decreases |es|
  {
    if es != [] {
      assert Internal(es[0]);
      KeepsAlive(Next(s, es[0]), es[1..], s');
    }
  }

  /** From every live state the pool can in fact be driven to rest. */
  lemma {:induction false} RunsToRest(s: Pool) returns (es: seq<Event>, s': Pool)
    requires Inv(s) && s.keepalive && |s.workers| > 0
    ensures Run(s, es, s') && (forall e | e in es :: Internal(e)) && Quiescent(s')
    decreases Measure(s)
  {
    if Stuck(s) {
      StuckIsQuiescent(s);
      es, s' := [], s;
    } else {
      var e :| Internal(e) && Enabled(s, e);
      InvNext(s, e);
      SameWorkers(s, e);
      MeasureFalls(s, e);
      KeepsAlive(s, [e], Next(s, e));
      var rest, last := RunsToRest(Next(s, e));
      es, s' := [e] + rest, last;
    }
  }

  // ---------- When thpool_wait returns ----------

  /** A run of the pool's own steps from s that cannot go on in s'. */
  ghost predicate MaximalRun(s: Pool, es: seq<Event>, s': Pool) {
    Run(s, es, s') && (forall e | e in es :: Internal(e)) && Stuck(s')
  }

  /** Outside thpool_destroy's polling there is always one. */
  lemma {:induction false} MaximalRunExists(s: Pool) returns (es: seq<Event>, s': Pool)
    requires !InDestroyLoop(s.caller)
    ensures MaximalRun(s, es, s')
    decreases Measure(s)
  {
    if Stuck(s) {
      es, s' := [], s;
    } else {
      var e :| Internal(e) && Enabled(s, e);
      MeasureFalls(s, e);
      var rest, last := MaximalRunExists(Next(s, e));
      es, s' := [e] + rest, last;
    }
  }

  lemma {:induction false} StaysInWaitOrReturns(s: Pool, es: seq<Event>, s': Pool)
    requires InWait(s.caller) || s.caller.Idle?
    requires Run(s, es, s') && forall e | e in es :: Internal(e)
    ensures InWait(s'.caller) || s'.caller.Idle?
    decreases |es|
  {
    if es != [] {
      assert Internal(es[0]);
      StaysInWaitOrReturns(Next(s, es[0]), es[1..], s');
    }
  }

  /** Without workers, internal steps leave the queue as it is. */
  lemma {:induction false} QueueStays(s: Pool, es: seq<Event>, s': Pool)
    requires (InWait(s.caller) || s.caller.Idle?) && |s.workers| == 0
    requires Run(s, es, s') && forall e | e in es :: Internal(e)
    ensures s'.queue == s.queue
    decreases |es|
  {
    if es != [] {
      assert Internal(es[0]);
      SameWorkers(s, es[0]);
      QueueStays(Next(s, es[0]), es[1..], s');
    }
  }

  lemma MaximalWaitReturns(n: nat, s: Pool, es: seq<Event>, s': Pool)
    requires Reachable(n, s) && InWait(s.caller) && MaximalRun(s, es, s')
    requires n > 0 || s.queue == []
    ensures s'.caller.Idle? && Complete(s') && |es| <= Measure(s)
  {
    ReachableInv(n, s);
    InvRun(s, es, s');
    InternalRunsEnd(s, es, s');
    KeepsAlive(s, es, s');
    if n > 0 {
      StuckIsQuiescent(s');
    } else {
      StuckLocksFree(s');
      StaysInWaitOrReturns(s, es, s');
      QueueStays(s, es, s');
      assert Total(Busy, s'.workers) == 0;
    }
    DrainedIsComplete(s');
  }

  /** Without workers thpool_wait does not return once a job is queued, even with spurious wake-ups. */
  lemma {:induction false} StrandedWithoutWorkers(s: Pool, es: seq<Event>, s': Pool)
    requires Inv(s) && |s.workers| == 0 && s.queue != [] && InWait(s.caller)
    requires Run(s, es, s')
    ensures InWait(s'.caller) && s'.queue != []
    decreases |es|
  {
    if es != [] {
      InvNext(s, es[0]);
      SameWorkers(s, es[0]);
      StrandedWithoutWorkers(Next(s, es[0]), es[1..], s');
    }
  }

  lemma NoWorkersNeverReturn(s: Pool, es: seq<Event>, s': Pool)
    requires Reachable(0, s) && s.queue != [] && InWait(s.caller) && Run(s, es, s')
    ensures InWait(s'.caller) && s'.queue != []
  {
    ReachableInv(0, s);
    StrandedWithoutWorkers(s, es, s');
  }

  /**
   * thpool_wait returns under every schedule, with every accepted job complete, exactly when the pool
   * has a worker or its queue is empty; every run of internal steps is bounded, and one that cannot go on exists.
   */
  lemma WaitReturnsIff(n: nat, s: Pool)
    requires Reachable(n, s) && InWait(s.caller)
    ensures (forall es, s' | MaximalRun(s, es, s') :: s'.caller.Idle? && Complete(s')) <==> n > 0 || s.queue == []
    ensures exists es, s' :: MaximalRun(s, es, s')
    ensures forall es, s' | Run(s, es, s') && (forall e | e in es :: Internal(e)) :: |es| <= Measure(s)
  {
    var es0, s0 := MaximalRunExists(s);
    if n > 0 || s.queue == [] {
      forall es, s' | MaximalRun(s, es, s') ensures s'.caller.Idle? && Complete(s') {
        MaximalWaitReturns(n, s, es, s');
      }
    } else {
      NoWorkersNeverReturn(s, es0, s0);
    }
    forall es, s' | Run(s, es, s') && (forall e | e in es :: Internal(e)) ensures |es| <= Measure(s) {
      InternalRunsEnd(s, es, s');
    }
  }

  /** The failing case is met: a pool of no workers, one job submitted, and a call of thpool_wait. */
  lemma StrandedWaiterIsReachable() returns (s: Pool)
    ensures Reachable(0, s) && s.queue != [] && InWait(s.caller)
  {
    s := Init(0);
    assert Run(s, [], s);
    ReachableNext(0, s, Advance(0));
    s := Next(s, Advance(0));
    ReachableNext(0, s, Submit(Job([], None)));
    s := Next(s, Submit(Job([], None)));
    ReachableNext(0, s, Advance(0));
    s := Next(s, Advance(0));
    ReachableNext(0, s, Advance(0));
    s := Next(s, Advance(0));
    ReachableNext(0, s, Wait);
    s := Next(s, Wait);
  }

  // ---------- The cost of a submission ----------

  lemma SubmissionMeasure(s: Pool, job: Job)
    requires Quiescent(s) && !s.rw
    ensures Measure(Next(s, Submit(job))) < 30 * Size(job)
  {
    TotalAsleep(Weight, s.workers);
    QueueWeightAppend([], Ticket(|s.log.accepted|, job));
  }

  /**
   * A job submitted at rest is worked off in fewer than 30 events for each job of its tree: no run of
   * internal steps is longer, and where one cannot go on the pool is at rest with everything complete.
   */
  lemma SubmissionCost(n: nat, s: Pool, job: Job, es: seq<Event>, s': Pool)
    requires Reachable(n, s) && Quiescent(s)
    requires Enabled(s, Submit(job)) && Run(Next(s, Submit(job)), es, s') && forall e | e in es :: Internal(e)
    ensures |es| < 30 * Size(job)
    ensures n > 0 && Stuck(s') ==> Quiescent(s') && Complete(s')
  {
    var s0 := Next(s, Submit(job));
    ReachableInv(n, s);
    SubmissionMeasure(s, job);
    InternalRunsEnd(s0, es, s');
    InvNext(s, Submit(job));
    InvRun(s0, es, s');
    KeepsAlive(s0, es, s');
    if n > 0 && Stuck(s') {
      StuckIsQuiescent(s');
      DrainedIsComplete(s');
    }
  }
}
