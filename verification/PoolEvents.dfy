// What happens in the pool's runs, counted by the events themselves: posts and passes of the semaphore,
// calls of the jobs' functions.
module PoolEvents {
  import opened PoolLedger
  import opened PoolSafety
  import opened PoolTheorems
  import opened ThreadPool

  /** How many of the events es, taken from s on, are of the kind p. */
  function Count(p: (Pool, Event) -> bool, s: Pool, es: seq<Event>): nat
    decreases |es|
  {
    if es == [] || !Enabled(s, es[0]) then 0
    else (if p(s, es[0]) then 1 else 0) + Count(p, Next(s, es[0]), es[1..])
  }

  function One(b: bool): nat { if b then 1 else 0 }

  // ---------- The semaphore ----------

  /** A worker gets through bsem_wait. */
  predicate Passes(s: Pool, e: Event) {
    e.Work? && e.i < |s.workers| && !s.workers[e.i].Passed? && Moved(s, s.workers[e.i]).Passed?
  }

  /** bsem_post, or bsem_post_all. */
  predicate Raises(s: Pool, e: Event) {
    match e
    case Work(i, _) => i < |s.workers| && Signalling(s.workers[i])
    case Advance(_) => s.caller.PushPost? || s.caller.Posting? || (s.caller.Clearing? && |s.queue| > 1)
    case _ => false
  }

  lemma PassWork(s: Pool, i: nat, t: nat)
    requires WorkerEnabled(s, i)
    ensures One(Passes(s, Work(i, t))) + One(WorkerNext(s, i, t).v) <= One(s.v) + One(Raises(s, Work(i, t)))
  {}

  lemma PassAdvance(s: Pool, t: nat)
    ensures One(CallerNext(s, t).v) <= One(s.v) + One(Raises(s, Advance(t)))
  {}

  lemma OnePass(s: Pool, e: Event)
    requires Enabled(s, e)
    ensures One(Passes(s, e)) + One(Next(s, e).v) <= One(s.v) + One(Raises(s, e))
  {
    match e
    case Work(i, t) => PassWork(s, i, t);
    case Advance(t) => PassAdvance(s, t);
    case _ =>
  }

  lemma {:induction false} PassesArePosted(s: Pool, es: seq<Event>, s': Pool)
    requires Run(s, es, s')
    ensures Count(Passes, s, es) + One(s'.v) <= One(s.v) + Count(Raises, s, es)
    decreases |es|
  {
    if es != [] {
      OnePass(s, es[0]);
      PassesArePosted(Next(s, es[0]), es[1..], s');
    }
  }

  /** Posts still to be made for a push or a pull. */
  function Pending(s: Pool): nat { Total(Posts, s.workers) + One(s.caller.PushPost?) }

  /** Pushes and pulls of jobs so far. */
  function Handled(s: Pool): int { 2 * |s.log.accepted| - |s.queue| }

  lemma PosterMoves(s: Pool, i: nat)
    requires i < |s.workers|
    ensures var w := s.workers[i];
      One(Signalling(w)) + Posts(Moved(s, w))
      == Posts(w) + One(w.Running? && w.rest != []) + One(w.Pulling? && |s.queue| > 1)
  {}

  lemma RaiseWork(s: Pool, i: nat, t: nat)
    requires WorkerEnabled(s, i)
    ensures var s' := WorkerNext(s, i, t);
      One(Raises(s, Work(i, t))) + Pending(s') - Handled(s') <= Pending(s) - Handled(s)
  {
    PosterMoves(s, i);
    WorkTotal(Posts, s, i, t);
    WorkerNextQueue(s, i, t);
  }

  lemma RaiseAdvance(s: Pool, t: nat)
    requires Phases(s) && s.keepalive && CallerEnabled(s)
    ensures var s' := CallerNext(s, t);
      One(Raises(s, Advance(t))) + Pending(s') - Handled(s') <= Pending(s) - Handled(s)
  {
    if s.caller.PushPost? { SignalTotal(Posts, s.workers, t); }
  }

  lemma RaiseOther(s: Pool, e: Event)
    requires Enabled(s, e) && !Internal(e)
    ensures Pending(Next(s, e)) - Handled(Next(s, e)) <= Pending(s) - Handled(s)
  {
    if e.SpuriousWorker? { TotalUpdate(Posts, s.workers, e.i, Woken); }
  }

  lemma OneRaise(s: Pool, e: Event)
    requires Phases(s) && s.keepalive && Enabled(s, e)
    ensures One(Raises(s, e)) + Pending(Next(s, e)) - Handled(Next(s, e)) <= Pending(s) - Handled(s)
  {
    match e
    case Work(i, t) => RaiseWork(s, i, t);
    case Advance(t) => RaiseAdvance(s, t);
    case _ => RaiseOther(s, e);
  }

  lemma StaysDown(s: Pool, e: Event)
    requires Enabled(s, e) && !s.keepalive
    ensures !Next(s, e).keepalive
  {}

  lemma {:induction false} DownForGood(s: Pool, es: seq<Event>, s': Pool)
    requires Run(s, es, s') && s'.keepalive
    ensures s.keepalive
    decreases |es|
  {
    if es != [] {
      DownForGood(Next(s, es[0]), es[1..], s');
      if !s.keepalive { StaysDown(s, es[0]); }
    }
  }

  lemma {:induction false} RaisesAreFew(s: Pool, es: seq<Event>, s': Pool)
    requires Inv(s) && Run(s, es, s') && s'.keepalive
    ensures Count(Raises, s, es) + Pending(s') - Handled(s') <= Pending(s) - Handled(s)
    decreases |es|
  {
    if es != [] {
      DownForGood(s, es, s');
      OneRaise(s, es[0]);
      InvNext(s, es[0]);
      RaisesAreFew(Next(s, es[0]), es[1..], s');
    }
  }

  /**
   * From thpool_init on, workers pass bsem_wait no more often than it was posted; and before shutdown it
   * is posted at most once for each push and once for each pull of a job.
   */
  lemma PassesNeedPosts(n: nat, es: seq<Event>, s: Pool)
    requires Run(Init(n), es, s)
    ensures Count(Passes, Init(n), es) + One(s.v) <= Count(Raises, Init(n), es)
    ensures s.keepalive ==> Count(Raises, Init(n), es) <= 2 * |s.log.accepted| - |s.queue|
  {
    PassesArePosted(Init(n), es, s);
    InvInit(n);
    if s.keepalive {
      TotalStarting(Posts, n);
      RaisesAreFew(Init(n), es, s);
    }
  }

  // ---------- A pool that never had a job ----------

  predicate Untaken(w: Worker) { w.Starting? || w.Top? || w.Entering? || w.Asleep? || w.Woken? }

  ghost predicate Untouched(s: Pool) {
    s.keepalive && s.log.accepted == [] ==>
      && !s.v && s.queue == [] && !s.caller.PushPost? && !s.caller.PushUnlock?
      && forall i | 0 <= i < |s.workers| :: Untaken(s.workers[i])
  }

  lemma UntouchedWork(s: Pool, i: nat, t: nat)
    requires Untouched(s) && WorkerEnabled(s, i)
    ensures Untouched(WorkerNext(s, i, t))
  {}

  lemma UntouchedNext(s: Pool, e: Event)
    requires Untouched(s) && Phases(s) && Enabled(s, e)
    ensures Untouched(Next(s, e))
  {
    match e
    case Work(i, t) => UntouchedWork(s, i, t);
    case _ =>
  }

  lemma {:induction false} UntouchedRun(s: Pool, es: seq<Event>, s': Pool)
    requires Untouched(s) && Inv(s) && Run(s, es, s')
    ensures Untouched(s')
    decreases |es|
  {
    if es != [] {
      UntouchedNext(s, es[0]);
      InvNext(s, es[0]);
      UntouchedRun(Next(s, es[0]), es[1..], s');
    }
  }

  lemma {:induction false} NobodyBusy(ws: seq<Worker>)
    requires forall i | 0 <= i < |ws| :: Untaken(ws[i])
    ensures Total(Busy, ws) == 0
  {
    if ws != [] {
      assert Untaken(ws[0]);
      NobodyBusy(ws[1..]);
    }
  }

  /** Until a job is submitted the semaphore is down and no worker gets past it. */
  lemma NoJobNoPass(n: nat, s: Pool, i: nat)
    requires Reachable(n, s) && s.keepalive && s.log.accepted == [] && i < n
    ensures !s.v && s.working == 0 && Untaken(s.workers[i])
  {
    var es :| Run(Init(n), es, s);
    InvInit(n);
    UntouchedRun(Init(n), es, s);
    ReachableInv(n, s);
    NobodyBusy(s.workers);
  }

  /** thpool_init returns after every thread has counted itself as alive, and before that none runs a job. */
  lemma InitWaits(n: nat, s: Pool, i: nat)
    requires Reachable(n, s) && !s.caller.Booting? && i < n
    ensures !s.workers[i].Starting?
  {
    ReachableInv(n, s);
    TotalMember(Starts, s.workers, i);
  }

  /** The runs include a spurious wake-up of any sleeper at any time. */
  lemma AnySleeperWakes(s: Pool, i: nat)
    ensures i < |s.workers| && s.workers[i].Asleep? ==>
      Enabled(s, SpuriousWorker(i)) && Next(s, SpuriousWorker(i)) == s.(workers := s.workers[i := Woken])
    ensures s.caller.Waiting? ==> Enabled(s, SpuriousCaller) && Next(s, SpuriousCaller) == s.(caller := Signalled)
  {}

  // ---------- thcount_lock ----------

  /** While thpool_wait holds thcount_lock to read the counters, nobody changes them. */
  lemma CountersFrozen(n: nat, s: Pool, i: nat, t: nat)
    requires Reachable(n, s) && (s.caller.ReadLen? || s.caller.ReadWorking? || s.caller.GoSleep?)
    requires Enabled(s, Work(i, t))
    ensures WorkerNext(s, i, t).working == s.working && WorkerNext(s, i, t).alive == s.alive
    ensures WorkerNext(s, i, t).caller == s.caller
  {
    ReachableInv(n, s);
  }

  // ---------- Calls of the jobs' functions ----------

  /** Worker i calls the function of a job. */
  function CallsBy(i: nat): (Pool, Event) -> bool {
    (s: Pool, e: Event) => e.Work? && e.i == i < |s.workers| && s.workers[i].Calling?
  }

  lemma LateNext(s: Pool, e: Event, i: nat)
    requires Enabled(s, e) && !s.keepalive && i < |s.log.late|
    ensures |Next(s, e).log.late| == |s.log.late|
    ensures Next(s, e).log.late[i] == s.log.late[i] + One(CallsBy(i)(s, e))
  {}

  lemma {:induction false} LateIsCounted(s: Pool, es: seq<Event>, s': Pool, i: nat)
    requires Run(s, es, s') && !s.keepalive && i < |s.log.late|
    ensures |s'.log.late| == |s.log.late| && s'.log.late[i] == s.log.late[i] + Count(CallsBy(i), s, es)
    decreases |es|
  {
    if es != [] {
      LateNext(s, es[0], i);
      StaysDown(s, es[0]);
      LateIsCounted(Next(s, es[0]), es[1..], s', i);
    }
  }

  lemma LateStarter(s: Pool, e: Event, i: nat)
    requires Enabled(s, e) && !s.keepalive && i < |s.workers| && !BeforeJob(s.workers[i])
    ensures i < |Next(s, e).workers| && !BeforeJob(Next(s, e).workers[i]) && !CallsBy(i)(s, e)
  {
    match e
    case Work(k, t) => WorkerMoves(s, k, t);
    case Advance(t) => CallerNextWorkers(s, t); BroadcastAt(s.workers);
    case _ =>
  }

  /** A worker that is not on its way to a job when threads_keepalive is cleared never calls one again. */
  lemma {:induction false} NoCallAfterDestroy(s: Pool, es: seq<Event>, s': Pool, i: nat)
    requires Run(s, es, s') && !s.keepalive && i < |s.workers| && !BeforeJob(s.workers[i])
    ensures Count(CallsBy(i), s, es) == 0
    decreases |es|
  {
    if es != [] {
      LateStarter(s, es[0], i);
      StaysDown(s, es[0]);
      NoCallAfterDestroy(Next(s, es[0]), es[1..], s', i);
    }
  }

  /** Once threads_keepalive is cleared, no run has a worker call more than one more job. */
  lemma OneCallAfterDestroy(n: nat, s: Pool, es: seq<Event>, s': Pool, i: nat)
    requires Reachable(n, s) && !s.keepalive && Run(s, es, s') && i < n
    ensures Count(CallsBy(i), s, es) <= 1
  {
    ReachableInv(n, s);
    LateIsCounted(s, es, s', i);
    ReachableRun(n, s, es, s');
    ReachableInv(n, s');
    assert LateAt(s', i);
  }

  /** The function of the job `id` is called. */
  function CallsOf(id: nat): (Pool, Event) -> bool {
    (s: Pool, e: Event) =>
      e.Work? && e.i < |s.workers| && s.workers[e.i].Calling? && s.workers[e.i].ticket.id == id
  }

  /** Inside the function of the job `id`. */
  function Runs(id: nat): Worker -> nat {
    (w: Worker) => if (w.Running? || w.PushPosting? || w.PushUnlocking?) && w.id == id then 1 else 0
  }

  lemma RunnerMoves(s: Pool, i: nat, t: nat, id: nat)
    requires WorkerEnabled(s, i)
    ensures var w := s.workers[i];
      Runs(id)(Moved(s, w)) + One(w.Running? && w.rest == [] && w.id == id)
      == Runs(id)(w) + One(CallsOf(id)(s, Work(i, t)))
  {}

  /** Jobs are only added to the accepted ones, and completed by the end of their function. */
  lemma WorkerGrows(s: Pool, i: nat, t: nat)
    requires WorkerEnabled(s, i)
    ensures var s', w := WorkerNext(s, i, t), s.workers[i];
      && s.log.accepted <= s'.log.accepted && (w.Running? && w.rest == [] ==> s'.log.accepted == s.log.accepted)
      && s'.log.done == s.log.done + if w.Running? && w.rest == [] then multiset{w.id} else multiset{}
  {}

  lemma CallWork(s: Pool, i: nat, t: nat, id: nat)
    requires WorkerEnabled(s, i)
    ensures var s' := WorkerNext(s, i, t);
      s'.log.done[id] + Total(Runs(id), s'.workers)
      == s.log.done[id] + Total(Runs(id), s.workers) + One(CallsOf(id)(s, Work(i, t)))
  {
    RunnerMoves(s, i, t, id);
    WorkerGrows(s, i, t);
    WorkTotal(Runs(id), s, i, t);
  }

  lemma CallNext(s: Pool, e: Event, id: nat)
    requires Enabled(s, e)
    ensures Next(s, e).log.done[id] + Total(Runs(id), Next(s, e).workers)
         == s.log.done[id] + Total(Runs(id), s.workers) + One(CallsOf(id)(s, e))
  {
    match e
    case Work(i, t) => CallWork(s, i, t, id);
    case Advance(t) =>
      CallerNextRecords(s, t);
      CallerNextWorkers(s, t);
      SignalTotal(Runs(id), s.workers, t);
      BroadcastTotal(Runs(id), s.workers);
    case SpuriousWorker(i) => TotalUpdate(Runs(id), s.workers, i, Woken);
    case _ =>
  }

  lemma {:induction false} CallsAreCounted(s: Pool, es: seq<Event>, s': Pool, id: nat)
    requires Run(s, es, s')
    ensures s'.log.done[id] + Total(Runs(id), s'.workers)
         == s.log.done[id] + Total(Runs(id), s.workers) + Count(CallsOf(id), s, es)
    decreases |es|
  {
    if es != [] {
      CallNext(s, es[0], id);
      CallsAreCounted(Next(s, es[0]), es[1..], s', id);
    }
  }

  lemma {:induction false} RunnersHold(ws: seq<Worker>, id: nat)
    ensures Total(Runs(id), ws) <= Total(Holder(id), ws)
  {
    if ws != [] { RunnersHold(ws[1..], id); }
  }

  /** In every run the function of each job is called at most once, and exactly once for every completed job. */
  lemma CalledOnce(n: nat, es: seq<Event>, s: Pool, id: nat)
    requires Run(Init(n), es, s)
    ensures Count(CallsOf(id), Init(n), es) <= 1
    ensures s.log.done[id] > 0 ==> Count(CallsOf(id), Init(n), es) == 1
    ensures Complete(s) && id < |s.log.accepted| ==> Count(CallsOf(id), Init(n), es) == 1
  {
    InvInit(n);
    InvRun(Init(n), es, s);
    CallsAreCounted(Init(n), es, s, id);
    TotalStarting(Runs(id), n);
    RunnersHold(s.workers, id);
    assert Places(s, id) == if id < |s.log.accepted| then 1 else 0;
  }

  // ---------- What is out of the queue ----------

  /** How many jobs have left the queue. */
  function Out(s: Pool): int { |s.log.accepted| - |s.queue| }

  lemma OutGrows(s: Pool, e: Event)
    requires Enabled(s, e)
    ensures Out(s) <= Out(Next(s, e))
  {
    match e
    case Work(i, t) => WorkerNextQueue(s, i, t);
    case Advance(t) => CallerNextRecords(s, t); CallerNextQueue(s, t);
    case _ =>
  }

  /** A job that a worker holds has been pulled, and is not done. */
  lemma HeldIsOut(n: nat, s: Pool, i: nat, id: nat)
    requires Reachable(n, s) && i < n && |s.workers| == n && HoldsId(s.workers[i], id) > 0
    ensures Queued(s.queue, id) == 0 && s.log.done[id] == 0 && id < |s.log.accepted| && id < Out(s)
  {
    JobsLeaveInOrder(n, s, id);
    JobsAreConserved(n, s, id);
    TotalMember(Holder(id), s.workers, i);
  }

  /** A single worker holds the job that left the queue last. */
  ghost predicate LastOut(s: Pool) {
    |s.workers| == 1 ==> forall id: nat | HoldsId(s.workers[0], id) > 0 :: id == Out(s) - 1
  }

  lemma HeldMoves(s: Pool, w: Worker, id: nat)
    requires HoldsId(Moved(s, w), id) > 0
    ensures HoldsId(w, id) > 0 || (w.Pulling? && s.queue != [] && id == s.queue[0].id)
  {}

  lemma LastOutWork(s: Pool, i: nat, t: nat)
    requires LastOut(s) && Fifo(s) && WorkerEnabled(s, i)
    ensures LastOut(WorkerNext(s, i, t))
  {
    var s' := WorkerNext(s, i, t);
    WorkerNextQueue(s, i, t);
    WorkerMoves(s, i, t);
    if |s.workers| == 1 {
      var w := Moved(s, s.workers[0]);
      assert s.workers[i := w] == [w] && Signal([w], t)[0] == if t == 0 && w.Asleep? then Woken else w;
      forall id: nat | HoldsId(s'.workers[0], id) > 0 ensures id == Out(s') - 1 {
        HeldMoves(s, s.workers[0], id);
      }
    }
  }

  lemma HeldAsBefore(s: Pool, t: nat, id: nat)
    requires |s.workers| == 1
    ensures |CallerNext(s, t).workers| == 1 && HoldsId(CallerNext(s, t).workers[0], id) == HoldsId(s.workers[0], id)
  {
    CallerNextWorkers(s, t);
    BroadcastAt(s.workers);
  }

  lemma LastOutAdvance(s: Pool, t: nat)
    requires LastOut(s) && Inv(s)
    ensures LastOut(CallerNext(s, t))
  {
    CallerNextRecords(s, t);
    CallerNextQueue(s, t);
    CallerNextWorkers(s, t);
    BroadcastAt(s.workers);
    if |s.workers| == 1 {
      TotalMember(Live, s.workers, 0);
      forall id: nat | HoldsId(CallerNext(s, t).workers[0], id) > 0 ensures id == Out(CallerNext(s, t)) - 1 {
        HeldAsBefore(s, t, id);
      }
    }
  }

  lemma LastOutNext(s: Pool, e: Event)
    requires LastOut(s) && Fifo(s) && Inv(s) && Enabled(s, e)
    ensures LastOut(Next(s, e))
  {
    match e
    case Work(i, t) => LastOutWork(s, i, t);
    case Advance(t) => LastOutAdvance(s, t);
    case _ =>
  }

  lemma {:induction false} LastOutRun(s: Pool, es: seq<Event>, s': Pool)
    requires LastOut(s) && Fifo(s) && Inv(s) && Run(s, es, s')
    ensures LastOut(s')
    decreases |es|
  {
    if es != [] {
      LastOutNext(s, es[0]);
      FifoNext(s, es[0]);
      InvNext(s, es[0]);
      LastOutRun(Next(s, es[0]), es[1..], s');
    }
  }

  /** So a pool of one worker runs the jobs one after the other in the order of acceptance. */
  lemma OneWorkerHoldsLast(s: Pool, id: nat)
    requires Reachable(1, s) && |s.workers| == 1 && HoldsId(s.workers[0], id) > 0
    ensures id == Out(s) - 1
  {
    var es :| Run(Init(1), es, s);
    InvInit(1);
    LastOutRun(Init(1), es, s);
  }
}
