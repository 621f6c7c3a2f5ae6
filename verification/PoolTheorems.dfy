// The pool's guarantees over all runs.
module PoolTheorems {
  import opened Options
  import opened PoolLedger
  import opened PoolSafety
  import opened ThreadPool

  ghost predicate Inv(s: Pool) {
    && Locks(s) && Counters(s) && Raised(s) && Announced(s) && Watched(s) && Phases(s) && AtMostOneLate(s)
    && Ledger(s) && Trees(s) && OneParent(s.log.kids)
  }

  // ---------- Every event keeps the invariant ----------

  lemma InvWork(s: Pool, i: nat, t: nat)
    requires Inv(s) && Enabled(s, Work(i, t))
    ensures Inv(WorkerNext(s, i, t))
  {
    LocksWork(s, i, t);
    CountersWork(s, i, t);
    RaisedWork(s, i, t);
    AnnouncedWork(s, i, t);
    WatchedWork(s, i, t);
    PhasesWork(s, i, t);
    AtMostOneLateWork(s, i, t);
    LedgerWork(s, i, t);
    TreesWork(s, i, t);
    OneParentWork(s, i, t);
  }

  lemma InvAdvance(s: Pool, t: nat)
    requires Inv(s) && Enabled(s, Advance(t))
    ensures Inv(CallerNext(s, t))
  {
    LocksAdvance(s, t);
    CountersAdvance(s, t);
    RaisedAdvance(s, t);
    AnnouncedAdvance(s, t);
    WatchedAdvance(s, t);
    PhasesAdvance(s, t);
    AtMostOneLateAdvance(s, t);
    LedgerAdvance(s, t);
    TreesAdvance(s, t);
    CallerNextRecords(s, t);
  }

  lemma InvSubmit(s: Pool, job: Job)
    requires Inv(s) && Enabled(s, Submit(job))
    ensures Inv(Next(s, Submit(job)))
  {
    LedgerSubmit(s, job);
    TreesSubmit(s, job);
    OneParentKept(s.log.kids, |s.log.kids|);
    SameHistory(Enqueue(s, job), Next(s, Submit(job)));
    SameLate(s, Next(s, Submit(job)));
  }

  lemma SameHistory(s: Pool, s': Pool)
    requires Ledger(s) && Trees(s)
    requires s'.queue == s.queue && s'.workers == s.workers && s'.log.accepted == s.log.accepted && s'.log.kids == s.log.kids
    requires s'.log.done == s.log.done && s'.log.freed == s.log.freed
    ensures Ledger(s') && Trees(s')
  {
    forall k: nat ensures Places(s', k) == if k < |s'.log.accepted| then 1 else 0 {
      assert Places(s, k) == if k < |s.log.accepted| then 1 else 0;
    }
  }

  lemma SameLate(s: Pool, s': Pool)
    requires AtMostOneLate(s) && s'.workers == s.workers && s'.log.late == s.log.late && (s'.keepalive ==> s.keepalive)
    ensures AtMostOneLate(s')
  {
    forall i | 0 <= i < |s'.workers| ensures LateAt(s', i) { assert LateAt(s, i); }
  }

  lemma InvCall(s: Pool, e: Event)
    requires Inv(s) && Enabled(s, e) && (e.Wait? || e.Destroy? || e.SpuriousCaller?)
    ensures Inv(Next(s, e))
  {
    SameHistory(s, Next(s, e));
    SameLate(s, Next(s, e));
  }

  lemma SpuriousHistory(s: Pool, i: nat)
    requires Ledger(s) && Trees(s) && AtMostOneLate(s) && Enabled(s, SpuriousWorker(i))
    ensures var s' := Next(s, SpuriousWorker(i)); Ledger(s') && Trees(s') && AtMostOneLate(s')
  {
    var s' := Next(s, SpuriousWorker(i));
    forall k: nat ensures Places(s', k) == if k < |s'.log.accepted| then 1 else 0 {
      TotalUpdate(Holder(k), s.workers, i, Woken);
      assert Places(s, k) == if k < |s.log.accepted| then 1 else 0;
    }
    forall j | 0 <= j < |s'.workers| ensures LateAt(s', j) { assert LateAt(s, j); }
  }

  lemma SpuriousState(s: Pool, i: nat)
    requires Locks(s) && Counters(s) && Raised(s) && Watched(s) && Enabled(s, SpuriousWorker(i))
    ensures var s' := Next(s, SpuriousWorker(i)); Locks(s') && Counters(s') && Raised(s') && Watched(s')
  {
    TotalUpdate(Holds, s.workers, i, Woken);
    TotalUpdate(Busy, s.workers, i, Woken);
    TotalUpdate(Live, s.workers, i, Woken);
    TotalUpdate(Wakes, s.workers, i, Woken);
  }

  lemma SpuriousPhase(s: Pool, i: nat)
    requires Announced(s) && Phases(s) && Enabled(s, SpuriousWorker(i))
    ensures var s' := Next(s, SpuriousWorker(i)); Announced(s') && Phases(s')
  {
    TotalUpdate(Takes, s.workers, i, Woken);
    TotalUpdate(Posts, s.workers, i, Woken);
    TotalUpdate(Starts, s.workers, i, Woken);
    TotalUpdate(Leaves, s.workers, i, Woken);
    TotalUpdate(Live, s.workers, i, Woken);
  }

  lemma InvNext(s: Pool, e: Event)
    requires Inv(s) && Enabled(s, e)
    ensures Inv(Next(s, e))
  {
    match e
    case Work(i, t) => InvWork(s, i, t);
    case Advance(t) => InvAdvance(s, t);
    case Submit(job) => InvSubmit(s, job);
    case SpuriousWorker(i) => SpuriousState(s, i); SpuriousPhase(s, i); SpuriousHistory(s, i);
    case _ => InvCall(s, e);
  }

  lemma {:induction false} TotalStarting(f: Worker -> nat, n: nat)
    requires f(Starting) <= 1
    ensures Total(f, seq(n, _ => Starting)) == n * f(Starting)
  {
    if n > 0 {
      assert seq(n, _ => Starting)[1..] == seq(n - 1, _ => Starting);
      TotalStarting(f, n - 1);
    }
  }

  lemma InvInit(n: nat)
    ensures Inv(Init(n))
  {
    var s := Init(n);
    TotalStarting(Holds, n);
    TotalStarting(Busy, n);
    TotalStarting(Live, n);
    TotalStarting(Sleeps, n);
    TotalStarting(Leaves, n);
    forall k: nat ensures Places(s, k) == 0 { TotalStarting(Holder(k), n); }
    forall i | 0 <= i < n ensures LateAt(s, i) {}
  }

  lemma SameWorkers(s: Pool, e: Event)
    requires Enabled(s, e)
    ensures |Next(s, e).workers| == |s.workers|
  {
    match e
    case Work(i, t) => WorkerMoves(s, i, t);
    case Advance(t) => CallerNextWorkers(s, t); BroadcastAt(s.workers);
    case _ =>
  }

  lemma {:induction false} InvRun(s: Pool, es: seq<Event>, s': Pool)
    requires Inv(s) && Run(s, es, s')
    ensures Inv(s') && |s'.workers| == |s.workers|
    decreases |es|
  {
    if es != [] {
      InvNext(s, es[0]);
      SameWorkers(s, es[0]);
      InvRun(Next(s, es[0]), es[1..], s');
    }
  }

  lemma {:induction false} RunAppend(s: Pool, es: seq<Event>, m: Pool, fs: seq<Event>, s': Pool)
    requires Run(s, es, m) && Run(m, fs, s')
    ensures Run(s, es + fs, s')
    decreases |es|
  {
    if es == [] {
      assert es + fs == fs;
    } else {
      RunAppend(Next(s, es[0]), es[1..], m, fs, s');
      assert (es + fs)[1..] == es[1..] + fs;
    }
  }

  /** s can be reached from thpool_init(n) by some run. */
  ghost predicate Reachable(n: nat, s: Pool) {
    |s.workers| == n && exists es :: Run(Init(n), es, s)
  }

  lemma ReachableNext(n: nat, s: Pool, e: Event)
    requires Reachable(n, s) && Enabled(s, e)
    ensures Reachable(n, Next(s, e))
  {
    var es :| Run(Init(n), es, s);
    assert Run(Next(s, e), [], Next(s, e));
    assert Run(s, [e], Next(s, e));
    RunAppend(Init(n), es, s, [e], Next(s, e));
    SameWorkers(s, e);
  }

  lemma {:induction false} ReachableRun(n: nat, s: Pool, es: seq<Event>, s': Pool)
    requires Reachable(n, s) && Run(s, es, s')
    ensures Reachable(n, s')
    decreases |es|
  {
    if es != [] {
      ReachableNext(n, s, es[0]);
      ReachableRun(n, Next(s, es[0]), es[1..], s');
    }
  }

  lemma ReachableInv(n: nat, s: Pool)
    requires Reachable(n, s)
    ensures Inv(s) && |s.workers| == n
  {
    var es :| Run(Init(n), es, s);
    InvInit(n);
    InvRun(Init(n), es, s);
  }

  // ---------- Mutual exclusion and wake-ups ----------

  /** At most one thread is inside the job-queue lock: no two workers, and no worker beside the caller. */
  lemma OneHolder(n: nat, s: Pool)
    requires Reachable(n, s)
    ensures Total(Holds, s.workers) + CallerHolds(s.caller) <= 1
    ensures forall i | 0 <= i < n :: Holds(s.workers[i]) + CallerHolds(s.caller) <= 1
    ensures forall i, j | 0 <= i < j < n :: Holds(s.workers[i]) + Holds(s.workers[j]) + CallerHolds(s.caller) <= 1
  {
    ReachableInv(n, s);
    forall i | 0 <= i < n ensures Holds(s.workers[i]) <= Total(Holds, s.workers) {
      TotalMember(Holds, s.workers, i);
    }
    forall i, j | 0 <= i < j < n ensures Holds(s.workers[i]) + Holds(s.workers[j]) <= Total(Holds, s.workers) {
      TotalPair(Holds, s.workers, i, j);
    }
  }

  /** The 0/1 semaphore loses no wake-up, however many jobs are queued. */
  lemma NoLostWakeup(n: nat, s: Pool)
    requires Reachable(n, s)
    ensures s.keepalive && s.queue != [] ==>
      || s.v || s.caller.PushPost?
      || exists i :: 0 <= i < n && (Takes(s.workers[i]) > 0 || Posts(s.workers[i]) > 0)
    ensures s.v && (exists i :: 0 <= i < n && s.workers[i].Asleep?) ==>
      exists i :: 0 <= i < n && s.workers[i].Woken?
  {
    ReachableInv(n, s);
    if Total(Takes, s.workers) > 0 { var i := TotalWitness(Takes, s.workers); }
    if Total(Posts, s.workers) > 0 { var i := TotalWitness(Posts, s.workers); }
    if i :| 0 <= i < n && s.workers[i].Asleep? { TotalMember(Sleeps, s.workers, i); }
    if Total(Wakes, s.workers) > 0 { var i := TotalWitness(Wakes, s.workers); }
  }

  // ---------- First in, first out ----------

  /** The queue holds the jobs accepted last, in the order of acceptance. */
  ghost predicate Fifo(s: Pool) {
    && |s.queue| <= |s.log.accepted|
    && forall i | 0 <= i < |s.queue| :: s.queue[i].id == |s.log.accepted| - |s.queue| + i
  }

  lemma WorkerNextQueue(s: Pool, i: nat, t: nat)
    requires WorkerEnabled(s, i)
    ensures var s', w := WorkerNext(s, i, t), s.workers[i];
      var submits := w.Running? && w.rest != [];
      && s'.queue == (if submits then s.queue + [Ticket(|s.log.accepted|, w.rest[0])]
                      else if w.Pulling? && s.queue != [] then s.queue[1..] else s.queue)
      && |s'.log.accepted| == |s.log.accepted| + if submits then 1 else 0
  {}

  lemma FifoWork(s: Pool, i: nat, t: nat)
    requires Fifo(s) && WorkerEnabled(s, i)
    ensures Fifo(WorkerNext(s, i, t))
  {
    WorkerNextQueue(s, i, t);
  }

  lemma FifoAdvance(s: Pool, t: nat)
    requires Fifo(s)
    ensures Fifo(CallerNext(s, t))
  {
    CallerNextRecords(s, t);
    CallerNextQueue(s, t);
  }

  lemma FifoNext(s: Pool, e: Event)
    requires Fifo(s) && Enabled(s, e)
    ensures Fifo(Next(s, e))
  {
    match e
    case Work(i, t) => FifoWork(s, i, t);
    case Advance(t) => FifoAdvance(s, t);
    case _ =>
  }

  lemma {:induction false} FifoRun(s: Pool, es: seq<Event>, s': Pool)
    requires Fifo(s) && Run(s, es, s')
    ensures Fifo(s')
    decreases |es|
  {
    if es != [] {
      FifoNext(s, es[0]);
      FifoRun(Next(s, es[0]), es[1..], s');
    }
  }

  lemma {:induction false} FifoQueued(q: seq<Ticket>, first: nat, id: nat)
    requires forall i | 0 <= i < |q| :: q[i].id == first + i
    ensures Queued(q, id) == if first <= id < first + |q| then 1 else 0
  {
    if q != [] { FifoQueued(q[1..], first + 1, id); }
  }

  /** Jobs leave the queue in the order of acceptance: those gone from it are exactly the oldest ones. */
  lemma JobsLeaveInOrder(n: nat, s: Pool, id: nat)
    requires Reachable(n, s)
    ensures |s.queue| <= |s.log.accepted|
    ensures Queued(s.queue, id) == if |s.log.accepted| - |s.queue| <= id < |s.log.accepted| then 1 else 0
    ensures s.queue != [] ==> s.queue[0].id == |s.log.accepted| - |s.queue|
  {
    var es :| Run(Init(n), es, s);
    FifoRun(Init(n), es, s);
    FifoQueued(s.queue, |s.log.accepted| - |s.queue|, id);
  }

  // ---------- thpool_wait is a barrier ----------

  /** Every accepted job has run to its end exactly once, and submitted all its children. */
  ghost predicate Complete(s: Pool) {
    && |s.log.kids| == |s.log.accepted|
    && forall id | 0 <= id < |s.log.accepted| ::
         s.log.done[id] == 1 && |s.log.kids[id]| == |s.log.accepted[id].children| && KidsAt(s.log.accepted, s.log.kids, id)
  }

  lemma {:induction false} HoldersAreBusy(ws: seq<Worker>, k: nat)
    ensures Total(Holder(k), ws) <= Total(Busy, ws)
  {
    if ws != [] { HoldersAreBusy(ws[1..], k); }
  }

  lemma DrainedIsComplete(s: Pool)
    requires Inv(s) && s.keepalive && s.queue == [] && s.working == 0
    ensures Complete(s)
  {
    forall id | 0 <= id < |s.log.accepted|
      ensures s.log.done[id] == 1 && |s.log.kids[id]| == |s.log.accepted[id].children| && KidsAt(s.log.accepted, s.log.kids, id)
    {
      HoldersAreBusy(s.workers, id);
      assert Places(s, id) == 1;
      assert id in s.log.done;
      assert Finished(s.log.accepted, s.log.kids, id);
    }
  }

  /** The event by which thpool_wait returns leaves no job unfinished. */
  lemma WaitIsABarrier(n: nat, s: Pool, t: nat)
    requires Reachable(n, s) && s.caller.ReadWorking?
    requires CallerNext(s, t).caller.Idle?
    ensures Complete(CallerNext(s, t))
  {
    ReachableInv(n, s);
    DrainedIsComplete(s);
  }

  /** The job at the end of a path of child indices. */
  function Descendant(job: Job, path: seq<nat>): Option<Job> {
    if path == [] then Some(job)
    else
      var j, parent := path[|path| - 1], Descendant(job, path[..|path| - 1]);
      if parent.Some? && j < |parent.value.children| then Some(parent.value.children[j]) else None
  }

  /** The id under which that job was accepted. */
  ghost function IdOf(s: Pool, id: nat, path: seq<nat>): nat {
    if path == [] then id
    else
      var j, parent := path[|path| - 1], IdOf(s, id, path[..|path| - 1]);
      if parent < |s.log.kids| && j < |s.log.kids[parent]| then s.log.kids[parent][j] else 0
  }

  /** After the barrier every job transitively submitted by an accepted one has run. */
  lemma {:induction false} DescendantsRan(s: Pool, id: nat, path: seq<nat>)
    requires Complete(s) && id < |s.log.accepted| && Descendant(s.log.accepted[id], path).Some?
    ensures IdOf(s, id, path) < |s.log.accepted| && s.log.done[IdOf(s, id, path)] == 1
    ensures s.log.accepted[IdOf(s, id, path)] == Descendant(s.log.accepted[id], path).value
  {
    if path != [] {
      DescendantsRan(s, id, path[..|path| - 1]);
      assert KidsAt(s.log.accepted, s.log.kids, IdOf(s, id, path[..|path| - 1]));
    }
  }

  lemma {:induction false} IdsGrow(s: Pool, id: nat, path: seq<nat>)
    requires Complete(s) && OneParent(s.log.kids) && id < |s.log.accepted| && Descendant(s.log.accepted[id], path).Some?
    ensures if path == [] then IdOf(s, id, path) == id else id < IdOf(s, id, path)
  {
    if path != [] {
      IdsGrow(s, id, path[..|path| - 1]);
      DescendantsRan(s, id, path[..|path| - 1]);
    }
  }

  /** Different nodes of a submission tree ran as different jobs. */
  lemma {:induction false} NodesRanSeparately(s: Pool, id: nat, p: seq<nat>, q: seq<nat>)
    requires Complete(s) && OneParent(s.log.kids) && id < |s.log.accepted|
    requires Descendant(s.log.accepted[id], p).Some? && Descendant(s.log.accepted[id], q).Some?
    requires IdOf(s, id, p) == IdOf(s, id, q)
    ensures p == q
    decreases |p|
  {
    IdsGrow(s, id, p);
    IdsGrow(s, id, q);
    if p != [] && q != [] {
      var p', q' := p[..|p| - 1], q[..|q| - 1];
      DescendantsRan(s, id, p');
      DescendantsRan(s, id, q');
      NodesRanSeparately(s, id, p', q');
      assert p == p' + [p[|p| - 1]] && q == q' + [q[|q| - 1]];
    }
  }

  // ---------- Shutdown ----------

  /** After thpool_destroy each accepted job completed once or was freed once, never both; since
      threads_keepalive was cleared each worker started at most one job. */
  lemma DestroyAccountsForAll(n: nat, s: Pool)
    requires Reachable(n, s) && s.caller.Destroyed?
    ensures forall id: nat :: s.log.done[id] + s.log.freed[id] == if id < |s.log.accepted| then 1 else 0
    ensures |s.log.late| == n && forall i | 0 <= i < n :: s.log.late[i] <= 1
    ensures forall i | 0 <= i < n :: s.workers[i].Gone?
  {
    ReachableInv(n, s);
    forall id: nat ensures s.log.done[id] + s.log.freed[id] == if id < |s.log.accepted| then 1 else 0 {
      HoldersAreAlive(s.workers, id);
      assert Places(s, id) == if id < |s.log.accepted| then 1 else 0;
    }
    forall i | 0 <= i < n ensures s.log.late[i] <= 1 && s.workers[i].Gone? {
      assert LateAt(s, i);
      TotalMember(Live, s.workers, i);
      TotalMember(Starts, s.workers, i);
    }
  }

  lemma {:induction false} HoldersAreAlive(ws: seq<Worker>, k: nat)
    ensures Total(Holder(k), ws) <= Total(Live, ws)
  {
    if ws != [] { HoldersAreAlive(ws[1..], k); }
  }

  /** At every moment: accepted = queued + held by a worker + completed + freed, without overlap. */
  lemma JobsAreConserved(n: nat, s: Pool, id: nat)
    requires Reachable(n, s)
    ensures Queued(s.queue, id) + Total(Holder(id), s.workers) + s.log.done[id] + s.log.freed[id]
         == if id < |s.log.accepted| then 1 else 0
  {
    ReachableInv(n, s);
    assert Places(s, id) == if id < |s.log.accepted| then 1 else 0;
  }
}
