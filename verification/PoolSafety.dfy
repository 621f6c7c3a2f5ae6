// What every event of the pool keeps, and therefore what holds in every reachable state.
module PoolSafety {
  import opened ThreadPool

  // ---------- Sums under an update ----------

  lemma {:induction false} TotalUpdate(f: Worker -> nat, ws: seq<Worker>, i: nat, w: Worker)
    requires i < |ws|
    ensures Total(f, ws[i := w]) + f(ws[i]) == Total(f, ws) + f(w)
  {
    if i == 0 {
      assert ws[0 := w][1..] == ws[1..];
    } else {
      assert ws[i := w][1..] == ws[1..][i - 1 := w];
      TotalUpdate(f, ws[1..], i - 1, w);
    }
  }

  lemma {:induction false} TotalMember(f: Worker -> nat, ws: seq<Worker>, i: nat)
    requires i < |ws|
    ensures f(ws[i]) <= Total(f, ws)
  {
    if i > 0 { TotalMember(f, ws[1..], i - 1); }
  }

  /** A positive sum has a positive term. */
  lemma {:induction false} TotalWitness(f: Worker -> nat, ws: seq<Worker>) returns (i: nat)
    requires Total(f, ws) > 0
    ensures i < |ws| && f(ws[i]) > 0
  {
    if f(ws[0]) > 0 {
      i := 0;
    } else {
      var j := TotalWitness(f, ws[1..]);
      i := j + 1;
    }
  }

  function Gain(f: Worker -> nat, ws: seq<Worker>, t: nat): int {
    if t < |ws| && ws[t].Asleep? then f(Woken) - f(Asleep) else 0
  }

  lemma SignalTotal(f: Worker -> nat, ws: seq<Worker>, t: nat)
    ensures |Signal(ws, t)| == |ws|
    ensures Total(f, Signal(ws, t)) == Total(f, ws) + Gain(f, ws, t)
  {
    if t < |ws| && ws[t].Asleep? { TotalUpdate(f, ws, t, Woken); }
  }

  predicate Signalling(w: Worker) { w.PullPosting? || w.PushPosting? }

  lemma WorkerMoves(s: Pool, i: nat, t: nat)
    requires i < |s.workers|
    ensures var w := s.workers[i];
      WorkerNext(s, i, t).workers
      == if Signalling(w) then Signal(s.workers[i := Moved(s, w)], t) else s.workers[i := Moved(s, w)]
  {}

  /** How any sum over the workers changes when worker i moves. */
  lemma WorkTotal(f: Worker -> nat, s: Pool, i: nat, t: nat)
    requires i < |s.workers|
    ensures var w := s.workers[i];
      && |WorkerNext(s, i, t).workers| == |s.workers|
      && Total(f, WorkerNext(s, i, t).workers) + f(w)
         == Total(f, s.workers) + f(Moved(s, w)) + (if Signalling(w) then Gain(f, s.workers, t) else 0)
  {
    var w := s.workers[i];
    var ws' := s.workers[i := Moved(s, w)];
    WorkerMoves(s, i, t);
    TotalUpdate(f, s.workers, i, Moved(s, w));
    if Signalling(w) {
      SignalTotal(f, ws', t);
      assert t < |ws'| && ws'[t].Asleep? <==> t < |s.workers| && s.workers[t].Asleep?;
    }
  }

  lemma {:induction false} BroadcastTotal(f: Worker -> nat, ws: seq<Worker>)
    requires f(Asleep) == f(Woken)
    ensures Total(f, Broadcast(ws)) == Total(f, ws)
  {
    if ws != [] { BroadcastTotal(f, ws[1..]); }
  }

  lemma {:induction false} NobodySleeps(ws: seq<Worker>)
    ensures Total(Sleeps, Broadcast(ws)) == 0
  {
    if ws != [] { NobodySleeps(ws[1..]); }
  }

  lemma {:induction false} BroadcastAt(ws: seq<Worker>)
    ensures |Broadcast(ws)| == |ws|
    ensures forall i | 0 <= i < |ws| :: Broadcast(ws)[i] == if ws[i].Asleep? then Woken else ws[i]
  {
    if ws != [] { BroadcastAt(ws[1..]); }
  }

  // ---------- Locks ----------

  function CallerHolds(c: Caller): nat { if c.PushPost? || c.PushUnlock? then 1 else 0 }

  /** rwmutex has exactly one holder while it is held; only thpool_wait keeps thcount_lock across events. */
  ghost predicate Locks(s: Pool) {
    && Total(Holds, s.workers) + CallerHolds(s.caller) == (if s.rw then 1 else 0)
    && (s.th <==> s.caller.ReadLen? || s.caller.ReadWorking? || s.caller.GoSleep?)
  }

  lemma LocksWork(s: Pool, i: nat, t: nat)
    requires Locks(s) && WorkerEnabled(s, i)
    ensures Locks(WorkerNext(s, i, t))
  {
    WorkTotal(Holds, s, i, t);
    TotalMember(Holds, s.workers, i);
  }

  lemma LocksAdvance(s: Pool, t: nat)
    requires Locks(s) && CallerEnabled(s)
    ensures Locks(CallerNext(s, t))
  {
    if s.caller.PushPost? { SignalTotal(Holds, s.workers, t); }
    if s.caller.Posting? { BroadcastTotal(Holds, s.workers); }
  }

  // ---------- Counters ----------

  ghost predicate Counters(s: Pool) {
    && s.working == Total(Busy, s.workers)
    && s.alive == Total(Live, s.workers)
  }

  lemma WorkingMoves(s: Pool, i: nat, t: nat)
    requires WorkerEnabled(s, i)
    ensures WorkerNext(s, i, t).working == s.working + Busy(Moved(s, s.workers[i])) - Busy(s.workers[i])
  {}

  lemma AliveMoves(s: Pool, i: nat, t: nat)
    requires WorkerEnabled(s, i)
    ensures WorkerNext(s, i, t).alive == s.alive + Live(Moved(s, s.workers[i])) - Live(s.workers[i])
  {}

  lemma CountersWork(s: Pool, i: nat, t: nat)
    requires Counters(s) && WorkerEnabled(s, i)
    ensures Counters(WorkerNext(s, i, t))
  {
    WorkingMoves(s, i, t);
    AliveMoves(s, i, t);
    WorkTotal(Busy, s, i, t);
    WorkTotal(Live, s, i, t);
    assert Gain(Busy, s.workers, t) == 0 && Gain(Live, s.workers, t) == 0;
  }

  lemma CountersAdvance(s: Pool, t: nat)
    requires Counters(s) && CallerEnabled(s)
    ensures Counters(CallerNext(s, t))
  {
    if s.caller.PushPost? { SignalTotal(Busy, s.workers, t); SignalTotal(Live, s.workers, t); }
    if s.caller.Posting? { BroadcastTotal(Busy, s.workers); BroadcastTotal(Live, s.workers); }
  }

  // ---------- The binary semaphore ----------

  /** While the semaphore is raised, a sleeping worker is never alone: a woken one is on its way. */
  ghost predicate Raised(s: Pool) {
    s.v && Total(Sleeps, s.workers) > 0 ==> Total(Wakes, s.workers) > 0
  }

  lemma RaisedWork(s: Pool, i: nat, t: nat)
    requires Raised(s) && Enabled(s, Work(i, t))
    ensures Raised(WorkerNext(s, i, t))
  {
    WorkTotal(Sleeps, s, i, t);
    WorkTotal(Wakes, s, i, t);
    TotalMember(Wakes, s.workers, i);
  }

  lemma {:induction false} SleepersAreAlive(ws: seq<Worker>)
    ensures Total(Sleeps, ws) <= Total(Live, ws)
  {
    if ws != [] { SleepersAreAlive(ws[1..]); }
  }

  lemma RaisedAdvance(s: Pool, t: nat)
    requires Raised(s) && Phases(s) && Enabled(s, Advance(t))
    ensures Raised(CallerNext(s, t))
  {
    if s.caller.Clearing? { SleepersAreAlive(s.workers); }
    if s.caller.PushPost? { SignalTotal(Sleeps, s.workers, t); SignalTotal(Wakes, s.workers, t); }
    if s.caller.Posting? { NobodySleeps(s.workers); }
  }

  /** No wake-up is lost: waiting work is announced by the semaphore, by a worker that passed it and
      has not yet pulled, or by a holder of rwmutex that is about to post. */
  ghost predicate Announced(s: Pool) {
    s.keepalive && s.queue != [] ==>
      s.v || Total(Takes, s.workers) > 0 || Total(Posts, s.workers) > 0 || s.caller.PushPost?
  }

  lemma AnnouncedWork(s: Pool, i: nat, t: nat)
    requires Announced(s) && WorkerEnabled(s, i)
    ensures Announced(WorkerNext(s, i, t))
  {
    WorkTotal(Takes, s, i, t);
    WorkTotal(Posts, s, i, t);
    TotalMember(Posts, s.workers[i := Moved(s, s.workers[i])], i);
  }

  lemma AnnouncedAdvance(s: Pool, t: nat)
    requires Announced(s) && Phases(s) && CallerEnabled(s)
    ensures Announced(CallerNext(s, t))
  {}

  // ---------- thpool_wait ----------

  /** A caller that sleeps, or is about to, still has work to wait for; one that has read len == 0
      and not yet num_threads_working finds the queue empty unless somebody is working. */
  ghost predicate Watched(s: Pool) {
    && (s.caller.GoSleep? || s.caller.Waiting? ==> s.queue != [] || s.working > 0)
    && (s.caller.ReadWorking? ==> s.queue == [] || s.working > 0)
  }

  lemma WatchedWork(s: Pool, i: nat, t: nat)
    requires Watched(s) && Counters(s) && Locks(s) && WorkerEnabled(s, i)
    ensures Watched(WorkerNext(s, i, t))
  {
    TotalMember(Busy, s.workers, i);
  }

  lemma WatchedAdvance(s: Pool, t: nat)
    requires Watched(s) && Counters(s) && CallerEnabled(s)
    ensures Watched(CallerNext(s, t))
  {}

  // ---------- Phases of the pool's life ----------

  ghost predicate Phases(s: Pool) {
    && (s.keepalive <==> !s.caller.Polling? && !s.caller.Posting? && !s.caller.Clearing? && !s.caller.Destroyed?)
    && (!s.caller.Booting? ==> Total(Starts, s.workers) == 0)
    && (s.keepalive ==> Total(Leaves, s.workers) == 0)
    && (s.caller.Clearing? || s.caller.Destroyed? ==> Total(Live, s.workers) == 0)
    && (s.log.freed != multiset{} ==> s.caller.Clearing? || s.caller.Destroyed?)
    && (s.caller.Destroyed? ==> s.queue == [])
  }

  lemma {:induction false} NoStarters(ws: seq<Worker>)
    ensures Total(Live, ws) + Total(Starts, ws) <= |ws|
  {
    if ws != [] { NoStarters(ws[1..]); }
  }

  lemma PhasesWork(s: Pool, i: nat, t: nat)
    requires Phases(s) && WorkerEnabled(s, i)
    ensures Phases(WorkerNext(s, i, t))
  {
    WorkTotal(Starts, s, i, t);
    WorkTotal(Leaves, s, i, t);
    WorkTotal(Live, s, i, t);
    TotalMember(Starts, s.workers, i);
    TotalMember(Live, s.workers, i);
  }

  lemma PhasesAdvance(s: Pool, t: nat)
    requires Phases(s) && Counters(s) && CallerEnabled(s)
    ensures Phases(CallerNext(s, t))
  {
    if s.caller.Booting? { NoStarters(s.workers); }
    if s.caller.PushPost? { SignalTotal(Starts, s.workers, t); SignalTotal(Leaves, s.workers, t); }
    if s.caller.Posting? { BroadcastTotal(Starts, s.workers); }
  }

  // ---------- Shutdown ----------

  /** On the way from bsem_wait to the call of a job. */
  predicate BeforeJob(w: Worker) { w.Counting? || w.Pulling? || w.PullPosting? || w.PullUnlocking? || w.Calling? }

  ghost predicate LateAt(s: Pool, i: nat)
    requires i < |s.workers| && i < |s.log.late|
  {
    && s.log.late[i] <= 1
    && (s.keepalive || BeforeJob(s.workers[i]) ==> s.log.late[i] == 0)
  }

  /** After threads_keepalive is cleared each worker starts at most one more job. */
  ghost predicate AtMostOneLate(s: Pool) {
    |s.log.late| == |s.workers| && forall i | 0 <= i < |s.workers| :: LateAt(s, i)
  }

  lemma AtMostOneLateWork(s: Pool, i: nat, t: nat)
    requires AtMostOneLate(s) && WorkerEnabled(s, i)
    ensures AtMostOneLate(WorkerNext(s, i, t))
  {
    var s' := WorkerNext(s, i, t);
    WorkerMoves(s, i, t);
    forall j | 0 <= j < |s.workers|
      ensures j < |s'.workers| && j < |s'.log.late| && LateAt(s', j)
    {
      assert LateAt(s, j);
      assert s'.keepalive == s.keepalive;
    }
  }

  lemma AtMostOneLateAdvance(s: Pool, t: nat)
    requires AtMostOneLate(s) && CallerEnabled(s)
    ensures AtMostOneLate(CallerNext(s, t))
  {
    var s' := CallerNext(s, t);
    BroadcastAt(s.workers);
    assert |s'.workers| == |s.workers|;
    forall j | 0 <= j < |s.workers| ensures LateAt(s', j) { assert LateAt(s, j); }
  }
}
