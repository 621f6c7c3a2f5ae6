// thpool_destroy: from every state in its polling loops some run of the pool's own steps leads to its
// end, and it ends after as many polls as there are threads if these run to a stop between polls.
module PoolShutdown {
  import opened PoolLiveness
  import opened PoolSafety
  import opened PoolTheorems
  import opened ThreadPool

  /** In thpool_destroy's polling, with the invariant. */
  ghost predicate Closing(s: Pool) {
    Inv(s) && InDestroyLoop(s.caller)
  }

  ghost predicate Leads(s: Pool, es: seq<Event>, s': Pool) {
    Run(s, es, s') && forall e | e in es :: Internal(e)
  }

  lemma LeadsOn(s: Pool, e: Event, es: seq<Event>, s': Pool)
    requires Enabled(s, e) && Internal(e) && Leads(Next(s, e), es, s')
    ensures Leads(s, [e] + es, s')
  {
    assert ([e] + es)[1..] == es;
  }

  /** A step of a worker keeps destroy polling and brings no thread back. */
  lemma WorkerStepCloses(s: Pool, i: nat, t: nat)
    requires Closing(s) && Enabled(s, Work(i, t))
    ensures var s' := Next(s, Work(i, t));
      Closing(s') && s'.caller == s.caller && Total(Live, s'.workers) <= Total(Live, s.workers) && Measure(s') < Measure(s)
  {
    InvNext(s, Work(i, t));
    MeasureWork(s, i, t);
    WorkTotal(Live, s, i, t);
    TotalMember(Starts, s.workers, i);
  }

  /** jobqueue_clear, once every thread is gone. */
  lemma {:induction false} ClearingEnds(s: Pool) returns (es: seq<Event>, s': Pool)
    requires Inv(s) && s.caller.Clearing?
    ensures Leads(s, es, s') && s'.caller.Destroyed?
    decreases |s.queue|
  {
    NobodyHolds(s.workers);
    var e := Advance(0);
    InvNext(s, e);
    if s.queue == [] {
      es, s' := [e], Next(s, e);
      assert Run(s', [], s');
    } else {
      var rest;
      rest, s' := ClearingEnds(Next(s, e));
      LeadsOn(s, e, rest, s');
      es := [e] + rest;
    }
  }

  lemma {:induction false} NobodyHolds(ws: seq<Worker>)
    ensures Total(Holds, ws) <= Total(Live, ws)
  {
    if ws != [] { NobodyHolds(ws[1..]); }
  }

  /** The caller's step back to its test of num_threads_alive. */
  lemma BackToPolling(s: Pool) returns (es: seq<Event>, s': Pool)
    requires Closing(s)
    ensures Leads(s, es, s') && Closing(s') && s'.caller.Polling? && Total(Live, s'.workers) == Total(Live, s.workers)
  {
    if s.caller.Polling? {
      es, s' := [], s;
    } else {
      var e := Advance(0);
      InvNext(s, e);
      BroadcastTotal(Live, s.workers);
      es, s' := [e], Next(s, e);
      assert Run(s', [], s');
    }
  }

  lemma NobodyLeft(s: Pool) returns (es: seq<Event>, s': Pool)
    requires Closing(s) && Total(Live, s.workers) == 0
    ensures Leads(s, es, s') && s'.caller.Destroyed?
  {
    var es0, s0 := BackToPolling(s);
    var e := Advance(0);
    InvNext(s0, e);
    var fs, last := ClearingEnds(Next(s0, e));
    LeadsOn(s0, e, fs, last);
    RunAppend(s, es0, s0, [e] + fs, last);
    es, s' := es0 + ([e] + fs), last;
  }

  /** Post to all, then let sleeper i find the flag cleared and leave. */
  lemma SleeperLeaves(s: Pool, i: nat) returns (es: seq<Event>, s': Pool)
    requires Closing(s) && s.caller.Posting? && i < |s.workers| && s.workers[i].Asleep?
    ensures Leads(s, es, s') && Closing(s') && Total(Live, s'.workers) < Total(Live, s.workers)
  {
    var s1 := Next(s, Advance(0));
    InvNext(s, Advance(0));
    BroadcastAt(s.workers);
    BroadcastTotal(Live, s.workers);
    es, s' := WalksOut(s1, i);
    LeadsOn(s, Advance(0), es, s');
    es := [Advance(0)] + es;
  }

  /** Woken on a raised semaphore, or past it and on the way to the end of thread_do. */
  predicate OnWayOut(s: Pool, i: nat) {
    && i < |s.workers|
    && var w := s.workers[i]; (w.Woken? && s.v) || w.Passed? || w.Top? || w.Leaving?
  }

  lemma {:induction false} WalksOut(s: Pool, i: nat) returns (es: seq<Event>, s': Pool)
    requires Closing(s) && OnWayOut(s, i)
    ensures Leads(s, es, s') && Closing(s') && Total(Live, s'.workers) < Total(Live, s.workers)
    decreases Measure(s)
  {
    var e := Work(i, 0);
    WorkerStepCloses(s, i, 0);
    if s.workers[i].Leaving? {
      WorkTotal(Live, s, i, 0);
      es, s' := [], Next(s, e);
    } else {
      es, s' := WalksOut(Next(s, e), i);
    }
    LeadsOn(s, e, es, s');
    es := [e] + es;
  }

  /** Some worker can move, or every live one sleeps. */
  lemma SomebodyMoves(s: Pool) returns (i: nat, t: nat)
    requires Closing(s) && Total(Live, s.workers) > 0
    ensures i < |s.workers| && (Enabled(s, Work(i, t)) || s.workers[i].Asleep?)
  {
    t := SomeTarget(s.workers);
    if s.rw {
      i := TotalWitness(Holds, s.workers);
    } else {
      i := TotalWitness(Live, s.workers);
    }
  }

  /** While a thread is alive the test of num_threads_alive leads on to bsem_post_all. */
  lemma ToPosting(s: Pool) returns (es: seq<Event>, s': Pool)
    requires Closing(s) && Total(Live, s.workers) > 0
    ensures Leads(s, es, s') && Closing(s') && s'.caller.Posting? && s'.workers == s.workers
  {
    if s.caller.Posting? {
      es, s' := [], s;
    } else {
      InvNext(s, Advance(0));
      es, s' := [Advance(0)], Next(s, Advance(0));
      assert Run(s', [], s');
    }
  }

  /** From every polling state thpool_destroy can be driven to its end; no fairness is needed for that. */
  lemma {:induction false} DestroyCanFinish(s: Pool) returns (es: seq<Event>, s': Pool)
    requires Closing(s)
    ensures Leads(s, es, s') && s'.caller.Destroyed?
    decreases Total(Live, s.workers), Measure(s)
  {
    if Total(Live, s.workers) == 0 {
      es, s' := NobodyLeft(s);
    } else {
      var i, t := SomebodyMoves(s);
      if Enabled(s, Work(i, t)) {
        WorkerStepCloses(s, i, t);
        var fs, last := DestroyCanFinish(Next(s, Work(i, t)));
        LeadsOn(s, Work(i, t), fs, last);
        es, s' := [Work(i, t)] + fs, last;
      } else {
        var es0, s0 := ToPosting(s);
        var es1, s1 := SleeperLeaves(s0, i);
        var es2, last := DestroyCanFinish(s1);
        RunAppend(s0, es1, s1, es2, last);
        RunAppend(s, es0, s0, es1 + es2, last);
        es, s' := es0 + (es1 + es2), last;
      }
    }
  }

  /** Every reachable state of thpool_destroy's polling is such a state. */
  lemma DestroyCanFinishFrom(n: nat, s: Pool) returns (es: seq<Event>, s': Pool)
    requires Reachable(n, s) && InDestroyLoop(s.caller)
    ensures Run(s, es, s') && (forall e | e in es :: Internal(e)) && s'.caller.Destroyed?
  {
    ReachableInv(n, s);
    es, s' := DestroyCanFinish(s);
  }

  // ---------- How many polls it takes ----------

  /** Alive, and not on the way to sleep or waking up from it: with the flag cleared such a thread can only leave. */
  function Bound(w: Worker): nat { if Live(w) == 1 && !w.Entering? && !w.Asleep? && !w.Woken? then 1 else 0 }

  /** Of `alive` threads one has left, or is bound to, or the semaphore is raised for one. */
  ghost predicate OneMustGo(s: Pool, alive: nat) {
    && Total(Live, s.workers) <= alive
    && (Total(Live, s.workers) < alive || s.v || Total(Bound, s.workers) > 0)
  }

  lemma WorkKeepsGoing(s: Pool, i: nat, t: nat, alive: nat)
    requires Closing(s) && OneMustGo(s, alive) && Enabled(s, Work(i, t))
    ensures OneMustGo(Next(s, Work(i, t)), alive)
  {
    WorkTotal(Live, s, i, t);
    WorkTotal(Bound, s, i, t);
    TotalMember(Starts, s.workers, i);
  }

  /** Steps of workers only, after which no worker can move. */
  ghost predicate RunsToStop(s: Pool, es: seq<Event>, s': Pool) {
    && Run(s, es, s') && (forall e | e in es :: e.Work?)
    && forall i, t :: !Enabled(s', Work(i, t))
  }

  lemma {:induction false} WorkRunKeepsGoing(s: Pool, es: seq<Event>, s': Pool, alive: nat)
    requires Closing(s) && OneMustGo(s, alive) && Run(s, es, s') && forall e | e in es :: e.Work?
    ensures Closing(s') && OneMustGo(s', alive) && s'.caller == s.caller
    decreases |es|
  {
    if es != [] {
      assert es[0].Work?;
      WorkerStepCloses(s, es[0].i, es[0].t);
      WorkKeepsGoing(s, es[0].i, es[0].t, alive);
      WorkRunKeepsGoing(Next(s, es[0]), es[1..], s', alive);
    }
  }

  /** A worker that is awake can move, or the holder of rwmutex can. */
  lemma AwakeEvent(s: Pool, i: nat) returns (j: nat, t: nat)
    requires Closing(s) && i < |s.workers| && !s.workers[i].Asleep? && !s.workers[i].Gone?
    ensures Enabled(s, Work(j, t))
  {
    t := SomeTarget(s.workers);
    if s.rw { j := TotalWitness(Holds, s.workers); } else { j := i; }
  }

  lemma StoppedSleep(s: Pool, i: nat)
    requires Closing(s) && i < |s.workers| && forall j, t :: !Enabled(s, Work(j, t))
    ensures s.workers[i].Asleep? || s.workers[i].Gone?
  {
    if !s.workers[i].Asleep? && !s.workers[i].Gone? {
      var j, t := AwakeEvent(s, i);
      assert false;
    }
  }

  /** Where no worker can move, the one that must go has gone. */
  lemma StoppedIsGone(s: Pool, alive: nat)
    requires Closing(s) && OneMustGo(s, alive) && alive > 0 && forall i, t :: !Enabled(s, Work(i, t))
    ensures Total(Live, s.workers) < alive
  {
    if Total(Bound, s.workers) > 0 {
      var i := TotalWitness(Bound, s.workers);
      StoppedSleep(s, i);
    }
    if s.v && Total(Live, s.workers) > 0 {
      var i := TotalWitness(Live, s.workers);
      StoppedSleep(s, i);
      TotalMember(Sleeps, s.workers, i);
      var j := TotalWitness(Wakes, s.workers);
      StoppedSleep(s, j);
    }
  }

  /** One bsem_post_all, and then steps of the workers until none can move: fewer threads are alive. */
  lemma PollMakesProgress(n: nat, s: Pool, t: nat, es: seq<Event>, s': Pool)
    requires Reachable(n, s) && s.caller.Posting? && s.alive > 0
    requires RunsToStop(Next(s, Advance(t)), es, s')
    ensures s'.caller.Polling? && 0 <= s'.alive < s.alive
  {
    ReachableInv(n, s);
    var s1 := Next(s, Advance(t));
    InvNext(s, Advance(t));
    BroadcastTotal(Live, s.workers);
    WorkRunKeepsGoing(s1, es, s', s.alive);
    StoppedIsGone(s', s.alive);
  }

  /** From one bsem_post_all to the next, if the workers run to a stop in between. */
  ghost predicate Round(s: Pool, s': Pool) {
    && s.caller.Posting? && s.alive > 0
    && exists t, es, m ::
         RunsToStop(Next(s, Advance(t)), es, m) && m.caller.Polling? && m.alive != 0 && s' == Next(m, Advance(0))
  }

  lemma RoundReaches(n: nat, s: Pool, s': Pool)
    requires Reachable(n, s) && Round(s, s')
    ensures Reachable(n, s') && s'.caller.Posting? && 0 < s'.alive < s.alive
  {
    var t, es, m :|
      RunsToStop(Next(s, Advance(t)), es, m) && m.caller.Polling? && m.alive != 0 && s' == Next(m, Advance(0));
    PollMakesProgress(n, s, t, es, m);
    ReachableNext(n, s, Advance(t));
    ReachableRun(n, Next(s, Advance(t)), es, m);
    ReachableNext(n, m, Advance(0));
  }

  /** So there are no more rounds than threads. */
  lemma {:induction false} RoundsAreFew(n: nat, ss: seq<Pool>)
    requires ss != [] && Reachable(n, ss[0]) && ss[0].caller.Posting? && ss[0].alive > 0
    requires forall j | 0 <= j < |ss| - 1 :: Round(ss[j], ss[j + 1])
    ensures |ss| <= ss[0].alive <= n
    decreases |ss|
  {
    ReachableInv(n, ss[0]);
    LiveAtMost(ss[0].workers);
    if |ss| > 1 {
      assert Round(ss[0], ss[1]);
      RoundReaches(n, ss[0], ss[1]);
      var rest := ss[1..];
      forall j | 0 <= j < |rest| - 1 ensures Round(rest[j], rest[j + 1]) { assert Round(ss[j + 1], ss[j + 2]); }
      RoundsAreFew(n, rest);
    }
  }

  lemma {:induction false} LiveAtMost(ws: seq<Worker>)
    ensures Total(Live, ws) <= |ws|
  {
    if ws != [] { LiveAtMost(ws[1..]); }
  }

  /** A live pool with a worker can be shut down from wherever it is. */
  lemma CanBeDestroyed(n: nat, s: Pool) returns (s': Pool)
    requires Reachable(n, s) && n > 0 && s.keepalive
    ensures Reachable(n, s') && s'.caller.Destroyed?
  {
    ReachableInv(n, s);
    var es, rest := RunsToRest(s);
    ReachableRun(n, s, es, rest);
    ReachableNext(n, rest, Destroy);
    var fs;
    fs, s' := DestroyCanFinishFrom(n, Next(rest, Destroy));
    ReachableRun(n, Next(rest, Destroy), fs, s');
  }
}
