// The loop of main: the pool and the registry together. A job that handles a request ends only after its
// handler has sent all it has to send, and a handler moves only while a worker runs such a job.
module ServerRounds {
  import opened HashTable
  import opened HashTableBounds
  import opened Options
  import PoolEvents
  import PoolLedger
  import PoolLiveness
  import PoolTheorems
  import opened Protocol
  import opened Registry
  import ServerRuns
  import ThreadPool

  datatype State = State(pool: ThreadPool.Pool, chat: ServerRuns.State)

  datatype Event = OfPool(p: ThreadPool.Event) | OfHandler(c: ServerRuns.Event)

  function Start(n: nat, m: nat): State { State(ThreadPool.Init(n), ServerRuns.Start(m)) }

  /** The request that the accepted job `id` handles, if any. */
  function Asked(s: State, id: nat): Option<nat> {
    var jobs := s.pool.log.accepted;
    if id < |jobs| && jobs[id].request.Some? && jobs[id].request.value < |s.chat.handlers| then jobs[id].request
    else None
  }

  /** Handler i has been under the lock and has sent everything. */
  predicate Finished(chat: ServerRuns.State, i: nat) {
    i < |chat.handlers| && chat.handlers[i].Sending? && chat.handlers[i].rest == []
  }

  /** The job that the event ends. */
  function Ended(s: ThreadPool.Pool, e: ThreadPool.Event): Option<nat> {
    if e.Work? && e.i < |s.workers| && s.workers[e.i].Running? && s.workers[e.i].rest == [] then Some(s.workers[e.i].id)
    else None
  }

  /** Some worker is in the function that handles request i. */
  ghost predicate Inside(s: State, i: nat) {
    exists w :: 0 <= w < |s.pool.workers| && s.pool.workers[w].Running? && Asked(s, s.pool.workers[w].id) == Some(i)
  }

  ghost predicate Enabled(s: State, e: Event) {
    match e
    case OfPool(p) =>
      && ThreadPool.Enabled(s.pool, p)
      && (Ended(s.pool, p).Some? && Asked(s, Ended(s.pool, p).value).Some? ==>
            Finished(s.chat, Asked(s, Ended(s.pool, p).value).value))
    case OfHandler(c) => ServerRuns.Enabled(s.chat, c) && Inside(s, c.i)
  }

  function Next(h: Key -> nat, reqs: seq<Request>, limit: nat, s: State, e: Event): State
    requires Enabled(s, e) && Server.Pointing(s.chat.store) && |reqs| == |s.chat.handlers|
  {
    match e
    case OfPool(p) => s.(pool := ThreadPool.Next(s.pool, p))
    case OfHandler(c) => s.(chat := ServerRuns.Step(h, reqs, limit, s.chat, c))
  }

  ghost predicate Follows(h: Key -> nat, reqs: seq<Request>, limit: nat, s0: State, e: Event, s: State) {
    && Enabled(s0, e) && Server.Pointing(s0.chat.store) && |reqs| == |s0.chat.handlers|
    && s == Next(h, reqs, limit, s0, e)
  }

  /** The states ss are gone through by the events es. */
  ghost predicate Run(h: Key -> nat, reqs: seq<Request>, limit: nat, es: seq<Event>, ss: seq<State>) {
    |ss| == |es| + 1 && forall j | 0 <= j < |es| :: Follows(h, reqs, limit, ss[j], es[j], ss[j + 1])
  }

  // ---------- What every run keeps ----------

  /** Jobs that are done have finished handlers, and a request is served only after its job has left the queue. */
  ghost predicate Linked(s: State) {
    && (forall id: nat | s.pool.log.done[id] > 0 && Asked(s, id).Some? :: Finished(s.chat, Asked(s, id).value))
    && forall i | i in s.chat.served :: exists id: nat :: Asked(s, id) == Some(i) && id < PoolEvents.Out(s.pool)
  }

  ghost predicate Sound(n: nat, h: Key -> nat, reqs: seq<Request>, s: State) {
    PoolTheorems.Reachable(n, s.pool) && Good(h, s.chat.store) && ServerRuns.Handlers(reqs, s.chat) && Linked(s)
  }

  lemma PoolGrows(s: ThreadPool.Pool, e: ThreadPool.Event)
    requires ThreadPool.Enabled(s, e)
    ensures var s', ended := ThreadPool.Next(s, e), Ended(s, e);
      && s.log.accepted <= s'.log.accepted && (ended.Some? ==> s'.log.accepted == s.log.accepted)
      && s'.log.done == s.log.done + if ended.Some? then multiset{ended.value} else multiset{}
  {
    match e
    case Work(i, t) => PoolEvents.WorkerGrows(s, i, t);
    case Advance(t) => PoolLedger.CallerNextRecords(s, t);
    case _ =>
  }

  lemma DoneWasAccepted(n: nat, s: ThreadPool.Pool, id: nat)
    requires PoolTheorems.Reachable(n, s) && s.log.done[id] > 0
    ensures id < |s.log.accepted|
  {
    PoolTheorems.JobsAreConserved(n, s, id);
  }

  lemma LinkedPool(n: nat, s: State, p: ThreadPool.Event)
    requires PoolTheorems.Reachable(n, s.pool) && Linked(s) && Enabled(s, OfPool(p))
    ensures Linked(s.(pool := ThreadPool.Next(s.pool, p)))
  {
    var s' := s.(pool := ThreadPool.Next(s.pool, p));
    PoolGrows(s.pool, p);
    PoolEvents.OutGrows(s.pool, p);
    assert forall id: nat | id < |s.pool.log.accepted| :: Asked(s', id) == Asked(s, id);
    forall id: nat | s'.pool.log.done[id] > 0 && Asked(s', id).Some? ensures Finished(s'.chat, Asked(s', id).value) {
      if s.pool.log.done[id] > 0 {
        DoneWasAccepted(n, s.pool, id);
      }
      assert Asked(s', id) == Asked(s, id);
    }
    forall i | i in s'.chat.served ensures exists id: nat :: Asked(s', id) == Some(i) && id < PoolEvents.Out(s'.pool) {
      var id: nat :| Asked(s, id) == Some(i) && id < PoolEvents.Out(s.pool);
      assert Asked(s', id) == Some(i);
    }
  }

  lemma FinishedStays(reqs: seq<Request>, h: Key -> nat, limit: nat, s: ServerRuns.State, c: ServerRuns.Event, i: nat)
    requires ServerRuns.Enabled(s, c) && Server.Pointing(s.store) && |reqs| == |s.handlers| && Finished(s, i)
    ensures Finished(ServerRuns.Step(h, reqs, limit, s, c), i)
  {}

  /** A handler moves only while a worker holds its job, which has left the queue and is not done. */
  lemma HandlerJobIsOut(n: nat, s: State, c: ServerRuns.Event) returns (id: nat, w: nat)
    requires PoolTheorems.Reachable(n, s.pool) && Enabled(s, OfHandler(c))
    ensures Asked(s, id) == Some(c.i) && id < PoolEvents.Out(s.pool) && id < |s.pool.log.accepted|
    ensures PoolLedger.Queued(s.pool.queue, id) == 0 && s.pool.log.done[id] == 0
    ensures w < n == |s.pool.workers| && s.pool.workers[w].Running? && s.pool.workers[w].id == id
  {
    w :| 0 <= w < |s.pool.workers| && s.pool.workers[w].Running? && Asked(s, s.pool.workers[w].id) == Some(c.i);
    id := s.pool.workers[w].id;
    PoolEvents.HeldIsOut(n, s.pool, w, id);
  }

  lemma LinkedHandler(n: nat, h: Key -> nat, reqs: seq<Request>, limit: nat, s: State, c: ServerRuns.Event)
    requires PoolTheorems.Reachable(n, s.pool)
    requires Linked(s) && Enabled(s, OfHandler(c)) && Server.Pointing(s.chat.store) && |reqs| == |s.chat.handlers|
    ensures Linked(Next(h, reqs, limit, s, OfHandler(c)))
  {
    var s' := Next(h, reqs, limit, s, OfHandler(c));
    assert forall id: nat :: Asked(s', id) == Asked(s, id);
    forall id: nat | s'.pool.log.done[id] > 0 && Asked(s', id).Some? ensures Finished(s'.chat, Asked(s', id).value) {
      FinishedStays(reqs, h, limit, s.chat, c, Asked(s, id).value);
    }
    var own, w := HandlerJobIsOut(n, s, c);
    forall i | i in s'.chat.served ensures exists id: nat :: Asked(s', id) == Some(i) && id < PoolEvents.Out(s'.pool) {
      if i in s.chat.served {
        var id: nat :| Asked(s, id) == Some(i) && id < PoolEvents.Out(s.pool);
        assert Asked(s', id) == Some(i);
      } else {
        assert Asked(s', own) == Some(i);
      }
    }
  }

  lemma StepIsSound(n: nat, h: Key -> nat, reqs: seq<Request>, limit: nat, s0: State, e: Event, s: State)
    requires Sound(n, h, reqs, s0) && Follows(h, reqs, limit, s0, e, s)
    ensures Sound(n, h, reqs, s)
  {
    match e
    case OfPool(p) =>
      PoolTheorems.ReachableNext(n, s0.pool, p);
      LinkedPool(n, s0, p);
    case OfHandler(c) =>
      LinkedHandler(n, h, reqs, limit, s0, c);
      if c.Locked? {
        SwitchStaysGood(h, s0.chat.store, reqs[c.i], limit);
        ServerRuns.LockKeepsHandlers(reqs, s0.chat, c.i, Server.Switch(h, s0.chat.store, reqs[c.i], limit));
      } else {
        ServerRuns.UnlockKeepsHandlers(reqs, s0.chat, c.i);
      }
  }

  lemma StartIsSound(n: nat, h: Key -> nat, reqs: seq<Request>)
    ensures Sound(n, h, reqs, Start(n, |reqs|))
  {
    ServerRuns.StartIsSequential(h, reqs);
    assert ThreadPool.Run(ThreadPool.Init(n), [], ThreadPool.Init(n));
  }

  lemma {:induction false} RunIsSound(n: nat, h: Key -> nat, reqs: seq<Request>, limit: nat,
                                      es: seq<Event>, ss: seq<State>, j: nat)
    requires Run(h, reqs, limit, es, ss) && Sound(n, h, reqs, ss[0]) && j <= |es|
    ensures Sound(n, h, reqs, ss[j])
  {
    if j > 0 {
      RunIsSound(n, h, reqs, limit, es, ss, j - 1);
      assert Follows(h, reqs, limit, ss[j - 1], es[j - 1], ss[j]);
      StepIsSound(n, h, reqs, limit, ss[j - 1], es[j - 1], ss[j]);
    }
  }

  // ---------- The barrier ----------

  /** Every request of an accepted job has been handled and answered in full, and nothing else has. */
  ghost predicate AllServed(s: State) {
    && (forall id: nat | Asked(s, id).Some? :: Asked(s, id).value in s.chat.served)
    && (forall i | i in s.chat.served :: Finished(s.chat, i) && exists id: nat :: Asked(s, id) == Some(i))
  }

  /** The event by which thpool_wait returns. */
  predicate Returns(s0: State, e: Event, s: State) {
    e.OfPool? && e.p.Advance? && s0.pool.caller.ReadWorking? && s.pool.caller.Idle?
  }

  lemma CompleteIsServed(n: nat, h: Key -> nat, reqs: seq<Request>, s: State)
    requires Sound(n, h, reqs, s) && PoolTheorems.Complete(s.pool)
    ensures AllServed(s)
  {
    forall id: nat | Asked(s, id).Some?
      ensures Asked(s, id).value in s.chat.served && Finished(s.chat, Asked(s, id).value)
    {
      assert s.pool.log.done[id] == 1;
    }
    forall i | i in s.chat.served ensures Finished(s.chat, i) {
      var id: nat :| Asked(s, id) == Some(i);
    }
  }

  /** When thpool_wait returns, every request so far is served and its reply sent, whatever failed in between. */
  lemma RoundIsServed(n: nat, h: Key -> nat, reqs: seq<Request>, limit: nat, es: seq<Event>, ss: seq<State>, j: nat)
    requires Run(h, reqs, limit, es, ss) && Sound(n, h, reqs, ss[0])
    requires j < |es| && Returns(ss[j], es[j], ss[j + 1])
    ensures PoolTheorems.Complete(ss[j + 1].pool) && AllServed(ss[j + 1])
  {
    assert Follows(h, reqs, limit, ss[j], es[j], ss[j + 1]);
    RunIsSound(n, h, reqs, limit, es, ss, j);
    RunIsSound(n, h, reqs, limit, es, ss, j + 1);
    PoolTheorems.WaitIsABarrier(n, ss[j].pool, es[j].p.t);
    CompleteIsServed(n, h, reqs, ss[j + 1]);
  }

  /** That includes the requests deep in a tree of jobs, of which main submitted only the root. */
  lemma DescendantServed(s: State, id: nat, path: seq<nat>)
    requires PoolTheorems.Complete(s.pool) && AllServed(s) && id < |s.pool.log.accepted|
    requires var job := PoolTheorems.Descendant(s.pool.log.accepted[id], path);
      job.Some? && job.value.request.Some? && job.value.request.value < |s.chat.handlers|
    ensures PoolTheorems.Descendant(s.pool.log.accepted[id], path).value.request.value in s.chat.served
  {
    PoolTheorems.DescendantsRan(s.pool, id, path);
    assert Asked(s, PoolTheorems.IdOf(s.pool, id, path)).Some?;
  }

  // ---------- The registry, round by round ----------

  /** The registry m after the requests in `order`, handled one after the other. */
  function Served(reqs: seq<Request>, m: Users, order: seq<nat>): Users
    requires forall p | 0 <= p < |order| :: order[p] < |reqs|
  {
    if order == [] then m else Registry.Next(Served(reqs, m, order[..|order| - 1]), reqs[order[|order| - 1]])
  }

  lemma WithinParts(reqs: seq<Request>, a: seq<nat>, b: seq<nat>)
    requires forall p | 0 <= p < |a + b| :: (a + b)[p] < |reqs|
    ensures (forall p | 0 <= p < |a| :: a[p] < |reqs|) && forall p | 0 <= p < |b| :: b[p] < |reqs|
    ensures b != [] ==> var n := |b| - 1; (a + b)[..|a + b| - 1] == a + b[..n] && (a + b)[|a + b| - 1] == b[n]
  {
    assert forall p | 0 <= p < |a| :: (a + b)[p] == a[p];
    assert forall p | 0 <= p < |b| :: (a + b)[|a| + p] == b[p];
  }

  lemma {:induction false} ServedAppend(reqs: seq<Request>, m: Users, a: seq<nat>, b: seq<nat>)
    requires forall p | 0 <= p < |a + b| :: (a + b)[p] < |reqs|
    ensures (forall p | 0 <= p < |a| :: a[p] < |reqs|) && forall p | 0 <= p < |b| :: b[p] < |reqs|
    ensures Served(reqs, m, a + b) == Served(reqs, Served(reqs, m, a), b)
  {
    WithinParts(reqs, a, b);
    if b == [] {
      assert a + b == a;
    } else {
      ServedAppend(reqs, m, a, b[..|b| - 1]);
    }
  }

  lemma {:induction false} ServedIsAfter(reqs: seq<Request>, order: seq<nat>)
    requires forall p | 0 <= p < |order| :: order[p] < |reqs|
    ensures Served(reqs, map[], order) == ServerRuns.After(ServerRuns.InOrder(reqs, order), |order|)
  {
    if order != [] {
      var front, n := order[..|order| - 1], |order| - 1;
      ServedIsAfter(reqs, front);
      ServerRuns.AfterAppend(ServerRuns.InOrder(reqs, front), reqs[order[n]], n);
    }
  }

  /** The put that the event may make does not run out of memory. */
  ghost predicate Succeeds(h: Key -> nat, reqs: seq<Request>, limit: nat, s: State, e: Event) {
    e.OfHandler? ==> ServerRuns.Succeeds(h, reqs, limit, s.chat, e.c)
  }

  lemma {:induction false} RunIsSequential(h: Key -> nat, reqs: seq<Request>, limit: nat,
                                           es: seq<Event>, ss: seq<State>, j: nat)
    requires Run(h, reqs, limit, es, ss) && ServerRuns.Sequential(h, reqs, ss[0].chat) && j <= |es|
    requires forall i | 0 <= i < j :: Succeeds(h, reqs, limit, ss[i], es[i])
    ensures ServerRuns.Sequential(h, reqs, ss[j].chat)
  {
    if j > 0 {
      RunIsSequential(h, reqs, limit, es, ss, j - 1);
      assert Follows(h, reqs, limit, ss[j - 1], es[j - 1], ss[j]);
      assert Succeeds(h, reqs, limit, ss[j - 1], es[j - 1]);
      if es[j - 1].OfHandler? {
        ServerRuns.StepIsSequential(h, reqs, limit, ss[j - 1].chat, es[j - 1].c, ss[j].chat);
      }
    }
  }

  lemma {:induction false} RunGrows(h: Key -> nat, reqs: seq<Request>, limit: nat,
                                    es: seq<Event>, ss: seq<State>, j: nat, k: nat)
    requires Run(h, reqs, limit, es, ss) && j <= k <= |es|
    ensures ss[j].pool.log.accepted <= ss[k].pool.log.accepted && ss[j].chat.served <= ss[k].chat.served
    ensures |ss[j].chat.handlers| == |ss[k].chat.handlers|
    decreases k
  {
    if j < k {
      RunGrows(h, reqs, limit, es, ss, j, k - 1);
      assert Follows(h, reqs, limit, ss[k - 1], es[k - 1], ss[k]);
      if es[k - 1].OfPool? { PoolGrows(ss[k - 1].pool, es[k - 1].p); }
    }
  }

  /** Memory that lets the capacity spread all the names is enough here, too. */
  lemma {:induction false} EnoughMemorySuffices(n: nat, h: Key -> nat, reqs: seq<Request>, limit: nat, goal: nat,
                                                es: seq<Event>, ss: seq<State>, j: nat)
    requires ServerRuns.EnoughMemory(h, reqs, limit, goal) && j <= |es|
    requires Run(h, reqs, limit, es, ss) && ss[0] == Start(n, |reqs|)
    ensures ServerRuns.Sequential(h, reqs, ss[j].chat) && DoublesTo(|ss[j].chat.store.table.slots|, goal)
    ensures forall i | 0 <= i < j :: Succeeds(h, reqs, limit, ss[i], es[i])
  {
    if j == 0 {
      ServerRuns.StartIsSequential(h, reqs);
    } else {
      EnoughMemorySuffices(n, h, reqs, limit, goal, es, ss, j - 1);
      assert Follows(h, reqs, limit, ss[j - 1], es[j - 1], ss[j]);
      if es[j - 1].OfHandler? {
        ServerRuns.StepOnChain(h, reqs, limit, goal, ss[j - 1].chat, es[j - 1].c, ss[j].chat);
        ServerRuns.StepIsSequential(h, reqs, limit, ss[j - 1].chat, es[j - 1].c, ss[j].chat);
      }
    }
  }

  /** No two accepted jobs handle the same request: each message makes its own. */
  ghost predicate OwnRequests(s: State) {
    forall a: nat, b: nat | a < b && Asked(s, a).Some? :: Asked(s, a) != Asked(s, b)
  }

  /**
   * What happens between s and s': the requests served are those of the jobs accepted in between, and
   * the registry goes through exactly these, in the order of the lock.
   */
  ghost predicate Round(reqs: seq<Request>, s: State, s': State) {
    && s.chat.served <= s'.chat.served && (forall p | 0 <= p < |s'.chat.served| :: s'.chat.served[p] < |reqs|)
    && var round := s'.chat.served[|s.chat.served|..];
    && (forall i :: i in round <==> exists id: nat :: |s.pool.log.accepted| <= id && Asked(s', id) == Some(i))
    && View(s'.chat.store) == Served(reqs, View(s.chat.store), round)
  }

  /** Each handler has sent what the plain map answers at the handler's place in the order of the lock. */
  ghost predicate RepliesSent(reqs: seq<Request>, chat: ServerRuns.State) {
    && (forall q | 0 <= q < |chat.served| :: chat.served[q] < |reqs| == |chat.sent|)
    && forall p | 0 <= p < |chat.served| ::
         Answers(Served(reqs, map[], chat.served[..p]), reqs[chat.served[p]], chat.sent[chat.served[p]])
  }

  lemma AfterGoesOn(reqs: seq<Request>, first: seq<nat>, all: seq<nat>)
    requires first <= all && forall p | 0 <= p < |all| :: all[p] < |reqs|
    ensures forall p | 0 <= p < |all[|first|..]| :: all[|first|..][p] < |reqs|
    ensures ServerRuns.After(ServerRuns.InOrder(reqs, all), |all|)
         == Served(reqs, ServerRuns.After(ServerRuns.InOrder(reqs, first), |first|), all[|first|..])
  {
    assert all == first + all[|first|..];
    ServedAppend(reqs, map[], first, all[|first|..]);
    ServedIsAfter(reqs, first);
    ServedIsAfter(reqs, all);
  }

  lemma RoundServes(s: State, s': State)
    requires AllServed(s) && AllServed(s') && OwnRequests(s') && s.chat.served <= s'.chat.served
    requires s.pool.log.accepted <= s'.pool.log.accepted && |s.chat.handlers| == |s'.chat.handlers|
    requires forall p, q | 0 <= p < q < |s'.chat.served| :: s'.chat.served[p] != s'.chat.served[q]
    ensures var round := s'.chat.served[|s.chat.served|..];
      forall i :: i in round <==> exists id: nat :: |s.pool.log.accepted| <= id && Asked(s', id) == Some(i)
  {
    var before := s.chat.served;
    var round := s'.chat.served[|before|..];
    assert s'.chat.served == before + round;
    assert forall id: nat | id < |s.pool.log.accepted| :: Asked(s', id) == Asked(s, id);
    forall i | i in round ensures exists id: nat :: |s.pool.log.accepted| <= id && Asked(s', id) == Some(i) {
      var id: nat :| Asked(s', id) == Some(i);
      var q :| 0 <= q < |round| && round[q] == i;
      assert s'.chat.served[|before| + q] == i;
      assert i !in before;
    }
    forall i, id: nat | i in before && |s.pool.log.accepted| <= id ensures Asked(s', id) != Some(i) {
      var a: nat :| Asked(s, a) == Some(i);
      assert Asked(s', a) == Some(i);
    }
  }

  lemma RoundBetween(h: Key -> nat, reqs: seq<Request>, s: State, s': State)
    requires AllServed(s) && AllServed(s') && OwnRequests(s') && s.chat.served <= s'.chat.served
    requires s.pool.log.accepted <= s'.pool.log.accepted && |s.chat.handlers| == |s'.chat.handlers|
    requires ServerRuns.Sequential(h, reqs, s.chat) && ServerRuns.Sequential(h, reqs, s'.chat)
    ensures Round(reqs, s, s')
  {
    RoundServes(s, s');
    AfterGoesOn(reqs, s.chat.served, s'.chat.served);
  }

  lemma FinishedReplies(h: Key -> nat, reqs: seq<Request>, chat: ServerRuns.State)
    requires ServerRuns.Sequential(h, reqs, chat) && forall i | i in chat.served :: Finished(chat, i)
    ensures RepliesSent(reqs, chat)
  {
    forall p | 0 <= p < |chat.served|
      ensures Answers(Served(reqs, map[], chat.served[..p]), reqs[chat.served[p]], chat.sent[chat.served[p]])
    {
      assert ServerRuns.Answered(reqs, chat, p) && Finished(chat, chat.served[p]);
      ServedIsAfter(reqs, chat.served[..p]);
      AfterPrefix(reqs, chat.served, p);
    }
  }

  lemma RunFromStart(n: nat, h: Key -> nat, reqs: seq<Request>, limit: nat, es: seq<Event>, ss: seq<State>, j: nat)
    requires Run(h, reqs, limit, es, ss) && ss[0] == Start(n, |reqs|) && j <= |es|
    requires forall i | 0 <= i < j :: Succeeds(h, reqs, limit, ss[i], es[i])
    ensures Sound(n, h, reqs, ss[j]) && ServerRuns.Sequential(h, reqs, ss[j].chat)
  {
    ServerRuns.StartIsSequential(h, reqs);
    StartIsSound(n, h, reqs);
    RunIsSound(n, h, reqs, limit, es, ss, j);
    RunIsSequential(h, reqs, limit, es, ss, j);
  }

  /** When thpool_wait returns, each request so far has got the plain map's answer. */
  lemma ReturnIsAnswered(n: nat, h: Key -> nat, reqs: seq<Request>, limit: nat,
                         es: seq<Event>, ss: seq<State>, j: nat)
    requires Run(h, reqs, limit, es, ss) && ss[0] == Start(n, |reqs|)
    requires j < |es| && Returns(ss[j], es[j], ss[j + 1])
    requires forall i | 0 <= i <= j :: Succeeds(h, reqs, limit, ss[i], es[i])
    ensures AllServed(ss[j + 1]) && RepliesSent(reqs, ss[j + 1].chat)
  {
    StartIsSound(n, h, reqs);
    RoundIsServed(n, h, reqs, limit, es, ss, j);
    RunFromStart(n, h, reqs, limit, es, ss, j + 1);
    FinishedReplies(h, reqs, ss[j + 1].chat);
  }

  /** What lies between two returns of thpool_wait is such a round. */
  lemma RoundAfterRound(n: nat, h: Key -> nat, reqs: seq<Request>, limit: nat,
                        es: seq<Event>, ss: seq<State>, j: nat, k: nat)
    requires Run(h, reqs, limit, es, ss) && ss[0] == Start(n, |reqs|) && j < k < |es|
    requires Returns(ss[j], es[j], ss[j + 1]) && Returns(ss[k], es[k], ss[k + 1])
    requires OwnRequests(ss[k + 1]) && forall i | 0 <= i <= k :: Succeeds(h, reqs, limit, ss[i], es[i])
    ensures Round(reqs, ss[j + 1], ss[k + 1])
  {
    StartIsSound(n, h, reqs);
    RoundIsServed(n, h, reqs, limit, es, ss, j);
    RoundIsServed(n, h, reqs, limit, es, ss, k);
    RunFromStart(n, h, reqs, limit, es, ss, j + 1);
    RunFromStart(n, h, reqs, limit, es, ss, k + 1);
    RunGrows(h, reqs, limit, es, ss, j + 1, k + 1);
    RoundBetween(h, reqs, ss[j + 1], ss[k + 1]);
  }

  lemma {:induction false} AfterPrefix(reqs: seq<Request>, served: seq<nat>, p: nat)
    requires (forall q | 0 <= q < |served| :: served[q] < |reqs|) && p <= |served|
    ensures ServerRuns.After(ServerRuns.InOrder(reqs, served[..p]), p)
         == ServerRuns.After(ServerRuns.InOrder(reqs, served), p)
    decreases p
  {
    if p > 0 {
      AfterPrefix(reqs, served, p - 1);
      AfterPrefix(reqs, served[..p], p - 1);
      assert served[..p][..p - 1] == served[..p - 1];
    }
  }

  // ---------- A pool of one worker ----------

  /** Requests are served in the order in which their jobs were accepted. */
  ghost predicate InAcceptance(s: State) {
    forall p, q, a: nat, b: nat |
      0 <= p < q < |s.chat.served| && Asked(s, a) == Some(s.chat.served[p]) && Asked(s, b) == Some(s.chat.served[q]) ::
      a < b
  }

  lemma OwnedBefore(s: State, s': State)
    requires OwnRequests(s') && s.pool.log.accepted <= s'.pool.log.accepted && |s.chat.handlers| == |s'.chat.handlers|
    ensures OwnRequests(s)
    ensures forall a: nat, b: nat | Asked(s, a).Some? && Asked(s', b) == Asked(s, a) :: a == b
  {
    assert forall id: nat | id < |s.pool.log.accepted| :: Asked(s', id) == Asked(s, id);
  }

  lemma PoolInAcceptance(s: State, p: ThreadPool.Event)
    requires Linked(s) && InAcceptance(s) && Enabled(s, OfPool(p))
    requires OwnRequests(s.(pool := ThreadPool.Next(s.pool, p)))
    ensures InAcceptance(s.(pool := ThreadPool.Next(s.pool, p)))
  {
    PoolGrows(s.pool, p);
    MoreAccepted(s, s.(pool := ThreadPool.Next(s.pool, p)));
  }

  lemma MoreAccepted(s: State, s': State)
    requires Linked(s) && InAcceptance(s) && OwnRequests(s')
    requires s.pool.log.accepted <= s'.pool.log.accepted
    requires s'.chat.served == s.chat.served && |s'.chat.handlers| == |s.chat.handlers|
    ensures InAcceptance(s')
  {
    OwnedBefore(s, s');
    forall i, a: nat | i in s.chat.served && Asked(s', a) == Some(i) ensures Asked(s, a) == Some(i) {
      var id: nat :| Asked(s, id) == Some(i);
    }
  }

  lemma ServedBefore(s: State, i: nat, a: nat)
    requires Linked(s) && OwnRequests(s) && i in s.chat.served && Asked(s, a) == Some(i)
    ensures a < PoolEvents.Out(s.pool)
  {
    var id: nat :| Asked(s, id) == Some(i) && id < PoolEvents.Out(s.pool);
  }

  /** The job that left the queue last comes after those of all requests served. */
  lemma LastComesLast(s: State, i: nat, own: nat)
    requires Linked(s) && OwnRequests(s) && i !in s.chat.served
    requires Asked(s, own) == Some(i) && own == PoolEvents.Out(s.pool) - 1
    ensures forall k, a: nat, b: nat | k in s.chat.served && Asked(s, a) == Some(k) && Asked(s, b) == Some(i) :: a < b
  {
    forall k, a: nat | k in s.chat.served && Asked(s, a) == Some(k) ensures a < own { ServedBefore(s, k, a); }
  }

  lemma StepServes(h: Key -> nat, reqs: seq<Request>, limit: nat, s: ServerRuns.State, c: ServerRuns.Event)
    requires ServerRuns.Enabled(s, c) && Server.Pointing(s.store) && |reqs| == |s.handlers|
    ensures var s' := ServerRuns.Step(h, reqs, limit, s, c);
      |s'.handlers| == |s.handlers| && s'.served == s.served + if c.Locked? then [c.i] else []
  {}

  lemma OneMoreInAcceptance(s: State, s': State, own: nat, i: nat)
    requires Linked(s) && InAcceptance(s) && OwnRequests(s) && i !in s.chat.served
    requires Asked(s, own) == Some(i) && own == PoolEvents.Out(s.pool) - 1
    requires s'.pool == s.pool && |s'.chat.handlers| == |s.chat.handlers| && s'.chat.served == s.chat.served + [i]
    ensures InAcceptance(s')
  {
    assert forall id: nat :: Asked(s', id) == Asked(s, id);
    LastComesLast(s, i, own);
  }

  lemma HandlerInAcceptance(s: State, c: ServerRuns.Event, s': State)
    requires PoolTheorems.Reachable(1, s.pool) && Linked(s) && InAcceptance(s) && OwnRequests(s)
    requires Enabled(s, OfHandler(c)) && (c.Locked? ==> c.i !in s.chat.served)
    requires s'.pool == s.pool && |s'.chat.handlers| == |s.chat.handlers|
    requires s'.chat.served == s.chat.served + if c.Locked? then [c.i] else []
    ensures InAcceptance(s')
  {
    if c.Locked? {
      var own, w := HandlerJobIsOut(1, s, c);
      PoolEvents.OneWorkerHoldsLast(s.pool, own);
      OneMoreInAcceptance(s, s', own, c.i);
    } else {
      assert forall id: nat :: Asked(s', id) == Asked(s, id);
      MoreAccepted(s, s');
    }
  }

  lemma StepInAcceptance(h: Key -> nat, reqs: seq<Request>, limit: nat, s: State, e: Event, s': State)
    requires Sound(1, h, reqs, s) && Follows(h, reqs, limit, s, e, s') && OwnRequests(s')
    requires OwnRequests(s) && InAcceptance(s)
    ensures InAcceptance(s')
  {
    match e
    case OfPool(p) => PoolInAcceptance(s, p);
    case OfHandler(c) =>
      StepServes(h, reqs, limit, s.chat, c);
      HandlerInAcceptance(s, c, s');
  }

  lemma OwnedEarlier(h: Key -> nat, reqs: seq<Request>, limit: nat, es: seq<Event>, ss: seq<State>, j: nat)
    requires Run(h, reqs, limit, es, ss) && 0 < j <= |es| && OwnRequests(ss[j])
    ensures OwnRequests(ss[j - 1])
  {
    RunGrows(h, reqs, limit, es, ss, j - 1, j);
    OwnedBefore(ss[j - 1], ss[j]);
  }

  /** With one worker the order of the lock is the order of acceptance. */
  lemma {:induction false} OneWorkerInOrder(h: Key -> nat, reqs: seq<Request>, limit: nat,
                                            es: seq<Event>, ss: seq<State>, j: nat)
    requires Run(h, reqs, limit, es, ss) && Sound(1, h, reqs, ss[0]) && InAcceptance(ss[0])
    requires j <= |es| && OwnRequests(ss[j])
    ensures InAcceptance(ss[j])
    decreases j
  {
    if j > 0 {
      OwnedEarlier(h, reqs, limit, es, ss, j);
      RunIsSound(1, h, reqs, limit, es, ss, j - 1);
      OneWorkerInOrder(h, reqs, limit, es, ss, j - 1);
      assert Follows(h, reqs, limit, ss[j - 1], es[j - 1], ss[j]);
      StepInAcceptance(h, reqs, limit, ss[j - 1], es[j - 1], ss[j]);
    }
  }

  // ---------- Every round ends ----------

  /** No new outside call and no spurious wake-up. */
  predicate Internal(e: Event) { e.OfHandler? || ThreadPool.Internal(e.p) }

  ghost predicate Stuck(s: State) {
    forall e | Internal(e) :: !Enabled(s, e)
  }

  /** How often a handler will still move: after the lock at most one output is left. */
  function Left(x: ServerRuns.Handler): nat { if x.Waiting? then 2 else |x.rest| }

  function AllLeft(hs: seq<ServerRuns.Handler>): nat {
    if hs == [] then 0 else Left(hs[0]) + AllLeft(hs[1..])
  }

  function Measure(s: State): nat { PoolLiveness.Measure(s.pool) + AllLeft(s.chat.handlers) }

  lemma {:induction false} LeftUpdate(hs: seq<ServerRuns.Handler>, i: nat, x: ServerRuns.Handler)
    requires i < |hs|
    ensures AllLeft(hs[i := x]) + Left(hs[i]) == AllLeft(hs) + Left(x)
  {
    if i > 0 {
      assert hs[i := x][1..] == hs[1..][i - 1 := x];
      LeftUpdate(hs[1..], i - 1, x);
    }
  }

  lemma SwitchLeavesOne(h: Key -> nat, s: Server.Store, r: Request, limit: nat)
    requires Server.Pointing(s)
    ensures |Server.Switch(h, s, r, limit).after| <= 1
  {}

  lemma HandlerPays(h: Key -> nat, reqs: seq<Request>, limit: nat, s: ServerRuns.State, c: ServerRuns.Event)
    requires ServerRuns.Enabled(s, c) && Server.Pointing(s.store) && |reqs| == |s.handlers|
    ensures AllLeft(ServerRuns.Step(h, reqs, limit, s, c).handlers) < AllLeft(s.handlers)
  {
    SwitchLeavesOne(h, s.store, reqs[c.i], limit);
    LeftUpdate(s.handlers, c.i, ServerRuns.Step(h, reqs, limit, s, c).handlers[c.i]);
  }

  lemma MeasureFalls(h: Key -> nat, reqs: seq<Request>, limit: nat, s0: State, e: Event, s: State)
    requires Follows(h, reqs, limit, s0, e, s) && Internal(e) && !PoolLiveness.InDestroyLoop(s0.pool.caller)
    ensures Measure(s) < Measure(s0) && !PoolLiveness.InDestroyLoop(s.pool.caller)
    ensures s.pool.keepalive == s0.pool.keepalive
  {
    match e
    case OfPool(p) => PoolLiveness.MeasureFalls(s0.pool, p);
    case OfHandler(c) => HandlerPays(h, reqs, limit, s0.chat, c);
  }

  lemma {:induction false} InternalRunEnds(h: Key -> nat, reqs: seq<Request>, limit: nat,
                                           es: seq<Event>, ss: seq<State>, j: nat)
    requires Run(h, reqs, limit, es, ss) && j <= |es| && forall e | e in es :: Internal(e)
    requires !PoolLiveness.InDestroyLoop(ss[0].pool.caller)
    ensures j + Measure(ss[j]) <= Measure(ss[0]) && !PoolLiveness.InDestroyLoop(ss[j].pool.caller)
    ensures ss[j].pool.keepalive == ss[0].pool.keepalive
  {
    if j > 0 {
      InternalRunEnds(h, reqs, limit, es, ss, j - 1);
      assert Follows(h, reqs, limit, ss[j - 1], es[j - 1], ss[j]);
      MeasureFalls(h, reqs, limit, ss[j - 1], es[j - 1], ss[j]);
    }
  }

  /** A job that waits for its handler is no deadlock: that handler can move. */
  lemma HandlerMoves(reqs: seq<Request>, s: State, p: ThreadPool.Event)
    requires ServerRuns.Handlers(reqs, s.chat) && ThreadPool.Enabled(s.pool, p) && !Enabled(s, OfPool(p))
    ensures !Stuck(s)
  {
    var i := Asked(s, Ended(s.pool, p).value).value;
    assert Inside(s, i);
    var c := if s.chat.handlers[i].Waiting? then ServerRuns.Locked(i) else ServerRuns.Unlocked(i);
    assert Enabled(s, OfHandler(c));
  }

  lemma StuckIsQuiescent(n: nat, h: Key -> nat, reqs: seq<Request>, s: State)
    requires Sound(n, h, reqs, s) && n > 0 && s.pool.keepalive && Stuck(s)
    ensures PoolLiveness.Quiescent(s.pool)
  {
    PoolTheorems.ReachableInv(n, s.pool);
    forall p | ThreadPool.Internal(p) ensures !ThreadPool.Enabled(s.pool, p) {
      if ThreadPool.Enabled(s.pool, p) {
        if !Enabled(s, OfPool(p)) { HandlerMoves(reqs, s, p); }
        assert false;
      }
    }
    PoolLiveness.StuckIsQuiescent(s.pool);
  }

  /**
   * thpool_wait returns in main's loop: under every schedule the server's own steps come to an end, and
   * where none is possible any more the wait has returned with every request served.
   */
  lemma RoundEnds(n: nat, h: Key -> nat, reqs: seq<Request>, limit: nat, es: seq<Event>, ss: seq<State>)
    requires Run(h, reqs, limit, es, ss) && Sound(n, h, reqs, ss[0]) && n > 0
    requires PoolLiveness.InWait(ss[0].pool.caller) && forall e | e in es :: Internal(e)
    ensures |es| <= Measure(ss[0])
    ensures var s := ss[|es|];
      Stuck(s) ==> s.pool.caller.Idle? && PoolTheorems.Complete(s.pool) && AllServed(s)
  {
    var s := ss[|es|];
    InternalRunEnds(h, reqs, limit, es, ss, |es|);
    RunIsSound(n, h, reqs, limit, es, ss, |es|);
    PoolTheorems.ReachableInv(n, ss[0].pool);
    PoolTheorems.ReachableInv(n, s.pool);
    if Stuck(s) {
      StuckIsQuiescent(n, h, reqs, s);
      PoolTheorems.DrainedIsComplete(s.pool);
      CompleteIsServed(n, h, reqs, s);
    }
  }

  /** And there is such a run. */
  lemma {:induction false} RunToReturn(n: nat, h: Key -> nat, reqs: seq<Request>, limit: nat, s: State)
      returns (es: seq<Event>, ss: seq<State>)
    requires Sound(n, h, reqs, s) && !PoolLiveness.InDestroyLoop(s.pool.caller)
    ensures Run(h, reqs, limit, es, ss) && ss[0] == s && (forall e | e in es :: Internal(e)) && Stuck(ss[|es|])
    decreases Measure(s)
  {
    if Stuck(s) {
      es, ss := [], [s];
    } else {
      var e :| Internal(e) && Enabled(s, e);
      var next := Next(h, reqs, limit, s, e);
      StepIsSound(n, h, reqs, limit, s, e, next);
      MeasureFalls(h, reqs, limit, s, e, next);
      var rest, last := RunToReturn(n, h, reqs, limit, next);
      es, ss := [e] + rest, [s] + last;
      RunPrepend(h, reqs, limit, s, e, rest, last);
    }
  }

  lemma RunPrepend(h: Key -> nat, reqs: seq<Request>, limit: nat, s: State, e: Event, es: seq<Event>, ss: seq<State>)
    requires Run(h, reqs, limit, es, ss) && Follows(h, reqs, limit, s, e, ss[0])
    ensures Run(h, reqs, limit, [e] + es, [s] + ss)
  {
    var es', ss' := [e] + es, [s] + ss;
    forall j | 0 <= j < |es'| ensures Follows(h, reqs, limit, ss'[j], es'[j], ss'[j + 1]) {
      if j > 0 {
        assert es'[j] == es[j - 1] && ss'[j] == ss[j - 1] && ss'[j + 1] == ss[j];
        assert Follows(h, reqs, limit, ss[j - 1], es[j - 1], ss[j]);
      }
    }
  }
}
