// Which job is where. Every accepted job is in exactly one place, and the ids recorded for the
// jobs that a job submitted are those of its children, in order.
module PoolLedger {
  import opened PoolSafety
  import opened ThreadPool

  // ---------- The ledger ----------

  function Queued(q: seq<Ticket>, k: nat): nat {
    if q == [] then 0 else (if q[0].id == k then 1 else 0) + Queued(q[1..], k)
  }

  function HoldsId(w: Worker, k: nat): nat {
    match w
    case PullPosting(ticket) => if ticket.id == k then 1 else 0
    case PullUnlocking(got) => if got.Some? && got.value.id == k then 1 else 0
    case Calling(ticket) => if ticket.id == k then 1 else 0
    case Running(id, _) => if id == k then 1 else 0
    case PushPosting(id, _) => if id == k then 1 else 0
    case PushUnlocking(id, _) => if id == k then 1 else 0
    case _ => 0
  }

  function Holder(k: nat): Worker -> nat { w => HoldsId(w, k) }

  /** How many places job k is in: the queue, a worker, the completed jobs, the freed ones. */
  ghost function Places(s: Pool, k: nat): nat {
    Queued(s.queue, k) + Total(Holder(k), s.workers) + s.log.done[k] + s.log.freed[k]
  }

  /** Accepted jobs are in exactly one place, and nothing else is anywhere. */
  ghost predicate Ledger(s: Pool) {
    forall k: nat :: Places(s, k) == if k < |s.log.accepted| then 1 else 0
  }

  lemma {:induction false} QueuedAppend(q: seq<Ticket>, t: Ticket, k: nat)
    ensures Queued(q + [t], k) == Queued(q, k) + (if t.id == k then 1 else 0)
  {
    if q == [] {
      assert q + [t] == [t];
    } else {
      assert (q + [t])[1..] == q[1..] + [t];
      QueuedAppend(q[1..], t, k);
    }
  }

  lemma {:induction false} QueuedMember(q: seq<Ticket>, i: nat)
    requires i < |q|
    ensures Queued(q, q[i].id) >= 1
  {
    if i > 0 { QueuedMember(q[1..], i - 1); }
  }

  lemma HolderMoves(s: Pool, i: nat, t: nat, k: nat)
    requires WorkerEnabled(s, i)
    ensures Total(Holder(k), WorkerNext(s, i, t).workers) + HoldsId(s.workers[i], k)
         == Total(Holder(k), s.workers) + HoldsId(Moved(s, s.workers[i]), k)
  {
    WorkTotal(Holder(k), s, i, t);
  }

  lemma QueueMoves(s: Pool, i: nat, t: nat, k: nat)
    requires WorkerEnabled(s, i)
    ensures var w := s.workers[i];
      Queued(WorkerNext(s, i, t).queue, k) + HoldsId(Moved(s, w), k)
      == Queued(s.queue, k)
         + (if w.Running? && w.rest != [] && k == |s.log.accepted| then 1 else 0)
         + (if w.Running? && w.rest == [] then 0 else HoldsId(w, k))
  {
    var w := s.workers[i];
    if w.Running? && w.rest != [] { QueuedAppend(s.queue, Ticket(|s.log.accepted|, w.rest[0]), k); }
  }

  lemma PlacesWork(s: Pool, i: nat, t: nat, k: nat)
    requires WorkerEnabled(s, i)
    ensures var w := s.workers[i];
      Places(WorkerNext(s, i, t), k)
      == Places(s, k) + (if w.Running? && w.rest != [] && k == |s.log.accepted| then 1 else 0)
  {
    var w := s.workers[i];
    HolderMoves(s, i, t, k);
    QueueMoves(s, i, t, k);
    var s' := WorkerNext(s, i, t);
    assert s'.log.freed == s.log.freed;
    assert s'.log.done[k] == s.log.done[k] + (if w.Running? && w.rest == [] then HoldsId(w, k) else 0);
  }

  lemma LedgerWork(s: Pool, i: nat, t: nat)
    requires Ledger(s) && WorkerEnabled(s, i)
    ensures Ledger(WorkerNext(s, i, t))
  {
    var s' := WorkerNext(s, i, t);
    var w := s.workers[i];
    assert |s'.log.accepted| == |s.log.accepted| + (if w.Running? && w.rest != [] then 1 else 0);
    forall k: nat ensures Places(s', k) == if k < |s'.log.accepted| then 1 else 0 {
      PlacesWork(s, i, t, k);
      assert Places(s, k) == if k < |s.log.accepted| then 1 else 0;
    }
  }

  lemma CallerNextRecords(s: Pool, t: nat)
    ensures var log, log' := s.log, CallerNext(s, t).log;
      log'.accepted == log.accepted && log'.kids == log.kids && log'.done == log.done
  {}

  lemma CallerNextQueue(s: Pool, t: nat)
    ensures var s', frees := CallerNext(s, t), s.caller.Clearing? && s.queue != [];
      && s'.queue == (if frees then s.queue[1..] else s.queue)
      && s'.log.freed == (if frees then s.log.freed + multiset{s.queue[0].id} else s.log.freed)
  {}

  lemma CallerNextWorkers(s: Pool, t: nat)
    ensures CallerNext(s, t).workers
         == if s.caller.PushPost? then Signal(s.workers, t)
            else if s.caller.Posting? then Broadcast(s.workers) else s.workers
  {}

  lemma PlacesAdvance(s: Pool, t: nat, k: nat)
    ensures Places(CallerNext(s, t), k) == Places(s, k)
  {
    CallerNextRecords(s, t);
    CallerNextQueue(s, t);
    CallerNextWorkers(s, t);
    SignalTotal(Holder(k), s.workers, t);
    BroadcastTotal(Holder(k), s.workers);
  }

  lemma LedgerAdvance(s: Pool, t: nat)
    requires Ledger(s) && CallerEnabled(s)
    ensures Ledger(CallerNext(s, t))
  {
    CallerNextRecords(s, t);
    forall k: nat ensures Places(CallerNext(s, t), k) == if k < |s.log.accepted| then 1 else 0 {
      PlacesAdvance(s, t, k);
      assert Places(s, k) == if k < |s.log.accepted| then 1 else 0;
    }
  }

  lemma LedgerSubmit(s: Pool, job: Job)
    requires Ledger(s)
    ensures Ledger(Enqueue(s, job))
  {
    var s' := Enqueue(s, job);
    forall k: nat ensures Places(s', k) == if k < |s'.log.accepted| then 1 else 0 {
      QueuedAppend(s.queue, Ticket(|s.log.accepted|, job), k);
      assert Places(s, k) == if k < |s.log.accepted| then 1 else 0;
    }
  }

  // ---------- Every job is in one place only ----------

  lemma {:induction false} TotalPair(f: Worker -> nat, ws: seq<Worker>, i: nat, j: nat)
    requires i < j < |ws|
    ensures f(ws[i]) + f(ws[j]) <= Total(f, ws)
  {
    if i == 0 { TotalMember(f, ws[1..], j - 1); } else { TotalPair(f, ws[1..], i - 1, j - 1); }
  }

  /** A job held by a worker is held by no other worker, and is neither queued, completed nor freed. */
  lemma HeldAlone(s: Pool, i: nat, id: nat)
    requires Ledger(s) && i < |s.workers| && HoldsId(s.workers[i], id) == 1
    ensures id < |s.log.accepted| && Queued(s.queue, id) == 0 && id !in s.log.done && id !in s.log.freed
    ensures forall j | 0 <= j < |s.workers| && j != i :: HoldsId(s.workers[j], id) == 0
  {
    assert Places(s, id) == if id < |s.log.accepted| then 1 else 0;
    TotalMember(Holder(id), s.workers, i);
    forall j | 0 <= j < |s.workers| && j != i ensures HoldsId(s.workers[j], id) == 0 {
      if i < j { TotalPair(Holder(id), s.workers, i, j); } else { TotalPair(Holder(id), s.workers, j, i); }
    }
  }

  // ---------- Submission trees ----------

  ghost predicate KidsAt(a: seq<Job>, kids: seq<seq<nat>>, p: nat)
    requires p < |a| && p < |kids|
  {
    && |kids[p]| <= |a[p].children|
    && forall j | 0 <= j < |kids[p]| :: kids[p][j] < |a| && a[kids[p][j]] == a[p].children[j]
  }

  ghost predicate Fresh(a: seq<Job>, kids: seq<seq<nat>>, t: Ticket) {
    t.id < |a| && t.id < |kids| && t.job == a[t.id] && kids[t.id] == []
  }

  ghost predicate Midway(a: seq<Job>, kids: seq<seq<nat>>, id: nat, rest: seq<Job>) {
    id < |a| && id < |kids| && |kids[id]| <= |a[id].children| && rest == a[id].children[|kids[id]|..]
  }

  ghost predicate Finished(a: seq<Job>, kids: seq<seq<nat>>, id: nat) {
    id < |a| && id < |kids| && |kids[id]| == |a[id].children|
  }

  ghost predicate WorkerTree(a: seq<Job>, kids: seq<seq<nat>>, w: Worker) {
    match w
    case PullPosting(ticket) => Fresh(a, kids, ticket)
    case PullUnlocking(got) => got.Some? ==> Fresh(a, kids, got.value)
    case Calling(ticket) => Fresh(a, kids, ticket)
    case Running(id, rest) => Midway(a, kids, id, rest)
    case PushPosting(id, rest) => Midway(a, kids, id, rest)
    case PushUnlocking(id, rest) => Midway(a, kids, id, rest)
    case _ => true
  }

  ghost predicate WorkerTrees(a: seq<Job>, kids: seq<seq<nat>>, ws: seq<Worker>) {
    forall i | 0 <= i < |ws| :: WorkerTree(a, kids, ws[i])
  }

  ghost predicate Trees(s: Pool) {
    && |s.log.kids| == |s.log.accepted|
    && (forall p | 0 <= p < |s.log.accepted| :: KidsAt(s.log.accepted, s.log.kids, p))
    && (forall i | 0 <= i < |s.queue| :: Fresh(s.log.accepted, s.log.kids, s.queue[i]))
    && WorkerTrees(s.log.accepted, s.log.kids, s.workers)
    && (forall id | id in s.log.done :: Finished(s.log.accepted, s.log.kids, id))
  }

  /** The records only grow, and only `but` may gain a child. */
  ghost predicate Grows(a: seq<Job>, kids: seq<seq<nat>>, a': seq<Job>, kids': seq<seq<nat>>, but: nat) {
    && |a| == |kids| && |a'| == |kids'| && a <= a'
    && forall p | 0 <= p < |a| && p != but :: kids'[p] == kids[p]
  }

  lemma WorkerTreeKept(a: seq<Job>, kids: seq<seq<nat>>, a': seq<Job>, kids': seq<seq<nat>>, but: nat, w: Worker)
    requires Grows(a, kids, a', kids', but) && WorkerTree(a, kids, w) && HoldsId(w, but) == 0
    ensures WorkerTree(a', kids', w)
  {}

  lemma QueueTreeKept(a: seq<Job>, kids: seq<seq<nat>>, a': seq<Job>, kids': seq<seq<nat>>, but: nat, q: seq<Ticket>)
    requires Grows(a, kids, a', kids', but)
    requires forall i | 0 <= i < |q| :: Fresh(a, kids, q[i])
    requires Queued(q, but) == 0
    ensures forall i | 0 <= i < |q| :: Fresh(a', kids', q[i])
  {
    forall i | 0 <= i < |q| ensures Fresh(a', kids', q[i]) { QueuedMember(q, i); }
  }

  /** The records after job id submits its next child c. */
  lemma KidsKept(a: seq<Job>, kids: seq<seq<nat>>, id: nat, rest: seq<Job>)
    requires |kids| == |a| && (forall p | 0 <= p < |a| :: KidsAt(a, kids, p))
    requires Midway(a, kids, id, rest) && rest != []
    ensures var a', kids' := a + [rest[0]], Adopt(kids + [[]], id, |a|);
      && |kids'| == |a'| && (forall p | 0 <= p < |a'| :: KidsAt(a', kids', p))
      && Midway(a', kids', id, rest[1..]) && Grows(a, kids, a', kids', id)
      && Fresh(a', kids', Ticket(|a|, rest[0]))
  {
    var a', kids' := a + [rest[0]], Adopt(kids + [[]], id, |a|);
    assert rest[0] == a[id].children[|kids[id]|];
    forall p | 0 <= p < |a'| ensures KidsAt(a', kids', p) {
      if p < |a| { assert KidsAt(a, kids, p); }
    }
  }

  lemma TreesSubmitChild(s: Pool, i: nat, t: nat)
    requires Trees(s) && Ledger(s) && WorkerEnabled(s, i) && s.workers[i].Running? && s.workers[i].rest != []
    ensures Trees(WorkerNext(s, i, t))
  {
    var s' := WorkerNext(s, i, t);
    var id, rest := s.workers[i].id, s.workers[i].rest;
    assert WorkerTree(s.log.accepted, s.log.kids, s.workers[i]);
    HeldAlone(s, i, id);
    KidsKept(s.log.accepted, s.log.kids, id, rest);
    QueueTreeKept(s.log.accepted, s.log.kids, s'.log.accepted, s'.log.kids, id, s.queue);
    forall j | 0 <= j < |s'.workers| ensures WorkerTree(s'.log.accepted, s'.log.kids, s'.workers[j]) {
      if j != i { WorkerTreeKept(s.log.accepted, s.log.kids, s'.log.accepted, s'.log.kids, id, s.workers[j]); }
    }
    forall d | d in s'.log.done ensures Finished(s'.log.accepted, s'.log.kids, d) {
      assert Finished(s.log.accepted, s.log.kids, d);
    }
  }

  lemma MovedTree(s: Pool, i: nat)
    requires Trees(s) && WorkerEnabled(s, i)
    requires s.workers[i].Running? ==> s.workers[i].rest == []
    ensures WorkerTree(s.log.accepted, s.log.kids, Moved(s, s.workers[i]))
    ensures s.workers[i].Running? ==> Finished(s.log.accepted, s.log.kids, s.workers[i].id)
  {
    assert WorkerTree(s.log.accepted, s.log.kids, s.workers[i]);
  }

  /** Events that submit nothing leave the records as they are. */
  lemma TreesStay(s: Pool, s': Pool)
    requires Trees(s)
    requires s'.log.accepted == s.log.accepted && s'.log.kids == s.log.kids
    requires s'.queue == s.queue || (s.queue != [] && s'.queue == s.queue[1..])
    requires WorkerTrees(s.log.accepted, s.log.kids, s'.workers)
    requires forall d | d in s'.log.done :: d in s.log.done || Finished(s.log.accepted, s.log.kids, d)
    ensures Trees(s')
  {}

  lemma WorkerNextRecords(s: Pool, i: nat, t: nat)
    requires WorkerEnabled(s, i)
    requires s.workers[i].Running? ==> s.workers[i].rest == []
    ensures var s', w := WorkerNext(s, i, t), s.workers[i];
      && s'.log.accepted == s.log.accepted && s'.log.kids == s.log.kids
      && s'.queue == (if w.Pulling? && s.queue != [] then s.queue[1..] else s.queue)
      && s'.log.done == (if w.Running? then s.log.done + multiset{w.id} else s.log.done)
  {}

  lemma SignalTrees(a: seq<Job>, kids: seq<seq<nat>>, ws: seq<Worker>, i: nat, w: Worker, t: nat)
    requires i < |ws| && WorkerTree(a, kids, w)
    requires WorkerTrees(a, kids, ws)
    ensures WorkerTrees(a, kids, ws[i := w]) && WorkerTrees(a, kids, Signal(ws[i := w], t))
  {}

  lemma TreesWork(s: Pool, i: nat, t: nat)
    requires Trees(s) && Ledger(s) && WorkerEnabled(s, i)
    ensures Trees(WorkerNext(s, i, t))
  {
    var w := s.workers[i];
    if w.Running? && w.rest != [] {
      TreesSubmitChild(s, i, t);
    } else {
      var s' := WorkerNext(s, i, t);
      WorkerNextRecords(s, i, t);
      WorkerMoves(s, i, t);
      MovedTree(s, i);
      SignalTrees(s.log.accepted, s.log.kids, s.workers, i, Moved(s, w), t);
      TreesStay(s, s');
    }
  }

  lemma TreesAdvance(s: Pool, t: nat)
    requires Trees(s) && CallerEnabled(s)
    ensures Trees(CallerNext(s, t))
  {
    CallerNextRecords(s, t);
    CallerNextQueue(s, t);
    CallerNextWorkers(s, t);
    BroadcastAt(s.workers);
    assert WorkerTrees(s.log.accepted, s.log.kids, Broadcast(s.workers));
    assert WorkerTrees(s.log.accepted, s.log.kids, Signal(s.workers, t));
    TreesStay(s, CallerNext(s, t));
  }

  lemma TreesSubmit(s: Pool, job: Job)
    requires Trees(s) && Ledger(s)
    ensures Trees(Enqueue(s, job))
  {
    var s' := Enqueue(s, job);
    var but := |s.log.accepted|;
    assert Places(s, but) == 0;
    QueueTreeKept(s.log.accepted, s.log.kids, s'.log.accepted, s'.log.kids, but, s.queue);
    forall p | 0 <= p < |s'.log.accepted| ensures KidsAt(s'.log.accepted, s'.log.kids, p) {
      if p < |s.log.accepted| { assert KidsAt(s.log.accepted, s.log.kids, p); }
    }
    forall j | 0 <= j < |s.workers| ensures WorkerTree(s'.log.accepted, s'.log.kids, s.workers[j]) {
      TotalMember(Holder(but), s.workers, j);
      WorkerTreeKept(s.log.accepted, s.log.kids, s'.log.accepted, s'.log.kids, but, s.workers[j]);
    }
    forall d | d in s'.log.done ensures Finished(s'.log.accepted, s'.log.kids, d) {
      assert Finished(s.log.accepted, s.log.kids, d);
    }
  }

  /** No job was submitted twice, and a child's id is above its parent's. */
  ghost predicate OneParent(kids: seq<seq<nat>>) {
    && (forall p, j | 0 <= p < |kids| && 0 <= j < |kids[p]| :: p < kids[p][j] < |kids|)
    && (forall p, j, q, l | 0 <= p < |kids| && 0 <= j < |kids[p]| && 0 <= q < |kids| && 0 <= l < |kids[q]| ::
          kids[p][j] == kids[q][l] ==> p == q && j == l)
  }

  lemma OneParentKept(kids: seq<seq<nat>>, id: nat)
    requires OneParent(kids)
    ensures OneParent(kids + [[]])
    ensures id < |kids| ==> OneParent(Adopt(kids + [[]], id, |kids|))
  {
    var more := kids + [[]];
    assert forall p | 0 <= p < |kids| :: more[p] == kids[p];
    if id < |kids| {
      var kids' := Adopt(more, id, |kids|);
      assert kids'[id] == kids[id] + [|kids|];
      assert forall p | 0 <= p < |kids| && p != id :: kids'[p] == kids[p];
      assert forall p, j | 0 <= p < |kids'| && 0 <= j < |kids'[p]| ::
        if p == id && j == |kids[id]| then kids'[p][j] == |kids| else p < |kids| && j < |kids[p]| && kids'[p][j] == kids[p][j];
    }
  }

  lemma OneParentWork(s: Pool, i: nat, t: nat)
    requires Trees(s) && OneParent(s.log.kids) && WorkerEnabled(s, i)
    ensures OneParent(WorkerNext(s, i, t).log.kids)
  {
    var w := s.workers[i];
    assert WorkerTree(s.log.accepted, s.log.kids, w);
    if w.Running? && w.rest != [] {
      OneParentKept(s.log.kids, w.id);
    } else {
      WorkerNextRecords(s, i, t);
    }
  }
}
