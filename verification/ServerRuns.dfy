// Any number of handlers running at once against the registry run one after the other, in the order
// in which they took hashmap_lock.
module ServerRuns {
  import opened HashTable
  import opened HashTableBounds
  import opened HashTableLaws
  import opened Protocol
  import opened Registry
  import opened Server

  // ---------- Handlers at work ----------

  /** Before the lock, or past it with what is still to be written. */
  datatype Handler = Waiting | Sending(rest: seq<Output>)

  /**
   * `sent` records what each handler has sent, `served` the order in which handlers took the lock, and
   * `wire` everything that was sent, in order, with the handler that sent it.
   */
  datatype State = State(store: Store, handlers: seq<Handler>, sent: seq<seq<Output>>, served: seq<nat>,
                         wire: seq<(nat, Output)>)

  /** A handler's stay under the lock, or the write it makes afterwards. */
  datatype Event = Locked(i: nat) | Unlocked(i: nat)

  function Start(n: nat): State {
    State(Store(Empty(256), []), seq(n, _ => Waiting), seq(n, _ => []), [], [])
  }

  predicate Enabled(s: State, e: Event) {
    && e.i < |s.handlers| == |s.sent|
    && if e.Locked? then s.handlers[e.i].Waiting?
       else s.handlers[e.i].Sending? && s.handlers[e.i].rest != []
  }

  /** The outputs as sent by handler i. */
  function Tagged(i: nat, outputs: seq<Output>): (w: seq<(nat, Output)>)
    ensures |w| == |outputs| && forall k | 0 <= k < |w| :: w[k] == (i, outputs[k])
  {
    seq(|outputs|, k requires 0 <= k < |outputs| => (i, outputs[k]))
  }

  /** Handler i's stay under the lock, which did x. */
  function Lock(s: State, i: nat, x: Section): State
    requires i < |s.handlers| == |s.sent|
  {
    State(x.store, s.handlers[i := Sending(x.after)], s.sent[i := s.sent[i] + x.outputs], s.served + [i],
          s.wire + Tagged(i, x.outputs))
  }

  function Unlock(s: State, i: nat): State
    requires Enabled(s, Unlocked(i))
  {
    var rest := s.handlers[i].rest;
    s.(handlers := s.handlers[i := Sending(rest[1..])], sent := s.sent[i := s.sent[i] + [rest[0]]],
       wire := s.wire + [(i, rest[0])])
  }

  function Step(h: Key -> nat, reqs: seq<Request>, limit: nat, s: State, e: Event): State
    requires Enabled(s, e) && Pointing(s.store) && |reqs| == |s.handlers|
  {
    if e.Locked? then Lock(s, e.i, Switch(h, s.store, reqs[e.i], limit)) else Unlock(s, e.i)
  }

  /** s follows s0 by the event e. */
  ghost predicate Follows(h: Key -> nat, reqs: seq<Request>, limit: nat, s0: State, e: Event, s: State) {
    && Enabled(s0, e) && Pointing(s0.store) && |reqs| == |s0.handlers|
    && s == Step(h, reqs, limit, s0, e)
  }

  /** The states ss are gone through by the events es, from the start. */
  ghost predicate Run(h: Key -> nat, reqs: seq<Request>, limit: nat, es: seq<Event>, ss: seq<State>) {
    && |ss| == |es| + 1 && ss[0] == Start(|reqs|)
    && forall j | 0 <= j < |es| :: Follows(h, reqs, limit, ss[j], es[j], ss[j + 1])
  }

  /** The put that the event may make does not run out of memory. */
  ghost predicate Succeeds(h: Key -> nat, reqs: seq<Request>, limit: nat, s: State, e: Event) {
    e.Locked? && e.i < |reqs| && 8 <= |s.store.table.slots| ==> PutSucceeds(h, s.store, reqs[e.i], limit)
  }

  /** In every run, puts that find no memory included, the table is tidy and its entries name their clients. */
  lemma {:induction false} RunStaysGood(h: Key -> nat, reqs: seq<Request>, limit: nat,
                                        es: seq<Event>, ss: seq<State>, j: nat)
    requires Run(h, reqs, limit, es, ss) && j <= |es|
    ensures Good(h, ss[j].store) && |ss[j].handlers| == |reqs|
  {
    if j == 0 {
      EmptyIsTidy<nat>(h, 256);
    } else {
      RunStaysGood(h, reqs, limit, es, ss, j - 1);
      assert Follows(h, reqs, limit, ss[j - 1], es[j - 1], ss[j]);
      if es[j - 1].Locked? { SwitchStaysGood(h, ss[j - 1].store, reqs[es[j - 1].i], limit); }
    }
  }

  /** No run is ever cut off: whatever is enabled can happen next, whether or not puts succeed. */
  lemma RunGoesOn(h: Key -> nat, reqs: seq<Request>, limit: nat, es: seq<Event>, ss: seq<State>, e: Event)
      returns (s: State)
    requires Run(h, reqs, limit, es, ss) && Enabled(ss[|es|], e)
    ensures Run(h, reqs, limit, es + [e], ss + [s])
  {
    RunStaysGood(h, reqs, limit, es, ss, |es|);
    s := Step(h, reqs, limit, ss[|es|], e);
    forall j | 0 <= j < |es| + 1
      ensures Follows(h, reqs, limit, (ss + [s])[j], (es + [e])[j], (ss + [s])[j + 1])
    {
      if j < |es| { assert Follows(h, reqs, limit, ss[j], es[j], ss[j + 1]); }
    }
  }

  // ---------- One at a time ----------

  /** The registry after the first p of the requests rs, handled one after the other. */
  function After(rs: seq<Request>, p: nat): Users
    requires p <= |rs|
  {
    if p == 0 then map[] else Next(After(rs, p - 1), rs[p - 1])
  }

  lemma {:induction false} AfterAppend(rs: seq<Request>, r: Request, p: nat)
    requires p <= |rs|
    ensures After(rs + [r], p) == After(rs, p)
  {
    if p > 0 { AfterAppend(rs, r, p - 1); }
  }

  /** The requests in the order in which they were served. */
  function InOrder(reqs: seq<Request>, served: seq<nat>): (rs: seq<Request>)
    requires forall p | 0 <= p < |served| :: served[p] < |reqs|
    ensures |rs| == |served| && forall p | 0 <= p < |rs| :: rs[p] == reqs[served[p]]
  {
    if served == [] then [] else InOrder(reqs, served[..|served| - 1]) + [reqs[served[|served| - 1]]]
  }

  /** What handler i sent and has still to send. */
  function Reply(s: State, i: nat): seq<Output>
    requires i < |s.handlers| == |s.sent|
  {
    s.sent[i] + if s.handlers[i].Sending? then s.handlers[i].rest else []
  }

  // ---------- The refinement ----------

  ghost predicate Handlers(reqs: seq<Request>, s: State) {
    && |s.handlers| == |s.sent| == |reqs|
    && (forall p | 0 <= p < |s.served| :: s.served[p] < |reqs| && s.handlers[s.served[p]].Sending?)
    && (forall p, q | 0 <= p < q < |s.served| :: s.served[p] != s.served[q])
    && (forall i | 0 <= i < |reqs| :: i !in s.served ==> s.handlers[i].Waiting? && s.sent[i] == [])
  }

  /** The p-th handler to take the lock answers as if the p before it, and none after it, had run. */
  ghost predicate Answered(reqs: seq<Request>, s: State, p: nat)
    requires Handlers(reqs, s) && p < |s.served|
  {
    Answers(After(InOrder(reqs, s.served), p), reqs[s.served[p]], Reply(s, s.served[p]))
  }

  ghost predicate Sequential(h: Key -> nat, reqs: seq<Request>, s: State) {
    && Good(h, s.store) && Handlers(reqs, s)
    && View(s.store) == After(InOrder(reqs, s.served), |s.served|)
    && forall p | 0 <= p < |s.served| :: Answered(reqs, s, p)
  }

  lemma LockKeepsHandlers(reqs: seq<Request>, s: State, i: nat, x: Section)
    requires Handlers(reqs, s) && Enabled(s, Locked(i))
    ensures i !in s.served && Handlers(reqs, Lock(s, i, x))
  {}

  lemma LockReplies(reqs: seq<Request>, s: State, i: nat, x: Section, k: nat)
    requires Handlers(reqs, s) && Enabled(s, Locked(i)) && k < |reqs|
    ensures Reply(Lock(s, i, x), k) == if k == i then x.outputs + x.after else Reply(s, k)
  {
    assert i !in s.served;
  }

  lemma UnlockReplies(s: State, i: nat, k: nat)
    requires Enabled(s, Unlocked(i)) && k < |s.handlers|
    ensures Reply(Unlock(s, i), k) == Reply(s, k)
  {
    var rest := s.handlers[i].rest;
    assert [rest[0]] + rest[1..] == rest;
  }

  lemma UnlockKeepsHandlers(reqs: seq<Request>, s: State, i: nat)
    requires Handlers(reqs, s) && Enabled(s, Unlocked(i))
    ensures Handlers(reqs, Unlock(s, i))
  {}

  lemma HistoryGrows(reqs: seq<Request>, served: seq<nat>, i: nat)
    requires (forall p | 0 <= p < |served| :: served[p] < |reqs|) && i < |reqs|
    ensures forall p | 0 <= p < |served| + 1 :: (served + [i])[p] < |reqs|
    ensures var rs, rs' := InOrder(reqs, served), InOrder(reqs, served + [i]);
      && (forall p: nat | p <= |served| :: After(rs', p) == After(rs, p))
      && After(rs', |served| + 1) == Next(After(rs, |served|), reqs[i])
  {
    assert (served + [i])[..|served|] == served;
    var rs := InOrder(reqs, served);
    assert InOrder(reqs, served + [i]) == rs + [reqs[i]];
    forall p: nat | p <= |served| ensures After(rs + [reqs[i]], p) == After(rs, p) {
      AfterAppend(rs, reqs[i], p);
    }
  }

  lemma AnsweredKept(reqs: seq<Request>, s: State, s': State, p: nat)
    requires Handlers(reqs, s) && Handlers(reqs, s') && p < |s.served| && p < |s'.served|
    requires Answered(reqs, s, p) && s'.served[p] == s.served[p]
    requires After(InOrder(reqs, s'.served), p) == After(InOrder(reqs, s.served), p)
    requires Reply(s', s.served[p]) == Reply(s, s.served[p])
    ensures Answered(reqs, s', p)
  {}

  lemma AnsweredLast(reqs: seq<Request>, s: State, i: nat, x: Section)
    requires Handlers(reqs, s) && Enabled(s, Locked(i)) && Handlers(reqs, Lock(s, i, x))
    requires Answers(After(InOrder(reqs, s.served), |s.served|), reqs[i], x.outputs + x.after)
    ensures Answered(reqs, Lock(s, i, x), |s.served|)
  {
    LockReplies(reqs, s, i, x, i);
    HistoryGrows(reqs, s.served, i);
  }

  lemma LockAnswers(reqs: seq<Request>, s: State, i: nat, x: Section, p: nat)
    requires Handlers(reqs, s) && Enabled(s, Locked(i)) && p <= |s.served|
    requires p < |s.served| ==> Answered(reqs, s, p)
    requires Answers(After(InOrder(reqs, s.served), |s.served|), reqs[i], x.outputs + x.after)
    ensures Handlers(reqs, Lock(s, i, x)) && Answered(reqs, Lock(s, i, x), p)
  {
    LockKeepsHandlers(reqs, s, i, x);
    if p < |s.served| {
      LockReplies(reqs, s, i, x, s.served[p]);
      HistoryGrows(reqs, s.served, i);
      AnsweredKept(reqs, s, Lock(s, i, x), p);
    } else {
      AnsweredLast(reqs, s, i, x);
    }
  }

  lemma LockStep(h: Key -> nat, reqs: seq<Request>, s: State, i: nat, x: Section)
    requires Sequential(h, reqs, s) && Enabled(s, Locked(i)) && Good(h, x.store)
    requires View(x.store) == Next(View(s.store), reqs[i])
    requires Answers(View(s.store), reqs[i], x.outputs + x.after)
    ensures Sequential(h, reqs, Lock(s, i, x))
  {
    LockKeepsHandlers(reqs, s, i, x);
    HistoryGrows(reqs, s.served, i);
    forall p | 0 <= p < |s.served| + 1 ensures Answered(reqs, Lock(s, i, x), p) {
      LockAnswers(reqs, s, i, x, p);
    }
  }

  lemma UnlockStep(h: Key -> nat, reqs: seq<Request>, s: State, i: nat)
    requires Sequential(h, reqs, s) && Enabled(s, Unlocked(i))
    ensures Sequential(h, reqs, Unlock(s, i))
  {
    UnlockKeepsHandlers(reqs, s, i);
    forall p | 0 <= p < |s.served| ensures Answered(reqs, Unlock(s, i), p) {
      UnlockReplies(s, i, s.served[p]);
      AnsweredKept(reqs, s, Unlock(s, i), p);
    }
  }

  lemma StepIsSequential(h: Key -> nat, reqs: seq<Request>, limit: nat, s0: State, e: Event, s: State)
    requires Sequential(h, reqs, s0) && Follows(h, reqs, limit, s0, e, s) && Succeeds(h, reqs, limit, s0, e)
    ensures Sequential(h, reqs, s)
  {
    if e.Locked? {
      SwitchRefines(h, s0.store, reqs[e.i], limit);
      LockStep(h, reqs, s0, e.i, Switch(h, s0.store, reqs[e.i], limit));
    } else {
      UnlockStep(h, reqs, s0, e.i);
    }
  }

  lemma StartIsSequential(h: Key -> nat, reqs: seq<Request>)
    ensures Sequential(h, reqs, Start(|reqs|))
  {
    EmptyIsTidy<nat>(h, 256);
  }

  /**
   * Whole runs: however the handlers are interleaved, the registry and every handler's answer are
   * those of the plain map served in the order in which the lock was taken.
   */
  lemma {:induction false} RunIsSequential(h: Key -> nat, reqs: seq<Request>, limit: nat,
                                           es: seq<Event>, ss: seq<State>, j: nat)
    requires Run(h, reqs, limit, es, ss) && j <= |es|
    requires forall i | 0 <= i < j :: Succeeds(h, reqs, limit, ss[i], es[i])
    ensures Sequential(h, reqs, ss[j])
  {
    if j == 0 {
      StartIsSequential(h, reqs);
    } else {
      RunIsSequential(h, reqs, limit, es, ss, j - 1);
      assert Follows(h, reqs, limit, ss[j - 1], es[j - 1], ss[j]);
      StepIsSequential(h, reqs, limit, ss[j - 1], es[j - 1], ss[j]);
    }
  }

  // ---------- When memory is enough ----------

  ghost function Names(reqs: seq<Request>): set<string> {
    set i | 0 <= i < |reqs| :: reqs[i].usuario
  }

  lemma {:induction false} AfterNames(rs: seq<Request>, p: nat, names: set<string>)
    requires p <= |rs| && forall q | 0 <= q < |rs| :: rs[q].usuario in names
    ensures After(rs, p).Keys <= names
  {
    if p > 0 { AfterNames(rs, p - 1, names); }
  }

  /** The capacity `goal` is reached from 256 by doubling, memory allows it, and it spreads all the names. */
  ghost predicate EnoughMemory(h: Key -> nat, reqs: seq<Request>, limit: nat, goal: nat) {
    DoublesTo(256, goal) && goal <= limit && Spread(h, Names(reqs), goal)
  }

  lemma EnoughForPut(h: Key -> nat, reqs: seq<Request>, limit: nat, goal: nat, s: State, i: nat)
    requires EnoughMemory(h, reqs, limit, goal) && Sequential(h, reqs, s) && i < |reqs|
    requires DoublesTo(|s.store.table.slots|, goal)
    ensures PutSucceeds(h, s.store, reqs[i], limit)
    ensures reqs[i].accion == "00" && reqs[i].usuario !in Pointers(s.store) ==>
      DoublesTo(|Put<nat>(h, s.store.table, reqs[i].usuario, |s.store.clients|, limit).table.slots|, goal)
  {
    var names := Names(reqs);
    AfterNames(InOrder(reqs, s.served), |s.served|, names);
    assert Pointers(s.store).Keys == View(s.store).Keys;
    if reqs[i].usuario !in Pointers(s.store) {
      PutReaches<nat>(h, s.store.table, reqs[i].usuario, |s.store.clients|, limit, names, goal);
    }
  }

  lemma StepOnChain(h: Key -> nat, reqs: seq<Request>, limit: nat, goal: nat, s0: State, e: Event, s: State)
    requires EnoughMemory(h, reqs, limit, goal) && Sequential(h, reqs, s0) && Follows(h, reqs, limit, s0, e, s)
    requires DoublesTo(|s0.store.table.slots|, goal)
    ensures Succeeds(h, reqs, limit, s0, e) && DoublesTo(|s.store.table.slots|, goal)
  {
    if e.Locked? {
      var r := reqs[e.i];
      EnoughForPut(h, reqs, limit, goal, s0, e.i);
      LookupIsView(h, s0.store, r.usuario);
      if r.accion == "00" {
        if r.usuario in View(s0.store) {
          RegisterTaken(h, s0.store, r, limit);
        } else {
          RegisterFresh(h, s0.store, r, limit);
        }
      }
    }
  }

  /** Then no put fails in any run, and the table never grows past that capacity. */
  lemma {:induction false} EnoughMemorySuffices(h: Key -> nat, reqs: seq<Request>, limit: nat, goal: nat,
                                                es: seq<Event>, ss: seq<State>, j: nat)
    requires EnoughMemory(h, reqs, limit, goal) && Run(h, reqs, limit, es, ss) && j <= |es|
    ensures Sequential(h, reqs, ss[j]) && |ss[j].store.table.slots| <= goal
    ensures DoublesTo(|ss[j].store.table.slots|, goal)
    ensures forall i | 0 <= i < j :: Succeeds(h, reqs, limit, ss[i], es[i])
  {
    if j == 0 {
      StartIsSequential(h, reqs);
    } else {
      EnoughMemorySuffices(h, reqs, limit, goal, es, ss, j - 1);
      assert Follows(h, reqs, limit, ss[j - 1], es[j - 1], ss[j]);
      StepOnChain(h, reqs, limit, goal, ss[j - 1], es[j - 1], ss[j]);
      StepIsSequential(h, reqs, limit, ss[j - 1], es[j - 1], ss[j]);
    }
    DoublesToBound(|ss[j].store.table.slots|, goal);
  }

  // ---------- From one registration to the next 02 ----------

  /** Between its positions a and b, rs holds no 02 for the user u. */
  predicate Stays(rs: seq<Request>, a: nat, b: nat, u: string)
    requires b <= |rs|
  {
    forall p | a < p < b :: !(rs[p].accion == "02" && rs[p].usuario == u)
  }

  /** The status that the 00 at a, or else the last 03 for u between a and b, asked for. */
  function LastStatus(rs: seq<Request>, a: nat, b: nat, u: string): string
    requires a < b <= |rs|
  {
    if b == a + 1 then rs[a].status
    else if rs[b - 1].accion == "03" && rs[b - 1].usuario == u then rs[b - 1].status
    else LastStatus(rs, a, b - 1, u)
  }

  function RegisteredAt(rs: seq<Request>, a: nat, b: nat): Client
    requires a < b <= |rs|
  {
    Client(rs[a].ip, rs[a].puerto, LastStatus(rs, a, b, rs[a].usuario), rs[a].fd, rs[a].usuario)
  }

  lemma {:induction false} StaysRegistered(rs: seq<Request>, a: nat, b: nat)
    requires a < b <= |rs| && rs[a].accion == "00" && rs[a].usuario !in After(rs, a)
    requires Stays(rs, a, b, rs[a].usuario)
    ensures rs[a].usuario in After(rs, b) && After(rs, b)[rs[a].usuario] == RegisteredAt(rs, a, b)
  {
    if a + 1 < b { StaysRegistered(rs, a, b - 1); }
  }

  lemma AcceptedWasAbsent(m: Users, r: Request)
    requires r.accion == "00" && Answers(m, r, [])
    ensures r.usuario !in m
  {}

  /** How a registry in which the user of c is c answers. */
  ghost predicate AnswersFor(c: Client, r: Request, sent: seq<Output>) {
    && (r.accion == "00" && r.usuario == c.user ==> sent == [Refusal(r)])
    && (r.accion == "02" && r.usuario == c.user ==> sent == [Close(r.fd)])
    && (r.accion == "04" && r.usuario == c.user ==> sent == [Write(r.fd, Description(c))])
    && (r.accion == "08" && r.usuario2 == c.user ==> sent == [Write(c.fd, r.message)])
  }

  lemma RegisteredAnswers(m: Users, c: Client, r: Request, sent: seq<Output>)
    requires c.user in m && m[c.user] == c && Answers(m, r, sent)
    ensures AnswersFor(c, r, sent)
  {}

  /**
   * From a 00 that was answered with nothing to the user's next 02, in the order of the lock: another
   * 00 for the name is refused, and the name goes on standing for the address, the descriptor and the
   * last status given for it.
   */
  lemma {:induction false} WhileRegistered(h: Key -> nat, reqs: seq<Request>, s: State, a: nat, b: nat)
    requires Sequential(h, reqs, s) && a < b < |s.served| && Reply(s, s.served[a]) == []
    requires var rs := InOrder(reqs, s.served); rs[a].accion == "00" && Stays(rs, a, b, rs[a].usuario)
    ensures AnswersFor(RegisteredAt(InOrder(reqs, s.served), a, b), reqs[s.served[b]], Reply(s, s.served[b]))
  {
    var rs := InOrder(reqs, s.served);
    assert Answered(reqs, s, a) && Answered(reqs, s, b);
    AcceptedWasAbsent(After(rs, a), rs[a]);
    StaysRegistered(rs, a, b);
    RegisteredAnswers(After(rs, b), RegisteredAt(rs, a, b), rs[b], Reply(s, s.served[b]));
  }

  // ---------- Lists that fit ----------

  predicate ShortFields(c: Client) { |c.user| < 50 && |c.status| < 50 }

  lemma {:induction false} AfterFields(rs: seq<Request>, p: nat, u: string)
    requires p <= |rs| && u in After(rs, p)
    ensures ShortFields(After(rs, p)[u])
  {
    if u in After(rs, p - 1) { AfterFields(rs, p - 1, u); }
  }

  lemma {:induction false} ConcatShort(cs: seq<Client>)
    requires forall i | 0 <= i < |cs| :: ShortFields(cs[i])
    ensures |Concat(cs)| <= 100 * |cs|
  {
    if cs != [] { ConcatShort(cs[..|cs| - 1]); }
  }

  lemma TenAreShort(rs: seq<Request>, p: nat, cs: seq<Client>)
    requires p <= |rs| && Lists(cs, After(rs, p)) && |cs| <= 10
    ensures |Concat(cs)| < BUFFER
  {
    forall i | 0 <= i < |cs| ensures ShortFields(cs[i]) { AfterFields(rs, p, cs[i].user); }
    ConcatShort(cs);
  }

  lemma AnswerIsList(m: Users, r: Request, sent: seq<Output>) returns (cs: seq<Client>)
    requires r.accion == "06" && Answers(m, r, sent)
    ensures Lists(cs, m) && sent == [Listed(r, cs)]
  {
    cs :| Lists(cs, m) && sent == [Listed(r, cs)];
  }

  /** While no more than ten users are registered, the list of 06 cannot overflow. */
  lemma TenFit(h: Key -> nat, reqs: seq<Request>, s: State, p: nat) returns (cs: seq<Client>)
    requires Sequential(h, reqs, s) && p < |s.served| && reqs[s.served[p]].accion == "06"
    requires |After(InOrder(reqs, s.served), p)| <= 10
    ensures Lists(cs, After(InOrder(reqs, s.served), p))
    ensures Reply(s, s.served[p]) == [Listing(reqs[s.served[p]], Concat(cs))]
  {
    var rs := InOrder(reqs, s.served);
    assert Answered(reqs, s, p);
    cs := AnswerIsList(After(rs, p), rs[p], Reply(s, s.served[p]));
    TenAreShort(rs, p, cs);
  }
}
