// Nine users whose names have one hash: the server takes in any eight of them and no ninth, whatever
// memory it has.
module ServerCrowds {
  import opened HashTable
  import opened HashTableBounds
  import opened HashTableRows
  import opened HashTableWitnesses
  import opened Protocol
  import opened Registry
  import opened Server
  import opened ServerNames
  import opened ServerRuns
  import opened StringHash

  /** A 00 for a name that shares its hash with eight registered ones is refused at every limit. */
  lemma CrowdIsRefused(h: Key -> nat, s: Store, r: Request, limit: nat, eight: set<Key>)
    requires Good(h, s) && r.accion == "00" && r.usuario !in eight
    requires eight <= View(s).Keys && |eight| == 8 && forall x | x in eight :: h(x) == h(r.usuario)
    ensures Register(h, s, r, limit).outputs == [Refusal(r)] && Register(h, s, r, limit).after == []
  {
    if r.usuario in View(s) {
      RegisterTaken(h, s, r, limit);
    } else {
      LookupIsView(h, s, r.usuario);
      assert View(s).Keys == Pointers(s).Keys;
      NinthCollisionNeverFits<nat>(h, s.table, r.usuario, |s.clients|, limit, eight);
      RegisterFails(h, s, r, limit);
    }
  }

  // ---------- Nine of them at once ----------

  function Askers(reqs: seq<Request>): (ks: seq<Key>)
    ensures |ks| == |reqs| && forall i | 0 <= i < |ks| :: ks[i] == reqs[i].usuario
  {
    seq(|reqs|, i requires 0 <= i < |reqs| => reqs[i].usuario)
  }

  /** Nine users with one hash ask to be registered. */
  ghost predicate Crowding(h: Key -> nat, reqs: seq<Request>) {
    |reqs| == 9 && (forall i | 0 <= i < 9 :: reqs[i].accion == "00") && OneHash(h, Askers(reqs))
  }

  lemma {:induction false} AfterAsking(rs: seq<Request>, p: nat)
    requires p <= |rs| && forall q | 0 <= q < |rs| :: rs[q].accion == "00"
    ensures After(rs, p).Keys == KeySet(Askers(rs)[..p])
  {
    if p > 0 {
      AfterAsking(rs, p - 1);
      assert Askers(rs)[..p] == Askers(rs)[..p - 1] + [rs[p - 1].usuario];
    }
  }

  lemma RegisteredSoFar(h: Key -> nat, reqs: seq<Request>, s: State)
    requires Crowding(h, reqs) && Sequential(h, reqs, s)
    ensures View(s.store).Keys == KeySet(Askers(InOrder(reqs, s.served)))
    ensures |View(s.store).Keys| == |s.served|
  {
    var rs := InOrder(reqs, s.served);
    AfterAsking(rs, |rs|);
    assert Askers(rs)[..|rs|] == Askers(rs);
    forall p, q | 0 <= p < q < |rs| ensures Askers(rs)[p] != Askers(rs)[q] {
      assert Askers(reqs)[s.served[p]] != Askers(reqs)[s.served[q]];
    }
    ApartSize(Askers(rs));
  }

  lemma AskerOf(rs: seq<Request>, x: Key) returns (p: nat)
    requires x in KeySet(Askers(rs))
    ensures p < |rs| && rs[p].usuario == x
  {
    p :| 0 <= p < |rs| && Askers(rs)[p] == x;
  }

  lemma NotYetRegistered(h: Key -> nat, reqs: seq<Request>, s: State, i: nat)
    requires Crowding(h, reqs) && Sequential(h, reqs, s) && i < 9 && i !in s.served
    ensures reqs[i].usuario !in View(s.store)
    ensures forall x | x in View(s.store) :: h(x) == h(reqs[i].usuario)
  {
    var rs := InOrder(reqs, s.served);
    RegisteredSoFar(h, reqs, s);
    forall x | x in View(s.store) ensures x != reqs[i].usuario && h(x) == h(reqs[i].usuario) {
      var p := AskerOf(rs, x);
      assert Askers(reqs)[s.served[p]] != Askers(reqs)[i];
    }
  }

  /** As long as fewer than eight are registered, one more fits at every limit. */
  lemma OneMoreFits(h: Key -> nat, s: Store, r: Request, limit: nat)
    requires Good(h, s) && r.accion == "00" && r.usuario !in View(s) && |View(s).Keys| < 8
    requires |s.table.slots| == 256
    ensures PutSucceeds(h, s, r, limit) && |Register(h, s, r, limit).store.table.slots| == 256
  {
    assert View(s).Keys == Pointers(s).Keys;
    FitsOneMore<nat>(h, s.table, r.usuario, |s.clients|, limit);
    RegisterFresh(h, s, r, limit);
  }

  lemma NextFits(h: Key -> nat, reqs: seq<Request>, limit: nat, s: State, i: nat)
    requires Crowding(h, reqs) && Sequential(h, reqs, s) && i < 9 && i !in s.served && |s.served| < 8
    requires |s.store.table.slots| == 256
    ensures PutSucceeds(h, s.store, reqs[i], limit)
    ensures |Register(h, s.store, reqs[i], limit).store.table.slots| == 256
  {
    RegisteredSoFar(h, reqs, s);
    NotYetRegistered(h, reqs, s, i);
    OneMoreFits(h, s.store, reqs[i], limit);
  }

  /** Until a ninth is served, everyone who asked is in the first table. */
  ghost predicate Filling(h: Key -> nat, reqs: seq<Request>, s: State) {
    |s.served| <= 8 ==> Sequential(h, reqs, s) && |s.store.table.slots| == 256
  }

  lemma NewServer(h: Key -> nat, reqs: seq<Request>, s: State)
    requires s == Start(|reqs|)
    ensures Filling(h, reqs, s)
  {
    StartIsSequential(h, reqs);
  }

  lemma StepOfEight(h: Key -> nat, reqs: seq<Request>, limit: nat, s0: State, e: Event, s: State)
    requires Crowding(h, reqs) && Filling(h, reqs, s0) && Follows(h, reqs, limit, s0, e, s)
    ensures Filling(h, reqs, s)
  {
    if |s.served| <= 8 {
      if e.Locked? {
        LockKeepsHandlers(reqs, s0, e.i, Switch(h, s0.store, reqs[e.i], limit));
        NextFits(h, reqs, limit, s0, e.i);
      }
      StepIsSequential(h, reqs, limit, s0, e, s);
    }
  }

  lemma {:induction false} FirstEight(h: Key -> nat, reqs: seq<Request>, limit: nat,
                                      es: seq<Event>, ss: seq<State>, j: nat)
    requires Crowding(h, reqs) && Run(h, reqs, limit, es, ss) && j <= |es|
    ensures Filling(h, reqs, ss[j])
  {
    if j == 0 {
      NewServer(h, reqs, ss[0]);
    } else {
      FirstEight(h, reqs, limit, es, ss, j - 1);
      assert Follows(h, reqs, limit, ss[j - 1], es[j - 1], ss[j]);
      StepOfEight(h, reqs, limit, ss[j - 1], es[j - 1], ss[j]);
    }
  }

  lemma EighthOrNinth(h: Key -> nat, reqs: seq<Request>, limit: nat, s: State, i: nat)
    requires Crowding(h, reqs) && Sequential(h, reqs, s) && Enabled(s, Locked(i)) && |s.served| <= 8
    requires |s.store.table.slots| == 256
    ensures i < 9
    ensures var x, fits := Register(h, s.store, reqs[i], limit), |s.served| < 8;
      && x.outputs + x.after == (if fits then [] else [Refusal(reqs[i])])
      && (reqs[i].usuario in View(x.store) <==> fits)
  {
    assert i !in s.served;
    NotYetRegistered(h, reqs, s, i);
    if |s.served| < 8 {
      NextFits(h, reqs, limit, s, i);
      RegisterRefines(h, s.store, reqs[i], limit);
    } else {
      RegisteredSoFar(h, reqs, s);
      CrowdIsRefused(h, s.store, reqs[i], limit, View(s.store).Keys);
      RegisterRefusedIff(h, s.store, reqs[i], limit);
      RegisterWithoutMemory(h, s.store, reqs[i], limit);
    }
  }

  /**
   * However the nine handlers are interleaved and whatever the memory: the first eight to take the lock
   * are registered, and the ninth gets a refusal, as if its name were taken.
   */
  lemma NinthIsRefused(h: Key -> nat, reqs: seq<Request>, limit: nat, es: seq<Event>, ss: seq<State>, j: nat)
    requires Crowding(h, reqs) && Run(h, reqs, limit, es, ss)
    requires j < |es| && es[j].Locked? && |ss[j].served| <= 8
    ensures es[j].i < 9 == |ss[j + 1].handlers| == |ss[j + 1].sent|
    ensures Reply(ss[j + 1], es[j].i) == if |ss[j].served| < 8 then [] else [Refusal(reqs[es[j].i])]
    ensures reqs[es[j].i].usuario in View(ss[j + 1].store) <==> |ss[j].served| < 8
  {
    var s, i := ss[j], es[j].i;
    assert Follows(h, reqs, limit, s, es[j], ss[j + 1]);
    FirstEight(h, reqs, limit, es, ss, j);
    EighthOrNinth(h, reqs, limit, s, i);
    LockReplies(reqs, s, i, Switch(h, s.store, reqs[i], limit), i);
  }

  // ---------- The server's own hash ----------

  /** Handlers may take the lock in the order of their numbers. */
  lemma {:induction false} LockInTurn(h: Key -> nat, reqs: seq<Request>, limit: nat, m: nat)
      returns (es: seq<Event>, ss: seq<State>)
    requires m <= |reqs|
    ensures |es| == m && Run(h, reqs, limit, es, ss) && forall j | 0 <= j < m :: es[j] == Locked(j)
    ensures forall j | 0 <= j <= m :: |ss[j].served| == j
    ensures |ss[m].handlers| == |ss[m].sent| == |reqs| && forall i | m <= i < |reqs| :: ss[m].handlers[i].Waiting?
  {
    if m == 0 {
      es, ss := [], [Start(|reqs|)];
    } else {
      es, ss := LockInTurn(h, reqs, limit, m - 1);
      var s := RunGoesOn(h, reqs, limit, es, ss, Locked(m - 1));
      es, ss := es + [Locked(m - 1)], ss + [s];
      assert Follows(h, reqs, limit, ss[m - 1], es[m - 1], ss[m]);
    }
  }

  lemma FellowFits(i: nat)
    ensures |Fellow(i)| == 7 && '\0' !in Fellow(i)
  {}

  function FellowRequest(i: nat): Request {
    FellowFits(i);
    Record("00", Fellow(i), "", "", "", "", "", 0)
  }

  /** The nine names of ServerNames bring the server to that refusal, at every limit. */
  lemma FellowIsRefused(limit: nat) returns (reqs: seq<Request>, es: seq<Event>, ss: seq<State>)
    ensures |reqs| == 9 && forall i | 0 <= i < 9 :: reqs[i].accion == "00" && reqs[i].usuario == Fellow(i)
    ensures Run(KeyHash, reqs, limit, es, ss) && |es| == 9 == |ss[9].handlers| == |ss[9].sent|
    ensures Reply(ss[9], 8) == [Refusal(reqs[8])] && Fellow(8) !in View(ss[9].store)
  {
    reqs := seq(9, i requires 0 <= i < 9 => FellowRequest(i));
    FellowsHaveOneHash();
    assert Askers(reqs) == Fellows();
    es, ss := LockInTurn(KeyHash, reqs, limit, 9);
    NinthIsRefused(KeyHash, reqs, limit, es, ss, 8);
  }
}
