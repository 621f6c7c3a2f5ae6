// The order in which the handlers' writes reach the sockets, and whose sockets these are.
module ServerWire {
  import opened HashTable
  import opened Protocol
  import opened Server
  import opened ServerRuns

  /** Handler i writes all it writes under the lock. */
  predicate Prompt(reqs: seq<Request>, i: nat) { i < |reqs| && reqs[i].accion != "06" }

  /** What the prompt handlers sent, in order. */
  function Prompts(reqs: seq<Request>, wire: seq<(nat, Output)>): seq<(nat, Output)> {
    if wire == [] then []
    else
      var last := wire[|wire| - 1];
      Prompts(reqs, wire[..|wire| - 1]) + if Prompt(reqs, last.0) then [last] else []
  }

  /** What handler i sent, in order. */
  function SentBy(wire: seq<(nat, Output)>, i: nat): seq<Output> {
    if wire == [] then []
    else SentBy(wire[..|wire| - 1], i) + if wire[|wire| - 1].0 == i then [wire[|wire| - 1].1] else []
  }

  /** The outputs of the prompt handlers, one handler after the other in the order of the lock. */
  function InTurn(reqs: seq<Request>, sent: seq<seq<Output>>, served: seq<nat>): seq<(nat, Output)>
    requires |sent| == |reqs|
  {
    if served == [] then []
    else
      var i := served[|served| - 1];
      InTurn(reqs, sent, served[..|served| - 1]) + if Prompt(reqs, i) then Tagged(i, sent[i]) else []
  }

  // ---------- One more handler ----------

  lemma PromptsOne(reqs: seq<Request>, wire: seq<(nat, Output)>, w: (nat, Output))
    ensures Prompts(reqs, wire + [w]) == Prompts(reqs, wire) + if Prompt(reqs, w.0) then [w] else []
  {
    assert (wire + [w])[..|wire|] == wire;
  }

  lemma SentByOne(wire: seq<(nat, Output)>, w: (nat, Output), i: nat)
    ensures SentBy(wire + [w], i) == SentBy(wire, i) + if w.0 == i then [w.1] else []
  {
    assert (wire + [w])[..|wire|] == wire;
  }

  lemma TaggedSplit(i: nat, outputs: seq<Output>)
    requires outputs != []
    ensures Tagged(i, outputs) == Tagged(i, outputs[..|outputs| - 1]) + [(i, outputs[|outputs| - 1])]
  {}

  lemma {:induction false} PromptsTagged(reqs: seq<Request>, wire: seq<(nat, Output)>, i: nat, outputs: seq<Output>)
    ensures Prompts(reqs, wire + Tagged(i, outputs))
         == Prompts(reqs, wire) + if Prompt(reqs, i) then Tagged(i, outputs) else []
    decreases |outputs|
  {
    if outputs == [] {
      assert wire + Tagged(i, outputs) == wire;
    } else {
      var n := |outputs| - 1;
      TaggedSplit(i, outputs);
      PromptsTagged(reqs, wire, i, outputs[..n]);
      PromptsOne(reqs, wire + Tagged(i, outputs[..n]), (i, outputs[n]));
      assert wire + Tagged(i, outputs) == wire + Tagged(i, outputs[..n]) + [(i, outputs[n])];
    }
  }

  lemma {:induction false} SentByTagged(wire: seq<(nat, Output)>, i: nat, outputs: seq<Output>, k: nat)
    ensures SentBy(wire + Tagged(i, outputs), k) == if k == i then SentBy(wire, k) + outputs else SentBy(wire, k)
    decreases |outputs|
  {
    if outputs == [] {
      assert wire + Tagged(i, outputs) == wire;
    } else {
      var n := |outputs| - 1;
      var before := wire + Tagged(i, outputs[..n]);
      TaggedSplit(i, outputs);
      assert wire + Tagged(i, outputs) == before + [(i, outputs[n])];
      SentByTagged(wire, i, outputs[..n], k);
      SentByOne(before, (i, outputs[n]), k);
      assert SentBy(wire, k) + outputs == SentBy(wire, k) + outputs[..n] + [outputs[n]];
    }
  }

  /** A handler that is not among them, or not prompt, does not matter. */
  lemma {:induction false} InTurnSame(reqs: seq<Request>, sent: seq<seq<Output>>, served: seq<nat>, i: nat, o: seq<Output>)
    requires |sent| == |reqs| && i < |sent| && (i !in served || !Prompt(reqs, i))
    ensures InTurn(reqs, sent[i := o], served) == InTurn(reqs, sent, served)
    decreases |served|
  {
    if served != [] { InTurnSame(reqs, sent, served[..|served| - 1], i, o); }
  }

  /** What the first handlers to lock sent is in front of what the later ones sent. */
  lemma {:induction false} InTurnSplits(reqs: seq<Request>, sent: seq<seq<Output>>, a: seq<nat>, b: seq<nat>)
    requires |sent| == |reqs|
    ensures InTurn(reqs, sent, a + b) == InTurn(reqs, sent, a) + InTurn(reqs, sent, b)
    decreases |b|
  {
    if b == [] {
      assert a + b == a;
    } else {
      var n := |b| - 1;
      assert (a + b)[..|a + b| - 1] == a + b[..n];
      InTurnSplits(reqs, sent, a, b[..n]);
    }
  }

  // ---------- Whole runs ----------

  /** The wire holds what each handler sent, and the prompt handlers' part of it is in the order of the lock. */
  ghost predicate Wired(reqs: seq<Request>, s: State) {
    && Handlers(reqs, s)
    && (forall i | 0 <= i < |reqs| :: SentBy(s.wire, i) == s.sent[i])
    && Prompts(reqs, s.wire) == InTurn(reqs, s.sent, s.served)
  }

  /** Nothing is left to be sent by a prompt handler, and what was sent went to the asker. */
  ghost predicate Polite(reqs: seq<Request>, s: State) {
    && Handlers(reqs, s)
    && (forall i | 0 <= i < |reqs| :: Prompt(reqs, i) ==> Reply(s, i) == s.sent[i])
    && forall i | 0 <= i < |reqs| :: Addressed(reqs[i], Reply(s, i))
  }

  lemma LockSends(reqs: seq<Request>, s: State, i: nat, x: Section, k: nat)
    requires Wired(reqs, s) && Enabled(s, Locked(i)) && k < |reqs|
    ensures SentBy(Lock(s, i, x).wire, k) == Lock(s, i, x).sent[k]
  {
    SentByTagged(s.wire, i, x.outputs, k);
  }

  lemma LockInTurn(reqs: seq<Request>, s: State, i: nat, x: Section)
    requires Wired(reqs, s) && Enabled(s, Locked(i))
    ensures var s' := Lock(s, i, x);
      |s'.sent| == |reqs| && Prompts(reqs, s'.wire) == InTurn(reqs, s'.sent, s'.served)
  {
    var s' := Lock(s, i, x);
    PromptsTagged(reqs, s.wire, i, x.outputs);
    assert i !in s.served && s.sent[i] == [];
    InTurnSame(reqs, s.sent, s.served, i, s'.sent[i]);
    assert s'.served[..|s.served|] == s.served && s'.sent[i] == x.outputs;
  }

  lemma LockWires(reqs: seq<Request>, s: State, i: nat, x: Section)
    requires Wired(reqs, s) && Enabled(s, Locked(i))
    ensures Wired(reqs, Lock(s, i, x))
  {
    LockKeepsHandlers(reqs, s, i, x);
    LockInTurn(reqs, s, i, x);
    forall k | 0 <= k < |reqs| ensures SentBy(Lock(s, i, x).wire, k) == Lock(s, i, x).sent[k] {
      LockSends(reqs, s, i, x, k);
    }
  }

  lemma OnlyListsWait(reqs: seq<Request>, s: State, i: nat)
    requires Polite(reqs, s) && Enabled(s, Unlocked(i))
    ensures !Prompt(reqs, i)
  {
    assert |Reply(s, i)| == |s.sent[i]| + |s.handlers[i].rest|;
  }

  lemma UnlockWires(reqs: seq<Request>, s: State, i: nat)
    requires Wired(reqs, s) && Polite(reqs, s) && Enabled(s, Unlocked(i))
    ensures Wired(reqs, Unlock(s, i))
  {
    var s', o := Unlock(s, i), s.handlers[i].rest[0];
    UnlockKeepsHandlers(reqs, s, i);
    OnlyListsWait(reqs, s, i);
    PromptsOne(reqs, s.wire, (i, o));
    forall k | 0 <= k < |reqs| ensures SentBy(s'.wire, k) == s'.sent[k] { SentByOne(s.wire, (i, o), k); }
    InTurnSame(reqs, s.sent, s.served, i, s.sent[i] + [o]);
  }

  lemma LockIsPolite(reqs: seq<Request>, s: State, i: nat, x: Section)
    requires Polite(reqs, s) && Enabled(s, Locked(i)) && Timely(reqs[i], x) && Addressed(reqs[i], x.outputs + x.after)
    ensures Polite(reqs, Lock(s, i, x))
  {
    var s' := Lock(s, i, x);
    LockKeepsHandlers(reqs, s, i, x);
    forall k | 0 <= k < |reqs|
      ensures (Prompt(reqs, k) ==> Reply(s', k) == s'.sent[k]) && Addressed(reqs[k], Reply(s', k))
    {
      LockReplies(reqs, s, i, x, k);
    }
  }

  lemma UnlockIsPolite(reqs: seq<Request>, s: State, i: nat)
    requires Polite(reqs, s) && Enabled(s, Unlocked(i))
    ensures Polite(reqs, Unlock(s, i))
  {
    var s' := Unlock(s, i);
    UnlockKeepsHandlers(reqs, s, i);
    OnlyListsWait(reqs, s, i);
    forall k | 0 <= k < |reqs|
      ensures (Prompt(reqs, k) ==> Reply(s', k) == s'.sent[k]) && Addressed(reqs[k], Reply(s', k))
    {
      UnlockReplies(s, i, k);
    }
  }

  /**
   * Every run, failing puts included: the writes of all commands but 06 appear in the order of the lock,
   * each handler's together; so messages reach a descriptor in the order in which their handlers locked.
   * And what a handler sends goes to its asker, the message of 08 apart.
   */
  lemma {:induction false} RunIsWired(h: Key -> nat, reqs: seq<Request>, limit: nat,
                                      es: seq<Event>, ss: seq<State>, j: nat)
    requires Run(h, reqs, limit, es, ss) && j <= |es|
    ensures Wired(reqs, ss[j]) && Polite(reqs, ss[j])
  {
    if j > 0 {
      var s, e := ss[j - 1], es[j - 1];
      RunIsWired(h, reqs, limit, es, ss, j - 1);
      assert Follows(h, reqs, limit, s, e, ss[j]);
      if e.Locked? {
        SwitchWrites(h, s.store, reqs[e.i], limit);
        LockWires(reqs, s, e.i, Switch(h, s.store, reqs[e.i], limit));
        LockIsPolite(reqs, s, e.i, Switch(h, s.store, reqs[e.i], limit));
      } else {
        UnlockWires(reqs, s, e.i);
        UnlockIsPolite(reqs, s, e.i);
      }
    }
  }

  /**
   * Of two handlers of commands other than 06, all that the one sent that locked first comes before all
   * that the other one sent.
   */
  lemma EarlierFirst(reqs: seq<Request>, s: State, p: nat)
    requires Wired(reqs, s) && p <= |s.served|
    ensures Prompts(reqs, s.wire) == InTurn(reqs, s.sent, s.served[..p]) + InTurn(reqs, s.sent, s.served[p..])
  {
    assert s.served == s.served[..p] + s.served[p..];
    InTurnSplits(reqs, s.sent, s.served[..p], s.served[p..]);
  }

  /** And what is once on the wire stays in front: an answer to 06 comes after all that was sent before it. */
  lemma {:induction false} WireGrows(h: Key -> nat, reqs: seq<Request>, limit: nat,
                                     es: seq<Event>, ss: seq<State>, j: nat, k: nat)
    requires Run(h, reqs, limit, es, ss) && j <= k <= |es|
    ensures ss[j].wire <= ss[k].wire
    decreases k
  {
    if j < k {
      WireGrows(h, reqs, limit, es, ss, j, k - 1);
      assert Follows(h, reqs, limit, ss[k - 1], es[k - 1], ss[k]);
    }
  }
}
