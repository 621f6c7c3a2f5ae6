// What is left of a table when memory runs out.
module HashTableFailures {
  import opened HashTable
  import opened HashTableLaws

  /** m holds some of the pairs of n and no others. */
  ghost predicate Submap<V(!new)>(m: map<Key, V>, n: map<Key, V>) {
    forall k | k in m :: k in n && m[k] == n[k]
  }

  /** A put that fails has left the table as it was exactly when the first doubling already found no memory. */
  lemma {:induction false} FailedPutKeepsTableIff<V>(h: Key -> nat, t: Table<V>, k: Key, v: V, limit: nat)
    requires 8 <= |t.slots| && !Put(h, t, k, v, limit).ok
    ensures Put(h, t, k, v, limit).table == t <==> limit < 2 * |t.slots|
  {
    var r := Rehash(h, t, limit);
    if 2 * |t.slots| <= limit {
      assert 2 * |t.slots| <= |r.table.slots|;
    }
  }

  /** The table on which put starts its last rehash, or finds room: t after the rehashes that succeed. */
  function Grown<V>(h: Key -> nat, t: Table<V>, k: Key, limit: nat): (g: Table<V>)
    requires 8 <= |t.slots|
    ensures |t.slots| <= |g.slots|
    decreases Room(limit, |t.slots|)
  {
    if FindSlot(h, t, k).Some? then t
    else
      var r := Rehash(h, t, limit);
      if r.ok then Grown(h, r.table, k, limit) else t
  }

  // ---------- What a failed put leaves ----------

  /**
   * A failed put of an absent key leaves a tidy table with some of the pairs, and with all of them
   * exactly when its last rehash was refused the doubled array at once.
   */
  lemma {:induction false} FailedPutLeaves<V(!new)>(h: Key -> nat, t: Table<V>, k: Key, v: V, limit: nat)
    requires Tidy(h, t) && k !in Contents(t.slots) && !Put(h, t, k, v, limit).ok
    ensures var r := Put(h, t, k, v, limit).table;
      && Tidy(h, r) && Submap(Contents(r.slots), Contents(t.slots))
      && (Contents(r.slots) == Contents(t.slots) <==> limit < 2 * |Grown(h, t, k, limit).slots|)
    decreases Room(limit, |t.slots|), 1, 0
  {
    var r := Rehash(h, t, limit);
    if r.ok {
      RehashKeepsContents(h, t, limit);
      FailedPutLeaves(h, r.table, k, v, limit);
    } else {
      FailedRehashLeaves(h, t, limit);
    }
  }

  lemma {:induction false} FailedRehashLeaves<V(!new)>(h: Key -> nat, t: Table<V>, limit: nat)
    requires 8 <= |t.slots| && Distinct(t.slots) && !Rehash(h, t, limit).ok
    ensures var r := Rehash(h, t, limit).table;
      && (Tidy(h, t) ==> Tidy(h, r)) && Submap(Contents(r.slots), Contents(t.slots))
      && (2 * |t.slots| <= limit ==> Contents(r.slots) != Contents(t.slots) && Tidy(h, r))
    decreases Room(limit, |t.slots|), 0, 0
  {
    if 2 * |t.slots| <= limit {
      EmptyIsTidy<V>(h, 2 * |t.slots|);
      assert t.slots[0..] == t.slots;
      var lost := FailedReinsertLosesAKey(h, Empty<V>(2 * |t.slots|), t.slots, 0, limit);
    }
  }

  lemma {:induction false} FailedReinsertLosesAKey<V(!new)>(h: Key -> nat, cur: Table<V>, prior: seq<Slot<V>>, i: nat,
                                                           limit: nat)
      returns (lost: Key)
    requires Tidy(h, cur) && i <= |prior| && Distinct(prior) && !Reinsert(h, cur, prior, i, limit).ok
    requires Contents(cur.slots).Keys !! Contents(prior[i..]).Keys
    ensures var r := Reinsert(h, cur, prior, i, limit).table;
      && lost in Contents(prior[i..]) && lost !in Contents(r.slots)
      && Tidy(h, r) && Submap(Contents(r.slots), Contents(cur.slots) + Contents(prior[i..]))
    decreases Room(limit, |cur.slots|), 2, |prior| - i
  {
    assert prior[i..][1..] == prior[i + 1..] && prior[i..][0] == prior[i];
    if prior[i].Free? {
      lost := FailedReinsertLosesAKey(h, cur, prior, i + 1, limit);
    } else {
      var k, v := prior[i].key, prior[i].data;
      assert k in Contents(prior[i..]);
      var r := Put(h, cur, k, v, limit);
      if r.ok {
        PutIsInsert(h, cur, k, v, limit);
        if k in Contents(prior[i + 1..]) { var d := ContentsFrom(prior[i + 1..], k); }
        lost := FailedReinsertLosesAKey(h, r.table, prior, i + 1, limit);
      } else {
        FailedPutLeaves(h, cur, k, v, limit);
        lost := k;
      }
    }
  }

  /**
   * A rehash that runs out of memory keeps the map exactly when it did so before touching the table;
   * when a reinsertion runs out of memory, entries are lost.
   */
  lemma FailedRehashKeepsContentsIff<V(!new)>(h: Key -> nat, t: Table<V>, limit: nat)
    requires 8 <= |t.slots| && Distinct(t.slots) && !Rehash(h, t, limit).ok
    ensures Contents(Rehash(h, t, limit).table.slots) == Contents(t.slots) <==> limit < 2 * |t.slots|
  {
    FailedRehashLeaves(h, t, limit);
  }

  // ---------- A table with entries is never left empty ----------

  ghost predicate Inhabited<V>(t: Table<V>) { t.size > 0 && Occupied(t.slots) > 0 }

  lemma {:induction false} NoneUsed<V>(slots: seq<Slot<V>>, c: nat)
    requires Occupied(slots) == 0 && c < |slots|
    ensures slots[c].Free?
  {
    if c > 0 { NoneUsed(slots[1..], c - 1); }
  }

  lemma StoreInhabits<V>(t: Table<V>, c: nat, k: Key, v: V)
    requires c < |t.slots| && t.size >= 0
    ensures Inhabited(Store(t, c, k, v))
  {
    var slots := Store(t, c, k, v).slots;
    if Occupied(slots) == 0 { NoneUsed(slots, c); }
  }

  /** A put into an empty table needs no memory. */
  lemma FirstPutFits<V>(h: Key -> nat, t: Table<V>, k: Key, v: V, limit: nat)
    requires 8 <= |t.slots| && t.size == 0 && Occupied(t.slots) == 0
    ensures Put(h, t, k, v, limit).ok && Inhabited(Put(h, t, k, v, limit).table)
  {
    NoneUsed(t.slots, Position(h, k, |t.slots|, 0));
    StoreInhabits(t, FindSlot(h, t, k).value, k, v);
  }

  /** Whether it succeeds or fails, put leaves entries where there were some. */
  lemma {:induction false} PutStaysInhabited<V>(h: Key -> nat, t: Table<V>, k: Key, v: V, limit: nat)
    requires 8 <= |t.slots| && Inhabited(t)
    ensures Inhabited(Put(h, t, k, v, limit).table)
    decreases Room(limit, |t.slots|), 1, 0
  {
    var c := FindSlot(h, t, k);
    if c.Some? {
      StoreInhabits(t, c.value, k, v);
    } else {
      RehashStaysInhabited(h, t, limit);
      var r := Rehash(h, t, limit);
      if r.ok { PutStaysInhabited(h, r.table, k, v, limit); }
    }
  }

  lemma {:induction false} RehashStaysInhabited<V>(h: Key -> nat, t: Table<V>, limit: nat)
    requires 8 <= |t.slots| && Inhabited(t)
    ensures Inhabited(Rehash(h, t, limit).table)
    decreases Room(limit, |t.slots|), 0, 0
  {
    if 2 * |t.slots| <= limit {
      EmptyIsTidy<V>(h, 2 * |t.slots|);
      assert t.slots[0..] == t.slots;
      ReinsertInhabits(h, Empty<V>(2 * |t.slots|), t.slots, 0, limit);
    }
  }

  lemma {:induction false} ReinsertInhabits<V>(h: Key -> nat, cur: Table<V>, prior: seq<Slot<V>>, i: nat, limit: nat)
    requires 8 <= |cur.slots| && i <= |prior|
    requires Inhabited(cur) || (cur.size == 0 && Occupied(cur.slots) == 0 && Occupied(prior[i..]) > 0)
    ensures Inhabited(Reinsert(h, cur, prior, i, limit).table)
    decreases Room(limit, |cur.slots|), 2, |prior| - i
  {
    if i < |prior| {
      assert prior[i..][1..] == prior[i + 1..] && prior[i..][0] == prior[i];
      if prior[i].Free? {
        ReinsertInhabits(h, cur, prior, i + 1, limit);
      } else {
        var k, v := prior[i].key, prior[i].data;
        if Inhabited(cur) { PutStaysInhabited(h, cur, k, v, limit); } else { FirstPutFits(h, cur, k, v, limit); }
        var r := Put(h, cur, k, v, limit);
        if r.ok { ReinsertInhabits(h, r.table, prior, i + 1, limit); }
      }
    }
  }
}
