// How much memory a put needs: exactly the capacity it ends with.
module HashTableMemory {
  import opened HashTable

  function Larger(m: nat, n: nat): nat { if m < n then n else m }

  // ---------- The memory limit only decides between MAP_OK and MAP_OMEM ----------

  lemma {:induction false} PutIgnoresLimit<V>(h: Key -> nat, t: Table<V>, k: Key, v: V, limit: nat, more: nat)
    requires 8 <= |t.slots| && limit <= more && Put(h, t, k, v, limit).ok
    ensures Put(h, t, k, v, more) == Put(h, t, k, v, limit)
    decreases Room(limit, |t.slots|), 1, 0
  {
    if FindSlot(h, t, k).None? {
      RehashIgnoresLimit(h, t, limit, more);
      PutIgnoresLimit(h, Rehash(h, t, limit).table, k, v, limit, more);
    }
  }

  lemma {:induction false} RehashIgnoresLimit<V>(h: Key -> nat, t: Table<V>, limit: nat, more: nat)
    requires 8 <= |t.slots| && limit <= more && Rehash(h, t, limit).ok
    ensures Rehash(h, t, more) == Rehash(h, t, limit)
    decreases Room(limit, |t.slots|), 0, 0
  {
    ReinsertIgnoresLimit(h, Empty(2 * |t.slots|), t.slots, 0, limit, more);
  }

  lemma {:induction false} ReinsertIgnoresLimit<V>(h: Key -> nat, cur: Table<V>, prior: seq<Slot<V>>, i: nat,
                                                   limit: nat, more: nat)
    requires 8 <= |cur.slots| && i <= |prior| && limit <= more && Reinsert(h, cur, prior, i, limit).ok
    ensures Reinsert(h, cur, prior, i, more) == Reinsert(h, cur, prior, i, limit)
    decreases Room(limit, |cur.slots|), 2, |prior| - i
  {
    if i < |prior| {
      if prior[i].Free? {
        ReinsertIgnoresLimit(h, cur, prior, i + 1, limit, more);
      } else {
        var k, v := prior[i].key, prior[i].data;
        PutIgnoresLimit(h, cur, k, v, limit, more);
        ReinsertIgnoresLimit(h, Put(h, cur, k, v, limit).table, prior, i + 1, limit, more);
      }
    }
  }

  // ---------- No more than the limit is taken ----------

  lemma {:induction false} PutWithin<V>(h: Key -> nat, t: Table<V>, k: Key, v: V, limit: nat)
    requires 8 <= |t.slots|
    ensures |Put(h, t, k, v, limit).table.slots| <= Larger(|t.slots|, limit)
    decreases Room(limit, |t.slots|), 1, 0
  {
    if FindSlot(h, t, k).None? {
      RehashWithin(h, t, limit);
      var r := Rehash(h, t, limit);
      if r.ok { PutWithin(h, r.table, k, v, limit); }
    }
  }

  lemma {:induction false} RehashWithin<V>(h: Key -> nat, t: Table<V>, limit: nat)
    requires 8 <= |t.slots|
    ensures |Rehash(h, t, limit).table.slots| <= Larger(|t.slots|, limit)
    decreases Room(limit, |t.slots|), 0, 0
  {
    if 2 * |t.slots| <= limit { ReinsertWithin(h, Empty<V>(2 * |t.slots|), t.slots, 0, limit); }
  }

  lemma {:induction false} ReinsertWithin<V>(h: Key -> nat, cur: Table<V>, prior: seq<Slot<V>>, i: nat, limit: nat)
    requires 8 <= |cur.slots| && i <= |prior|
    ensures |Reinsert(h, cur, prior, i, limit).table.slots| <= Larger(|cur.slots|, limit)
    decreases Room(limit, |cur.slots|), 2, |prior| - i
  {
    if i < |prior| {
      if prior[i].Free? {
        ReinsertWithin(h, cur, prior, i + 1, limit);
      } else {
        PutWithin(h, cur, prior[i].key, prior[i].data, limit);
        var r := Put(h, cur, prior[i].key, prior[i].data, limit);
        if r.ok { ReinsertWithin(h, r.table, prior, i + 1, limit); }
      }
    }
  }

  // ---------- The capacity reached is enough ----------

  lemma {:induction false} PutNeedsItsSize<V>(h: Key -> nat, t: Table<V>, k: Key, v: V, plenty: nat, limit: nat)
    requires 8 <= |t.slots| && Put(h, t, k, v, plenty).ok && |Put(h, t, k, v, plenty).table.slots| <= limit
    ensures Put(h, t, k, v, limit) == Put(h, t, k, v, plenty)
    decreases Room(plenty, |t.slots|), 1, 0
  {
    if FindSlot(h, t, k).None? {
      RehashNeedsItsSize(h, t, plenty, limit);
      PutNeedsItsSize(h, Rehash(h, t, plenty).table, k, v, plenty, limit);
    }
  }

  lemma {:induction false} RehashNeedsItsSize<V>(h: Key -> nat, t: Table<V>, plenty: nat, limit: nat)
    requires 8 <= |t.slots| && Rehash(h, t, plenty).ok && |Rehash(h, t, plenty).table.slots| <= limit
    ensures Rehash(h, t, limit) == Rehash(h, t, plenty)
    decreases Room(plenty, |t.slots|), 0, 0
  {
    ReinsertNeedsItsSize(h, Empty<V>(2 * |t.slots|), t.slots, 0, plenty, limit);
  }

  lemma {:induction false} ReinsertNeedsItsSize<V>(h: Key -> nat, cur: Table<V>, prior: seq<Slot<V>>, i: nat,
                                                   plenty: nat, limit: nat)
    requires 8 <= |cur.slots| && i <= |prior| && Reinsert(h, cur, prior, i, plenty).ok
    requires |Reinsert(h, cur, prior, i, plenty).table.slots| <= limit
    ensures Reinsert(h, cur, prior, i, limit) == Reinsert(h, cur, prior, i, plenty)
    decreases Room(plenty, |cur.slots|), 2, |prior| - i
  {
    if i < |prior| {
      if prior[i].Free? {
        ReinsertNeedsItsSize(h, cur, prior, i + 1, plenty, limit);
      } else {
        var k, v := prior[i].key, prior[i].data;
        PutNeedsItsSize(h, cur, k, v, plenty, limit);
        ReinsertNeedsItsSize(h, Put(h, cur, k, v, plenty).table, prior, i + 1, plenty, limit);
      }
    }
  }

  /**
   * If put succeeds with enough memory, it succeeds exactly where no doubling is needed or memory allows
   * the capacity it then ends with.
   */
  lemma PutNeedsMemory<V>(h: Key -> nat, t: Table<V>, k: Key, v: V, limit: nat, plenty: nat)
    requires 8 <= |t.slots| && Put(h, t, k, v, plenty).ok
    ensures Put(h, t, k, v, limit).ok <==>
      FindSlot(h, t, k).Some? || |Put(h, t, k, v, plenty).table.slots| <= limit
  {
    var size := |Put(h, t, k, v, plenty).table.slots|;
    if FindSlot(h, t, k).None? {
      if size <= limit {
        PutNeedsItsSize(h, t, k, v, plenty, limit);
      } else if Put(h, t, k, v, limit).ok {
        RehashWithin(h, t, limit);
        PutWithin(h, Rehash(h, t, limit).table, k, v, limit);
        PutIgnoresLimit(h, t, k, v, limit, Larger(limit, plenty));
        PutIgnoresLimit(h, t, k, v, plenty, Larger(limit, plenty));
        assert false;
      }
    }
  }
}
