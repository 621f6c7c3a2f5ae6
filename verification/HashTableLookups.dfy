// Laws of hashmap.c that need no discipline from the caller, and what goes wrong without it.
module HashTableLookups {
  import opened HashTable
  import opened HashTableBounds
  import opened HashTableLaws
  import opened Options

  // ---------- put then get, on any table ----------

  lemma {:induction false} SearchAfterStore<V>(h: Key -> nat, slots: seq<Slot<V>>, k: Key, v: V, i: nat)
    requires i <= 8 <= |slots| && Probe(h, slots, k, i).Some?
    ensures var c := Probe(h, slots, k, i).value;
      Search(h, slots[c := Used(k, v)], k, i) == Some(c)
    decreases 8 - i
  {
    var p := Position(h, k, |slots|, i);
    if slots[p].Used? && slots[p].key != k {
      ProbeFinds(h, slots, k, i + 1);
      SearchAfterStore(h, slots, k, v, i + 1);
    }
  }

  /** Filling a slot that was free, or held k already, hides no other key. */
  lemma {:induction false} SearchUnaffected<V>(h: Key -> nat, slots: seq<Slot<V>>, c: nat, k: Key, v: V, other: Key, i: nat)
    requires i <= 8 <= |slots| && c < |slots| && other != k
    requires slots[c].Used? ==> slots[c].key == k
    ensures Search(h, slots[c := Used(k, v)], other, i) == Search(h, slots, other, i)
    decreases 8 - i
  {
    if i < 8 { SearchUnaffected(h, slots, c, k, v, other, i + 1); }
  }

  /** For every table, duplicates and wrong sizes included: after a successful put the key has the new value;
      and if put found a slot at once, no other lookup changed. */
  lemma {:induction false} PutThenGet<V>(h: Key -> nat, t: Table<V>, k: Key, v: V, limit: nat)
    requires 8 <= |t.slots| && Put(h, t, k, v, limit).ok
    ensures Get(h, Put(h, t, k, v, limit).table, k) == Some(v)
    ensures FindSlot(h, t, k).Some? ==>
      forall other | other != k :: Get(h, Put(h, t, k, v, limit).table, other) == Get(h, t, other)
    decreases Room(limit, |t.slots|)
  {
    if FindSlot(h, t, k).Some? {
      var c := FindSlot(h, t, k).value;
      SearchAfterStore(h, t.slots, k, v, 0);
      ProbeFinds(h, t.slots, k, 0);
      forall other | other != k
        ensures Get(h, Put(h, t, k, v, limit).table, other) == Get(h, t, other)
      {
        SearchUnaffected(h, t.slots, c, k, v, other, 0);
      }
    } else {
      PutThenGet(h, Rehash(h, t, limit).table, k, v, limit);
    }
  }

  // ---------- The discipline is exactly what keeps the table tidy ----------

  lemma StoreOverPresent<V>(h: Key -> nat, t: Table<V>, k: Key, v: V)
    requires Tidy(h, t) && k in Contents(t.slots) && FindSlot(h, t, k).Some?
    ensures !Tidy(h, Store(t, FindSlot(h, t, k).value, k, v))
  {
    var c := FindSlot(h, t, k).value;
    ProbeFinds(h, t.slots, k, 0);
    OccupiedUpdate(t.slots, c, Used(k, v));
    if t.slots[c].Free? {
      var d := ContentsFrom(t.slots, k);
      var slots' := t.slots[c := Used(k, v)];
      assert slots'[c].key == slots'[d].key;
    }
  }

  /** A successful put keeps the table tidy if and only if its key was absent: putting a present key either
      counts the entry twice or stores it twice. */
  lemma {:induction false} PutTidyIffAbsent<V>(h: Key -> nat, t: Table<V>, k: Key, v: V, limit: nat)
    requires Tidy(h, t) && Put(h, t, k, v, limit).ok
    ensures Tidy(h, Put(h, t, k, v, limit).table) <==> k !in Contents(t.slots)
    decreases Room(limit, |t.slots|)
  {
    if k !in Contents(t.slots) {
      PutIsInsert(h, t, k, v, limit);
    } else if FindSlot(h, t, k).Some? {
      StoreOverPresent(h, t, k, v);
    } else {
      RehashKeepsContents(h, t, limit);
      PutTidyIffAbsent(h, Rehash(h, t, limit).table, k, v, limit);
    }
  }

  // ---------- Iteration ----------

  /** The entries in the order hashmap_iterate visits them. */
  function Entries<V>(slots: seq<Slot<V>>): seq<(Key, V)> {
    if slots == [] then []
    else (if slots[0].Used? then [(slots[0].key, slots[0].data)] else []) + Entries(slots[1..])
  }

  /** Iteration visits every pair of the map, each once. */
  lemma {:induction false} EntriesListContents<V>(slots: seq<Slot<V>>)
    requires Distinct(slots)
    ensures |Entries(slots)| == Occupied(slots) == |Contents(slots)|
    ensures forall i | 0 <= i < |Entries(slots)| ::
      Entries(slots)[i].0 in Contents(slots) && Contents(slots)[Entries(slots)[i].0] == Entries(slots)[i].1
    ensures forall i, j | 0 <= i < j < |Entries(slots)| :: Entries(slots)[i].0 != Entries(slots)[j].0
    ensures forall k | k in Contents(slots) :: (k, Contents(slots)[k]) in Entries(slots)
  {
    OccupiedIsCardinality(slots);
    if slots != [] {
      EntriesListContents(slots[1..]);
      if slots[0].Used? {
        ContentsOut(slots[1..], slots[0].key);
        var e, rest := (slots[0].key, slots[0].data), Entries(slots[1..]);
        assert Entries(slots) == [e] + rest;
        forall k | k in Contents(slots) ensures (k, Contents(slots)[k]) in Entries(slots) {
          if k == e.0 { assert Entries(slots)[0] == e; } else { assert (k, Contents(slots)[k]) in rest; }
        }
      }
    }
  }
}
