// The hash map of hashmap.c as a value: what each operation does to the slot array and the size
// field, for any hash function h. Allocation of the doubled array fails above `limit` slots.
module HashTable {
  import opened Options

  type Key = string

  datatype Slot<+V> = Free | Used(key: Key, data: V)

  /** table_size is the number of slots; size is the counter kept by put, remove and rehash. */
  datatype Table<+V> = Table(slots: seq<Slot<V>>, size: int)

  /** MAP_OK or MAP_OMEM, with the table as the call leaves it. */
  datatype Outcome<+V> = Outcome(ok: bool, table: Table<V>)

  // ---------- Probing ----------

  /** The slot reached from k's home slot in i steps of curr = (curr + 1) % n. */
  function Position(h: Key -> nat, k: Key, n: nat, i: nat): (c: nat)
    requires i <= 8 <= n
    ensures c < n
  {
    var c := h(k) % n + i;
    if c < n then c else c - n
  }

  /** The inverse: how many steps lead from k's home slot to slot c. */
  function Offset(h: Key -> nat, k: Key, n: nat, c: nat): nat
    requires c < n
  {
    var home := h(k) % n;
    if home <= c then c - home else c - home + n
  }

  /** The first slot of k's chain, from step i on, that is free or holds k. */
  function Probe<V>(h: Key -> nat, slots: seq<Slot<V>>, k: Key, i: nat): (c: Option<nat>)
    requires i <= 8 <= |slots|
    ensures c.Some? ==> c.value < |slots|
    decreases 8 - i
  {
    if i == 8 then None
    else
      var c := Position(h, k, |slots|, i);
      if slots[c].Free? || slots[c].key == k then Some(c) else Probe(h, slots, k, i + 1)
  }

  /** hashmap_hash: None stands for MAP_FULL. */
  function FindSlot<V>(h: Key -> nat, t: Table<V>, k: Key): (c: Option<nat>)
    requires 8 <= |t.slots|
    ensures c.Some? ==> c.value < |t.slots|
  {
    if t.size >= |t.slots| / 2 then None else Probe(h, t.slots, k, 0)
  }

  /** The first slot of k's chain, from step i on, that holds k; holes are passed over. */
  function Search<V>(h: Key -> nat, slots: seq<Slot<V>>, k: Key, i: nat): (c: Option<nat>)
    requires i <= 8 <= |slots|
    ensures c.Some? ==> c.value < |slots| && slots[c.value].Used? && slots[c.value].key == k
    decreases 8 - i
  {
    if i == 8 then None
    else
      var c := Position(h, k, |slots|, i);
      if slots[c].Used? && slots[c].key == k then Some(c) else Search(h, slots, k, i + 1)
  }

  // ---------- The operations ----------

  function Empty<V>(n: nat): Table<V> { Table(seq(n, _ => Free), 0) }

  function Room(limit: nat, n: nat): nat { if n < limit then limit - n else 0 }

  function Store<V>(t: Table<V>, c: nat, k: Key, v: V): Table<V>
    requires c < |t.slots|
  {
    Table(t.slots[c := Used(k, v)], t.size + 1)
  }

  function Put<V>(h: Key -> nat, t: Table<V>, k: Key, v: V, limit: nat): (r: Outcome<V>)
    requires 8 <= |t.slots|
    ensures |t.slots| <= |r.table.slots|
    decreases Room(limit, |t.slots|), 1, 0
  {
    var c := FindSlot(h, t, k);
    if c.Some? then Outcome(true, Store(t, c.value, k, v))
    else
      var r := Rehash(h, t, limit);
      if r.ok then Put(h, r.table, k, v, limit) else r
  }

  function Rehash<V>(h: Key -> nat, t: Table<V>, limit: nat): (r: Outcome<V>)
    requires 8 <= |t.slots|
    ensures |t.slots| <= |r.table.slots|
    ensures r.ok ==> 2 * |t.slots| <= |r.table.slots| && 2 * |t.slots| <= limit
    decreases Room(limit, |t.slots|), 0, 0
  {
    if 2 * |t.slots| > limit then Outcome(false, t)
    else Reinsert(h, Empty(2 * |t.slots|), t.slots, 0, limit)
  }

  /** The loop of hashmap_rehash, from old slot i on, with cur in place of the old table. */
  function Reinsert<V>(h: Key -> nat, cur: Table<V>, prior: seq<Slot<V>>, i: nat, limit: nat): (r: Outcome<V>)
    requires 8 <= |cur.slots| && i <= |prior|
    ensures |cur.slots| <= |r.table.slots|
    decreases Room(limit, |cur.slots|), 2, |prior| - i
  {
    if i == |prior| then Outcome(true, cur)
    else if prior[i].Free? then Reinsert(h, cur, prior, i + 1, limit)
    else
      var r := Put(h, cur, prior[i].key, prior[i].data, limit);
      if r.ok then Reinsert(h, r.table, prior, i + 1, limit) else r
  }

  function Get<V>(h: Key -> nat, t: Table<V>, k: Key): Option<V>
    requires 8 <= |t.slots|
  {
    var c := Search(h, t.slots, k, 0);
    if c.Some? then Some(t.slots[c.value].data) else None
  }

  /** ok is false for MAP_MISSING. */
  function Remove<V>(h: Key -> nat, t: Table<V>, k: Key): Outcome<V>
    requires 8 <= |t.slots|
  {
    var c := Search(h, t.slots, k, 0);
    if c.Some? then Outcome(true, Table(t.slots[c.value := Free], t.size - 1))
    else Outcome(false, t)
  }

  // ---------- What the searches find ----------

  lemma {:induction false} ProbeFinds<V>(h: Key -> nat, slots: seq<Slot<V>>, k: Key, i: nat)
    requires i <= 8 <= |slots|
    ensures var c := Probe(h, slots, k, i);
      c.Some? ==>
        && c.value < |slots| && (slots[c.value].Free? || slots[c.value].key == k)
        && i <= Offset(h, k, |slots|, c.value) < 8
        && forall j | i <= j < Offset(h, k, |slots|, c.value) ::
             slots[Position(h, k, |slots|, j)].Used? && slots[Position(h, k, |slots|, j)].key != k
    ensures Probe(h, slots, k, i).None? ==>
      forall j | i <= j < 8 :: slots[Position(h, k, |slots|, j)].Used? && slots[Position(h, k, |slots|, j)].key != k
    decreases 8 - i
  {
    if i < 8 { ProbeFinds(h, slots, k, i + 1); }
  }

  lemma {:induction false} SearchMisses<V>(h: Key -> nat, slots: seq<Slot<V>>, k: Key, i: nat)
    requires i <= 8 <= |slots|
    ensures Search(h, slots, k, i).None? <==>
      forall j | i <= j < 8 :: slots[Position(h, k, |slots|, j)].Free? || slots[Position(h, k, |slots|, j)].key != k
    decreases 8 - i
  {
    if i < 8 { SearchMisses(h, slots, k, i + 1); }
  }
}
