// Sequences of calls on a hash table against the same calls on a plain map.
module HashTableRuns {
  import opened HashTable
  import opened HashTableBounds
  import opened HashTableLaws
  import opened Options

  datatype Call<+V> = PutCall(k: Key, v: V) | GetCall(k: Key) | RemoveCall(k: Key) | LengthCall

  /** The status of put and remove, what get finds, what length counts. */
  datatype Answer<+V> = Status(ok: bool) | Found(value: Option<V>) | Count(n: int)

  function Do<V>(h: Key -> nat, t: Table<V>, c: Call<V>, limit: nat): (Table<V>, Answer<V>)
    requires 8 <= |t.slots|
  {
    match c
    case PutCall(k, v) => var r := Put(h, t, k, v, limit); (r.table, Status(r.ok))
    case GetCall(k) => (t, Found(Get(h, t, k)))
    case RemoveCall(k) => var r := Remove(h, t, k); (r.table, Status(r.ok))
    case LengthCall => (t, Count(t.size))
  }

  function DoOnMap<V>(m: map<Key, V>, c: Call<V>): (map<Key, V>, Answer<V>) {
    match c
    case PutCall(k, v) => (m[k := v], Status(true))
    case GetCall(k) => (m, Found(if k in m then Some(m[k]) else None))
    case RemoveCall(k) => (m - {k}, Status(k in m))
    case LengthCall => (m, Count(|m|))
  }

  /** A put is made only of a key that get has just missed, and finds memory. */
  predicate Disciplined<V>(h: Key -> nat, t: Table<V>, c: Call<V>, limit: nat)
    requires 8 <= |t.slots|
  {
    c.PutCall? ==> Get(h, t, c.k).None? && Put(h, t, c.k, c.v, limit).ok
  }

  predicate AllDisciplined<V>(h: Key -> nat, t: Table<V>, calls: seq<Call<V>>, limit: nat)
    requires 8 <= |t.slots|
    decreases |calls|
  {
    calls == [] ||
    (Disciplined(h, t, calls[0], limit) && AllDisciplined(h, Do(h, t, calls[0], limit).0, calls[1..], limit))
  }

  function Run<V>(h: Key -> nat, t: Table<V>, calls: seq<Call<V>>, limit: nat): (Table<V>, seq<Answer<V>>)
    requires 8 <= |t.slots|
    decreases |calls|
  {
    if calls == [] then (t, [])
    else
      var (next, answer) := Do(h, t, calls[0], limit);
      var (last, answers) := Run(h, next, calls[1..], limit);
      (last, [answer] + answers)
  }

  function RunOnMap<V>(m: map<Key, V>, calls: seq<Call<V>>): (map<Key, V>, seq<Answer<V>>)
    decreases |calls|
  {
    if calls == [] then (m, [])
    else
      var (next, answer) := DoOnMap(m, calls[0]);
      var (last, answers) := RunOnMap(next, calls[1..]);
      (last, [answer] + answers)
  }

  lemma CallRefines<V>(h: Key -> nat, t: Table<V>, c: Call<V>, limit: nat)
    requires Tidy(h, t) && Disciplined(h, t, c, limit)
    ensures var r, m := Do(h, t, c, limit), DoOnMap(Contents(t.slots), c);
      Tidy(h, r.0) && Contents(r.0.slots) == m.0 && r.1 == m.1
  {
    match c
    case PutCall(k, v) => GetIsLookup(h, t, k); PutIsInsert(h, t, k, v, limit);
    case GetCall(k) => GetIsLookup(h, t, k);
    case RemoveCall(k) => RemoveIsDelete(h, t, k);
    case LengthCall => OccupiedIsCardinality(t.slots);
  }

  /**
   * Any sequence of puts of absent keys, gets, removals and lengths answers as on a map, and leaves a
   * table with distinct keys, every key on its chain, and size the number of entries.
   */
  lemma {:induction false} RunRefines<V>(h: Key -> nat, t: Table<V>, calls: seq<Call<V>>, limit: nat)
    requires Tidy(h, t) && AllDisciplined(h, t, calls, limit)
    ensures var r, m := Run(h, t, calls, limit), RunOnMap(Contents(t.slots), calls);
      Tidy(h, r.0) && Contents(r.0.slots) == m.0 && r.1 == m.1
    decreases |calls|
  {
    if calls != [] {
      CallRefines(h, t, calls[0], limit);
      RunRefines(h, Do(h, t, calls[0], limit).0, calls[1..], limit);
    }
  }

  /** In particular from a new table. */
  lemma RunFromEmpty<V>(h: Key -> nat, calls: seq<Call<V>>, limit: nat)
    requires AllDisciplined(h, Empty<V>(256), calls, limit)
    ensures var r, m := Run(h, Empty<V>(256), calls, limit), RunOnMap(map[], calls);
      Tidy(h, r.0) && Contents(r.0.slots) == m.0 && r.1 == m.1
  {
    EmptyIsTidy<V>(h, 256);
    RunRefines(h, Empty<V>(256), calls, limit);
  }
}
