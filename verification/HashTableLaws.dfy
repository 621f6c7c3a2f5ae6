// hashmap.c against a plain map.
module HashTableLaws {
  import opened HashTable
  import opened Options

  // ---------- The map a slot array stands for ----------

  ghost function Contents<V>(slots: seq<Slot<V>>): map<Key, V> {
    if slots == [] then map[]
    else if slots[0].Used? then Contents(slots[1..])[slots[0].key := slots[0].data]
    else Contents(slots[1..])
  }

  /** The number of slots in use. */
  function Occupied<V>(slots: seq<Slot<V>>): nat {
    if slots == [] then 0 else (if slots[0].Used? then 1 else 0) + Occupied(slots[1..])
  }

  /** No key is in two slots. */
  ghost predicate Distinct<V>(slots: seq<Slot<V>>) {
    forall c, d | 0 <= c < d < |slots| :: slots[c].Used? && slots[d].Used? ==> slots[c].key != slots[d].key
  }

  /** Every key is on its own chain. */
  ghost predicate Near<V>(h: Key -> nat, slots: seq<Slot<V>>) {
    forall c | 0 <= c < |slots| :: slots[c].Used? ==> Offset(h, slots[c].key, |slots|, c) < 8
  }

  /** The tables met when only absent keys are put. */
  ghost predicate Tidy<V>(h: Key -> nat, t: Table<V>) {
    && 8 <= |t.slots|
    && Distinct(t.slots) && Near(h, t.slots)
    && t.size == Occupied(t.slots) <= |t.slots| / 2
  }

  lemma {:induction false} ContentsIn<V>(slots: seq<Slot<V>>, c: nat)
    requires c < |slots| && slots[c].Used?
    ensures slots[c].key in Contents(slots)
    ensures Distinct(slots) ==> Contents(slots)[slots[c].key] == slots[c].data
  {
    if c > 0 {
      ContentsIn(slots[1..], c - 1);
      assert slots[1..][c - 1] == slots[c];
    }
  }

  lemma {:induction false} ContentsFrom<V>(slots: seq<Slot<V>>, k: Key) returns (c: nat)
    requires k in Contents(slots)
    ensures c < |slots| && slots[c] == Used(k, Contents(slots)[k])
  {
    if slots[0].Used? && slots[0].key == k {
      c := 0;
    } else {
      var d := ContentsFrom(slots[1..], k);
      c := d + 1;
    }
  }

  lemma {:induction false} OccupiedUpdate<V>(slots: seq<Slot<V>>, c: nat, s: Slot<V>)
    requires c < |slots|
    ensures Occupied(slots[c := s]) + (if slots[c].Used? then 1 else 0) == Occupied(slots) + (if s.Used? then 1 else 0)
  {
    if c == 0 {
      assert slots[0 := s][1..] == slots[1..];
    } else {
      assert slots[c := s][1..] == slots[1..][c - 1 := s];
      OccupiedUpdate(slots[1..], c - 1, s);
    }
  }

  lemma ContentsStore<V>(slots: seq<Slot<V>>, c: nat, k: Key, v: V)
    requires Distinct(slots) && c < |slots| && slots[c].Free? && k !in Contents(slots)
    ensures Distinct(slots[c := Used(k, v)])
    ensures Contents(slots[c := Used(k, v)]) == Contents(slots)[k := v]
  {
    var slots' := slots[c := Used(k, v)];
    forall d | 0 <= d < |slots| && slots[d].Used? ensures slots[d].key in Contents(slots) { ContentsIn(slots, d); }
    assert Distinct(slots');
    var m, m' := Contents(slots)[k := v], Contents(slots');
    forall x | x in m ensures x in m' && m'[x] == m[x] {
      if x == k {
        ContentsIn(slots', c);
      } else {
        var d := ContentsFrom(slots, x);
        ContentsIn(slots', d);
      }
    }
    forall x | x in m' ensures x in m {
      var d := ContentsFrom(slots', x);
      if d != c { ContentsIn(slots, d); }
    }
  }

  lemma ContentsClear<V>(slots: seq<Slot<V>>, c: nat)
    requires Distinct(slots) && c < |slots| && slots[c].Used?
    ensures Distinct(slots[c := Free])
    ensures Contents(slots[c := Free]) == Contents(slots) - {slots[c].key}
  {
    var slots' := slots[c := Free];
    var m, m' := Contents(slots) - {slots[c].key}, Contents(slots');
    forall x | x in m ensures x in m' && m'[x] == m[x] {
      var d := ContentsFrom(slots, x);
      ContentsIn(slots', d);
    }
    forall x | x in m' ensures x in m {
      var d := ContentsFrom(slots', x);
      ContentsIn(slots, d);
    }
  }

  lemma {:induction false} EmptyContents<V>(slots: seq<Slot<V>>)
    requires forall c | 0 <= c < |slots| :: slots[c].Free?
    ensures Contents(slots) == map[] && Occupied(slots) == 0
  {
    if slots != [] { EmptyContents(slots[1..]); }
  }

  lemma EmptyIsTidy<V>(h: Key -> nat, n: nat)
    requires 8 <= n
    ensures Tidy(h, Empty<V>(n)) && Contents(Empty<V>(n).slots) == map[]
  {
    EmptyContents(Empty<V>(n).slots);
  }

  // ---------- get and remove ----------

  lemma OffsetPosition(h: Key -> nat, k: Key, n: nat, i: nat, c: nat)
    requires i < 8 <= n && c < n
    ensures Position(h, k, n, i) == c <==> Offset(h, k, n, c) == i
  {}

  /** On a tidy table hashmap_get is lookup in the map. */
  lemma GetIsLookup<V>(h: Key -> nat, t: Table<V>, k: Key)
    requires Tidy(h, t)
    ensures Get(h, t, k) == if k in Contents(t.slots) then Some(Contents(t.slots)[k]) else None
  {
    var c := Search(h, t.slots, k, 0);
    if c.Some? { ContentsIn(t.slots, c.value); }
    if k in Contents(t.slots) {
      var d := ContentsFrom(t.slots, k);
      var i := Offset(h, k, |t.slots|, d);
      OffsetPosition(h, k, |t.slots|, i, d);
      SearchMisses(h, t.slots, k, 0);
    }
  }

  /** hashmap_remove deletes the key, in the middle of a chain or not, and the table stays tidy. */
  lemma RemoveIsDelete<V>(h: Key -> nat, t: Table<V>, k: Key)
    requires Tidy(h, t)
    ensures var r := Remove(h, t, k);
      && (r.ok <==> k in Contents(t.slots))
      && Tidy(h, r.table) && Contents(r.table.slots) == Contents(t.slots) - {k}
      && |r.table.slots| == |t.slots|
  {
    GetIsLookup(h, t, k);
    var c := Search(h, t.slots, k, 0);
    if c.Some? {
      ContentsClear(t.slots, c.value);
      OccupiedUpdate(t.slots, c.value, Free);
    }
  }

  // ---------- put and rehash ----------

  lemma StoreTidy<V>(h: Key -> nat, t: Table<V>, k: Key, v: V)
    requires Tidy(h, t) && k !in Contents(t.slots) && FindSlot(h, t, k).Some?
    ensures var r := Store(t, FindSlot(h, t, k).value, k, v);
      Tidy(h, r) && Contents(r.slots) == Contents(t.slots)[k := v] && t.slots[FindSlot(h, t, k).value].Free?
  {
    var c := FindSlot(h, t, k).value;
    ProbeFinds(h, t.slots, k, 0);
    if t.slots[c].Used? { ContentsIn(t.slots, c); }
    ContentsStore(t.slots, c, k, v);
    OccupiedUpdate(t.slots, c, Used(k, v));
    assert forall d | 0 <= d < |t.slots| && d != c :: t.slots[c := Used(k, v)][d] == t.slots[d];
  }

  /** hashmap_put of an absent key: the map gains the pair, through however many nested rehashes. */
  lemma {:induction false} PutIsInsert<V>(h: Key -> nat, t: Table<V>, k: Key, v: V, limit: nat)
    requires Tidy(h, t) && k !in Contents(t.slots)
    ensures var r := Put(h, t, k, v, limit);
      r.ok ==> Tidy(h, r.table) && Contents(r.table.slots) == Contents(t.slots)[k := v]
    decreases Room(limit, |t.slots|), 1, 0
  {
    if FindSlot(h, t, k).Some? {
      StoreTidy(h, t, k, v);
    } else {
      RehashKeepsContents(h, t, limit);
      var r := Rehash(h, t, limit);
      if r.ok { PutIsInsert(h, r.table, k, v, limit); }
    }
  }

  /** hashmap_rehash keeps the map, and leaves a tidy table, whatever the size field said before. */
  lemma {:induction false} RehashKeepsContents<V>(h: Key -> nat, t: Table<V>, limit: nat)
    requires 8 <= |t.slots| && Distinct(t.slots)
    ensures var r := Rehash(h, t, limit);
      r.ok ==> Tidy(h, r.table) && Contents(r.table.slots) == Contents(t.slots)
    decreases Room(limit, |t.slots|), 0, 0
  {
    if 2 * |t.slots| <= limit {
      var doubled := Empty<V>(2 * |t.slots|);
      EmptyIsTidy<V>(h, 2 * |t.slots|);
      assert t.slots[0..] == t.slots;
      ReinsertAddsAll(h, doubled, t.slots, 0, limit);
      assert map[] + Contents(t.slots) == Contents(t.slots);
    }
  }

  lemma {:induction false} ReinsertAddsAll<V>(h: Key -> nat, cur: Table<V>, prior: seq<Slot<V>>, i: nat, limit: nat)
    requires Tidy(h, cur) && i <= |prior| && Distinct(prior)
    requires Contents(cur.slots).Keys !! Contents(prior[i..]).Keys
    ensures var r := Reinsert(h, cur, prior, i, limit);
      r.ok ==> Tidy(h, r.table) && Contents(r.table.slots) == Contents(cur.slots) + Contents(prior[i..])
    decreases Room(limit, |cur.slots|), 2, |prior| - i
  {
    if i < |prior| {
      assert prior[i..][1..] == prior[i + 1..] && prior[i..][0] == prior[i];
      if prior[i].Free? {
        ReinsertAddsAll(h, cur, prior, i + 1, limit);
      } else {
        var k, v := prior[i].key, prior[i].data;
        assert k in Contents(prior[i..]);
        PutIsInsert(h, cur, k, v, limit);
        var r := Put(h, cur, k, v, limit);
        if r.ok {
          if k in Contents(prior[i + 1..]) { var d := ContentsFrom(prior[i + 1..], k); }
          ReinsertAddsAll(h, r.table, prior, i + 1, limit);
          assert Contents(cur.slots)[k := v] + Contents(prior[i + 1..]) == Contents(cur.slots) + Contents(prior[i..]);
        }
      }
    }
  }
}
