// Tables that fill one stretch of slots, from slot 255 on and around the end. They show that what the
// other modules say of failing puts, nested rehashes and lost entries does happen.
module HashTableRows {
  import opened HashTable
  import opened HashTableLaws
  import opened HashTableLookups
  import opened Options

  // ---------- Rows ----------

  /** How far slot c is from slot 255, going up and around. */
  function Place(n: nat, c: nat): nat
    requires 256 <= n && c < n
  {
    if 255 <= c then c - 255 else c + n - 255
  }

  function SlotAt(n: nat, d: nat): (c: nat)
    requires 256 <= n && d < n
    ensures c < n && Place(n, c) == d
  {
    if 255 + d < n then 255 + d else 255 + d - n
  }

  /** The keys ks one after the other, the first one in slot 255. */
  function Row<V>(n: nat, ks: seq<Key>, v: V): (t: Table<V>)
    requires 256 <= n
    ensures |t.slots| == n && t.size == |ks|
    ensures forall c | 0 <= c < n ::
      t.slots[c] == if Place(n, c) < |ks| then Used(ks[Place(n, c)], v) else Free
  {
    Table(seq(n, c requires 0 <= c < n => if Place(n, c) < |ks| then Used(ks[Place(n, c)], v) else Free), |ks|)
  }

  /** The distance of k's home from slot 255 is off, 0 or 1. */
  predicate Home(h: Key -> nat, n: nat, k: Key, off: nat)
    requires 256 <= n
  {
    off <= 1 && h(k) % n == SlotAt(n, off)
  }

  ghost predicate Apart(ks: seq<Key>) {
    forall i, j | 0 <= i < j < |ks| :: ks[i] != ks[j]
  }

  lemma {:induction false} ProbeRow<V>(h: Key -> nat, n: nat, ks: seq<Key>, v: V, k: Key, off: nat, i: nat)
    requires 256 <= n && |ks| <= 9 && k !in ks && Home(h, n, k, off) && i <= 8 && i + off <= |ks|
    ensures Probe(h, Row(n, ks, v).slots, k, i) == if |ks| - off < 8 then Some(SlotAt(n, |ks|)) else None
    decreases 8 - i
  {
    if i < 8 {
      var c := Position(h, k, n, i);
      assert Place(n, c) == i + off;
      if i + off < |ks| { ProbeRow(h, n, ks, v, k, off, i + 1); }
    }
  }

  /** A new key goes to the end of the row, if that is within its reach. */
  lemma RowTakes<V>(h: Key -> nat, n: nat, ks: seq<Key>, v: V, k: Key, off: nat, limit: nat)
    requires 256 <= n && off <= |ks| <= 9 && k !in ks && Home(h, n, k, off)
    ensures |ks| - off < 8 ==> Put(h, Row(n, ks, v), k, v, limit) == Outcome(true, Row(n, ks + [k], v))
    ensures |ks| - off >= 8 ==> FindSlot(h, Row(n, ks, v), k) == None
  {
    ProbeRow(h, n, ks, v, k, off, 0);
    if |ks| - off < 8 {
      assert Store(Row(n, ks, v), SlotAt(n, |ks|), k, v).slots == Row(n, ks + [k], v).slots;
    }
  }

  /** The keys ks can follow the row `done` one by one. */
  ghost predicate Follow(h: Key -> nat, n: nat, done: seq<Key>, ks: seq<Key>)
    requires 256 <= n
    decreases |ks|
  {
    ks == [] ||
    (|done| <= 8 && ks[0] !in done
     && ((Home(h, n, ks[0], 0) && |done| < 8) || (Home(h, n, ks[0], 1) && 1 <= |done|))
     && Follow(h, n, done + [ks[0]], ks[1..]))
  }

  // ---------- Puts and rehashes in bulk ----------

  /** Puts of the entries es, until one fails. */
  function PutAll<V>(h: Key -> nat, t: Table<V>, es: seq<(Key, V)>, limit: nat): (r: Outcome<V>)
    requires 8 <= |t.slots|
    ensures |t.slots| <= |r.table.slots|
    decreases |es|
  {
    if es == [] then Outcome(true, t)
    else
      var r := Put(h, t, es[0].0, es[0].1, limit);
      if r.ok then PutAll(h, r.table, es[1..], limit) else r
  }

  function Pairs<V>(ks: seq<Key>, v: V): (es: seq<(Key, V)>)
    ensures |es| == |ks| && forall i | 0 <= i < |es| :: es[i] == (ks[i], v)
  {
    seq(|ks|, i requires 0 <= i < |ks| => (ks[i], v))
  }

  lemma PutAllStep<V>(h: Key -> nat, t: Table<V>, ks: seq<Key>, v: V, limit: nat)
    requires 8 <= |t.slots| && ks != []
    ensures var r := Put(h, t, ks[0], v, limit);
      PutAll(h, t, Pairs(ks, v), limit) == if r.ok then PutAll(h, r.table, Pairs(ks[1..], v), limit) else r
  {
    assert Pairs(ks, v)[1..] == Pairs(ks[1..], v);
  }

  lemma RowTakesNext<V>(h: Key -> nat, n: nat, done: seq<Key>, ks: seq<Key>, v: V, limit: nat)
    requires 256 <= n && ks != [] && Follow(h, n, done, ks)
    ensures Put(h, Row(n, done, v), ks[0], v, limit) == Outcome(true, Row(n, done + [ks[0]], v))
  {
    RowTakes(h, n, done, v, ks[0], if Home(h, n, ks[0], 0) && |done| < 8 then 0 else 1, limit);
  }

  lemma {:induction false} RowTakesAll<V>(h: Key -> nat, n: nat, done: seq<Key>, ks: seq<Key>, v: V, limit: nat)
    requires 256 <= n && Follow(h, n, done, ks)
    ensures PutAll(h, Row(n, done, v), Pairs(ks, v), limit) == Outcome(true, Row(n, done + ks, v))
    decreases |ks|
  {
    if ks == [] {
      assert done + ks == done;
    } else {
      PutAllStep(h, Row(n, done, v), ks, v, limit);
      RowTakesNext(h, n, done, ks, v, limit);
      RowTakesAll(h, n, done + [ks[0]], ks[1..], v, limit);
      Regrouped(done, ks);
    }
  }

  lemma Regrouped(done: seq<Key>, ks: seq<Key>)
    requires ks != []
    ensures done + [ks[0]] + ks[1..] == done + ks
  {}

  /** The loop of hashmap_rehash puts the entries in slot order. */
  lemma {:induction false} ReinsertIsPutAll<V>(h: Key -> nat, cur: Table<V>, prior: seq<Slot<V>>, i: nat, limit: nat)
    requires 8 <= |cur.slots| && i <= |prior|
    ensures Reinsert(h, cur, prior, i, limit) == PutAll(h, cur, Entries(prior[i..]), limit)
    decreases |prior| - i
  {
    if i < |prior| {
      assert prior[i..][0] == prior[i] && prior[i..][1..] == prior[i + 1..];
      if prior[i].Free? {
        assert Entries(prior[i..]) == Entries(prior[i + 1..]);
        ReinsertIsPutAll(h, cur, prior, i + 1, limit);
      } else {
        var e := (prior[i].key, prior[i].data);
        assert Entries(prior[i..]) == [e] + Entries(prior[i + 1..]);
        assert Entries(prior[i..])[1..] == Entries(prior[i + 1..]);
        var r := Put(h, cur, e.0, e.1, limit);
        if r.ok { ReinsertIsPutAll(h, r.table, prior, i + 1, limit); }
      }
    }
  }

  lemma EntriesOfFirst<V>(s: Slot<V>, rest: seq<Slot<V>>)
    ensures Entries([s] + rest) == (if s.Used? then [(s.key, s.data)] else []) + Entries(rest)
  {
    assert ([s] + rest)[1..] == rest;
  }

  lemma {:induction false} EntriesOfParts<V>(a: seq<Slot<V>>, b: seq<Slot<V>>)
    ensures Entries(a + b) == Entries(a) + Entries(b)
  {
    if a == [] {
      assert a + b == b;
    } else {
      var s, rest := a[0], a[1..];
      assert a == [s] + rest && a + b == [s] + (rest + b);
      EntriesOfFirst(s, rest);
      EntriesOfFirst(s, rest + b);
      EntriesOfParts(rest, b);
    }
  }

  lemma {:induction false} EntriesOfFree<V>(a: seq<Slot<V>>)
    requires forall c | 0 <= c < |a| :: a[c].Free?
    ensures Entries(a) == []
  {
    if a != [] { EntriesOfFree(a[1..]); }
  }

  lemma {:induction false} EntriesOfUsed<V>(a: seq<Slot<V>>, ks: seq<Key>, v: V)
    requires |a| == |ks| && forall c | 0 <= c < |a| :: a[c] == Used(ks[c], v)
    ensures Entries(a) == Pairs(ks, v)
  {
    if a != [] {
      EntriesOfUsed(a[1..], ks[1..], v);
      assert Pairs(ks, v) == [(ks[0], v)] + Pairs(ks[1..], v);
    }
  }

  /** The order in which the loop of hashmap_rehash meets a row: at 256 slots the first key comes last. */
  function Order(n: nat, ks: seq<Key>): seq<Key>
    requires ks != []
  {
    if n == 256 then ks[1..] + [ks[0]] else ks
  }

  lemma EntriesOfStretch<V>(free: seq<Slot<V>>, used: seq<Slot<V>>, after: seq<Slot<V>>, ks: seq<Key>, v: V)
    requires (forall c | 0 <= c < |free| :: free[c].Free?) && (forall c | 0 <= c < |after| :: after[c].Free?)
    requires |used| == |ks| && forall c | 0 <= c < |used| :: used[c] == Used(ks[c], v)
    ensures Entries(free + (used + after)) == Pairs(ks, v)
  {
    EntriesOfParts(free, used + after);
    EntriesOfParts(used, after);
    EntriesOfFree(free);
    EntriesOfUsed(used, ks, v);
    EntriesOfFree(after);
  }

  /** A row cut into the slots before i, from i to j, and from j on. */
  lemma RowParts<V>(n: nat, ks: seq<Key>, v: V, i: nat, j: nat)
    requires 256 <= n && i <= j <= n
    ensures var slots := Row(n, ks, v).slots;
      slots == slots[..i] + (slots[i..j] + slots[j..])
  {}

  lemma EntriesOfLaterRow<V>(n: nat, ks: seq<Key>, v: V)
    requires 512 <= n && |ks| <= 9
    ensures Entries(Row(n, ks, v).slots) == Pairs(ks, v)
  {
    var slots, j := Row(n, ks, v).slots, 255 + |ks|;
    RowParts(n, ks, v, 255, j);
    EntriesOfStretch(slots[..255], slots[255..j], slots[j..], ks, v);
  }

  lemma EntriesOfFirstRow<V>(ks: seq<Key>, v: V)
    requires 1 <= |ks| <= 9
    ensures Entries(Row(256, ks, v).slots) == Pairs(ks[1..] + [ks[0]], v)
  {
    var slots, m := Row(256, ks, v).slots, |ks| - 1;
    RowParts(256, ks, v, m, 255);
    EntriesOfParts(slots[..m], slots[m..255] + slots[255..]);
    EntriesOfUsed(slots[..m], ks[1..], v);
    EntriesOfStretch(slots[m..255], slots[255..], [], [ks[0]], v);
    assert slots[255..] + [] == slots[255..];
    assert Pairs(ks[1..] + [ks[0]], v) == Pairs(ks[1..], v) + Pairs([ks[0]], v);
  }

  /** A rehash of a row is puts in that order into the doubled table. */
  lemma RehashOfRow<V>(h: Key -> nat, n: nat, ks: seq<Key>, v: V, limit: nat)
    requires (n == 256 || 512 <= n) && 1 <= |ks| <= 9 && 2 * n <= limit
    ensures Rehash(h, Row(n, ks, v), limit) == PutAll(h, Row(2 * n, [], v), Pairs(Order(n, ks), v), limit)
  {
    var slots := Row(n, ks, v).slots;
    assert Row(2 * n, [], v) == Empty(2 * n) by {
      assert Row(2 * n, [], v).slots == Empty<V>(2 * n).slots;
    }
    assert slots[0..] == slots;
    ReinsertIsPutAll(h, Empty<V>(2 * n), slots, 0, limit);
    if n == 256 { EntriesOfFirstRow(ks, v); } else { EntriesOfLaterRow(n, ks, v); }
  }

  function KeySet(ks: seq<Key>): set<Key> { set k | k in ks }

  ghost predicate TidyRow<V>(h: Key -> nat, n: nat, ks: seq<Key>, v: V)
    requires 256 <= n
  {
    Tidy(h, Row(n, ks, v)) && Contents(Row(n, ks, v).slots).Keys == KeySet(ks)
  }

  lemma RowStaysTidy<V>(h: Key -> nat, n: nat, ks: seq<Key>, v: V, k: Key)
    requires 256 <= n && TidyRow(h, n, ks, v) && Follow(h, n, ks, [k])
    ensures TidyRow(h, n, ks + [k], v)
  {
    RowTakesNext(h, n, ks, [k], v, 0);
    PutIsInsert(h, Row(n, ks, v), k, v, 0);
    assert KeySet(ks + [k]) == KeySet(ks) + {k};
  }

  lemma {:induction false} RowGrowsTidy<V>(h: Key -> nat, n: nat, done: seq<Key>, ks: seq<Key>, v: V)
    requires 256 <= n && Follow(h, n, done, ks) && TidyRow(h, n, done, v)
    ensures TidyRow(h, n, done + ks, v)
    decreases |ks|
  {
    if ks == [] {
      assert done + ks == done;
    } else {
      RowStaysTidy(h, n, done, v, ks[0]);
      RowGrowsTidy(h, n, done + [ks[0]], ks[1..], v);
      Regrouped(done, ks);
    }
  }

  /** Puts of the keys in order into an empty table make the row. */
  lemma RowFromEmpty<V>(h: Key -> nat, n: nat, ks: seq<Key>, v: V, limit: nat)
    requires 256 <= n && Follow(h, n, [], ks)
    ensures PutAll(h, Empty<V>(n), Pairs(ks, v), limit) == Outcome(true, Row(n, ks, v))
    ensures TidyRow(h, n, ks, v)
  {
    assert Row(n, [], v) == Empty(n) by {
      assert Row(n, [], v).slots == Empty<V>(n).slots;
    }
    EmptyIsTidy<V>(h, n);
    RowTakesAll(h, n, [], ks, v, limit);
    assert [] + ks == ks;
    RowGrowsTidy(h, n, [], ks, v);
  }
}
