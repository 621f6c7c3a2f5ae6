// When hashmap_put succeeds, and how far the table grows.
module HashTableBounds {
  import opened HashTable
  import opened HashTableLaws
  import opened Sets

  // ---------- size counts the entries ----------

  lemma {:induction false} ContentsOut<V>(slots: seq<Slot<V>>, k: Key)
    requires forall c | 0 <= c < |slots| :: slots[c].Used? ==> slots[c].key != k
    ensures k !in Contents(slots)
  {
    if slots != [] { ContentsOut(slots[1..], k); }
  }

  /** On a table without duplicate keys the slots in use are as many as the keys. */
  lemma {:induction false} OccupiedIsCardinality<V>(slots: seq<Slot<V>>)
    requires Distinct(slots)
    ensures Occupied(slots) == |Contents(slots)|
  {
    if slots != [] {
      OccupiedIsCardinality(slots[1..]);
      if slots[0].Used? { ContentsOut(slots[1..], slots[0].key); }
    }
  }

  // ---------- How the keys' homes are spread ----------

  /** The home slots of a and b are at most seven apart on a circle of n slots. */
  ghost predicate Close(h: Key -> nat, a: Key, b: Key, n: nat)
    requires n > 0
  {
    var gap := h(a) % n - h(b) % n;
    -7 <= gap <= 7 || n - 7 <= gap || gap <= 7 - n
  }

  ghost function Rivals(h: Key -> nat, keys: set<Key>, k: Key, n: nat): set<Key>
    requires n > 0
  {
    set x | x in keys && x != k && Close(h, k, x, n)
  }

  /** A table of n slots is at most half full of `keys`, and no key has eight rivals. */
  ghost predicate Spread(h: Key -> nat, keys: set<Key>, n: nat) {
    8 <= n && 2 * |keys| <= n && forall k | k in keys :: |Rivals(h, keys, k, n)| < 8
  }

  lemma AtLeastOnce(n: nat, m: int)
    ensures m >= 1 ==> n * m >= n
    ensures m <= -1 ==> n * m + n <= 0
  {
    if m >= 1 { assert n * m == n + n * (m - 1); }
    if m <= -1 { assert n * m == n * (m + 1) - n; }
  }

  lemma RemainderUnique(x: int, n: nat, q: int, r: nat)
    requires n > 0 && x == n * q + r && r < n
    ensures x % n == r
  {
    var p, s := x / n, x % n;
    assert x == n * p + s;
    assert n * (q - p) == n * q - n * p;
    AtLeastOnce(n, q - p);
  }

  /** The home slot after halving a table. */
  lemma HalfHome(x: nat, n: nat)
    requires n > 0
    ensures x % n == if x % (2 * n) < n then x % (2 * n) else x % (2 * n) - n
  {
    var q, r := x / (2 * n), x % (2 * n);
    assert x == 2 * n * q + r == n * (2 * q) + r;
    if r < n {
      RemainderUnique(x, n, 2 * q, r);
    } else {
      assert n * (2 * q + 1) == n * (2 * q) + n;
      RemainderUnique(x, n, 2 * q + 1, r - n);
    }
  }

  /** Doubling the table never brings two keys closer. */
  lemma SpreadDoubles(h: Key -> nat, keys: set<Key>, n: nat)
    requires Spread(h, keys, n)
    ensures Spread(h, keys, 2 * n)
  {
    forall k | k in keys ensures |Rivals(h, keys, k, 2 * n)| < 8 {
      forall x | x in Rivals(h, keys, k, 2 * n) ensures x in Rivals(h, keys, k, n) {
        HalfHome(h(k), n);
        HalfHome(h(x), n);
      }
      SubsetSize(Rivals(h, keys, k, 2 * n), Rivals(h, keys, k, n));
    }
  }

  // ---------- A full window needs eight rivals ----------

  lemma WindowIsClose(h: Key -> nat, k: Key, x: Key, n: nat, i: nat)
    requires i < 8 <= n && Offset(h, x, n, Position(h, k, n, i)) < 8
    ensures Close(h, k, x, n)
  {}

  ghost function Window<V>(h: Key -> nat, slots: seq<Slot<V>>, k: Key, i: nat): set<Key>
    requires i <= 8 <= |slots|
  {
    if i == 0 then {}
    else
      var s := slots[Position(h, k, |slots|, i - 1)];
      Window(h, slots, k, i - 1) + (if s.Used? then {s.key} else {})
  }

  lemma {:induction false} WindowExcludes<V>(h: Key -> nat, slots: seq<Slot<V>>, k: Key, i: nat, x: Key)
    requires i <= 8 <= |slots|
    requires forall j | 0 <= j < i :: slots[Position(h, k, |slots|, j)].Used? ==> slots[Position(h, k, |slots|, j)].key != x
    ensures x !in Window(h, slots, k, i)
  {
    if i > 0 { WindowExcludes(h, slots, k, i - 1, x); }
  }

  lemma {:induction false} WindowMember<V>(h: Key -> nat, slots: seq<Slot<V>>, k: Key, i: nat, x: Key) returns (j: nat)
    requires i <= 8 <= |slots| && x in Window(h, slots, k, i)
    ensures j < i && slots[Position(h, k, |slots|, j)].Used? && slots[Position(h, k, |slots|, j)].key == x
  {
    var s := slots[Position(h, k, |slots|, i - 1)];
    if s.Used? && s.key == x { j := i - 1; } else { j := WindowMember(h, slots, k, i - 1, x); }
  }

  lemma PositionsDiffer(h: Key -> nat, k: Key, n: nat, i: nat, j: nat)
    requires i < j <= 8 <= n && j < n
    ensures Position(h, k, n, i) != Position(h, k, n, j)
  {}

  /** The pigeonhole: the first i slots of a full chain hold i different keys. */
  lemma {:induction false} WindowSize<V>(h: Key -> nat, slots: seq<Slot<V>>, k: Key, i: nat)
    requires i <= 8 <= |slots| && Distinct(slots)
    requires forall j | 0 <= j < 8 :: slots[Position(h, k, |slots|, j)].Used?
    ensures |Window(h, slots, k, i)| == i
  {
    if i > 0 {
      WindowSize(h, slots, k, i - 1);
      var x := slots[Position(h, k, |slots|, i - 1)].key;
      forall j | 0 <= j < i - 1 ensures slots[Position(h, k, |slots|, j)].key != x {
        PositionsDiffer(h, k, |slots|, j, i - 1);
      }
      WindowExcludes(h, slots, k, i - 1, x);
    }
  }

  /** On a spread capacity there is always room on the chain. */
  lemma SpreadHasRoom<V>(h: Key -> nat, t: Table<V>, k: Key, keys: set<Key>)
    requires Tidy(h, t) && Contents(t.slots).Keys <= keys && k in keys && k !in Contents(t.slots)
    requires Spread(h, keys, |t.slots|)
    ensures FindSlot(h, t, k).Some?
  {
    OccupiedIsCardinality(t.slots);
    SubsetSize(Contents(t.slots).Keys + {k}, keys);
    if Probe(h, t.slots, k, 0).None? {
      ProbeFinds(h, t.slots, k, 0);
      WindowSize(h, t.slots, k, 8);
      forall x | x in Window(h, t.slots, k, 8) ensures x in Rivals(h, keys, k, |t.slots|) {
        var j := WindowMember(h, t.slots, k, 8, x);
        var c := Position(h, k, |t.slots|, j);
        ContentsIn(t.slots, c);
        WindowIsClose(h, k, x, |t.slots|, j);
      }
      SubsetSize(Window(h, t.slots, k, 8), Rivals(h, keys, k, |t.slots|));
      assert false;
    }
  }

  // ---------- put ends with a bounded table ----------

  /** goal is reached from n by doubling. */
  ghost predicate DoublesTo(n: nat, goal: nat)
    decreases goal - n
  {
    n == goal || (0 < n < goal && DoublesTo(2 * n, goal))
  }

  lemma {:induction false} PutReaches<V>(h: Key -> nat, t: Table<V>, k: Key, v: V, limit: nat, keys: set<Key>, goal: nat)
    requires Tidy(h, t) && Contents(t.slots).Keys <= keys && k in keys && k !in Contents(t.slots)
    requires Spread(h, keys, goal) && DoublesTo(|t.slots|, goal) && goal <= limit
    ensures Put(h, t, k, v, limit).ok && DoublesTo(|Put(h, t, k, v, limit).table.slots|, goal)
    decreases Room(limit, |t.slots|), 1, 0
  {
    if FindSlot(h, t, k).None? {
      if |t.slots| == goal { SpreadHasRoom(h, t, k, keys); }
      RehashReaches(h, t, limit, keys, goal);
      RehashKeepsContents(h, t, limit);
      PutReaches(h, Rehash(h, t, limit).table, k, v, limit, keys, goal);
    }
  }

  lemma {:induction false} RehashReaches<V>(h: Key -> nat, t: Table<V>, limit: nat, keys: set<Key>, goal: nat)
    requires 8 <= |t.slots| < goal && Distinct(t.slots) && Contents(t.slots).Keys <= keys
    requires Spread(h, keys, goal) && DoublesTo(|t.slots|, goal) && goal <= limit
    ensures Rehash(h, t, limit).ok && DoublesTo(|Rehash(h, t, limit).table.slots|, goal)
    decreases Room(limit, |t.slots|), 0, 0
  {
    DoublesToBound(2 * |t.slots|, goal);
    EmptyIsTidy<V>(h, 2 * |t.slots|);
    assert t.slots[0..] == t.slots;
    ReinsertReaches(h, Empty(2 * |t.slots|), t.slots, 0, limit, keys, goal);
  }

  lemma {:induction false} ReinsertReaches<V>(h: Key -> nat, cur: Table<V>, prior: seq<Slot<V>>, i: nat, limit: nat,
                                              keys: set<Key>, goal: nat)
    requires Tidy(h, cur) && i <= |prior| && Distinct(prior)
    requires Contents(cur.slots).Keys !! Contents(prior[i..]).Keys
    requires Contents(cur.slots).Keys + Contents(prior[i..]).Keys <= keys
    requires Spread(h, keys, goal) && DoublesTo(|cur.slots|, goal) && goal <= limit
    ensures Reinsert(h, cur, prior, i, limit).ok && DoublesTo(|Reinsert(h, cur, prior, i, limit).table.slots|, goal)
    decreases Room(limit, |cur.slots|), 2, |prior| - i
  {
    if i < |prior| {
      assert prior[i..][1..] == prior[i + 1..] && prior[i..][0] == prior[i];
      if prior[i].Free? {
        ReinsertReaches(h, cur, prior, i + 1, limit, keys, goal);
      } else {
        var k, v := prior[i].key, prior[i].data;
        assert k in Contents(prior[i..]);
        PutIsInsert(h, cur, k, v, limit);
        PutReaches(h, cur, k, v, limit, keys, goal);
        if k in Contents(prior[i + 1..]) { var d := ContentsFrom(prior[i + 1..], k); }
        ReinsertReaches(h, Put(h, cur, k, v, limit).table, prior, i + 1, limit, keys, goal);
      }
    }
  }

  lemma {:induction false} DoublesToBound(n: nat, goal: nat)
    requires DoublesTo(n, goal)
    ensures n <= goal
    decreases goal - n
  {}

  lemma {:induction false} SpreadAbove(h: Key -> nat, keys: set<Key>, goal: nat, n: nat)
    requires Spread(h, keys, goal) && DoublesTo(goal, n)
    ensures Spread(h, keys, n)
    decreases n - goal
  {
    if goal < n {
      SpreadDoubles(h, keys, goal);
      SpreadAbove(h, keys, 2 * goal, n);
    }
  }

  /** If some capacity on the doubling chain spreads the live keys and the new one, and memory allows it,
      then put and all the rehashes it starts end in MAP_OK, with a table no larger than that capacity or
      the current one. */
  lemma PutEndsBounded<V>(h: Key -> nat, t: Table<V>, k: Key, v: V, limit: nat, goal: nat)
    requires Tidy(h, t) && k !in Contents(t.slots)
    requires Spread(h, Contents(t.slots).Keys + {k}, goal) && goal <= limit
    requires DoublesTo(|t.slots|, goal) || DoublesTo(goal, |t.slots|)
    ensures var r := Put(h, t, k, v, limit);
      && r.ok && Tidy(h, r.table) && Contents(r.table.slots) == Contents(t.slots)[k := v]
      && |r.table.slots| <= if |t.slots| < goal then goal else |t.slots|
  {
    var keys := Contents(t.slots).Keys + {k};
    PutIsInsert(h, t, k, v, limit);
    if DoublesTo(|t.slots|, goal) {
      PutReaches(h, t, k, v, limit, keys, goal);
      DoublesToBound(|Put(h, t, k, v, limit).table.slots|, goal);
    } else {
      SpreadAbove(h, keys, goal, |t.slots|);
      SpreadHasRoom(h, t, k, keys);
      DoublesToBound(goal, |t.slots|);
    }
  }

  // ---------- and where it cannot end ----------

  lemma {:induction false} InjectionSize<T(!new)>(s: set<T>, f: T -> nat, t: set<nat>)
    requires forall x | x in s :: f(x) in t
    requires forall x, y | x in s && y in s && f(x) == f(y) :: x == y
    ensures |s| <= |t|
  {
    if s != {} {
      var x :| x in s;
      InjectionSize(s - {x}, f, t - {f(x)});
    }
  }

  /** The w slots from the home of the hash value a on, around the end of a table of n slots. */
  ghost function Arc(a: nat, w: nat, n: nat): (arc: set<nat>)
    requires n > 0
    ensures |arc| <= w
  {
    if w == 0 then {} else Arc(a, w - 1, n) + {(a + w - 1) % n}
  }

  lemma {:induction false} InArc(a: nat, w: nat, n: nat, j: nat)
    requires n > 0 && j < w
    ensures (a + j) % n in Arc(a, w, n)
  {
    if j < w - 1 { InArc(a, w - 1, n, j); }
  }

  lemma OffsetIsRemainder(h: Key -> nat, k: Key, n: nat, c: nat)
    requires c < n
    ensures (h(k) + Offset(h, k, n, c)) % n == c
  {
    var q, home, d := h(k) / n, h(k) % n, Offset(h, k, n, c);
    assert h(k) == n * q + home;
    if home <= c {
      RemainderUnique(h(k) + d, n, q, c);
    } else {
      assert n * (q + 1) == n * q + n;
      RemainderUnique(h(k) + d, n, q + 1, c);
    }
  }

  lemma {:induction false} FromArc(a: nat, w: nat, n: nat, c: nat) returns (j: nat)
    requires n > 0 && c in Arc(a, w, n)
    ensures j < w && (a + j) % n == c
  {
    if c == (a + w - 1) % n { j := w - 1; } else { j := FromArc(a, w - 1, n, c); }
  }

  /** The keys whose home in a table of n slots is one of the w slots from that of the hash value a on. */
  ghost function CrowdAt(h: Key -> nat, keys: set<Key>, n: nat, a: nat, w: nat): set<Key>
    requires n > 0
  {
    set k | k in keys && h(k) % n in Arc(a, w, n)
  }

  /** The keys whose hash is one of the w values from a on: they crowd every table. */
  ghost function Crowd(h: Key -> nat, keys: set<Key>, a: nat, w: nat): set<Key> {
    set k | k in keys && a <= h(k) < a + w
  }

  lemma CrowdIsAt(h: Key -> nat, keys: set<Key>, n: nat, a: nat, w: nat)
    requires n > 0
    ensures |Crowd(h, keys, a, w)| <= |CrowdAt(h, keys, n, a, w)|
  {
    forall k | k in Crowd(h, keys, a, w) ensures k in CrowdAt(h, keys, n, a, w) { InArc(a, w, n, h(k) - a); }
    SubsetSize(Crowd(h, keys, a, w), CrowdAt(h, keys, n, a, w));
  }

  ghost function SlotOf<V>(slots: seq<Slot<V>>, k: Key): (c: nat)
    requires k in Contents(slots)
    ensures c < |slots| && slots[c].Used? && slots[c].key == k
  {
    if slots[0].Used? && slots[0].key == k then 0 else 1 + SlotOf(slots[1..], k)
  }

  lemma Shifted(a: nat, j: nat, d: nat, x: nat, n: nat)
    requires n > 0 && (a + j) % n == x % n
    ensures (a + j + d) % n == (x + d) % n
  {
    var p, q := (a + j) / n, x / n;
    assert a + j == n * p + x % n && x == n * q + x % n;
    var y, r := (x + d) / n, (x + d) % n;
    assert x + d == n * y + r;
    assert n * (y + p - q) == n * y + n * p - n * q;
    assert a + j + d == n * (y + p - q) + r;
    RemainderUnique(a + j + d, n, y + p - q, r);
  }

  /** In a tidy table the keys whose homes are w adjacent slots stand in w + 7 slots, so there are no more of them. */
  lemma CrowdFits<V>(h: Key -> nat, t: Table<V>, a: nat, w: nat)
    requires Tidy(h, t)
    ensures |CrowdAt(h, Contents(t.slots).Keys, |t.slots|, a, w)| <= w + 7
  {
    var n := |t.slots|;
    var crowd := CrowdAt(h, Contents(t.slots).Keys, n, a, w);
    var f := (k: Key) => if k in Contents(t.slots) then SlotOf(t.slots, k) else 0;
    forall k | k in crowd ensures f(k) in Arc(a, w + 7, n) {
      var j := FromArc(a, w, n, h(k) % n);
      var d := Offset(h, k, n, f(k));
      OffsetIsRemainder(h, k, n, f(k));
      Shifted(a, j, d, h(k), n);
      InArc(a, w + 7, n, j + d);
    }
    InjectionSize(crowd, f, Arc(a, w + 7, n));
  }

  /**
   * What a put that succeeds needs: of the keys, the new one included, no more than w + 7 have their
   * homes in w adjacent slots of the table it ends with, nor their hashes among w adjacent values.
   */
  lemma PutNeedsRoom<V>(h: Key -> nat, t: Table<V>, k: Key, v: V, limit: nat, a: nat, w: nat)
    requires Tidy(h, t) && k !in Contents(t.slots) && Put(h, t, k, v, limit).ok
    ensures var keys, n := Contents(t.slots).Keys + {k}, |Put(h, t, k, v, limit).table.slots|;
      |Crowd(h, keys, a, w)| <= |CrowdAt(h, keys, n, a, w)| <= w + 7
  {
    var r := Put(h, t, k, v, limit).table;
    PutIsInsert(h, t, k, v, limit);
    CrowdFits(h, r, a, w);
    assert Contents(t.slots)[k := v].Keys == Contents(t.slots).Keys + {k};
    CrowdIsAt(h, Contents(t.slots).Keys + {k}, |r.slots|, a, w);
  }

  /** A crowd of more keys never gets into a table: put fails at every limit, having doubled the table up to it. */
  lemma CrowdNeverFits<V>(h: Key -> nat, t: Table<V>, k: Key, v: V, limit: nat, a: nat, w: nat)
    requires Tidy(h, t) && k !in Contents(t.slots)
    requires |Crowd(h, Contents(t.slots).Keys + {k}, a, w)| > w + 7
    ensures !Put(h, t, k, v, limit).ok
  {
    if Put(h, t, k, v, limit).ok { PutNeedsRoom(h, t, k, v, limit, a, w); }
  }

  /** The narrowest crowd: nine keys with one hash value. */
  lemma NinthCollisionNeverFits<V>(h: Key -> nat, t: Table<V>, k: Key, v: V, limit: nat, rivals: set<Key>)
    requires Tidy(h, t) && k !in Contents(t.slots)
    requires rivals <= Contents(t.slots).Keys && |rivals| == 8 && forall x | x in rivals :: h(x) == h(k)
    ensures !Put(h, t, k, v, limit).ok
  {
    SubsetSize(rivals + {k}, Crowd(h, Contents(t.slots).Keys + {k}, h(k), 1));
    CrowdNeverFits(h, t, k, v, limit, h(k), 1);
  }
}
