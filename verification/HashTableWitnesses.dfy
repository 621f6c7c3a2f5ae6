// Inputs on which hashmap.c does what a reader may doubt: a rehash that starts another one, an entry
// lost when memory ends in between, a put that fails at every capacity though its keys would fit.
module HashTableWitnesses {
  import opened HashTable
  import opened HashTableBounds
  import opened HashTableFailures
  import opened HashTableLaws
  import opened HashTableLookups
  import opened HashTableRows
  import opened Sets

  // The keys are told apart by their lengths.

  function Name(i: nat): (k: Key)
    ensures |k| == i
  {
    seq(i, _ => 'a')
  }

  /** The names of lengths from to from + m - 1, in order. */
  function Names(from: nat, m: nat): (ks: seq<Key>)
    ensures |ks| == m && forall i | 0 <= i < m :: ks[i] == Name(from + i)
  {
    seq(m, i requires 0 <= i < m => Name(from + i))
  }

  /** At every capacity names 1 to 8 share a home and all others have the next one. */
  function Steady(k: Key): nat { if |k| <= 8 then 255 else 256 }

  /** Names 1 to 5 share a home and all others have the next one. */
  function Even(k: Key): nat { if |k| <= 5 then 255 else 256 }

  // ---------- Keys that make a row ----------

  ghost predicate Fits(h: Key -> nat, n: nat, ks: seq<Key>)
    requires 256 <= n
  {
    && |ks| <= 9 && Apart(ks)
    && forall i | 0 <= i < |ks| :: (Home(h, n, ks[i], 0) && i < 8) || (Home(h, n, ks[i], 1) && 1 <= i)
  }

  lemma {:induction false} FitsFollow(h: Key -> nat, n: nat, done: seq<Key>, ks: seq<Key>)
    requires 256 <= n && Fits(h, n, done + ks)
    ensures Follow(h, n, done, ks)
    decreases |ks|
  {
    if ks != [] {
      assert (done + ks)[|done|] == ks[0];
      assert forall i | 0 <= i < |done| :: (done + ks)[i] == done[i];
      assert done + [ks[0]] + ks[1..] == done + ks;
      FitsFollow(h, n, done + [ks[0]], ks[1..]);
    }
  }

  /** The keys one after the other, into an empty table. */
  lemma FitsRow<V>(h: Key -> nat, n: nat, ks: seq<Key>, v: V, limit: nat)
    requires 256 <= n && Fits(h, n, ks)
    ensures PutAll(h, Empty<V>(n), Pairs(ks, v), limit) == Outcome(true, Row(n, ks, v))
    ensures Follow(h, n, [], ks) && TidyRow(h, n, ks, v)
  {
    assert [] + ks == ks;
    FitsFollow(h, n, [], ks);
    RowFromEmpty(h, n, ks, v, limit);
  }

  /** The home of a name by its length. */
  predicate NameHome(h: Key -> nat, n: nat, from: nat, i: nat)
    requires 256 <= n
  {
    (Home(h, n, Name(from + i), 0) && i < 8) || (Home(h, n, Name(from + i), 1) && 1 <= i)
  }

  lemma NamesFit(h: Key -> nat, n: nat, from: nat, m: nat)
    requires 256 <= n && m <= 9 && forall i | 0 <= i < m :: NameHome(h, n, from, i)
    ensures Fits(h, n, Names(from, m))
  {
    var ks := Names(from, m);
    forall i | 0 <= i < m ensures (Home(h, n, ks[i], 0) && i < 8) || (Home(h, n, ks[i], 1) && 1 <= i) {
      assert NameHome(h, n, from, i);
    }
    forall i, j | 0 <= i < j < m ensures ks[i] != ks[j] {
      assert |ks[i]| == from + i && |ks[j]| == from + j;
    }
  }

  lemma {:induction false} PutAllSplit<V>(h: Key -> nat, t: Table<V>, es: seq<(Key, V)>, fs: seq<(Key, V)>, limit: nat)
    requires 8 <= |t.slots|
    ensures var r := PutAll(h, t, es, limit);
      PutAll(h, t, es + fs, limit) == if r.ok then PutAll(h, r.table, fs, limit) else r
    decreases |es|
  {
    if es == [] {
      assert es + fs == fs;
    } else {
      assert (es + fs)[1..] == es[1..] + fs;
      var r := Put(h, t, es[0].0, es[0].1, limit);
      if r.ok { PutAllSplit(h, r.table, es[1..], fs, limit); }
    }
  }

  // ---------- A rehash within a rehash ----------

  lemma {:induction false} KeySetSize(ks: seq<Key>)
    ensures |KeySet(ks)| <= |ks|
  {
    if ks == [] {
      assert KeySet(ks) == {};
    } else {
      KeySetSize(ks[1..]);
      assert KeySet(ks) == {ks[0]} + KeySet(ks[1..]);
    }
  }

  /** Any nine keys that make a row of 256 slots, but at 512 slots leave the first no room behind the others. */
  lemma NestedByHomes<V>(h: Key -> nat, ks: seq<Key>, v: V, limit: nat)
    requires |ks| == 9 && Fits(h, 512, ks[1..]) && ks[0] !in ks[1..] && Home(h, 512, ks[0], 0) && 512 <= limit
    ensures var r := Rehash(h, Row(256, ks, v), limit);
      && (limit < 1024 ==> !r.ok && ks[0] !in Contents(r.table.slots))
      && (1024 <= limit ==> 1024 <= |r.table.slots|)
  {
    var rest := ks[1..];
    FitsRow(h, 512, rest, v, limit);
    FirstComesLast(h, ks, v, limit);
    PutBeyond(h, 512, rest, v, ks[0], limit);
  }

  /** The rehash of a first row ends with a put of the key in slot 255. */
  lemma FirstComesLast<V>(h: Key -> nat, ks: seq<Key>, v: V, limit: nat)
    requires 1 <= |ks| <= 9 && Follow(h, 512, [], ks[1..]) && 512 <= limit
    ensures Rehash(h, Row(256, ks, v), limit) == Put(h, Row(512, ks[1..], v), ks[0], v, limit)
  {
    var rest := ks[1..];
    RehashOfRow(h, 256, ks, v, limit);
    assert Pairs(rest + [ks[0]], v) == Pairs(rest, v) + Pairs([ks[0]], v);
    PutAllSplit(h, Row(512, [], v), Pairs(rest, v), Pairs([ks[0]], v), limit);
    RowTakesAll(h, 512, [], rest, v, limit);
    assert [] + rest == rest;
    PutAllOne(h, Row(512, rest, v), ks[0], v, limit);
  }

  lemma PutAllOne<V>(h: Key -> nat, t: Table<V>, k: Key, v: V, limit: nat)
    requires 8 <= |t.slots|
    ensures PutAll(h, t, Pairs([k], v), limit) == Put(h, t, k, v, limit)
  {
    assert Pairs([k], v) == [(k, v)];
  }

  /** A key whose reach is full makes put double the table. */
  lemma PutBeyond<V>(h: Key -> nat, n: nat, ks: seq<Key>, v: V, k: Key, limit: nat)
    requires 256 <= n && |ks| == 8 && k !in ks && Home(h, n, k, 0)
    ensures limit < 2 * n ==> Put(h, Row(n, ks, v), k, v, limit) == Outcome(false, Row(n, ks, v))
    ensures 2 * n <= limit ==> 2 * n <= |Put(h, Row(n, ks, v), k, v, limit).table.slots|
  {
    RowTakes(h, n, ks, v, k, 0, limit);
  }

  // ---------- The order of insertion decides ----------

  /** Eight keys that fill a row at every capacity from 512 slots on. */
  ghost predicate Blocks(h: Key -> nat, ks: seq<Key>) {
    && |ks| == 8 && Apart(ks) && h(ks[0]) == 255
    && forall i | 0 <= i < 8 :: h(ks[i]) == 255 || h(ks[i]) == 256
  }

  lemma SmallHomes(h: Key -> nat, n: nat, k: Key)
    requires n == 256 || 512 <= n
    ensures h(k) == 255 ==> Home(h, n, k, 0)
    ensures h(k) == 256 ==> Home(h, n, k, 1)
  {}

  lemma BlocksFollow(h: Key -> nat, n: nat, ks: seq<Key>)
    requires (n == 256 || 512 <= n) && Blocks(h, ks)
    ensures Follow(h, n, [], ks)
  {
    forall i | 0 <= i < 8 ensures (Home(h, n, ks[i], 0) && i < 8) || (Home(h, n, ks[i], 1) && 1 <= i) {
      SmallHomes(h, n, ks[i]);
    }
    assert [] + ks == ks;
    FitsFollow(h, n, [], ks);
  }

  lemma OrderBlocks(h: Key -> nat, n: nat, ks: seq<Key>)
    requires Blocks(h, ks) && (n == 256 ==> h(ks[1]) == 255)
    ensures Blocks(h, Order(n, ks)) && KeySet(Order(n, ks)) == KeySet(ks)
  {
    if n == 256 {
      var next := Order(n, ks);
      assert forall i | 0 <= i < 8 :: next[i] == if i < 7 then ks[i + 1] else ks[0];
      assert ks[0] == next[7];
      assert forall i | 1 <= i < 8 :: ks[i] == next[i - 1];
    }
  }

  lemma RowRebuilt<V>(h: Key -> nat, n: nat, ks: seq<Key>, v: V, limit: nat)
    requires (n == 256 || 512 <= n) && 2 * n <= limit && Blocks(h, ks) && Blocks(h, Order(n, ks))
    ensures Rehash(h, Row(n, ks, v), limit) == Outcome(true, Row(2 * n, Order(n, ks), v))
  {
    var next := Order(n, ks);
    BlocksFollow(h, 2 * n, next);
    RehashOfRow(h, n, ks, v, limit);
    RowTakesAll(h, 2 * n, [], next, v, limit);
    assert [] + next == next;
  }

  /** One more key for the first home never gets in, at any limit: every rehash builds the row again. */
  lemma {:induction false} RowNeverTakes<V>(h: Key -> nat, n: nat, ks: seq<Key>, v: V, k: Key, limit: nat)
    requires (n == 256 || 512 <= n) && k !in ks && h(k) == 255
    requires Blocks(h, ks) && (n == 256 ==> h(ks[1]) == 255)
    ensures !Put(h, Row(n, ks, v), k, v, limit).ok
    decreases Room(limit, n)
  {
    SmallHomes(h, n, k);
    RowTakes(h, n, ks, v, k, 0, limit);
    if 2 * n <= limit {
      var next := Order(n, ks);
      OrderBlocks(h, n, ks);
      RowRebuilt(h, n, ks, v, limit);
      assert k !in KeySet(next);
      RowNeverTakes(h, 2 * n, next, v, k, limit);
    }
  }

  lemma SteadyBlocks()
    ensures Blocks(Steady, Names(2, 8)) && Steady(Names(2, 8)[1]) == 255 && Name(1) !in Names(2, 8)
  {}

  lemma LastNeverTakes<V>(h: Key -> nat, ks: seq<Key>, k: Key, v: V, limit: nat)
    requires Blocks(h, ks) && h(ks[1]) == 255 && k !in ks && h(k) == 255
    ensures PutAll(h, Empty<V>(256), Pairs(ks, v), limit).ok
    ensures !PutAll(h, Empty<V>(256), Pairs(ks + [k], v), limit).ok
  {
    BlocksFollow(h, 256, ks);
    RowFromEmpty(h, 256, ks, v, limit);
    assert Pairs(ks + [k], v) == Pairs(ks, v) + Pairs([k], v);
    PutAllSplit(h, Empty<V>(256), Pairs(ks, v), Pairs([k], v), limit);
    PutAllOne(h, Row(256, ks, v), k, v, limit);
    RowNeverTakes(h, 256, ks, v, k, limit);
  }

  lemma SameNames()
    ensures KeySet(Names(2, 8) + [Name(1)]) == KeySet(Names(1, 9))
  {
    assert Names(1, 9) == [Name(1)] + Names(2, 8);
  }

  /**
   * The same nine keys get into a new table without any rehash in one order, and in another one never,
   * at no capacity: no condition on the keys alone says whether put succeeds.
   */
  lemma OrderDecides<V>(v: V, limit: nat)
    ensures KeySet(Names(2, 8) + [Name(1)]) == KeySet(Names(1, 9))
    ensures PutAll(Steady, Empty<V>(256), Pairs(Names(1, 9), v), 256).ok
    ensures PutAll(Steady, Empty<V>(256), Pairs(Names(2, 8), v), limit).ok
    ensures !PutAll(Steady, Empty<V>(256), Pairs(Names(2, 8) + [Name(1)], v), limit).ok
  {
    SameNames();
    SteadyNames(v);
    SteadyBlocks();
    LastNeverTakes(Steady, Names(2, 8), Name(1), v, limit);
  }

  lemma SteadyNames<V>(v: V)
    ensures PutAll(Steady, Empty<V>(256), Pairs(Names(1, 9), v), 256) == Outcome(true, Row(256, Names(1, 9), v))
  {
    forall i: nat | i < 9 ensures NameHome(Steady, 256, 1, i) {}
    NamesFit(Steady, 256, 1, 9);
    FitsRow(Steady, 256, Names(1, 9), v, 256);
  }

  /**
   * The same with homes given at 256 and 512 slots only: in order, nine keys make a row without a
   * rehash; with the first one last, they do not get in with memory for fewer than 1024 slots.
   */
  lemma OrderDecidesBelow1024<V>(h: Key -> nat, ks: seq<Key>, v: V, limit: nat)
    requires |ks| == 9 && Fits(h, 256, ks) && Fits(h, 256, ks[1..]) && Fits(h, 512, ks[2..] + [ks[1]])
    requires Home(h, 256, ks[0], 0) && Home(h, 512, ks[0], 0) && limit < 1024
    ensures PutAll(h, Empty<V>(256), Pairs(ks, v), 256) == Outcome(true, Row(256, ks, v))
    ensures PutAll(h, Empty<V>(256), Pairs(ks[1..], v), 256) == Outcome(true, Row(256, ks[1..], v))
    ensures !PutAll(h, Empty<V>(256), Pairs(ks[1..] + [ks[0]], v), limit).ok
  {
    var rest, last := ks[1..], ks[0];
    FitsRow(h, 256, ks, v, 256);
    FitsRow(h, 256, rest, v, 256);
    FitsRow(h, 256, rest, v, limit);
    assert Pairs(rest + [last], v) == Pairs(rest, v) + Pairs([last], v);
    PutAllSplit(h, Empty<V>(256), Pairs(rest, v), Pairs([last], v), limit);
    PutAllOne(h, Row(256, rest, v), last, v, limit);
    FirstNotBehind(ks);
    TwoDoublings(h, rest, v, last, limit);
  }

  lemma FirstNotBehind(ks: seq<Key>)
    requires |ks| == 9 && Apart(ks)
    ensures ks[0] !in ks[1..] && ks[0] !in ks[2..] + [ks[1]]
  {}

  /** A key whose reach is full at 256 and at 512 slots needs 1024. */
  lemma TwoDoublings<V>(h: Key -> nat, ks: seq<Key>, v: V, k: Key, limit: nat)
    requires |ks| == 8 && k !in ks && k !in ks[1..] + [ks[0]] && Fits(h, 512, ks[1..] + [ks[0]])
    requires Home(h, 256, k, 0) && Home(h, 512, k, 0) && limit < 1024
    ensures !Put(h, Row(256, ks, v), k, v, limit).ok
  {
    PutBeyond(h, 256, ks, v, k, limit);
    if 512 <= limit {
      var next := ks[1..] + [ks[0]];
      RehashOfRow(h, 256, ks, v, limit);
      assert [] + next == next;
      FitsFollow(h, 512, [], next);
      RowTakesAll(h, 512, [], next, v, limit);
      RowTakes(h, 256, ks, v, k, 0, limit);
      PutBeyond(h, 512, next, v, k, limit);
    }
  }

  // ---------- Nine keys with one hash ----------

  lemma FewSpread(h: Key -> nat, keys: set<Key>, n: nat)
    requires |keys| <= 8 && 16 <= n
    ensures Spread(h, keys, n)
  {
    forall k | k in keys ensures |Rivals(h, keys, k, n)| < 8 {
      assert |keys - {k}| == |keys| - 1;
      SubsetSize(Rivals(h, keys, k, n), keys - {k});
    }
  }

  lemma FitsOneMore<V>(h: Key -> nat, t: Table<V>, k: Key, v: V, limit: nat)
    requires Tidy(h, t) && 16 <= |t.slots| && |Contents(t.slots)| < 8 && k !in Contents(t.slots)
    ensures var r := Put(h, t, k, v, limit);
      && r.ok && Tidy(h, r.table) && |r.table.slots| == |t.slots|
      && Contents(r.table.slots) == Contents(t.slots)[k := v] && |Contents(r.table.slots)| == |Contents(t.slots)| + 1
  {
    var keys := Contents(t.slots).Keys + {k};
    FewSpread(h, keys, |t.slots|);
    SpreadHasRoom(h, t, k, keys);
    PutIsInsert(h, t, k, v, limit);
    assert Contents(t.slots)[k := v].Keys == keys;
  }

  lemma OneFewer(keys: set<Key>, k: Key, ks: seq<Key>)
    requires ks != [] && ks[0] == k && Apart(ks) && forall x | x in ks :: x !in keys
    ensures Apart(ks[1..]) && forall x | x in ks[1..] :: x !in keys + {k}
    ensures keys + KeySet(ks) == keys + {k} + KeySet(ks[1..])
  {
    assert KeySet(ks) == {k} + KeySet(ks[1..]);
  }

  /** Up to eight keys get into a table without a rehash, whatever their hashes. */
  lemma {:induction false} EightFit<V>(h: Key -> nat, t: Table<V>, ks: seq<Key>, v: V, limit: nat)
    requires Tidy(h, t) && 16 <= |t.slots| && |Contents(t.slots)| + |ks| <= 8
    requires Apart(ks) && forall k | k in ks :: k !in Contents(t.slots)
    ensures var r := PutAll(h, t, Pairs(ks, v), limit);
      && r.ok && Tidy(h, r.table) && |r.table.slots| == |t.slots|
      && Contents(r.table.slots).Keys == Contents(t.slots).Keys + KeySet(ks)
    decreases |ks|
  {
    if ks != [] {
      OneFewer(Contents(t.slots).Keys, ks[0], ks);
      FitsOneMore(h, t, ks[0], v, limit);
      PutAllStep(h, t, ks, v, limit);
      EightFit(h, Put(h, t, ks[0], v, limit).table, ks[1..], v, limit);
    }
  }

  ghost predicate OneHash(h: Key -> nat, ks: seq<Key>) {
    |ks| == 9 && Apart(ks) && forall i | 0 <= i < 9 :: h(ks[i]) == h(ks[0])
  }

  /** Of nine keys with one hash the first eight get into a new table, and the ninth never does. */
  lemma NinthNeverFits<V>(h: Key -> nat, ks: seq<Key>, v: V, limit: nat)
    requires OneHash(h, ks)
    ensures var r := PutAll(h, Empty<V>(256), Pairs(ks[..8], v), limit);
      && r.ok && Tidy(h, r.table) && |r.table.slots| == 256 && Contents(r.table.slots).Keys == KeySet(ks[..8])
      && ks[8] !in Contents(r.table.slots) && !Put(h, r.table, ks[8], v, limit).ok
  {
    var eight := ks[..8];
    EmptyIsTidy<V>(h, 256);
    EightFit(h, Empty<V>(256), eight, v, limit);
    var t := PutAll(h, Empty<V>(256), Pairs(eight, v), limit).table;
    ApartSize(eight);
    assert ks[8] !in eight;
    NinthCollisionNeverFits(h, t, ks[8], v, limit, KeySet(eight));
  }

  /** With memory for 512 slots that put fails after a rehash that succeeded, and nothing is lost. */
  lemma KeptAfterARehash<V(!new)>(h: Key -> nat, ks: seq<Key>, v: V)
    requires OneHash(h, ks)
    ensures var t := PutAll(h, Empty<V>(256), Pairs(ks[..8], v), 512).table;
      var r := Put(h, t, ks[8], v, 512);
      && Tidy(h, t) && ks[8] !in Contents(t.slots) && 2 * |t.slots| == 512
      && !r.ok && r.table != t && Contents(r.table.slots) == Contents(t.slots)
  {
    NinthNeverFits(h, ks, v, 512);
    var t, k := PutAll(h, Empty<V>(256), Pairs(ks[..8], v), 512).table, ks[8];
    var keys := KeySet(ks[..8]);
    ApartSize(ks[..8]);
    FewSpread(h, keys, 512);
    RehashReaches(h, t, 512, keys, 512);
    FailedPutLeaves(h, t, k, v, 512);
    FailedPutKeepsTableIff(h, t, k, v, 512);
    assert FindSlot(h, t, k).None?;
  }

  // ---------- A crowd, and a key put twice ----------

  lemma {:induction false} ApartSize(ks: seq<Key>)
    requires Apart(ks)
    ensures |KeySet(ks)| == |ks|
  {
    if ks == [] {
      assert KeySet(ks) == {};
    } else {
      ApartSize(ks[1..]);
      assert KeySet(ks) == {ks[0]} + KeySet(ks[1..]);
      assert ks[0] !in ks[1..];
    }
  }

  lemma TenCrowd()
    ensures |Crowd(Even, KeySet(Names(1, 9)) + {Name(10)}, 255, 2)| == 10
  {
    var all := Names(1, 9) + [Name(10)];
    ApartSize(all);
    assert KeySet(all) == KeySet(Names(1, 9)) + {Name(10)};
    assert Crowd(Even, KeySet(all), 255, 2) == KeySet(all);
  }

  /** Ten keys over two adjacent hash values, five each: nine get in, the tenth never does. */
  lemma TenOverTwo<V>(v: V, limit: nat)
    ensures TidyRow(Even, 256, Names(1, 9), v) && Name(10) !in Contents(Row(256, Names(1, 9), v).slots)
    ensures PutAll(Even, Empty<V>(256), Pairs(Names(1, 9), v), 256) == Outcome(true, Row(256, Names(1, 9), v))
    ensures !Put(Even, Row(256, Names(1, 9), v), Name(10), v, limit).ok
  {
    EvenNames(v);
    TenCrowd();
    TenthIsNew();
    CrowdNeverFits(Even, Row(256, Names(1, 9), v), Name(10), v, limit, 255, 2);
  }

  lemma TenthIsNew()
    ensures Name(10) !in KeySet(Names(1, 9))
  {
    forall k | k in Names(1, 9) ensures |k| < 10 {}
  }

  lemma EvenNames<V>(v: V)
    ensures TidyRow(Even, 256, Names(1, 9), v)
    ensures PutAll(Even, Empty<V>(256), Pairs(Names(1, 9), v), 256) == Outcome(true, Row(256, Names(1, 9), v))
  {
    forall i: nat | i < 9 ensures NameHome(Even, 256, 1, i) {}
    NamesFit(Even, 256, 1, 9);
    FitsRow(Even, 256, Names(1, 9), v, 256);
  }

  /** Putting a key twice into a new table spoils it, for every hash function. */
  lemma PutTwice<V>(h: Key -> nat, k: Key, v: V, limit: nat)
    ensures var once := Put(h, Empty<V>(256), k, v, limit);
      var twice := Put(h, once.table, k, v, limit);
      once.ok && Tidy(h, once.table) && twice.ok && !Tidy(h, twice.table) && twice.table.size == 2
  {
    EmptyIsTidy<V>(h, 256);
    FirstPutFits(h, Empty<V>(256), k, v, limit);
    PutIsInsert(h, Empty<V>(256), k, v, limit);
    var once := Put(h, Empty<V>(256), k, v, limit);
    assert Probe(h, once.table.slots, k, 0).Some?;
    PutTidyIffAbsent(h, once.table, k, v, limit);
  }
}
