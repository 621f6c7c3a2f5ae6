// hashmap.c in its own form: an object whose slot array is overwritten in place and replaced when it
// grows. Every method is proved to do to the table what the function of the same name in HashTable does.
module HashMap {
  import T = HashTable
  import opened HashTable
  import opened HashTableLookups
  import opened Options
  import opened StringHash

  const MAP_MISSING := -3
  const MAP_FULL := -2
  const MAP_OMEM := -1
  const MAP_OK := 0

  /** What hashmap_iterate passes to a callback that answers f: it stops after the first answer other than MAP_OK. */
  function Visit<V>(f: V -> int, entries: seq<(Key, V)>): (int, seq<V>) {
    if entries == [] then (MAP_OK, [])
    else if f(entries[0].1) != MAP_OK then (f(entries[0].1), [entries[0].1])
    else var (status, rest) := Visit(f, entries[1..]); (status, [entries[0].1] + rest)
  }

  /**
   * The callback gets the data of the entries in their order, as far as the first one it does not answer
   * with 0, and that answer is returned.
   */
  lemma {:induction false} VisitStops<V>(f: V -> int, entries: seq<(Key, V)>)
    ensures var (status, visited) := Visit(f, entries);
      && |visited| <= |entries| && (forall i | 0 <= i < |visited| :: visited[i] == entries[i].1)
      && (forall i | 0 <= i < |visited| - 1 :: f(visited[i]) == 0)
      && (if status == 0 then |visited| == |entries| && forall i | 0 <= i < |visited| :: f(visited[i]) == 0
          else visited != [] && f(visited[|visited| - 1]) == status)
  {
    if entries != [] && f(entries[0].1) == 0 { VisitStops(f, entries[1..]); }
  }

  class HashMap<V> {
    const h: Key -> nat := KeyHash
    var data: array<Slot<V>>
    var tableSize: int
    var size: int

    ghost predicate Valid()
      reads this
    {
      8 <= tableSize == data.Length
    }

    ghost function Abs(): Table<V>
      reads this, data
    {
      Table(data[..], size)
    }

    /** hashmap_new. */
    constructor ()
      ensures Valid() && fresh(data)
      ensures Abs() == Empty(256)
    {
      data := new Slot<V>[256](_ => Free);
      tableSize := 256;
      size := 0;
      new;
      assert data[..] == Empty<V>(256).slots;
    }

    /** hashmap_hash_int. */
    method HashInt(key: Key) returns (curr: int)
      requires Valid()
      ensures curr == Position(h, key, tableSize, 0)
    {
      curr := StringHash.HashInt(key, tableSize);
    }

    /** hashmap_hash: a slot index or MAP_FULL. */
    method FindSlot(key: Key) returns (index: int)
      requires Valid()
      ensures var c := T.FindSlot(h, Abs(), key); index == if c.Some? then c.value else MAP_FULL
    {
      if size >= tableSize / 2 { return MAP_FULL; }
      var curr := HashInt(key);
      var i := 0;
      while i < 8
        invariant 0 <= i <= 8
        invariant curr == Position(h, key, tableSize, i)
        invariant Probe(h, data[..], key, i) == Probe(h, data[..], key, 0)
      {
        if data[curr].Free? { return curr; }
        if data[curr].key == key { return curr; }
        StepWraps(curr, tableSize);
        curr := (curr + 1) % tableSize;
        i := i + 1;
      }
      return MAP_FULL;
    }

    method Rehash(limit: nat) returns (status: int)
      requires Valid()
      modifies this
      ensures Valid() && (data == old(data) || fresh(data))
      ensures var r := T.Rehash(h, old(Abs()), limit);
        Abs() == r.table && status == if r.ok then MAP_OK else MAP_OMEM
      decreases Room(limit, tableSize), 0, 0
    {
      if 2 * tableSize > limit { return MAP_OMEM; }
      ghost var before := Abs();
      var curr := data;
      ghost var prior := curr[..];
      data := new Slot<V>[2 * tableSize](_ => Free);
      var oldSize := tableSize;
      tableSize := 2 * tableSize;
      size := 0;
      assert data[..] == Empty<V>(tableSize).slots;
      var i := 0;
      while i < oldSize
        invariant 0 <= i <= oldSize == curr.Length
        invariant Valid() && fresh(data) && 2 * oldSize <= tableSize
        invariant curr[..] == prior
        invariant Reinsert(h, Abs(), prior, i, limit) == T.Rehash(h, before, limit)
      {
        if curr[i].Used? {
          status := Put(curr[i].key, curr[i].data, limit);
          if status != MAP_OK { return; }
        }
        i := i + 1;
      }
      return MAP_OK;
    }

    /** hashmap_put. */
    method Put(key: Key, value: V, limit: nat) returns (status: int)
      requires Valid()
      modifies this, data
      ensures Valid() && (data == old(data) || fresh(data))
      ensures old(tableSize) <= tableSize
      ensures var r := T.Put(h, old(Abs()), key, value, limit);
        Abs() == r.table && status == if r.ok then MAP_OK else MAP_OMEM
      decreases Room(limit, tableSize), 1, 0
    {
      ghost var outcome := T.Put(h, Abs(), key, value, limit);
      var index := FindSlot(key);
      while index == MAP_FULL
        invariant Valid() && (data == old(data) || fresh(data))
        invariant old(tableSize) <= tableSize
        invariant T.Put(h, Abs(), key, value, limit) == outcome
        invariant var c := T.FindSlot(h, Abs(), key); index == if c.Some? then c.value else MAP_FULL
        decreases Room(limit, tableSize)
      {
        status := Rehash(limit);
        if status == MAP_OMEM { return; }
        index := FindSlot(key);
      }
      ghost var t := Abs();
      data[index] := Used(key, value);
      size := size + 1;
      assert Abs() == Store(t, index, key, value);
      return MAP_OK;
    }

    /** hashmap_get; arg is None where the C code stores NULL. */
    method Get(key: Key) returns (status: int, arg: Option<V>)
      requires Valid()
      ensures arg == T.Get(h, Abs(), key)
      ensures status == if arg.Some? then MAP_OK else MAP_MISSING
    {
      var curr := HashInt(key);
      var i := 0;
      while i < 8
        invariant 0 <= i <= 8
        invariant curr == Position(h, key, tableSize, i)
        invariant Search(h, data[..], key, i) == Search(h, data[..], key, 0)
      {
        if data[curr].Used? {
          if data[curr].key == key { return MAP_OK, Some(data[curr].data); }
        }
        StepWraps(curr, tableSize);
        curr := (curr + 1) % tableSize;
        i := i + 1;
      }
      return MAP_MISSING, None;
    }

    /** hashmap_remove. */
    method Remove(key: Key) returns (status: int)
      requires Valid()
      modifies this`size, data
      ensures Valid()
      ensures var r := T.Remove(h, old(Abs()), key);
        Abs() == r.table && status == if r.ok then MAP_OK else MAP_MISSING
    {
      ghost var before := Abs();
      var curr := HashInt(key);
      var i := 0;
      while i < 8
        invariant 0 <= i <= 8
        invariant curr == Position(h, key, tableSize, i)
        invariant Abs() == before
        invariant Search(h, data[..], key, i) == Search(h, data[..], key, 0)
      {
        if data[curr].Used? {
          if data[curr].key == key {
            data[curr] := Free;
            size := size - 1;
            assert Abs() == Table(before.slots[curr := Free], before.size - 1);
            return MAP_OK;
          }
        }
        StepWraps(curr, tableSize);
        curr := (curr + 1) % tableSize;
        i := i + 1;
      }
      return MAP_MISSING;
    }

    /** hashmap_length. */
    method Length() returns (n: int)
      ensures n == Abs().size
    {
      n := size;
    }

    /** hashmap_iterate: the arguments of the callback calls, and the status returned. */
    method Iterate(f: V -> int) returns (status: int, visited: seq<V>)
      requires Valid()
      ensures status == if size <= 0 then MAP_MISSING else Visit(f, Entries(data[..])).0
      ensures visited == if size <= 0 then [] else Visit(f, Entries(data[..])).1
    {
      visited := [];
      var n := Length();
      if n <= 0 { return MAP_MISSING, []; }
      ghost var slots := data[..];
      assert slots[0..] == slots;
      var i := 0;
      while i < tableSize
        invariant 0 <= i <= tableSize == |slots| && data[..] == slots
        invariant Visit(f, Entries(slots)).0 == Visit(f, Entries(slots[i..])).0
        invariant Visit(f, Entries(slots)).1 == visited + Visit(f, Entries(slots[i..])).1
      {
        VisitSlot(f, slots, i);
        if data[i].Used? {
          var answer := f(data[i].data);
          visited := visited + [data[i].data];
          if answer != MAP_OK { return answer, visited; }
        }
        i := i + 1;
      }
      assert visited + [] == visited;
      return MAP_OK, visited;
    }
  }

  lemma VisitSlot<V>(f: V -> int, slots: seq<Slot<V>>, i: nat)
    requires i < |slots|
    ensures var here, next := Visit(f, Entries(slots[i..])), Visit(f, Entries(slots[i + 1..]));
      match slots[i]
      case Free => here == next
      case Used(_, v) => if f(v) == MAP_OK then here == (next.0, [v] + next.1) else here == (f(v), [v])
  {
    assert slots[i..][0] == slots[i] && slots[i..][1..] == slots[i + 1..];
    if slots[i].Used? {
      assert Entries(slots[i..])[1..] == Entries(slots[i + 1..]);
    } else {
      assert Entries(slots[i..]) == Entries(slots[i + 1..]);
    }
  }

  lemma StepWraps(curr: int, n: int)
    requires 0 <= curr < n
    ensures (curr + 1) % n == if curr + 1 < n then curr + 1 else 0
  {}
}
