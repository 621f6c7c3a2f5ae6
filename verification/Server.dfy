// switch_protocol_handler of server.c. The malloc'd pairs of an h_map_element and its client are kept
// in one sequence, and the hash table holds positions in it in place of pointers.
module Server {
  import HashMap
  import opened HashTable
  import opened HashTableLookups
  import opened Options
  import opened Protocol
  import opened StringHash

  datatype Client = Client(ip: string, port: string, status: string, fd: int, user: string)

  datatype Store = Store(table: Table<nat>, clients: seq<Client>)

  /** Overflow is a strcat past the end of the list of 06; what C does from there on is not modelled. */
  datatype Output = Write(fd: int, text: string) | Close(fd: int) | Overflow

  /** What the part of the handler under hashmap_lock does, and what is left to write after unlocking. */
  datatype Section = Section(store: Store, outputs: seq<Output>, after: seq<Output>)

  const KEY_MAX_LENGTH := 256

  /** Every pointer in the table leads to a client. */
  ghost predicate Pointing(s: Store) {
    8 <= |s.table.slots| && AllData(s.table.slots, |s.clients|)
  }

  ghost predicate AllData(slots: seq<Slot<nat>>, n: nat) {
    forall c | 0 <= c < |slots| :: slots[c].Used? ==> slots[c].data < n
  }

  // ---------- The commands ----------

  /** The client found under key, if the map is not empty and has it. */
  function Lookup(h: Key -> nat, s: Store, key: Key): (id: Option<nat>)
    requires Pointing(s)
    ensures id.Some? ==> id.value < |s.clients|
  {
    if s.table.size > 0 then Get<nat>(h, s.table, key) else None
  }

  function Refusal(r: Request): Output {
    Write(r.fd, Snprintf("01|" + r.usuario + "|" + r.ip + "\n", BUFFER))
  }

  /** Command 00. A first put that fails leaves a table on which the second condition is tried. */
  function Register(h: Key -> nat, s: Store, r: Request, limit: nat): Section
    requires Pointing(s)
  {
    var key := Snprintf(r.usuario, KEY_MAX_LENGTH);
    var id: nat := |s.clients|;
    var clients := s.clients + [Client(r.ip, r.puerto, r.status, r.fd, r.usuario)];
    var first: Outcome<nat> :=
      if s.table.size > 0 && Get<nat>(h, s.table, key).None? then Put<nat>(h, s.table, key, id, limit)
      else Outcome(false, s.table);
    var last := if !first.ok && first.table.size == 0 then Put<nat>(h, first.table, key, id, limit) else first;
    Section(Store(last.table, clients), if last.ok then [] else [Refusal(r)], [])
  }

  /** Command 02. */
  function Leave(h: Key -> nat, s: Store, r: Request): Section
    requires Pointing(s)
  {
    var key := Snprintf(r.usuario, KEY_MAX_LENGTH);
    var removed := Remove<nat>(h, s.table, key);
    if Lookup(h, s, key).Some? && removed.ok then Section(Store(removed.table, s.clients), [Close(r.fd)], [])
    else Section(s, [], [])
  }

  /** Command 03. */
  function ChangeStatus(h: Key -> nat, s: Store, r: Request): Section
    requires Pointing(s)
  {
    var id := Lookup(h, s, r.usuario);
    if id.Some? then Section(Store(s.table, s.clients[id.value := s.clients[id.value].(status := r.status)]), [], [])
    else Section(s, [], [])
  }

  function Description(c: Client): string {
    Padded(Snprintf("05|" + c.user + "|" + c.ip + "|" + c.port + "|" + c.status + "\n", BUFFER), BUFFER)
  }

  /** Command 04. */
  function Describe(h: Key -> nat, s: Store, r: Request): Section
    requires Pointing(s)
  {
    var id := Lookup(h, s, r.usuario);
    Section(s, if id.Some? then [Write(r.fd, Description(s.clients[id.value]))] else [], [])
  }

  function Item(c: Client): string { "|" + c.user + "+" + c.status }

  /** What concat_clients leaves in the list after a call for each of the clients. */
  function Concat(cs: seq<Client>): string {
    if cs == [] then "" else Concat(cs[..|cs| - 1]) + Item(cs[|cs| - 1])
  }

  function Listing(r: Request, list: string): Output {
    Write(r.fd, Snprintf("07|" + r.usuario + list + "\n", BUFFER))
  }

  /** The answer to 06: the list itself is a buffer, of the same size as the reply's. */
  function Listed(r: Request, cs: seq<Client>): Output {
    if |Concat(cs)| < BUFFER then Listing(r, Concat(cs)) else Overflow
  }

  lemma {:induction false} EntriesPoint(slots: seq<Slot<nat>>, n: nat)
    requires AllData(slots, n)
    ensures forall e | e in Entries<nat>(slots) :: e.1 < n
  {
    if slots != [] { EntriesPoint(slots[1..], n); }
  }

  /** The clients hashmap_iterate visits. */
  function Visited(s: Store): seq<Client>
    requires Pointing(s)
  {
    EntriesPoint(s.table.slots, |s.clients|);
    if s.table.size <= 0 then [] else Pointed(s.clients, Entries<nat>(s.table.slots))
  }

  /** The clients that the entries point to. */
  function Pointed(clients: seq<Client>, es: seq<(Key, nat)>): (cs: seq<Client>)
    requires forall e | e in es :: e.1 < |clients|
    ensures |cs| == |es| && forall i | 0 <= i < |es| :: cs[i] == clients[es[i].1]
  {
    if es == [] then [] else [clients[es[0].1]] + Pointed(clients, es[1..])
  }

  /** Command 08. */
  function Forward(h: Key -> nat, s: Store, r: Request): Section
    requires Pointing(s)
  {
    var id := Lookup(h, s, r.usuario2);
    Section(s, if id.Some? then [Write(s.clients[id.value].fd, r.message)] else [], [])
  }

  function Switch(h: Key -> nat, s: Store, r: Request, limit: nat): Section
    requires Pointing(s)
  {
    if r.accion == "00" then Register(h, s, r, limit)
    else if r.accion == "02" then Leave(h, s, r)
    else if r.accion == "03" then ChangeStatus(h, s, r)
    else if r.accion == "04" then Describe(h, s, r)
    else if r.accion == "06" then Section(s, [], [Listed(r, Visited(s))])
    else if r.accion == "08" then Forward(h, s, r)
    else Section(s, [], [])
  }

  // ---------- When and to whom a command writes ----------

  /** All is written under the lock but the answer to 06, which is written after unlocking. */
  predicate Timely(r: Request, x: Section) {
    if r.accion == "06" then x.outputs == [] && |x.after| == 1 else x.after == []
  }

  /** What a command writes or closes is the asker's descriptor; only 08 writes to somebody else. */
  predicate ToAsker(r: Request, o: Output) {
    match o
    case Write(fd, _) => fd == r.fd
    case Close(fd) => fd == r.fd
    case Overflow => true
  }

  ghost predicate Addressed(r: Request, outputs: seq<Output>) {
    r.accion != "08" ==> forall o | o in outputs :: ToAsker(r, o)
  }

  lemma SwitchWrites(h: Key -> nat, s: Store, r: Request, limit: nat)
    requires Pointing(s)
    ensures var x := Switch(h, s, r, limit); Timely(r, x) && Addressed(r, x.outputs + x.after)
  {}

  /** How much is written: the whole buffer for 04, a message for 08, and less than a buffer otherwise. */
  predicate Sized(r: Request, o: Output) {
    o.Write? ==>
      if r.accion == "04" then |o.text| == 1024 else if r.accion == "08" then |o.text| < 200 else |o.text| < 1024
  }

  /** And the list of 06 overflows exactly if its items take 1024 characters. */
  lemma SwitchSizes(h: Key -> nat, s: Store, r: Request, limit: nat)
    requires Pointing(s)
    ensures var x := Switch(h, s, r, limit);
      && (forall o | o in x.outputs + x.after :: Sized(r, o))
      && (Overflow in x.outputs + x.after <==> r.accion == "06" && |Concat(Visited(s))| >= 1024)
  {}

  // ---------- The table keeps pointing to clients ----------

  lemma {:induction false} PutPoints(h: Key -> nat, t: Table<nat>, k: Key, v: nat, limit: nat, n: nat)
    requires 8 <= |t.slots| && AllData(t.slots, n) && v < n
    ensures AllData(Put(h, t, k, v, limit).table.slots, n)
    decreases Room(limit, |t.slots|), 1, 0
  {
    if FindSlot(h, t, k).None? {
      RehashPoints(h, t, limit, n);
      var r := Rehash(h, t, limit);
      if r.ok { PutPoints(h, r.table, k, v, limit, n); }
    }
  }

  lemma {:induction false} RehashPoints(h: Key -> nat, t: Table<nat>, limit: nat, n: nat)
    requires 8 <= |t.slots| && AllData(t.slots, n)
    ensures AllData(Rehash(h, t, limit).table.slots, n)
    decreases Room(limit, |t.slots|), 0, 0
  {
    if 2 * |t.slots| <= limit { ReinsertPoints(h, Empty(2 * |t.slots|), t.slots, 0, limit, n); }
  }

  lemma {:induction false} ReinsertPoints(h: Key -> nat, cur: Table<nat>, prior: seq<Slot<nat>>, i: nat, limit: nat, n: nat)
    requires 8 <= |cur.slots| && i <= |prior| && AllData(cur.slots, n) && AllData(prior, n)
    ensures AllData(Reinsert(h, cur, prior, i, limit).table.slots, n)
    decreases Room(limit, |cur.slots|), 2, |prior| - i
  {
    if i < |prior| {
      if prior[i].Free? {
        ReinsertPoints(h, cur, prior, i + 1, limit, n);
      } else {
        PutPoints(h, cur, prior[i].key, prior[i].data, limit, n);
        var r := Put<nat>(h, cur, prior[i].key, prior[i].data, limit);
        if r.ok { ReinsertPoints(h, r.table, prior, i + 1, limit, n); }
      }
    }
  }

  lemma RegisterPoints(h: Key -> nat, s: Store, r: Request, limit: nat)
    requires Pointing(s)
    ensures Pointing(Register(h, s, r, limit).store)
  {
    var key, id: nat := Snprintf(r.usuario, KEY_MAX_LENGTH), |s.clients|;
    var first: Outcome<nat> :=
      if s.table.size > 0 && Get<nat>(h, s.table, key).None? then Put<nat>(h, s.table, key, id, limit)
      else Outcome(false, s.table);
    PutPoints(h, s.table, key, id, limit, id + 1);
    PutPoints(h, first.table, key, id, limit, id + 1);
  }

  /** No command leaves a dangling pointer, whatever fails in between. */
  lemma SwitchPoints(h: Key -> nat, s: Store, r: Request, limit: nat)
    requires Pointing(s)
    ensures Pointing(Switch(h, s, r, limit).store)
  {
    if r.accion == "00" { RegisterPoints(h, s, r, limit); }
  }

  // ---------- The handler in its own form ----------

  function Values(es: seq<(Key, nat)>): (vs: seq<nat>)
    ensures |vs| == |es| && forall i | 0 <= i < |es| :: vs[i] == es[i].1
  {
    if es == [] then [] else [es[0].1] + Values(es[1..])
  }

  lemma {:induction false} VisitAll(f: nat -> int, es: seq<(Key, nat)>)
    requires forall v :: f(v) == 0
    ensures HashMap.Visit<nat>(f, es) == (0, Values(es))
  {
    if es != [] {
      VisitAll(f, es[1..]);
    }
  }

  /** The clients are listed in the order of the callback's calls. */
  lemma VisitedInOrder(s: Store, visited: seq<nat>)
    requires Pointing(s)
    requires visited == if s.table.size <= 0 then [] else Values(Entries<nat>(s.table.slots))
    ensures |visited| == |Visited(s)|
    ensures forall i | 0 <= i < |visited| :: visited[i] < |s.clients| && Visited(s)[i] == s.clients[visited[i]]
  {
    var es := Entries<nat>(s.table.slots);
    EntriesPoint(s.table.slots, |s.clients|);
    forall i | 0 <= i < |visited| ensures visited[i] < |s.clients| && Visited(s)[i] == s.clients[visited[i]] {
      assert es[i] in es;
    }
  }

  class Server {
    const clientMap: HashMap.HashMap<nat>
    var clients: seq<Client>

    ghost predicate Valid()
      reads this, clientMap, clientMap.data
    {
      clientMap.Valid() && Pointing(Abs())
    }

    ghost function Abs(): Store
      reads this, clientMap, clientMap.data
    {
      Store(clientMap.Abs(), clients)
    }

    constructor ()
      ensures Valid() && fresh(clientMap) && fresh(clientMap.data)
      ensures Abs() == Store(Empty(256), [])
    {
      clientMap := new HashMap.HashMap();
      clients := [];
    }

    method Find(key: Key) returns (id: Option<nat>)
      requires Valid()
      ensures id == Lookup(KeyHash, Abs(), key)
    {
      var n := clientMap.Length();
      if n <= 0 { return None; }
      var status;
      status, id := clientMap.Get(key);
    }

    method RegisterUser(r: Request, limit: nat) returns (outputs: seq<Output>)
      requires Valid()
      modifies this, clientMap, clientMap.data
      ensures Valid() && (clientMap.data == old(clientMap.data) || fresh(clientMap.data))
      ensures Section(Abs(), outputs, []) == Register(KeyHash, old(Abs()), r, limit)
      ensures forall o | o in outputs :: ToAsker(r, o)
    {
      RegisterPoints(KeyHash, Abs(), r, limit);
      var key, id: nat := Snprintf(r.usuario, KEY_MAX_LENGTH), |clients|;
      clients := clients + [Client(r.ip, r.puerto, r.status, r.fd, r.usuario)];
      var status := -1;
      var n := clientMap.Length();
      if n > 0 {
        var found, element := clientMap.Get(key);
        if found != 0 { status := clientMap.Put(key, id, limit); }
      }
      if status != 0 {
        n := clientMap.Length();
        if n == 0 { status := clientMap.Put(key, id, limit); }
      }
      outputs := if status == 0 then [] else [Refusal(r)];
    }

    method RemoveUser(r: Request) returns (outputs: seq<Output>)
      requires Valid()
      modifies clientMap, clientMap.data
      ensures Valid() && clientMap.data == old(clientMap.data)
      ensures Section(Abs(), outputs, []) == Leave(KeyHash, old(Abs()), r)
      ensures forall o | o in outputs :: ToAsker(r, o)
    {
      outputs := [];
      var key := Snprintf(r.usuario, KEY_MAX_LENGTH);
      var id := Find(key);
      if id.Some? {
        var status := clientMap.Remove(key);
        if status == 0 { outputs := [Close(r.fd)]; }
      }
    }

    /** The calls of concat_clients, and whether each of them stays within the buffer. */
    method ConcatClients(ids: seq<nat>, ghost cs: seq<Client>) returns (list: string, fits: bool)
      requires |ids| == |cs| && forall i | 0 <= i < |ids| :: ids[i] < |clients| && cs[i] == clients[ids[i]]
      ensures list == Concat(cs) && (fits <==> |Concat(cs)| < BUFFER)
    {
      list, fits := "", true;
      var i := 0;
      while i < |ids|
        invariant 0 <= i <= |ids|
        invariant list == Concat(cs[..i]) && (fits <==> |list| < BUFFER)
      {
        assert cs[..i + 1][..i] == cs[..i];
        list := list + Item(clients[ids[i]]);
        fits := fits && |list| < BUFFER;
        i := i + 1;
      }
      assert cs[..i] == cs;
    }

    method List(r: Request) returns (reply: Output)
      requires Valid()
      ensures reply == Listed(r, Visited(Abs()))
    {
      var always: nat -> int := _ => 0;
      var status, visited := clientMap.Iterate(always);
      VisitAll(always, Entries<nat>(clientMap.data[..]));
      VisitedInOrder(Abs(), visited);
      var list, fits := ConcatClients(visited, Visited(Abs()));
      reply := if fits then Listing(r, list) else Overflow;
    }

    /** switch_protocol_handler: what it sends under the lock, and what it sends after unlocking. */
    method Handle(r: Request, limit: nat) returns (outputs: seq<Output>, after: seq<Output>)
      requires Valid()
      modifies this, clientMap, clientMap.data
      ensures Valid() && (clientMap.data == old(clientMap.data) || fresh(clientMap.data))
      ensures Section(Abs(), outputs, after) == Switch(KeyHash, old(Abs()), r, limit)
      ensures if r.accion == "06" then outputs == [] && |after| == 1 else after == []
      ensures Addressed(r, outputs + after)
    {
      SwitchWrites(KeyHash, Abs(), r, limit);
      outputs, after := [], [];
      if r.accion == "00" {
        outputs := RegisterUser(r, limit);
      } else if r.accion == "02" {
        outputs := RemoveUser(r);
      } else if r.accion == "03" {
        var id := Find(r.usuario);
        if id.Some? { clients := clients[id.value := clients[id.value].(status := r.status)]; }
      } else if r.accion == "04" {
        var id := Find(r.usuario);
        if id.Some? { outputs := [Write(r.fd, Description(clients[id.value]))]; }
      } else if r.accion == "06" {
        var reply := List(r);
        after := [reply];
      } else if r.accion == "08" {
        var id := Find(r.usuario2);
        if id.Some? { outputs := [Write(clients[id.value].fd, r.message)]; }
      }
    }
  }
}
