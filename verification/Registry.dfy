// The chat registry as a map from user names to clients, and the proof that each command does to the
// hash table what it does to the map.
module Registry {
  import opened HashTable
  import opened HashTableBounds
  import opened HashTableFailures
  import opened HashTableLaws
  import opened HashTableLookups
  import opened HashTableMemory
  import opened Protocol
  import opened Server

  type Users = map<string, Client>

  function Registered(r: Request): Client { Client(r.ip, r.puerto, r.status, r.fd, r.usuario) }

  /** The registry after a command. */
  function Next(m: Users, r: Request): Users {
    if r.accion == "00" && r.usuario !in m then m[r.usuario := Registered(r)]
    else if r.accion == "02" then m - {r.usuario}
    else if r.accion == "03" && r.usuario in m then m[r.usuario := m[r.usuario].(status := r.status)]
    else m
  }

  /** cs lists every registered client once. */
  ghost predicate Lists(cs: seq<Client>, m: Users) {
    && |cs| == |m|
    && (forall i | 0 <= i < |cs| :: cs[i].user in m && m[cs[i].user] == cs[i])
    && (forall i, j | 0 <= i < j < |cs| :: cs[i].user != cs[j].user)
    && (forall u | u in m :: m[u] in cs)
  }

  /** What a command sends; the order of the list in the answer to 06 is left open. */
  ghost predicate Answers(m: Users, r: Request, sent: seq<Output>) {
    if r.accion == "00" then sent == if r.usuario in m then [Refusal(r)] else []
    else if r.accion == "02" then sent == if r.usuario in m then [Close(r.fd)] else []
    else if r.accion == "04" then sent == if r.usuario in m then [Write(r.fd, Description(m[r.usuario]))] else []
    else if r.accion == "06" then exists cs :: Lists(cs, m) && sent == [Listed(r, cs)]
    else if r.accion == "08" then sent == if r.usuario2 in m then [Write(m[r.usuario2].fd, r.message)] else []
    else sent == []
  }

  // ---------- The registry a store stands for ----------

  ghost function Pointers(s: Store): map<Key, nat> { Contents<nat>(s.table.slots) }

  ghost function View(s: Store): Users {
    var m := Pointers(s);
    map k | k in m && m[k] < |s.clients| :: s.clients[m[k]]
  }

  /** Every entry points to a client that bears the entry's key. */
  ghost predicate Named(m: map<Key, nat>, clients: seq<Client>) {
    forall k | k in m :: m[k] < |clients| && clients[m[k]].user == k
  }

  ghost predicate Good(h: Key -> nat, s: Store) {
    Tidy<nat>(h, s.table) && Pointing(s) && Named(Pointers(s), s.clients)
  }

  /** If the command puts an absent user, the allocations of the put succeed. */
  ghost predicate PutSucceeds(h: Key -> nat, s: Store, r: Request, limit: nat)
    requires 8 <= |s.table.slots|
  {
    r.accion == "00" && r.usuario !in Pointers(s) ==>
      Put<nat>(h, s.table, r.usuario, |s.clients|, limit).ok
  }

  lemma FieldIsKey(r: Request)
    ensures Snprintf(r.usuario, KEY_MAX_LENGTH) == r.usuario
  {}

  lemma LookupIsView(h: Key -> nat, s: Store, k: Key)
    requires Good(h, s)
    ensures k in Pointers(s) <==> k in View(s)
    ensures Lookup(h, s, k).Some? <==> k in View(s)
    ensures k in View(s) ==> View(s)[k] == s.clients[Lookup(h, s, k).value] &&
                             Lookup(h, s, k).value == Pointers(s)[k]
  {
    GetIsLookup<nat>(h, s.table, k);
    OccupiedIsCardinality<nat>(s.table.slots);
  }

  lemma RegisterTaken(h: Key -> nat, s: Store, r: Request, limit: nat)
    requires Good(h, s) && r.usuario in View(s)
    ensures Register(h, s, r, limit) == Section(Store(s.table, s.clients + [Registered(r)]), [Refusal(r)], [])
  {
    FieldIsKey(r);
    LookupIsView(h, s, r.usuario);
  }

  lemma RegisterFresh(h: Key -> nat, s: Store, r: Request, limit: nat)
    requires Good(h, s) && r.usuario !in View(s) && r.accion == "00" && PutSucceeds(h, s, r, limit)
    ensures var t := Put<nat>(h, s.table, r.usuario, |s.clients|, limit).table;
      Register(h, s, r, limit) == Section(Store(t, s.clients + [Registered(r)]), [], [])
  {
    FieldIsKey(r);
    LookupIsView(h, s, r.usuario);
    GetIsLookup<nat>(h, s.table, r.usuario);
  }

  /** A client nothing points to yet is not seen. */
  lemma UnseenClient(h: Key -> nat, s: Store, c: Client)
    requires Good(h, s)
    ensures Good(h, Store(s.table, s.clients + [c])) && View(Store(s.table, s.clients + [c])) == View(s)
  {}

  lemma SeenClient(h: Key -> nat, s: Store, t: Table<nat>, c: Client)
    requires Good(h, s) && Tidy<nat>(h, t) && AllData(t.slots, |s.clients| + 1)
    requires Contents<nat>(t.slots) == Pointers(s)[c.user := |s.clients|]
    ensures Good(h, Store(t, s.clients + [c])) && View(Store(t, s.clients + [c])) == View(s)[c.user := c]
  {}

  lemma RegisterRefines(h: Key -> nat, s: Store, r: Request, limit: nat)
    requires Good(h, s) && PutSucceeds(h, s, r, limit) && r.accion == "00"
    ensures var x := Register(h, s, r, limit);
      Good(h, x.store) && View(x.store) == Next(View(s), r) && Answers(View(s), r, x.outputs + x.after)
    ensures var x := Register(h, s, r, limit); x.after == [] && Addressed(r, x.outputs)
  {
    if r.usuario in View(s) {
      RegisterTaken(h, s, r, limit);
      UnseenClient(h, s, Registered(r));
    } else {
      RegisterFresh(h, s, r, limit);
      LookupIsView(h, s, r.usuario);
      PutIsInsert<nat>(h, s.table, r.usuario, |s.clients|, limit);
      PutPoints(h, s.table, r.usuario, |s.clients|, limit, |s.clients| + 1);
      SeenClient(h, s, Put<nat>(h, s.table, r.usuario, |s.clients|, limit).table, Registered(r));
    }
  }

  /** What a 00 for an absent user leaves when its put fails: the second condition is never tried. */
  lemma RegisterFails(h: Key -> nat, s: Store, r: Request, limit: nat)
    requires Good(h, s) && r.accion == "00" && r.usuario !in View(s) && !PutSucceeds(h, s, r, limit)
    ensures var t := Put<nat>(h, s.table, r.usuario, |s.clients|, limit).table;
      Register(h, s, r, limit) == Section(Store(t, s.clients + [Registered(r)]), [Refusal(r)], [])
  {
    FieldIsKey(r);
    LookupIsView(h, s, r.usuario);
    GetIsLookup<nat>(h, s.table, r.usuario);
    if s.table.size == 0 {
      FirstPutFits<nat>(h, s.table, r.usuario, |s.clients|, limit);
    } else {
      PutStaysInhabited<nat>(h, s.table, r.usuario, |s.clients|, limit);
    }
  }

  /** A 00 for an absent user is refused, as if the name were taken, exactly when its put finds no memory. */
  lemma RegisterRefusedIff(h: Key -> nat, s: Store, r: Request, limit: nat)
    requires Good(h, s) && r.accion == "00" && r.usuario !in View(s)
    ensures var x := Register(h, s, r, limit);
      x.outputs + x.after == [Refusal(r)] <==> !PutSucceeds(h, s, r, limit)
  {
    if PutSucceeds(h, s, r, limit) { RegisterFresh(h, s, r, limit); } else { RegisterFails(h, s, r, limit); }
  }

  /**
   * The memory needed: if the put would succeed with `plenty`, the 00 is refused exactly when the table
   * has no room for the name as it is and memory does not allow the capacity that put would end with.
   */
  lemma RegisterNeedsMemory(h: Key -> nat, s: Store, r: Request, limit: nat, plenty: nat)
    requires Good(h, s) && r.accion == "00" && r.usuario !in View(s) && PutSucceeds(h, s, r, plenty)
    ensures var x := Register(h, s, r, limit);
      x.outputs + x.after == [Refusal(r)] <==>
        && FindSlot<nat>(h, s.table, r.usuario).None?
        && limit < |Put<nat>(h, s.table, r.usuario, |s.clients|, plenty).table.slots|
  {
    LookupIsView(h, s, r.usuario);
    RegisterRefusedIff(h, s, r, limit);
    PutNeedsMemory<nat>(h, s.table, r.usuario, |s.clients|, limit, plenty);
  }

  lemma ShrunkView(h: Key -> nat, s: Store, t: Table<nat>, c: Client)
    requires Good(h, s) && Tidy<nat>(h, t) && AllData(t.slots, |s.clients| + 1)
    requires Submap(Contents<nat>(t.slots), Pointers(s))
    ensures var s' := Store(t, s.clients + [c]);
      && Good(h, s') && Submap(View(s'), View(s))
      && (View(s') == View(s) <==> Contents<nat>(t.slots) == Pointers(s))
  {
    var s' := Store(t, s.clients + [c]);
    assert View(s').Keys == Pointers(s').Keys && View(s).Keys == Pointers(s).Keys;
  }

  /**
   * Then nobody's record changes, but users may be gone: all of them stay exactly when the put's last
   * rehash was refused the doubled array at once.
   */
  lemma RegisterWithoutMemory(h: Key -> nat, s: Store, r: Request, limit: nat)
    requires Good(h, s) && r.accion == "00" && r.usuario !in View(s) && !PutSucceeds(h, s, r, limit)
    ensures var s' := Register(h, s, r, limit).store;
      && Good(h, s') && Submap(View(s'), View(s))
      && (View(s') == View(s) <==> limit < 2 * |Grown<nat>(h, s.table, r.usuario, limit).slots|)
  {
    var t := Put<nat>(h, s.table, r.usuario, |s.clients|, limit).table;
    RegisterFails(h, s, r, limit);
    FailedPutLeaves<nat>(h, s.table, r.usuario, |s.clients|, limit);
    PutPoints(h, s.table, r.usuario, |s.clients|, limit, |s.clients| + 1);
    ShrunkView(h, s, t, Registered(r));
  }

  lemma LeaveRefines(h: Key -> nat, s: Store, r: Request)
    requires Good(h, s) && r.accion == "02"
    ensures var x := Leave(h, s, r);
      Good(h, x.store) && View(x.store) == Next(View(s), r) && Answers(View(s), r, x.outputs + x.after)
  {
    FieldIsKey(r);
    LookupIsView(h, s, r.usuario);
    RemoveIsDelete<nat>(h, s.table, r.usuario);
  }

  lemma ChangeStatusRefines(h: Key -> nat, s: Store, r: Request)
    requires Good(h, s) && r.accion == "03"
    ensures var x := ChangeStatus(h, s, r);
      Good(h, x.store) && View(x.store) == Next(View(s), r) && Answers(View(s), r, x.outputs + x.after)
  {
    LookupIsView(h, s, r.usuario);
  }

  /** es lists the pairs of m, each once. */
  ghost predicate Pairs(es: seq<(Key, nat)>, m: map<Key, nat>) {
    && |es| == |m|
    && (forall i | 0 <= i < |es| :: es[i].0 in m && m[es[i].0] == es[i].1)
    && (forall i, j | 0 <= i < j < |es| :: es[i].0 != es[j].0)
    && (forall k | k in m :: (k, m[k]) in es)
  }

  lemma PointedInRange(es: seq<(Key, nat)>, m: map<Key, nat>, clients: seq<Client>)
    requires Named(m, clients) && Pairs(es, m)
    ensures forall e | e in es :: e.1 < |clients|
    ensures forall i | 0 <= i < |es| :: Pointed(clients, es)[i] == clients[m[es[i].0]]
  {
    forall e | e in es ensures e.1 < |clients| {
      var i :| 0 <= i < |es| && es[i] == e;
      assert e.0 in m;
    }
  }

  lemma PointedLists(es: seq<(Key, nat)>, m: map<Key, nat>, clients: seq<Client>, v: Users)
    requires Named(m, clients) && Pairs(es, m) && v.Keys == m.Keys && |v| == |m|
    requires forall k | k in m :: v[k] == clients[m[k]]
    requires forall e | e in es :: e.1 < |clients|
    ensures Lists(Pointed(clients, es), v)
  {
    PointedInRange(es, m, clients);
    var cs := Pointed(clients, es);
    forall i | 0 <= i < |cs| ensures cs[i].user == es[i].0 && cs[i].user in v && v[cs[i].user] == cs[i] {
      assert es[i].0 in m;
    }
    forall u | u in v ensures v[u] in cs {
      assert (u, m[u]) in es;
      var i :| 0 <= i < |es| && es[i] == (u, m[u]);
      assert cs[i] == v[u];
    }
  }

  /** The answer to 06 lists every registered user once. */
  lemma ListingIsComplete(h: Key -> nat, s: Store)
    requires Good(h, s)
    ensures Lists(Visited(s), View(s))
  {
    var slots := s.table.slots;
    EntriesListContents<nat>(slots);
    EntriesPoint(slots, |s.clients|);
    OccupiedIsCardinality<nat>(slots);
    assert View(s).Keys == Pointers(s).Keys;
    PointedLists(Entries<nat>(slots), Pointers(s), s.clients, View(s));
  }

  /** Each command, on a store that stands for a registry, answers and changes it as the registry demands. */
  lemma SwitchRefines(h: Key -> nat, s: Store, r: Request, limit: nat)
    requires Good(h, s) && PutSucceeds(h, s, r, limit)
    ensures var x := Switch(h, s, r, limit);
      Good(h, x.store) && View(x.store) == Next(View(s), r) && Answers(View(s), r, x.outputs + x.after)
    ensures var x := Switch(h, s, r, limit); Timely(r, x) && Addressed(r, x.outputs + x.after)
  {
    SwitchWrites(h, s, r, limit);
    if r.accion == "00" { RegisterRefines(h, s, r, limit); }
    else if r.accion == "02" { LeaveRefines(h, s, r); }
    else if r.accion == "03" { ChangeStatusRefines(h, s, r); }
    else if r.accion == "04" { LookupIsView(h, s, r.usuario); }
    else if r.accion == "06" { ListingIsComplete(h, s); }
    else if r.accion == "08" { LookupIsView(h, s, r.usuario2); }
  }

  /** Whether its put succeeds or not, no command spoils the table: every key stays findable, and names its client. */
  lemma SwitchStaysGood(h: Key -> nat, s: Store, r: Request, limit: nat)
    requires Good(h, s)
    ensures Good(h, Switch(h, s, r, limit).store)
  {
    if PutSucceeds(h, s, r, limit) {
      SwitchRefines(h, s, r, limit);
    } else {
      LookupIsView(h, s, r.usuario);
      RegisterWithoutMemory(h, s, r, limit);
    }
  }
}
