// The server's replies as a client reads them: the newline the server ends them with stays in the
// last token.
module ServerReplies {
  import opened Parser
  import opened Protocol
  import opened Server
  import ServerRuns

  /** A value of a field that a request can bring and a reply can carry. */
  predicate Sendable(s: string, n: nat) { Plain(s, n) && '\0' !in s }

  predicate SendableClient(c: Client) {
    Sendable(c.user, 50) && Sendable(c.ip, 50) && Sendable(c.port, 10) && Sendable(c.status, 50)
  }

  lemma PaddedReads(s: string, n: nat)
    requires |s| < n && '\0' !in s
    ensures CString(Padded(s, n), 0) == s
  {
    CStringIs(Padded(s, n), 0, s);
  }

  function DescriptionFields(c: Client): seq<string> { ["05", c.user, c.ip, c.port, c.status + "\n"] }

  lemma DescriptionText(c: Client)
    requires SendableClient(c)
    ensures CString(Description(c), 0) == Joined(DescriptionFields(c))
  {
    var text := "05|" + c.user + "|" + c.ip + "|" + c.port + "|" + c.status + "\n";
    JoinedIsTheFormat("05", c.user, c.ip, c.port, c.status + "\n");
    assert text == Joined(DescriptionFields(c));
    assert Snprintf(text, BUFFER) == text;
    PaddedReads(text, BUFFER);
  }

  /**
   * The answer to 04, read by interpret, is the client asked for, with a newline behind its status;
   * a status of 49 characters does not fit once the newline is there.
   */
  lemma DescriptionReads(c: Client)
    requires SendableClient(c)
    ensures Interpret(CString(Description(c), 0)) ==
      if |c.status| < 49 then Parsed(Record("05", c.user, c.ip, c.port, c.status + "\n", "", "", 0)) else Undefined
  {
    DescriptionText(c);
    assert AllPlain(DescriptionFields(c));
    PlainIsSolid(DescriptionFields(c));
    InterpretJoined(DescriptionFields(c));
  }

  /** The refusal of 00, read by interpret. */
  lemma RefusalReads(r: Request)
    requires Sendable(r.usuario, 50) && Sendable(r.ip, 50)
    ensures Interpret(Refusal(r).text) ==
      if |r.ip| < 49 then Parsed(Record("01", r.usuario, r.ip + "\n", "", "", "", "", 0)) else Undefined
  {
    var text := "01|" + r.usuario + "|" + r.ip + "\n";
    var ts := ["01", r.usuario, r.ip + "\n"];
    JoinedIsTheFormat("01", r.usuario, r.ip + "\n", "", "");
    assert text == Joined(ts);
    assert AllPlain(ts);
    PlainIsSolid(ts);
    InterpretJoined(ts);
  }

  /** One user and status, as listed. */
  function Entry(c: Client): string { c.user + "+" + c.status }

  function Items(cs: seq<Client>): (items: seq<string>)
    ensures |items| == |cs| && forall i | 0 <= i < |cs| :: items[i] == Entry(cs[i])
  {
    if cs == [] then [] else Items(cs[..|cs| - 1]) + [Entry(cs[|cs| - 1])]
  }

  lemma ItemIsBarred(s: string, c: Client)
    ensures s + Item(c) == s + "|" + Entry(c)
  {
    assert Item(c) == "|" + Entry(c);
  }

  lemma {:induction false} ConcatIsJoined(head: seq<string>, cs: seq<Client>)
    requires head != []
    ensures Joined(head + Items(cs)) == Joined(head) + Concat(cs)
  {
    if cs == [] {
      assert head + Items(cs) == head;
      assert Joined(head) + "" == Joined(head);
    } else {
      var first, last := cs[..|cs| - 1], cs[|cs| - 1];
      ConcatIsJoined(head, first);
      JoinedLast(head + Items(first), Entry(last));
      assert head + Items(cs) == head + Items(first) + [Entry(last)];
      ItemIsBarred(Joined(head) + Concat(first), last);
      assert Joined(head) + (Concat(first) + Item(last)) == Joined(head) + Concat(first) + Item(last);
    }
  }

  /** The tokens with a newline behind the last one. */
  function Ended(ts: seq<string>): seq<string>
    requires ts != []
  {
    ts[..|ts| - 1] + [ts[|ts| - 1] + "\n"]
  }

  lemma JoinedEnded(ts: seq<string>)
    requires ts != []
    ensures Joined(Ended(ts)) == Joined(ts) + "\n"
  {
    var n := |ts| - 1;
    assert ts == ts[..n] + [ts[n]];
    if n > 0 {
      JoinedLast(ts[..n], ts[n]);
      JoinedLast(ts[..n], ts[n] + "\n");
    }
  }

  lemma ListingText(r: Request, cs: seq<Client>)
    requires |"07|" + r.usuario + Concat(cs) + "\n"| < BUFFER
    ensures Listing(r, Concat(cs)).text == Joined(Ended(["07", r.usuario] + Items(cs)))
  {
    var head := ["07", r.usuario];
    ConcatIsJoined(head, cs);
    JoinedIsTheFormat("07", r.usuario, "", "", "");
    JoinedEnded(head + Items(cs));
  }

  lemma EndedIsPlain(ts: seq<string>)
    requires ts != [] && forall i | 0 <= i < |ts| :: Plain(ts[i], 199)
    ensures AllPlain(Ended(ts))
  {
    forall i | 0 <= i < |ts| ensures Plain(Ended(ts)[i], 200) {
      assert Plain(ts[i], 199);
    }
  }

  lemma {:induction false} ItemsArePlain(cs: seq<Client>)
    requires forall i | 0 <= i < |cs| :: SendableClient(cs[i])
    ensures forall i | 0 <= i < |cs| :: Plain(Items(cs)[i], 199)
  {
    forall i | 0 <= i < |cs| ensures Plain(Items(cs)[i], 199) {
      assert SendableClient(cs[i]);
    }
  }

  lemma ListingIsPlain(u: string, cs: seq<Client>)
    requires Plain(u, 50) && forall i | 0 <= i < |cs| :: SendableClient(cs[i])
    ensures AllPlain(Ended(["07", u] + Items(cs)))
  {
    ItemsArePlain(cs);
    HeadIsPlain(u);
    PlainAll(["07", u], Items(cs));
    EndedIsPlain(["07", u] + Items(cs));
  }

  lemma HeadIsPlain(u: string)
    requires Plain(u, 50)
    ensures forall i | 0 <= i < 2 :: Plain(["07", u][i], 199)
  {
    var head := ["07", u];
    assert Plain(head[0], 199) && Plain(head[1], 199);
  }

  lemma PlainAll(a: seq<string>, b: seq<string>)
    requires forall i | 0 <= i < |a| :: Plain(a[i], 199)
    requires forall i | 0 <= i < |b| :: Plain(b[i], 199)
    ensures forall i | 0 <= i < |a + b| :: Plain((a + b)[i], 199)
  {}

  /** The answer to 06, where it fits the buffer, is the command, the asker and one user+status per client listed. */
  lemma ListingReads(r: Request, cs: seq<Client>)
    requires Sendable(r.usuario, 50) && forall i | 0 <= i < |cs| :: SendableClient(cs[i])
    requires |"07|" + r.usuario + Concat(cs) + "\n"| < BUFFER
    ensures Listed(r, cs).Write? && Tokens(Listed(r, cs).text) == Ended(["07", r.usuario] + Items(cs))
  {
    ListingText(r, cs);
    ListingIsPlain(r.usuario, cs);
    PlainIsSolid(Ended(["07", r.usuario] + Items(cs)));
    TokensOfJoined(Ended(["07", r.usuario] + Items(cs)));
  }

  /**
   * From the request to the reply: between an accepted 00 and the user's next 02, what a 04 for the name is
   * answered with reads as the address given in the 00 and the last status given since.
   */
  lemma DescribedAsRegistered(h: string -> nat, reqs: seq<Request>, s: ServerRuns.State, a: nat, b: nat)
    requires ServerRuns.Sequential(h, reqs, s) && a < b < |s.served| && ServerRuns.Reply(s, s.served[a]) == []
    requires var rs := ServerRuns.InOrder(reqs, s.served);
      && rs[a].accion == "00" && ServerRuns.Stays(rs, a, b, rs[a].usuario)
      && rs[b].accion == "04" && rs[b].usuario == rs[a].usuario
      && SendableClient(ServerRuns.RegisteredAt(rs, a, b)) && |ServerRuns.LastStatus(rs, a, b, rs[a].usuario)| < 49
    ensures var rs, reply := ServerRuns.InOrder(reqs, s.served), ServerRuns.Reply(s, s.served[b]);
      && |reply| == 1 && reply[0].Write? && reply[0].fd == rs[b].fd
      && Interpret(CString(reply[0].text, 0)) ==
           Parsed(Record("05", rs[a].usuario, rs[a].ip, rs[a].puerto,
                         ServerRuns.LastStatus(rs, a, b, rs[a].usuario) + "\n", "", "", 0))
  {
    ServerRuns.WhileRegistered(h, reqs, s, a, b);
    DescriptionReads(ServerRuns.RegisteredAt(ServerRuns.InOrder(reqs, s.served), a, b));
  }
}
