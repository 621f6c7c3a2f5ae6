// The lines client.c prints, written out, and what interpret makes of them and of any other line.
module ClientLines {
  import opened Options
  import opened Parser
  import opened Protocol

  // ---------- When interpret goes well ----------

  /** The sizes of the arrays that the tokens behind the command go to, by the command's second character. */
  function Sizes(c: char): Option<seq<nat>> {
    match c
    case '0' => Some([50, 50, 10, 50])
    case '1' => Some([50, 50])
    case '2' => Some([50])
    case '3' => Some([50, 50])
    case '4' => Some([50, 50])
    case '5' => Some([50, 50, 10, 50])
    case '6' => Some([50])
    case '8' => Some([50, 50, 200])
    case _ => None
  }

  /** Each token behind the command is there and fits. */
  predicate AllFit(ts: seq<string>, sizes: seq<nat>) {
    |ts| > |sizes| && forall k | 0 <= k < |sizes| :: |ts[k + 1]| < sizes[k]
  }

  lemma FitOf(ts: seq<string>, a: nat, b: nat, c: nat, d: nat)
    ensures AllFit(ts, [a]) <==> |ts| > 1 && |ts[1]| < a
    ensures AllFit(ts, [a, b]) <==> |ts| > 2 && |ts[1]| < a && |ts[2]| < b
    ensures AllFit(ts, [a, b, c]) <==> |ts| > 3 && |ts[1]| < a && |ts[2]| < b && |ts[3]| < c
    ensures AllFit(ts, [a, b, c, d]) <==> |ts| > 4 && |ts[1]| < a && |ts[2]| < b && |ts[3]| < c && |ts[4]| < d
  {
    if |ts| > 1 { assert AllFit(ts, [a]) ==> |ts[0 + 1]| < [a][0]; }
    if |ts| > 2 && AllFit(ts, [a, b]) { assert |ts[0 + 1]| < [a, b][0] && |ts[1 + 1]| < [a, b][1]; }
    if |ts| > 3 && AllFit(ts, [a, b, c]) {
      assert |ts[0 + 1]| < [a, b, c][0] && |ts[1 + 1]| < [a, b, c][1] && |ts[2 + 1]| < [a, b, c][2];
    }
    if |ts| > 4 && AllFit(ts, [a, b, c, d]) {
      assert |ts[0 + 1]| < [a, b, c, d][0] && |ts[1 + 1]| < [a, b, c, d][1];
      assert |ts[2 + 1]| < [a, b, c, d][2] && |ts[3 + 1]| < [a, b, c, d][3];
    }
  }

  lemma BuildsIff(a: string, ts: seq<string>, c: char)
    requires ts != [] && ts[0] == a && c == (if |a| > 1 then a[1] else '\0')
    ensures Sizes(c).Some? ==>
      (Build(a, At(ts, 1), At(ts, 2), At(ts, 3), At(ts, 4)).Parsed? <==> |a| < 3 && AllFit(ts, Sizes(c).value))
    ensures Sizes(c).None? && c != '7' ==>
      Build(a, At(ts, 1), At(ts, 2), At(ts, 3), At(ts, 4)) == Parsed(Record("", "", "", "", "", "", "", 0))
  {
    FitOf(ts, 50, 50, 10, 50);
    FitOf(ts, 50, 50, 200, 0);
  }

  /**
   * A line of a known command is read exactly if its command has two characters and each of its fields is
   * there and fits; of any other command nothing is read; a line of bars only is undefined.
   */
  lemma InterpretsIff(s: string)
    ensures var ts := Tokens(s);
      if ts == [] then Interpret(s) == Undefined
      else
        var c := if |ts[0]| > 1 then ts[0][1] else '\0';
        && (Sizes(c).Some? ==> (Interpret(s).Parsed? <==> |ts[0]| < 3 && AllFit(ts, Sizes(c).value)))
        && (Sizes(c).None? && c != '7' ==> Interpret(s) == Parsed(Record("", "", "", "", "", "", "", 0)))
  {
    var ts := Tokens(s);
    NthOfTokens(s, 0);
    NthOfTokens(s, 1);
    NthOfTokens(s, 2);
    NthOfTokens(s, 3);
    NthOfTokens(s, 4);
    if ts != [] { BuildsIff(ts[0], ts, if |ts[0]| > 1 then ts[0][1] else '\0'); }
  }

  // ---------- The client's lines ----------

  lemma Two(a: string, b: string)
    ensures Joined([a, b]) == a + "|" + b
  {
    JoinedIsTheFormat(a, b, "", "", "");
  }

  lemma Three(a: string, b: string, c: string)
    ensures Joined([a, b, c]) == a + "|" + b + "|" + c
  {
    JoinedIsTheFormat(a, b, c, "", "");
  }

  lemma Four(a: string, b: string, c: string, d: string)
    ensures Joined([a, b, c, d]) == a + "|" + b + "|" + c + "|" + d
  {
    JoinedIsTheFormat(a, b, c, d, "");
  }

  lemma Five(a: string, b: string, c: string, d: string, e: string)
    ensures Joined([a, b, c, d, e]) == a + "|" + b + "|" + c + "|" + d + "|" + e
  {
    JoinedIsTheFormat(a, b, c, d, e);
  }

  /** A command of two characters, of which interpret looks at the second. */
  predicate Command(a: string, c: char) { |a| == 2 && a[1] == c && '|' !in a }

  lemma RegisterFields(a: string, u: string, ip: string, port: string, status: string)
    requires Command(a, '0') && Solid(u) && Solid(ip) && Solid(port) && Solid(status)
    ensures Interpret(Joined([a, u, ip, port, status])) ==
      if |u| < 50 && |ip| < 50 && |port| < 10 && |status| < 50
      then Parsed(Record(a, u, ip, port, status, "", "", 0)) else Undefined
  {
    assert AllSolid([a, u, ip, port, status]);
    InterpretJoined([a, u, ip, port, status]);
  }

  lemma RegisterLine(a: string, u: string, ip: string, port: string, status: string)
    requires Command(a, '0') && Solid(u) && Solid(ip) && Solid(port) && Solid(status)
    ensures Interpret(a + "|" + u + "|" + ip + "|" + port + "|" + status) ==
      if |u| < 50 && |ip| < 50 && |port| < 10 && |status| < 50
      then Parsed(Record(a, u, ip, port, status, "", "", 0)) else Undefined
  {
    Five(a, u, ip, port, status);
    RegisterFields(a, u, ip, port, status);
  }

  /** What the client sends first. */
  lemma GreetingLine(a: string, u: string)
    requires a == "00" && Solid(u)
    ensures Interpret(a + "|" + u + "|" + "192.168.0.1" + "|" + "1100" + "|" + "0") ==
      if |u| < 50 then Parsed(Record(a, u, "192.168.0.1", "1100", "0", "", "", 0)) else Undefined
  {
    RegisterLine(a, u, "192.168.0.1", "1100", "0");
  }

  lemma StatusFields(a: string, u: string, status: string)
    requires Command(a, '3') && Solid(u) && Solid(status)
    ensures Interpret(Joined([a, u, status])) ==
      if |u| < 50 && |status| < 50 then Parsed(Record(a, u, "", "", status, "", "", 0)) else Undefined
  {
    assert AllSolid([a, u, status]);
    InterpretJoined([a, u, status]);
  }

  lemma StatusLine(a: string, u: string, status: string)
    requires Command(a, '3') && Solid(u) && Solid(status)
    ensures Interpret(a + "|" + u + "|" + status) ==
      if |u| < 50 && |status| < 50 then Parsed(Record(a, u, "", "", status, "", "", 0)) else Undefined
  {
    Three(a, u, status);
    StatusFields(a, u, status);
  }

  lemma QuestionFields(a: string, u: string, asker: string)
    requires Command(a, '4') && Solid(u) && Solid(asker)
    ensures Interpret(Joined([a, u, asker])) ==
      if |u| < 50 && |asker| < 50 then Parsed(Record(a, u, "", "", "", asker, "", 0)) else Undefined
  {
    assert AllSolid([a, u, asker]);
    InterpretJoined([a, u, asker]);
  }

  lemma QuestionLine(a: string, u: string, asker: string)
    requires Command(a, '4') && Solid(u) && Solid(asker)
    ensures Interpret(a + "|" + u + "|" + asker) ==
      if |u| < 50 && |asker| < 50 then Parsed(Record(a, u, "", "", "", asker, "", 0)) else Undefined
  {
    Three(a, u, asker);
    QuestionFields(a, u, asker);
  }

  lemma MessageFields(a: string, u: string, to: string, m: string)
    requires Command(a, '8') && Solid(u) && Solid(to) && Solid(m)
    ensures Interpret(Joined([a, u, to, m])) ==
      if |u| < 50 && |to| < 50 && |m| < 200 then Parsed(Record(a, u, "", "", "", to, m, 0)) else Undefined
  {
    assert AllSolid([a, u, to, m]);
    InterpretJoined([a, u, to, m]);
  }

  lemma MessageLine(a: string, u: string, to: string, m: string)
    requires Command(a, '8') && Solid(u) && Solid(to) && Solid(m)
    ensures Interpret(a + "|" + u + "|" + to + "|" + m) ==
      if |u| < 50 && |to| < 50 && |m| < 200 then Parsed(Record(a, u, "", "", "", to, m, 0)) else Undefined
  {
    Four(a, u, to, m);
    MessageFields(a, u, to, m);
  }

  /** The lines of 02 and 06. */
  lemma NameFields(a: string, u: string)
    requires (Command(a, '2') || Command(a, '6')) && Solid(u)
    ensures Interpret(Joined([a, u])) ==
      if |u| < 50 then Parsed(Record(a, u, "", "", "", "", "", 0)) else Undefined
  {
    assert AllSolid([a, u]);
    InterpretJoined([a, u]);
  }

  lemma NameLine(a: string, u: string)
    requires (Command(a, '2') || Command(a, '6')) && Solid(u)
    ensures Interpret(a + "|" + u) ==
      if |u| < 50 then Parsed(Record(a, u, "", "", "", "", "", 0)) else Undefined
  {
    Two(a, u);
    NameFields(a, u);
  }

  /** The fields of the command are tokens, the others blank; nothing is said about their lengths. */
  predicate Filled(r: Record) {
    && |r.accion| > 1 && '|' !in r.accion && Solid(r.usuario)
    && match r.accion[1]
       case '0' =>
         && Solid(r.ip) && Solid(r.puerto) && Solid(r.status)
         && r == Record(r.accion, r.usuario, r.ip, r.puerto, r.status, "", "", 0)
       case '2' => r == Record(r.accion, r.usuario, "", "", "", "", "", 0)
       case '3' => Solid(r.status) && r == Record(r.accion, r.usuario, "", "", r.status, "", "", 0)
       case '4' => Solid(r.usuario2) && r == Record(r.accion, r.usuario, "", "", "", r.usuario2, "", 0)
       case '6' => r == Record(r.accion, r.usuario, "", "", "", "", "", 0)
       case '8' =>
         && Solid(r.usuario2) && Solid(r.message)
         && r == Record(r.accion, r.usuario, "", "", "", r.usuario2, r.message, 0)
       case _ => false
  }

  /** Whatever fits the record of parser.h can be printed and is read back. */
  lemma RequestGoesThrough(r: Request)
    requires Filled(r)
    ensures Printable(r) && Interpret(Print(r)) == Parsed(r)
  {
    PrintThenInterpret(r);
  }

  /** Print is what these formats print. */
  lemma PrintIsTheLine(r: Record)
    requires Printable(r)
    ensures r.accion[1] == '0' ==> Print(r) == r.accion + "|" + r.usuario + "|" + r.ip + "|" + r.puerto + "|" + r.status
    ensures r.accion[1] == '2' ==> Print(r) == r.accion + "|" + r.usuario
    ensures r.accion[1] == '3' ==> Print(r) == r.accion + "|" + r.usuario + "|" + r.status
    ensures r.accion[1] == '4' ==> Print(r) == r.accion + "|" + r.usuario + "|" + r.usuario2
    ensures r.accion[1] == '6' ==> Print(r) == r.accion + "|" + r.usuario
    ensures r.accion[1] == '8' ==> Print(r) == r.accion + "|" + r.usuario + "|" + r.usuario2 + "|" + r.message
  {
    PrintThenInterpret(r);
    match r.accion[1]
    case '0' => Five(r.accion, r.usuario, r.ip, r.puerto, r.status);
    case '3' => Three(r.accion, r.usuario, r.status);
    case '4' => Three(r.accion, r.usuario, r.usuario2);
    case '8' => Four(r.accion, r.usuario, r.usuario2, r.message);
    case _ => Two(r.accion, r.usuario);
  }
}
