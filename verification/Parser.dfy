// interpret of parser.c, and the formats the client prints requests in.
module Parser {
  import opened Options
  import opened Protocol

  /**
   * What interpret returns. Undefined stands for a null token handed to strcpy or read at its second
   * character, or a field that does not fit its array; ListReply for the branch of the reply 07.
   */
  datatype Parsed = Parsed(record: Record) | Undefined | ListReply

  // ---------- Tokens ----------

  /** strspn: s without the bars in front. */
  function Skip(s: string): (t: string)
    ensures |t| <= |s|
  {
    if s != "" && s[0] == '|' then Skip(s[1..]) else s
  }

  /** strcspn: how many characters precede the first bar. */
  function Span(s: string): (n: nat)
    ensures n <= |s| && '|' !in s[..n] && (n < |s| ==> s[n] == '|')
  {
    if s == "" || s[0] == '|' then 0 else
      var n := 1 + Span(s[1..]);
      assert s[..n] == [s[0]] + s[1..][..n - 1];
      n
  }

  datatype Token = Token(text: Option<string>, rest: string)

  /** strtok_r on the text it goes on with: the token, and the text for the next call. */
  function Next(s: string): Token {
    var t := Skip(s);
    var n := Span(t);
    if t == "" then Token(None, "") else Token(Some(t[..n]), if n == |t| then "" else t[n + 1..])
  }

  // ---------- interpret ----------

  const BLANK := Record("", "", "", "", "", "", "", 0)

  /** The (k+1)-st token of s. */
  function Nth(s: string, k: nat): Option<string>
    decreases k
  {
    if k == 0 then Next(s).text else Nth(Next(s).rest, k - 1)
  }

  /** strcpy of the token into an array of n chars goes well. */
  predicate Copies(t: Option<string>, n: nat) { t.Some? && |t.value| < n }

  // The branches of the switch, from the tokens they take.

  function Build0(a: string, t1: Option<string>, t2: Option<string>, t3: Option<string>, t4: Option<string>): Parsed {
    if |a| < 3 && Copies(t1, 50) && Copies(t2, 50) && Copies(t3, 10) && Copies(t4, 50) then
      Parsed(Record(a, t1.value, t2.value, t3.value, t4.value, "", "", 0))
    else Undefined
  }

  function Build1(a: string, t1: Option<string>, t2: Option<string>): Parsed {
    if |a| < 3 && Copies(t1, 50) && Copies(t2, 50) then Parsed(Record(a, t1.value, t2.value, "", "", "", "", 0))
    else Undefined
  }

  function Build2(a: string, t1: Option<string>): Parsed {
    if |a| < 3 && Copies(t1, 50) then Parsed(Record(a, t1.value, "", "", "", "", "", 0)) else Undefined
  }

  function Build3(a: string, t1: Option<string>, t2: Option<string>): Parsed {
    if |a| < 3 && Copies(t1, 50) && Copies(t2, 50) then Parsed(Record(a, t1.value, "", "", t2.value, "", "", 0))
    else Undefined
  }

  function Build4(a: string, t1: Option<string>, t2: Option<string>): Parsed {
    if |a| < 3 && Copies(t1, 50) && Copies(t2, 50) then Parsed(Record(a, t1.value, "", "", "", t2.value, "", 0))
    else Undefined
  }

  function Build8(a: string, t1: Option<string>, t2: Option<string>, t3: Option<string>): Parsed {
    if |a| < 3 && Copies(t1, 50) && Copies(t2, 50) && Copies(t3, 200) then
      Parsed(Record(a, t1.value, "", "", "", t2.value, t3.value, 0))
    else Undefined
  }

  /** The switch on the second character of the first token. */
  function Build(a: string, t1: Option<string>, t2: Option<string>, t3: Option<string>, t4: Option<string>): Parsed {
    var command := if |a| > 1 then a[1] else '\0';
    if command == '0' || command == '5' then Build0(a, t1, t2, t3, t4)
    else if command == '1' then Build1(a, t1, t2)
    else if command == '2' || command == '6' then Build2(a, t1)
    else if command == '3' then Build3(a, t1, t2)
    else if command == '4' then Build4(a, t1, t2)
    else if command == '8' then Build8(a, t1, t2, t3)
    else if command == '7' then ListReply
    else Parsed(BLANK)
  }

  function Interpret(s: string): Parsed {
    if Nth(s, 0).None? then Undefined
    else Build(Nth(s, 0).value, Nth(s, 1), Nth(s, 2), Nth(s, 3), Nth(s, 4))
  }

  // ---------- Printing ----------

  /** Fields with bars between them. */
  function Joined(ts: seq<string>): string
    requires ts != []
  {
    if |ts| == 1 then ts[0] else ts[0] + "|" + Joined(ts[1..])
  }

  /** What the client prints for the commands 00, 02, 03, 04, 06 and 08, in order. */
  function Fields(r: Record): seq<string>
    requires |r.accion| == 2
  {
    match r.accion[1]
    case '0' => [r.accion, r.usuario, r.ip, r.puerto, r.status]
    case '3' => [r.accion, r.usuario, r.status]
    case '4' => [r.accion, r.usuario, r.usuario2]
    case '8' => [r.accion, r.usuario, r.usuario2, r.message]
    case _ => [r.accion, r.usuario]
  }

  function Print(r: Record): string
    requires |r.accion| == 2
  {
    Snprintf(Joined(Fields(r)), BUFFER)
  }

  /** A field that can be printed and read back from an array of n chars. */
  predicate Plain(s: string, n: nat) { 0 < |s| < n && '|' !in s }

  /** The records of the six commands: the command's fields are plain, the others blank. */
  predicate Printable(r: Record) {
    && |r.accion| == 2 && '|' !in r.accion && Plain(r.usuario, 50)
    && match r.accion[1]
       case '0' =>
         && Plain(r.ip, 50) && Plain(r.puerto, 10) && Plain(r.status, 50)
         && r == Record(r.accion, r.usuario, r.ip, r.puerto, r.status, "", "", 0)
       case '2' => r == Record(r.accion, r.usuario, "", "", "", "", "", 0)
       case '3' => Plain(r.status, 50) && r == Record(r.accion, r.usuario, "", "", r.status, "", "", 0)
       case '4' => Plain(r.usuario2, 50) && r == Record(r.accion, r.usuario, "", "", "", r.usuario2, "", 0)
       case '6' => r == Record(r.accion, r.usuario, "", "", "", "", "", 0)
       case '8' =>
         && Plain(r.usuario2, 50) && Plain(r.message, 200)
         && r == Record(r.accion, r.usuario, "", "", "", r.usuario2, r.message, 0)
       case _ => false
  }

  // ---------- Reading back ----------

  lemma {:induction false} SpanStops(t: string, s: string)
    requires '|' !in t && (s == "" || s[0] == '|')
    ensures Span(t + s) == |t|
  {
    if t == "" {
      assert t + s == s;
    } else {
      SpanStops(t[1..], s);
      assert (t + s)[1..] == t[1..] + s;
    }
  }

  lemma NextOfTwo(t: string, s: string)
    requires t != "" && '|' !in t
    ensures Next(t + "|" + s) == Token(Some(t), s) && Next(t) == Token(Some(t), "")
  {
    SpanStops(t, "|" + s);
    SpanStops(t, "");
    assert t + "|" + s == t + ("|" + s) && t + "" == t;
    assert (t + "|" + s)[..|t|] == t && (t + "|" + s)[|t| + 1..] == s;
  }

  // ---------- Splitting ----------

  function Tokens(s: string): seq<string>
    decreases |s|
  {
    if Next(s).text.None? then [] else
      RestIsShorter(s);
      [Next(s).text.value] + Tokens(Next(s).rest)
  }

  lemma RestIsShorter(s: string)
    requires Next(s).text.Some?
    ensures |Next(s).rest| < |s|
  {
    SkipStops(s);
  }

  lemma {:induction false} NthOfTokens(s: string, k: nat)
    ensures Nth(s, k) == if k < |Tokens(s)| then Some(Tokens(s)[k]) else None
    decreases k
  {
    if k > 0 {
      NthOfTokens(Next(s).rest, k - 1);
    }
  }

  ghost predicate AllPlain(ts: seq<string>) {
    forall i | 0 <= i < |ts| :: Plain(ts[i], 200)
  }

  /** What strtok_r can return. */
  predicate Solid(s: string) { s != "" && '|' !in s }

  ghost predicate AllSolid(ts: seq<string>) {
    forall i | 0 <= i < |ts| :: Solid(ts[i])
  }

  lemma PlainIsSolid(ts: seq<string>)
    requires AllPlain(ts)
    ensures AllSolid(ts)
  {
    forall i | 0 <= i < |ts| ensures Solid(ts[i]) { assert Plain(ts[i], 200); }
  }

  lemma NextOfJoined(ts: seq<string>)
    requires ts != [] && AllSolid(ts)
    ensures Next(Joined(ts)) == Token(Some(ts[0]), if |ts| == 1 then "" else Joined(ts[1..]))
    ensures AllSolid(ts[1..])
  {
    assert Solid(ts[0]);
    NextOfTwo(ts[0], if |ts| == 1 then "" else Joined(ts[1..]));
  }

  /** Splitting undoes joining. */
  lemma {:induction false} TokensOfJoined(ts: seq<string>)
    requires ts != [] && AllSolid(ts)
    ensures Tokens(Joined(ts)) == ts
  {
    NextOfJoined(ts);
    var rest := Next(Joined(ts)).rest;
    assert Tokens(Joined(ts)) == [ts[0]] + Tokens(rest);
    if |ts| == 1 {
      assert Tokens(rest) == [];
    } else {
      TokensOfJoined(ts[1..]);
    }
    assert ts == [ts[0]] + ts[1..];
  }

  lemma {:induction false} JoinedLength(ts: seq<string>)
    requires ts != [] && AllPlain(ts)
    ensures |Joined(ts)| < 200 * |ts|
  {
    assert Plain(ts[0], 200);
    if |ts| > 1 { JoinedLength(ts[1..]); }
  }

  function At(ts: seq<string>, k: nat): Option<string> { if k < |ts| then Some(ts[k]) else None }

  lemma FieldsBuild(r: Record)
    requires Printable(r)
    ensures var ts := Fields(r); Build(ts[0], At(ts, 1), At(ts, 2), At(ts, 3), At(ts, 4)) == Parsed(r)
  {}

  lemma FieldsArePlain(r: Record)
    requires Printable(r)
    ensures AllPlain(Fields(r)) && |Fields(r)| <= 5
  {}

  /** No request is cut short by the client's buffer, and interpret recovers every field of it. */
  lemma PrintThenInterpret(r: Record)
    requires Printable(r)
    ensures Print(r) == Joined(Fields(r)) && Interpret(Print(r)) == Parsed(r)
  {
    var ts := Fields(r);
    FieldsArePlain(r);
    JoinedLength(ts);
    FieldsBuild(r);
    PlainIsSolid(ts);
    InterpretJoined(ts);
  }

  lemma InterpretJoined(ts: seq<string>)
    requires ts != [] && AllSolid(ts)
    ensures Interpret(Joined(ts)) == Build(ts[0], At(ts, 1), At(ts, 2), At(ts, 3), At(ts, 4))
  {
    TokensOfJoined(ts);
    NthOfTokens(Joined(ts), 0);
    NthOfTokens(Joined(ts), 1);
    NthOfTokens(Joined(ts), 2);
    NthOfTokens(Joined(ts), 3);
    NthOfTokens(Joined(ts), 4);
  }

  /** The formats "%s|%s", "%s|%s|%s" and so on. */
  lemma JoinedIsTheFormat(a: string, b: string, c: string, d: string, e: string)
    ensures Joined([a, b]) == a + "|" + b
    ensures Joined([a, b, c]) == a + "|" + b + "|" + c
    ensures Joined([a, b, c, d]) == a + "|" + b + "|" + c + "|" + d
    ensures Joined([a, b, c, d, e]) == a + "|" + b + "|" + c + "|" + d + "|" + e
  {
    JoinedLast([a], b);
    JoinedLast([a, b], c);
    JoinedLast([a, b, c], d);
    JoinedLast([a, b, c, d], e);
    assert [a] + [b] == [a, b] && [a, b] + [c] == [a, b, c];
    assert [a, b, c] + [d] == [a, b, c, d] && [a, b, c, d] + [e] == [a, b, c, d, e];
  }

  lemma {:induction false} JoinedLast(ts: seq<string>, t: string)
    requires ts != []
    ensures Joined(ts + [t]) == Joined(ts) + "|" + t
  {
    if |ts| > 1 {
      JoinedLast(ts[1..], t);
      assert (ts + [t])[1..] == ts[1..] + [t];
    } else {
      assert (ts + [t])[1..] == [t];
    }
  }

  lemma {:induction false} SkipStops(s: string)
    ensures Skip(s) != "" ==> Skip(s)[0] != '|'
  {
    if s != "" && s[0] == '|' { SkipStops(s[1..]); }
  }

  predicate PlainToken(t: Option<string>) { t.Some? ==> t.value != "" && '|' !in t.value }

  lemma {:induction false} TokensArePlain(s: string, k: nat)
    ensures PlainToken(Nth(s, k))
    decreases k
  {
    if k == 0 { SkipStops(s); } else { TokensArePlain(Next(s).rest, k - 1); }
  }

  lemma BuildIsPrintable(accion: string, t1: Option<string>, t2: Option<string>, t3: Option<string>, t4: Option<string>)
    requires PlainToken(Some(accion)) && PlainToken(t1) && PlainToken(t2) && PlainToken(t3) && PlainToken(t4)
    requires var p := Build(accion, t1, t2, t3, t4);
      p.Parsed? && |p.record.accion| == 2 && p.record.accion[1] !in {'1', '5'}
    ensures Printable(Build(accion, t1, t2, t3, t4).record)
  {}

  /** Reading a line of one of the six commands gives a printable record; printing and reading it again changes nothing. */
  lemma InterpretThenPrint(s: string)
    requires Interpret(s).Parsed? && |Interpret(s).record.accion| == 2
    requires Interpret(s).record.accion[1] !in {'1', '5'}
    ensures Printable(Interpret(s).record)
    ensures Interpret(Print(Interpret(s).record)) == Interpret(s)
  {
    TokensArePlain(s, 0);
    TokensArePlain(s, 1);
    TokensArePlain(s, 2);
    TokensArePlain(s, 3);
    TokensArePlain(s, 4);
    BuildIsPrintable(Nth(s, 0).value, Nth(s, 1), Nth(s, 2), Nth(s, 3), Nth(s, 4));
    PrintThenInterpret(Interpret(s).record);
  }

  /** What interpret returns depends on the tokens only. */
  lemma SameTokensSameRecord(s: string, t: string)
    requires Tokens(s) == Tokens(t)
    ensures Interpret(s) == Interpret(t)
  {
    forall k: nat ensures Nth(s, k) == Nth(t, k) {
      NthOfTokens(s, k);
      NthOfTokens(t, k);
    }
  }

  // ---------- Runs of bars ----------

  lemma SkipBar(s: string)
    ensures Skip("|" + s) == Skip(s)
  {
    assert ("|" + s)[1..] == s;
  }

  /** A bar in front changes nothing. */
  lemma LeadingBar(s: string)
    ensures Tokens("|" + s) == Tokens(s)
  {
    SkipBar(s);
    assert Next("|" + s) == Next(s);
  }

  lemma {:induction false} SkipBefore(s: string, x: string)
    ensures Skip(s + x) == if Skip(s) == "" then Skip(x) else Skip(s) + x
  {
    if s == "" {
      assert s + x == x;
    } else if s[0] == '|' {
      assert (s + x)[1..] == s[1..] + x;
      SkipBefore(s[1..], x);
    }
  }

  lemma {:induction false} SpanBefore(s: string, x: string)
    requires x == "" || x[0] == '|'
    ensures Span(s + x) == Span(s)
  {
    if s == "" {
      assert s + x == x;
    } else if s[0] != '|' {
      assert (s + x)[1..] == s[1..] + x;
      SpanBefore(s[1..], x);
    }
  }

  lemma SlicesBefore(t: string, x: string, n: nat)
    requires n <= |t|
    ensures var u := t + ("|" + x);
      && u[..n] == t[..n]
      && u[n + 1..] == if n < |t| then t[n + 1..] + ("|" + x) else x
  {}

  lemma NextOfBars(s: string, x: string)
    requires Skip(s) == ""
    ensures Next(s + ("|" + x)) == Next(x)
  {
    SkipBefore(s, "|" + x);
    SkipBar(x);
  }

  /** The next token of s, with a text behind it that starts with a bar. */
  lemma NextBefore(s: string, x: string)
    requires Skip(s) != ""
    ensures var n := Next(s);
      Next(s + ("|" + x)) == Token(n.text, if Span(Skip(s)) == |Skip(s)| then x else n.rest + ("|" + x))
  {
    SkipBefore(s, "|" + x);
    SpanBefore(Skip(s), "|" + x);
    SlicesBefore(Skip(s), x, Span(Skip(s)));
  }

  /** A run of bars separates as one bar does. */
  lemma {:induction false} DoubledBar(s: string, t: string)
    ensures Tokens(s + ("|" + ("|" + t))) == Tokens(s + ("|" + t))
    decreases |s|
  {
    LeadingBar(t);
    if Skip(s) == "" {
      NextOfBars(s, "|" + t);
      NextOfBars(s, t);
      SkipBar(t);
    } else {
      NextBefore(s, "|" + t);
      NextBefore(s, t);
      if Span(Skip(s)) < |Skip(s)| {
        RestIsShorter(s);
        DoubledBar(Next(s).rest, t);
      }
    }
  }

  /** A bar at the end changes nothing. */
  lemma {:induction false} TrailingBar(s: string)
    ensures Tokens(s + ("|" + "")) == Tokens(s)
    decreases |s|
  {
    if Skip(s) == "" {
      NextOfBars(s, "");
    } else {
      NextBefore(s, "");
      if Span(Skip(s)) < |Skip(s)| {
        RestIsShorter(s);
        TrailingBar(Next(s).rest);
      }
    }
  }

  /** interpret does not see how many bars there are, between tokens or at either end. */
  lemma BarsCollapse(s: string, t: string)
    ensures Interpret(s + ("||" + t)) == Interpret(s + ("|" + t))
    ensures Interpret("|" + s) == Interpret(s) && Interpret(s + "|") == Interpret(s)
  {
    assert "||" + t == "|" + ("|" + t) && "|" + "" == "|";
    DoubledBar(s, t);
    LeadingBar(s);
    TrailingBar(s);
    SameTokensSameRecord(s + ("||" + t), s + ("|" + t));
    SameTokensSameRecord("|" + s, s);
    SameTokensSameRecord(s + "|", s);
  }

  predicate CToken(t: Option<string>) { t.Some? ==> '\0' !in t.value }

  lemma BuildFits(accion: string, t1: Option<string>, t2: Option<string>, t3: Option<string>, t4: Option<string>)
    requires CToken(Some(accion)) && CToken(t1) && CToken(t2) && CToken(t3) && CToken(t4)
    requires Build(accion, t1, t2, t3, t4).Parsed?
    ensures FieldsFit(Build(accion, t1, t2, t3, t4).record)
  {}

  /** What is read from a C string can be handed to the server. */
  lemma InterpretFits(s: string)
    requires '\0' !in s && Interpret(s).Parsed?
    ensures FieldsFit(Interpret(s).record)
  {
    NoNul(s, 0);
    NoNul(s, 1);
    NoNul(s, 2);
    NoNul(s, 3);
    NoNul(s, 4);
    BuildFits(Nth(s, 0).value, Nth(s, 1), Nth(s, 2), Nth(s, 3), Nth(s, 4));
  }

  lemma {:induction false} NoNul(s: string, k: nat)
    requires '\0' !in s
    ensures CToken(Nth(s, k))
    decreases k
  {
    SkipIsSuffix(s);
    if k > 0 { NoNul(Next(s).rest, k - 1); }
  }

  lemma {:induction false} SkipIsSuffix(s: string)
    ensures Skip(s) == s[|s| - |Skip(s)|..]
  {
    if s != "" && s[0] == '|' { SkipIsSuffix(s[1..]); }
  }

  // ---------- In place ----------

  /** The C string at position i: the characters up to the first NUL. */
  function CString(b: seq<char>, i: nat): string
    decreases |b| - i
  {
    if i >= |b| || b[i] == '\0' then "" else [b[i]] + CString(b, i + 1)
  }

  ghost predicate Terminated(b: seq<char>, i: nat) {
    exists j :: i <= j < |b| && b[j] == '\0'
  }

  lemma {:induction false} CStringEnds(b: seq<char>, i: nat)
    requires Terminated(b, i)
    ensures i + |CString(b, i)| < |b| && b[i + |CString(b, i)|] == '\0'
    ensures '\0' !in CString(b, i)
    ensures forall j | i <= j < i + |CString(b, i)| :: b[j] == CString(b, i)[j - i]
    decreases |b| - i
  {
    if b[i] != '\0' { CStringEnds(b, i + 1); }
  }

  lemma {:induction false} CStringIs(b: seq<char>, i: nat, s: string)
    requires i + |s| < |b| && b[i..i + |s|] == s && '\0' !in s && b[i + |s|] == '\0'
    ensures CString(b, i) == s
    decreases |s|
  {
    if s != "" {
      assert b[i] == s[0];
      CStringIs(b, i + 1, s[1..]);
    }
  }

  lemma {:induction false} CStringSame(b: seq<char>, c: seq<char>, i: nat)
    requires |b| == |c| && forall j | i <= j < |b| :: b[j] == c[j]
    ensures CString(b, i) == CString(c, i)
    decreases |b| - i
  {
    if i < |b| && b[i] != '\0' { CStringSame(b, c, i + 1); }
  }

  /** t is the C string at i, and its NUL is no later than the save pointer. */
  ghost predicate TokenAt(b: seq<char>, i: nat, save: nat, t: string) {
    && i + |t| < |b| && i + |t| <= save && b[i..i + |t|] == t && '\0' !in t && b[i + |t|] == '\0'
  }

  method Strspn(buf: array<char>, s: nat) returns (p: nat)
    requires Terminated(buf[..], s)
    ensures s <= p && Terminated(buf[..], p) && buf[..][p] != '|'
    ensures CString(buf[..], p) == Skip(CString(buf[..], s))
  {
    p := s;
    while buf[p] == '|'
      invariant s <= p && Terminated(buf[..], p)
      invariant Skip(CString(buf[..], s)) == Skip(CString(buf[..], p))
      decreases buf.Length - p
    {
      assert CString(buf[..], p)[1..] == CString(buf[..], p + 1);
      p := p + 1;
    }
  }

  /** One more character of a C string before its NUL. */
  lemma Extend(b: seq<char>, p: nat, e: nat)
    requires p <= e < |b| && b[e] != '\0' && b[e] != '|' && Terminated(b, e)
    requires CString(b, p) == b[p..e] + CString(b, e) && '|' !in b[p..e] && '\0' !in b[p..e]
    ensures Terminated(b, e + 1) && CString(b, p) == b[p..e + 1] + CString(b, e + 1)
    ensures '|' !in b[p..e + 1] && '\0' !in b[p..e + 1]
  {
    var j :| e <= j < |b| && b[j] == '\0';
    assert b[p..e + 1] == b[p..e] + [b[e]];
  }

  method Strcspn(buf: array<char>, p: nat) returns (e: nat)
    requires Terminated(buf[..], p)
    ensures p <= e && Terminated(buf[..], e) && (buf[..][e] == '|' || buf[..][e] == '\0')
    ensures CString(buf[..], p) == buf[..][p..e] + CString(buf[..], e)
    ensures '|' !in buf[..][p..e] && '\0' !in buf[..][p..e]
  {
    ghost var b := buf[..];
    e := p;
    while buf[e] != '\0' && buf[e] != '|'
      invariant p <= e < |b| && Terminated(b, e)
      invariant CString(b, p) == b[p..e] + CString(b, e) && '|' !in b[p..e] && '\0' !in b[p..e]
      decreases |b| - e
    {
      Extend(b, p, e);
      e := e + 1;
    }
  }

  /** The text between p and e is the next token of the text from s. */
  lemma TokenFound(b: seq<char>, s: nat, p: nat, e: nat)
    requires p < e < |b| && CString(b, p) == Skip(CString(b, s))
    requires CString(b, p) == b[p..e] + CString(b, e) && '|' !in b[p..e] && (b[e] == '|' || b[e] == '\0')
    ensures Next(CString(b, s)) == Token(Some(b[p..e]), if b[e] == '|' then CString(b, e + 1) else "")
  {
    var t := CString(b, p);
    SpanStops(b[p..e], CString(b, e));
    assert t[..e - p] == b[p..e];
    if b[e] == '|' {
      assert CString(b, e) == ['|'] + CString(b, e + 1);
      assert t == b[p..e] + ['|'] + CString(b, e + 1);
      assert t[e - p + 1..] == CString(b, e + 1);
    } else {
      assert CString(b, e) == "" && t == b[p..e];
    }
  }

  /** The tokens found in b before s are whole in c, before save. */
  ghost predicate Keeps(b: seq<char>, s: nat, c: seq<char>, save: nat) {
    forall i: nat, t :: TokenAt(b, i, s, t) ==> TokenAt(c, i, save, t)
  }

  lemma LaterSave(b: seq<char>, s: nat, save: nat)
    requires s <= save
    ensures Keeps(b, s, b, save)
  {}

  /** Cutting at a bar leaves the tokens before it and the text behind it. */
  lemma Cut(b: seq<char>, s: nat, e: nat)
    requires s <= e < |b| && b[e] == '|' && Terminated(b, e)
    ensures var c := b[e := '\0'];
      && CString(c, e + 1) == CString(b, e + 1) && Terminated(c, e + 1)
      && Keeps(b, s, c, e + 1)
  {
    var c := b[e := '\0'];
    CStringSame(b, c, e + 1);
    var j :| e <= j < |b| && b[j] == '\0';
    assert c[j] == '\0';
    forall i: nat, t | TokenAt(b, i, s, t) ensures TokenAt(c, i, e + 1, t) {
      assert c[i..i + |t|] == b[i..i + |t|];
    }
  }

  /** What strtok_r leaves behind: the token at start, the text for the next call at save, and the earlier tokens. */
  ghost predicate Cuts(b: seq<char>, s: nat, c: seq<char>, start: Option<nat>, save: nat) {
    && Terminated(c, save) && Keeps(b, s, c, save)
    && var t := Next(CString(b, s));
       && CString(c, save) == t.rest && start.Some? == t.text.Some?
       && (start.Some? ==> TokenAt(c, start.value, save, t.text.value))
  }

  lemma CutsNothing(b: seq<char>, s: nat, p: nat)
    requires s <= p && Terminated(b, p) && CString(b, p) == Skip(CString(b, s)) && b[p] == '\0'
    ensures Cuts(b, s, b, None, p)
  {
    LaterSave(b, s, p);
  }

  lemma CutsToken(b: seq<char>, s: nat, p: nat, e: nat)
    requires s <= p < e < |b| && Terminated(b, e) && CString(b, p) == Skip(CString(b, s))
    requires CString(b, p) == b[p..e] + CString(b, e) && '|' !in b[p..e] && '\0' !in b[p..e]
    ensures b[e] == '\0' ==> Cuts(b, s, b, Some(p), e)
    ensures b[e] == '|' ==> Cuts(b, s, b[e := '\0'], Some(p), e + 1)
  {
    if b[e] == '\0' {
      TokenFound(b, s, p, e);
      LaterSave(b, s, e);
    } else if b[e] == '|' {
      TokenFound(b, s, p, e);
      Cut(b, s, e);
      assert b[e := '\0'][p..e] == b[p..e];
    }
  }

  /** strtok_r with "|": the position of the token, or None for NULL, and the new save pointer. */
  method StrtokR(buf: array<char>, s: nat) returns (start: Option<nat>, save: nat)
    requires Terminated(buf[..], s)
    modifies buf
    ensures Cuts(old(buf[..]), s, buf[..], start, save)
  {
    ghost var b := buf[..];
    var p := Strspn(buf, s);
    if buf[p] == '\0' {
      CutsNothing(b, s, p);
      return None, p;
    }
    var e := Strcspn(buf, p);
    CutsToken(b, s, p, e);
    if buf[e] == '\0' { return Some(p), e; }
    buf[e] := '\0';
    assert buf[..] == b[e := '\0'];
    return Some(p), e + 1;
  }

  lemma TokenAtIsCString(b: seq<char>, i: nat, save: nat, t: string)
    requires TokenAt(b, i, save, t)
    ensures CString(b, i) == t
  {
    CStringIs(b, i, t);
  }

  /** The copy strcpy takes of a token. */
  function Text(b: seq<char>, start: Option<nat>): Option<string> {
    if start.Some? then Some(CString(b, start.value)) else None
  }

  lemma KeptIsText(b: seq<char>, start: Option<nat>, save: nat, t: Option<string>)
    requires start.Some? == t.Some? && (start.Some? ==> TokenAt(b, start.value, save, t.value))
    ensures Text(b, start) == t
  {
    if start.Some? { TokenAtIsCString(b, start.value, save, t.value); }
  }

  // The tokens a branch takes: all cut out of the buffer first, then copied out of it.

  method Take1(cadena: array<char>, accion: nat, saveptr: nat, ghost a: string, ghost rest: string)
      returns (text: string, t1: Option<string>)
    requires Terminated(cadena[..], saveptr) && TokenAt(cadena[..], accion, saveptr, a)
    requires CString(cadena[..], saveptr) == rest
    modifies cadena
    ensures text == a && t1 == Nth(rest, 0)
  {
    var s1, next;
    s1, next := StrtokR(cadena, saveptr);
    ghost var b := cadena[..];
    KeptIsText(b, Some(accion), next, Some(a));
    KeptIsText(b, s1, next, Nth(rest, 0));
    text := CString(cadena[..], accion);
    t1 := Text(cadena[..], s1);
  }

  method Take2(cadena: array<char>, accion: nat, saveptr: nat, ghost a: string, ghost rest: string)
      returns (text: string, t1: Option<string>, t2: Option<string>)
    requires Terminated(cadena[..], saveptr) && TokenAt(cadena[..], accion, saveptr, a)
    requires CString(cadena[..], saveptr) == rest
    modifies cadena
    ensures text == a && t1 == Nth(rest, 0) && t2 == Nth(rest, 1)
  {
    var s1, s2, next;
    s1, next := StrtokR(cadena, saveptr);
    s2, next := StrtokR(cadena, next);
    ghost var b := cadena[..];
    KeptIsText(b, Some(accion), next, Some(a));
    KeptIsText(b, s1, next, Nth(rest, 0));
    KeptIsText(b, s2, next, Nth(rest, 1));
    text := CString(cadena[..], accion);
    t1, t2 := Text(cadena[..], s1), Text(cadena[..], s2);
  }

  method Take3(cadena: array<char>, accion: nat, saveptr: nat, ghost a: string, ghost rest: string)
      returns (text: string, t1: Option<string>, t2: Option<string>, t3: Option<string>)
    requires Terminated(cadena[..], saveptr) && TokenAt(cadena[..], accion, saveptr, a)
    requires CString(cadena[..], saveptr) == rest
    modifies cadena
    ensures text == a && t1 == Nth(rest, 0) && t2 == Nth(rest, 1) && t3 == Nth(rest, 2)
  {
    var s1, s2, s3, next;
    s1, next := StrtokR(cadena, saveptr);
    s2, next := StrtokR(cadena, next);
    s3, next := StrtokR(cadena, next);
    ghost var b := cadena[..];
    KeptIsText(b, Some(accion), next, Some(a));
    KeptIsText(b, s1, next, Nth(rest, 0));
    KeptIsText(b, s2, next, Nth(rest, 1));
    KeptIsText(b, s3, next, Nth(rest, 2));
    text := CString(cadena[..], accion);
    t1, t2, t3 := Text(cadena[..], s1), Text(cadena[..], s2), Text(cadena[..], s3);
  }

  method Take4(cadena: array<char>, accion: nat, saveptr: nat, ghost a: string, ghost rest: string)
      returns (text: string, t1: Option<string>, t2: Option<string>, t3: Option<string>, t4: Option<string>)
    requires Terminated(cadena[..], saveptr) && TokenAt(cadena[..], accion, saveptr, a)
    requires CString(cadena[..], saveptr) == rest
    modifies cadena
    ensures text == a && t1 == Nth(rest, 0) && t2 == Nth(rest, 1) && t3 == Nth(rest, 2) && t4 == Nth(rest, 3)
  {
    var s1, s2, s3, s4, next;
    s1, next := StrtokR(cadena, saveptr);
    s2, next := StrtokR(cadena, next);
    s3, next := StrtokR(cadena, next);
    s4, next := StrtokR(cadena, next);
    ghost var b := cadena[..];
    KeptIsText(b, Some(accion), next, Some(a));
    KeptIsText(b, s1, next, Nth(rest, 0));
    KeptIsText(b, s2, next, Nth(rest, 1));
    KeptIsText(b, s3, next, Nth(rest, 2));
    KeptIsText(b, s4, next, Nth(rest, 3));
    text := CString(cadena[..], accion);
    t1, t2, t3, t4 := Text(cadena[..], s1), Text(cadena[..], s2), Text(cadena[..], s3), Text(cadena[..], s4);
  }

  /** interpret, on the buffer it is given. */
  method InterpretInPlace(cadena: array<char>) returns (p: Parsed)
    requires Terminated(cadena[..], 0)
    modifies cadena
    ensures p == Interpret(old(CString(cadena[..], 0)))
    ensures p.Parsed? ==> FieldsFit(p.record)
  {
    ghost var s := CString(cadena[..], 0);
    CStringEnds(cadena[..], 0);
    var accion, saveptr := StrtokR(cadena, 0);
    if accion.None? { return Undefined; }
    ghost var a, rest := Next(s).text.value, Next(s).rest;
    var i := accion.value;
    FirstToken(cadena[..], i, saveptr, s);
    var command := cadena[i + 1];
    var text, t1, t2, t3, t4;
    if command == '0' || command == '5' {
      text, t1, t2, t3, t4 := Take4(cadena, i, saveptr, a, rest);
      p := Build0(text, t1, t2, t3, t4);
    } else if command == '1' {
      text, t1, t2 := Take2(cadena, i, saveptr, a, rest);
      p := Build1(text, t1, t2);
    } else if command == '2' || command == '6' {
      text, t1 := Take1(cadena, i, saveptr, a, rest);
      p := Build2(text, t1);
    } else if command == '3' {
      text, t1, t2 := Take2(cadena, i, saveptr, a, rest);
      p := Build3(text, t1, t2);
    } else if command == '4' {
      text, t1, t2 := Take2(cadena, i, saveptr, a, rest);
      p := Build4(text, t1, t2);
    } else if command == '8' {
      text, t1, t2, t3 := Take3(cadena, i, saveptr, a, rest);
      p := Build8(text, t1, t2, t3);
    } else if command == '7' {
      p := ListReply;
    } else {
      p := Parsed(BLANK);
    }
    InterpretIsBuild(s);
    if p.Parsed? { InterpretFits(s); }
  }

  /** accion[1] is the second character of the first token, or its NUL. */
  lemma FirstToken(b: seq<char>, i: nat, save: nat, s: string)
    requires Next(s).text.Some? && TokenAt(b, i, save, Next(s).text.value)
    ensures var a := Next(s).text.value;
      i + 1 < |b| && b[i + 1] == if |a| > 1 then a[1] else '\0'
  {
    SkipStops(s);
    var a := Next(s).text.value;
    if |a| > 1 { assert b[i..i + |a|][1] == a[1]; }
  }

  lemma InterpretIsBuild(s: string)
    ensures var a := Next(s);
      Interpret(s) == if a.text.None? then Undefined
                      else Build(a.text.value, Nth(a.rest, 0), Nth(a.rest, 1), Nth(a.rest, 2), Nth(a.rest, 3))
  {
    assert Nth(s, 1) == Nth(Next(s).rest, 0) && Nth(s, 2) == Nth(Next(s).rest, 1);
    assert Nth(s, 3) == Nth(Next(s).rest, 2) && Nth(s, 4) == Nth(Next(s).rest, 3);
  }
}
