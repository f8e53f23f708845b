/** Extended-query state of a PostgreSQL connection: prepared statements, portals, and the decoding
    of Parse, Bind, Execute and Close (sections 55.2.3 and 55.7 of the PostgreSQL 16 documentation). */
module ExtendedQuery {
  import opened Seqs
  import opened Bytes
  import opened Options

  type Text = seq<byte>

  /** A frontend message: its type byte and its payload. */
  datatype Message = Message(kind: byte, payload: seq<byte>)

  datatype Command =
    | Parse(stmt: Text, query: Text)
    | Bind(portal: Text, stmt: Text, values: seq<Text>)
    | Execute(portal: Text)
    | CloseStatement(stmt: Text)
    | ClosePortal(portal: Text)
    | DescribeStatement(stmt: Text)
    | DescribePortal(portal: Text)

  const PARSE: byte := 0x50
  const BIND: byte := 0x42
  const EXECUTE: byte := 0x45
  const CLOSE: byte := 0x43
  const DESCRIBE: byte := 0x44
  const SYNC: byte := 0x53
  const QUERY: byte := 0x51
  const TERMINATE: byte := 0x58
  const STATEMENT: byte := 0x53
  const PORTAL: byte := 0x50

  // ---------------------------------------------------------------- reading messages

  /** bytes.IndexByte(bs, 0), with |bs| for "not found". */
  function IndexNul(bs: seq<byte>): (k: nat)
    ensures k <= |bs| && (k < |bs| ==> bs[k] == 0)
    ensures forall i | 0 <= i < k :: bs[i] != 0
  {
    if bs == [] || bs[0] == 0 then 0 else 1 + IndexNul(bs[1..])
  }

  /** Two NUL-terminated strings at the start of a payload, and where they end. */
  function TwoNames(payload: seq<byte>): (r: Option<(Text, Text, nat)>)
    ensures r.Some? ==> r.value.2 <= |payload|
  {
    var k := IndexNul(payload);
    if k == |payload| then None
    else
      var n := IndexNul(payload[k + 1..]);
      if n == |payload| - (k + 1) then None
      else Some((payload[..k], payload[k + 1..k + 1 + n], k + 1 + n + 1))
  }

  /** handleParse's reading (postgres.go:869-883). */
  function ReadParse(payload: seq<byte>): Option<Command> {
    match TwoNames(payload)
    case None => None
    case Some((stmt, query, _)) => Some(Parse(stmt, query))
  }

  /** The `n` length-prefixed values at `pos` (postgres.go:1033-1051). The length is an unsigned 32-bit
      number widened to Go's 64-bit int, so the test for -1 never succeeds. */
  function ReadValues(payload: seq<byte>, pos: nat, n: nat): Option<seq<Text>>
    decreases n
  {
    if n == 0 then Some([])
    else if pos + 4 > |payload| then None
    else
      var len := FromBigEndian(payload[pos..pos + 4]);
      if pos + 4 + len > |payload| then None
      else match ReadValues(payload, pos + 4 + len, n - 1)
           case None => None
           case Some(rest) => Some([payload[pos + 4..pos + 4 + len]] + rest)
  }

  /** Format codes are skipped, then come the parameter count and the values. */
  function ReadParameters(payload: seq<byte>, pos: nat): Option<seq<Text>> {
    if pos + 2 > |payload| then None
    else
      var next := pos + 2 + 2 * FromBigEndian(payload[pos..pos + 2]);
      if next + 2 > |payload| then None
      else ReadValues(payload, next + 2, FromBigEndian(payload[next..next + 2]))
  }

  /** handleBind's reading (postgres.go:990-1051). */
  function ReadBind(payload: seq<byte>): Option<Command> {
    match TwoNames(payload)
    case None => None
    case Some((portal, stmt, pos)) =>
      match ReadParameters(payload, pos)
      case None => None
      case Some(values) => Some(Bind(portal, stmt, values))
  }

  function ReadExecute(payload: seq<byte>): Option<Command> {
    var k := IndexNul(payload);
    if k == |payload| then None else Some(Execute(payload[..k]))
  }

  /** handleClose's reading (postgres.go:1326-1342): a name without its NUL loses its last byte. */
  function CloseName(payload: seq<byte>): Text
    requires |payload| >= 2
  {
    var k := IndexNul(payload[1..]);
    if k == |payload| - 1 then payload[1..|payload| - 1] else payload[1..1 + k]
  }

  function ReadClose(payload: seq<byte>): Option<Command> {
    if |payload| < 2 then None
    else if payload[0] == STATEMENT then Some(CloseStatement(CloseName(payload)))
    else if payload[0] == PORTAL then Some(ClosePortal(CloseName(payload)))
    else None
  }

  /** handleDescribe's reading (postgres.go:895-904, postgres.go:956-963). */
  function ReadDescribe(payload: seq<byte>): Option<Command> {
    if |payload| < 2 then None
    else
      var k := IndexNul(payload[1..]);
      if k == |payload| - 1 then None
      else if payload[0] == STATEMENT then Some(DescribeStatement(payload[1..1 + k]))
      else if payload[0] == PORTAL then Some(DescribePortal(payload[1..1 + k]))
      else None
  }

  function Read(m: Message): Option<Command> {
    if m.kind == PARSE then ReadParse(m.payload)
    else if m.kind == BIND then ReadBind(m.payload)
    else if m.kind == EXECUTE then ReadExecute(m.payload)
    else if m.kind == CLOSE then ReadClose(m.payload)
    else if m.kind == DESCRIBE then ReadDescribe(m.payload)
    else None
  }

  // ---------------------------------------------------------------- writing messages

  /** A value as the client sends it; None is NULL, whose length is -1. */
  function ValueBytes(v: Option<Text>): seq<byte> {
    match v
    case None => BigEndian(0xFFFF_FFFF, 4)
    case Some(s) => BigEndian(|s|, 4) + s
  }

  function ValuesBytes(vs: seq<Option<Text>>): seq<byte> {
    if vs == [] then [] else ValueBytes(vs[0]) + ValuesBytes(vs[1..])
  }

  ghost predicate NoNul(s: Text) { forall i | 0 <= i < |s| :: s[i] != 0 }

  /** What a client can put into one message: names without NUL, at most 65535 format codes and
      values, lengths that fit a signed 32-bit number. */
  ghost predicate Sendable(portal: Text, stmt: Text, formats: seq<byte>, formatCount: nat, values: seq<Option<Text>>) {
    && NoNul(portal) && NoNul(stmt)
    && formatCount < 0x1_0000 && |formats| == 2 * formatCount
    && |values| < 0x1_0000
    && forall i | 0 <= i < |values| :: values[i].Some? ==> |values[i].value| < 0x8000_0000
  }

  function BindParameters(formats: seq<byte>, formatCount: nat, values: seq<Option<Text>>, rest: seq<byte>): seq<byte> {
    BigEndian(formatCount, 2) + (formats + (BigEndian(|values|, 2) + (ValuesBytes(values) + rest)))
  }

  /** The Bind payload; `rest` is the result-column format codes. */
  function EncodeBind(portal: Text, stmt: Text, formats: seq<byte>, formatCount: nat, values: seq<Option<Text>>, rest: seq<byte>): seq<byte> {
    portal + ([0] + (stmt + ([0] + BindParameters(formats, formatCount, values, rest))))
  }

  function EncodeParse(stmt: Text, query: Text, types: seq<byte>): seq<byte> { stmt + ([0] + (query + ([0] + types))) }

  // ---------------------------------------------------------------- reading inverts writing

  lemma {:induction false} IndexNulOf(s: Text, rest: seq<byte>)
    requires NoNul(s)
    ensures IndexNul(s + ([0] + rest)) == |s|
  {
    if s != [] {
      assert (s + ([0] + rest))[1..] == s[1..] + ([0] + rest);
      IndexNulOf(s[1..], rest);
    }
  }

  lemma TwoNamesOf(a: Text, b: Text, rest: seq<byte>)
    requires NoNul(a) && NoNul(b)
    ensures TwoNames(a + ([0] + (b + ([0] + rest)))) == Some((a, b, |a| + 1 + |b| + 1))
  {
    hide IndexNul;
    var tail := b + ([0] + rest);
    var payload := a + ([0] + tail);
    IndexNulOf(a, tail);
    IndexNulOf(b, rest);
    AfterTwo(a, [0], tail);
    AfterPrefix(a, [0] + tail);
    AfterPrefix(b, [0] + rest);
    SliceOfSlice(payload, |a| + 1, |payload|, 0, |b|);
    assert payload[|a| + 1..|payload|] == tail;
  }

  lemma ParseInvertsEncode(stmt: Text, query: Text, types: seq<byte>)
    requires NoNul(stmt) && NoNul(query)
    ensures Read(Message(PARSE, EncodeParse(stmt, query, types))) == Some(Parse(stmt, query))
  {
    TwoNamesOf(stmt, query, types);
  }

  lemma ExecuteInvertsEncode(portal: Text, maxRows: seq<byte>)
    requires NoNul(portal)
    ensures Read(Message(EXECUTE, portal + ([0] + maxRows))) == Some(Execute(portal))
  {
    IndexNulOf(portal, maxRows);
    assert (portal + ([0] + maxRows))[..|portal|] == portal;
  }

  lemma CloseInvertsEncode(name: Text)
    requires NoNul(name)
    ensures Read(Message(CLOSE, [STATEMENT] + (name + ([0] + [])))) == Some(CloseStatement(name))
    ensures Read(Message(CLOSE, [PORTAL] + (name + ([0] + [])))) == Some(ClosePortal(name))
  {
    IndexNulOf(name, []);
    forall t: byte ensures CloseName([t] + (name + ([0] + []))) == name {
      var payload := [t] + (name + ([0] + []));
      assert payload[1..] == name + ([0] + []);
      assert payload[1..1 + |name|] == name;
    }
  }

  lemma {:induction false} NoNulNoIndex(s: Text)
    requires NoNul(s)
    ensures IndexNul(s) == |s|
  {
    if s != [] { NoNulNoIndex(s[1..]); }
  }

  /** Without its NUL, Close takes a name that lacks its last byte; shorter payloads and other kinds close
      nothing. */
  lemma UnterminatedClose(name: Text, kind: byte)
    requires NoNul(name)
    ensures name != [] ==> Read(Message(CLOSE, [STATEMENT] + name)) == Some(CloseStatement(name[..|name| - 1]))
    ensures name != [] ==> Read(Message(CLOSE, [PORTAL] + name)) == Some(ClosePortal(name[..|name| - 1]))
    ensures Read(Message(CLOSE, [])) == None && Read(Message(CLOSE, [kind])) == None
    ensures kind != STATEMENT && kind != PORTAL ==> Read(Message(CLOSE, [kind] + name)) == None
  {
    hide IndexNul;
    NoNulNoIndex(name);
    forall t: byte | name != [] ensures CloseName([t] + name) == name[..|name| - 1] {
      AfterPrefix([t], name);
      assert ([t] + name)[1..|name|] == name[..|name| - 1];
    }
  }

  ghost predicate NoNull(vs: seq<Option<Text>>) { forall i | 0 <= i < |vs| :: vs[i].Some? }

  function Plain(vs: seq<Option<Text>>): seq<Text>
    requires NoNull(vs)
  {
    seq(|vs|, i requires 0 <= i < |vs| => vs[i].value)
  }

  lemma Big4(v: nat)
    requires v < 0x1_0000_0000
    ensures FromBigEndian(BigEndian(v, 4)) == v
  {
    assert Pow256(1) == 256 && Pow256(2) == 0x1_0000 && Pow256(3) == 0x100_0000 && Pow256(4) == 0x1_0000_0000;
    BigEndianRoundTrip(v, 4);
  }

  lemma Big2(v: nat)
    requires v < 0x1_0000
    ensures FromBigEndian(BigEndian(v, 2)) == v
  {
    assert Pow256(1) == 256 && Pow256(2) == 0x1_0000;
    BigEndianRoundTrip(v, 2);
  }

  /** A slice of a sequence known from `pos` on. */
  lemma SliceAt(data: seq<byte>, pos: nat, a: seq<byte>, b: seq<byte>)
    requires pos <= |data| && data[pos..] == a + b
    ensures pos + |a| <= |data| && data[pos..pos + |a|] == a && data[pos + |a|..] == b
  {
    assert data[pos..pos + |a|] == data[pos..][..|a|];
    assert data[pos + |a|..] == data[pos..][|a|..];
  }

  lemma ValueAt(payload: seq<byte>, pos: nat, s: Text, rest: seq<byte>)
    requires pos <= |payload| && |s| < 0x8000_0000 && payload[pos..] == ValueBytes(Some(s)) + rest
    ensures pos + 4 + |s| <= |payload| && FromBigEndian(payload[pos..pos + 4]) == |s|
    ensures payload[pos + 4..pos + 4 + |s|] == s && payload[pos + 4 + |s|..] == rest
  {
    hide FromBigEndian, BigEndian;
    Big4(|s|);
    Regroup(BigEndian(|s|, 4), s, rest);
    SliceAt(payload, pos, BigEndian(|s|, 4), s + rest);
    SliceAt(payload, pos + 4, s, rest);
  }

  lemma NullAt(payload: seq<byte>, pos: nat, rest: seq<byte>)
    requires pos <= |payload| && payload[pos..] == ValueBytes(None) + rest
    ensures pos + 4 <= |payload| && FromBigEndian(payload[pos..pos + 4]) == 0xFFFF_FFFF
  {
    hide FromBigEndian, BigEndian;
    Big4(0xFFFF_FFFF);
    SliceAt(payload, pos, BigEndian(0xFFFF_FFFF, 4), rest);
  }

  lemma {:induction false} ReadValuesOf(payload: seq<byte>, pos: nat, vs: seq<Option<Text>>, rest: seq<byte>)
    requires pos <= |payload| < 0x1_0000_0000 && payload[pos..] == ValuesBytes(vs) + rest
    requires forall i | 0 <= i < |vs| :: vs[i].Some? ==> |vs[i].value| < 0x8000_0000
    ensures ReadValues(payload, pos, |vs|) == if NoNull(vs) then Some(Plain(vs)) else None
    decreases |vs|
  {
    hide FromBigEndian, ValueBytes;
    if vs != [] {
      Regroup(ValueBytes(vs[0]), ValuesBytes(vs[1..]), rest);
      match vs[0]
      case None => NullAt(payload, pos, ValuesBytes(vs[1..]) + rest);
      case Some(s) =>
        ValueAt(payload, pos, s, ValuesBytes(vs[1..]) + rest);
        ReadValuesOf(payload, pos + 4 + |s|, vs[1..], rest);
        assert NoNull(vs) <==> NoNull(vs[1..]) by { assert vs == [vs[0]] + vs[1..]; }
        if NoNull(vs) { assert Plain(vs) == [s] + Plain(vs[1..]); }
    }
  }

  lemma ReadParametersOf(payload: seq<byte>, pos: nat, formats: seq<byte>, formatCount: nat, values: seq<Option<Text>>, rest: seq<byte>)
    requires Sendable([], [], formats, formatCount, values) && pos <= |payload| < 0x1_0000_0000
    requires payload[pos..] == BindParameters(formats, formatCount, values, rest)
    ensures ReadParameters(payload, pos) == if NoNull(values) then Some(Plain(values)) else None
  {
    hide FromBigEndian, BigEndian, ValuesBytes, ReadValues, NoNull, Plain;
    var count := BigEndian(|values|, 2);
    var tail := ValuesBytes(values) + rest;
    Big2(formatCount);
    Big2(|values|);
    SliceAt(payload, pos, BigEndian(formatCount, 2), formats + (count + tail));
    SliceAt(payload, pos + 2, formats, count + tail);
    SliceAt(payload, pos + 2 + |formats|, count, tail);
    ReadValuesOf(payload, pos + 4 + |formats|, values, rest);
  }

  /** Bind decoding inverts encoding exactly when no value is NULL; a Bind with a NULL is refused.
      The bound on the payload is that of the message's 32-bit length word. */
  lemma BindInvertsEncode(portal: Text, stmt: Text, formats: seq<byte>, formatCount: nat, values: seq<Option<Text>>, rest: seq<byte>)
    requires Sendable(portal, stmt, formats, formatCount, values)
    requires |EncodeBind(portal, stmt, formats, formatCount, values, rest)| + 4 < 0x1_0000_0000
    ensures Read(Message(BIND, EncodeBind(portal, stmt, formats, formatCount, values, rest)))
         == if NoNull(values) then Some(Bind(portal, stmt, Plain(values))) else None
  {
    hide BindParameters, ReadParameters, TwoNames, NoNull, Plain;
    var parameters := BindParameters(formats, formatCount, values, rest);
    var payload := EncodeBind(portal, stmt, formats, formatCount, values, rest);
    TwoNamesOf(portal, stmt, parameters);
    var pos := |portal| + 1 + |stmt| + 1;
    assert payload[pos..] == parameters;
    ReadParametersOf(payload, pos, formats, formatCount, values, rest);
  }

  // ---------------------------------------------------------------- the connection's state

  datatype Session = Session(prepared: map<Text, Text>, bound: map<Text, seq<Text>>, attached: map<Text, Text>)

  const Fresh: Session := Session(map[], map[], map[])

  /** What a message is answered with. An ErrorResponse to Parse or Bind is followed by ReadyForQuery.
      `Described` stands for the descriptions derived from the statement's text. `Runs` and
      `Refused` are an Execute that the backend, the cache or a write batch answers with a result
      or with an error, and `Queries` is a simple query. */
  datatype Reply =
    | ParseComplete
    | BindComplete
    | CloseComplete
    | Described(query: Text)
    | NoData
    | Runs(query: Text, values: seq<Text>)
    | Refused(query: Text, values: seq<Text>)
    | Queries(text: Text)
    | Ready
    | Rejected(ready: bool)

  /** What a command does to the state; None is a message that could not be read. */
  function Apply(s: Session, c: Option<Command>): Session {
    match c
    case Some(Parse(stmt, query)) => s.(prepared := s.prepared[stmt := query])
    case Some(Bind(portal, stmt, values)) =>
      if stmt in s.prepared
      then s.(bound := s.bound[portal := values], attached := s.attached[portal := stmt])
      else s
    case Some(CloseStatement(stmt)) => s.(prepared := s.prepared - {stmt})
    case Some(ClosePortal(portal)) => s.(bound := s.bound - {portal})
    case _ => s
  }

  /** The query and values Execute runs a portal with. */
  function Lookup(s: Session, portal: Text): Reply {
    var values := if portal in s.bound then s.bound[portal] else [];
    var stmt := if portal in s.attached then s.attached[portal] else [];
    if stmt in s.prepared then Runs(s.prepared[stmt], values) else Rejected(false)
  }

  /** The text of a simple query (postgres.go:478-482). */
  function QueryText(payload: seq<byte>): Text {
    if payload != [] && payload[|payload| - 1] == 0 then payload[..|payload| - 1] else payload
  }

  /** What Execute is answered with; `refused` says that the execution, if there is one, fails. */
  function Executed(s: Session, portal: Text, refused: bool): Reply {
    match Lookup(s, portal)
    case Runs(query, values) => if refused then Refused(query, values) else Runs(query, values)
    case reply => reply
  }

  function Answer(s: Session, m: Message, refused: bool): Reply {
    if m.kind == CLOSE then CloseComplete
    else if m.kind == QUERY then Queries(QueryText(m.payload))
    else
      match Read(m)
      case Some(Parse(_, _)) => ParseComplete
      case Some(Bind(_, stmt, _)) => if stmt in s.prepared then BindComplete else Rejected(true)
      case Some(Execute(portal)) => Executed(s, portal, refused)
      case Some(DescribeStatement(stmt)) => if stmt in s.prepared then Described(s.prepared[stmt]) else Rejected(false)
      case Some(DescribePortal(_)) => NoData
      case _ =>
        if m.kind == PARSE || m.kind == BIND then Rejected(true)
        else if m.kind == EXECUTE || m.kind == DESCRIBE then Rejected(false)
        else Ready
  }

  /** The NUL that clients send behind a simple query is not part of it. */
  lemma QueryTextOf(text: Text)
    ensures QueryText(text + [0]) == text && (text == [] || text[|text| - 1] != 0 ==> QueryText(text) == text)
  {
    assert (text + [0])[..|text|] == text;
  }

  /** Which message gets which answer: completions for what was done, a description or an execution only of
      what is held under the name, and an error exactly for what was not done. */
  lemma AnswerIff(s: Session, m: Message, refused: bool)
    ensures var reply := Answer(s, m, refused);
            && (reply == ParseComplete <==> m.kind == PARSE && Read(m).Some?)
            && (reply == BindComplete <==> m.kind == BIND && Read(m).Some? && Read(m).value.stmt in s.prepared)
            && (reply == CloseComplete <==> m.kind == CLOSE)
            && (forall query: Text :: reply == Described(query) <==>
                  m.kind == DESCRIBE && Read(m).Some? && Read(m).value.DescribeStatement? &&
                  Read(m).value.stmt in s.prepared && s.prepared[Read(m).value.stmt] == query)
            && (reply == NoData <==> m.kind == DESCRIBE && Read(m).Some? && Read(m).value.DescribePortal?)
            && (forall text: Text :: reply == Queries(text) <==> m.kind == QUERY && text == QueryText(m.payload))
            && (reply == Ready <==> m.kind !in {PARSE, BIND, EXECUTE, DESCRIBE, CLOSE, QUERY})
            && (reply == Rejected(true) <==> (m.kind == PARSE || m.kind == BIND) && reply != ParseComplete && reply != BindComplete)
            && (reply == Rejected(false) <==> (m.kind == EXECUTE && !reply.Runs? && !reply.Refused?) || (m.kind == DESCRIBE && !reply.Described? && !reply.NoData?))
  {
    ReadKinds(m);
  }

  lemma ReadKinds(m: Message)
    ensures Read(m).Some? ==>
            match Read(m).value
            case Parse(_, _) => m.kind == PARSE
            case Bind(_, _, _) => m.kind == BIND
            case Execute(_) => m.kind == EXECUTE
            case CloseStatement(_) => m.kind == CLOSE
            case ClosePortal(_) => m.kind == CLOSE
            case DescribeStatement(_) => m.kind == DESCRIBE
            case DescribePortal(_) => m.kind == DESCRIBE
  {
  }

  function Run(s: Session, ms: seq<Message>): Session {
    if ms == [] then s else Apply(Run(s, ms[..|ms| - 1]), Read(ms[|ms| - 1]))
  }

  lemma RunNothing(s: Session, ms: seq<Message>)
    ensures Run(s, ms[..0]) == s
  {
  }

  lemma RunSnoc(s: Session, ms: seq<Message>, i: nat)
    requires i < |ms|
    ensures Run(s, ms[..i + 1]) == Apply(Run(s, ms[..i]), Read(ms[i]))
  {
    assert ms[..i + 1][..i] == ms[..i];
  }

  class Connection {
    var preparedStatements: map<Text, Text>
    var boundParams: map<Text, seq<Text>>
    var portalStatements: map<Text, Text>

    ghost function State(): Session
      reads this
    {
      Session(preparedStatements, boundParams, portalStatements)
    }

    constructor ()
      ensures State() == Fresh
    {
      preparedStatements, boundParams, portalStatements := map[], map[], map[];
    }

    method HandleParse(payload: seq<byte>) returns (reply: Reply)
      modifies this
      ensures State() == Apply(old(State()), ReadParse(payload))
      ensures reply == Answer(old(State()), Message(PARSE, payload), false)
      ensures reply.Rejected? ==> State() == old(State())
    {
      hide IndexNul, Lookup;
      var stmtNameEnd := IndexNul(payload);
      if stmtNameEnd == |payload| { return Rejected(true); }
      var queryStart := stmtNameEnd + 1;
      var queryEnd := IndexNul(payload[queryStart..]);
      if queryEnd == |payload[queryStart..]| { return Rejected(true); }
      var query := payload[queryStart..queryStart + queryEnd];
      assert ReadParse(payload) == Some(Parse(payload[..stmtNameEnd], query));
      preparedStatements := preparedStatements[payload[..stmtNameEnd] := query];
      return ParseComplete;
    }

    method HandleBind(payload: seq<byte>) returns (reply: Reply)
      modifies this
      ensures State() == Apply(old(State()), ReadBind(payload))
      ensures reply == Answer(old(State()), Message(BIND, payload), false)
      ensures reply.Rejected? ==> State() == old(State())
    {
      hide IndexNul, ReadParameters;
      var portalNameEnd := IndexNul(payload);
      if portalNameEnd == |payload| { return Rejected(true); }
      var stmtStart := portalNameEnd + 1;
      var stmtNameEnd := IndexNul(payload[stmtStart..]);
      if stmtNameEnd == |payload[stmtStart..]| { return Rejected(true); }
      var portalName, stmtName := payload[..portalNameEnd], payload[stmtStart..stmtStart + stmtNameEnd];
      if stmtName !in preparedStatements { return Rejected(true); }
      var params := BindValues(payload, stmtStart + stmtNameEnd + 1);
      if params.None? { return Rejected(true); }
      portalStatements := portalStatements[portalName := stmtName];
      boundParams := boundParams[portalName := params.value];
      return BindComplete;
    }

    /** handleExecute: the lookups at its start (postgres.go:1063-1091), and an execution that succeeds or
        fails (postgres.go:1166-1168, postgres.go:1260-1266). */
    method HandleExecute(payload: seq<byte>, refused: bool) returns (reply: Reply)
      ensures reply == Answer(State(), Message(EXECUTE, payload), refused)
    {
      var portalNameEnd := IndexNul(payload);
      if portalNameEnd == |payload| { return Rejected(false); }
      var portalName := payload[..portalNameEnd];
      var params := [];
      if portalName in boundParams { params := boundParams[portalName]; }
      var stmtName := [];
      if portalName in portalStatements { stmtName := portalStatements[portalName]; }
      if stmtName !in preparedStatements { return Rejected(false); }
      if refused { return Refused(preparedStatements[stmtName], params); }
      return Runs(preparedStatements[stmtName], params);
    }

    method HandleDescribe(payload: seq<byte>) returns (reply: Reply)
      ensures reply == Answer(State(), Message(DESCRIBE, payload), false)
    {
      if |payload| < 2 { return Rejected(false); }
      var descType := payload[0];
      var nameEnd := IndexNul(payload[1..]);
      if nameEnd == |payload[1..]| { return Rejected(false); }
      var name := payload[1..1 + nameEnd];
      if descType == STATEMENT {
        if name !in preparedStatements { return Rejected(false); }
        return Described(preparedStatements[name]);
      } else if descType == PORTAL {
        return NoData;
      }
      return Rejected(false);
    }

    method HandleClose(payload: seq<byte>)
      modifies this
      ensures State() == Apply(old(State()), ReadClose(payload))
    {
      if |payload| < 2 { return; }
      var nameEnd := IndexNul(payload[1..]);
      nameEnd := if nameEnd == |payload[1..]| then |payload| - 1 else nameEnd + 1;
      var name := payload[1..nameEnd];
      if payload[0] == STATEMENT {
        preparedStatements := preparedStatements - {name};
      } else if payload[0] == PORTAL {
        boundParams := boundParams - {name};
      }
    }

    /** The message loop: it ends with the stream or at Terminate. `refused(i)` says that an execution
        of message `i` fails. */
    method HandleMessages(ms: seq<Message>, refused: nat -> bool) returns (replies: seq<Reply>)
      modifies this
      ensures |replies| <= |ms| && (|replies| < |ms| ==> ms[|replies|].kind == TERMINATE)
      ensures forall i | 0 <= i < |replies| :: ms[i].kind != TERMINATE
      ensures State() == Run(old(State()), ms[..|replies|])
      ensures forall i | 0 <= i < |replies| :: replies[i] == Answer(Run(old(State()), ms[..i]), ms[i], refused(i))
    {
      hide Apply, Answer, Read, Run, IndexNul;
      replies := [];
      ghost var start := State();
      RunNothing(start, ms);
      for i := 0 to |ms|
        invariant |replies| == i
        invariant State() == Run(start, ms[..i])
        invariant forall j | 0 <= j < i :: ms[j].kind != TERMINATE
        invariant forall j | 0 <= j < i :: replies[j] == Answer(Run(start, ms[..j]), ms[j], refused(j))
      {
        if ms[i].kind == TERMINATE { return; }
        RunSnoc(start, ms, i);
        ghost var before := replies;
        var reply := HandleMessage(ms[i], refused(i));
        assert reply == Answer(Run(start, ms[..i]), ms[i], refused(i));
        replies := replies + [reply];
        assert forall j | 0 <= j < i :: replies[j] == before[j];
      }
    }

    method HandleMessage(m: Message, refused: bool) returns (reply: Reply)
      modifies this
      ensures State() == Apply(old(State()), Read(m))
      ensures reply == Answer(old(State()), m, refused)
    {
      if m.kind == PARSE {
        reply := HandleParse(m.payload);
      } else if m.kind == BIND {
        reply := HandleBind(m.payload);
      } else if m.kind == EXECUTE {
        reply := HandleExecute(m.payload, refused);
      } else if m.kind == CLOSE {
        HandleClose(m.payload);
        reply := CloseComplete;
      } else if m.kind == DESCRIBE {
        reply := HandleDescribe(m.payload);
      } else if m.kind == QUERY {
        reply := Queries(QueryText(m.payload));
      } else {
        reply := Ready;
      }
    }
  }

  /** handleBind's parameter section (postgres.go:1015-1051). */
  method BindValues(payload: seq<byte>, start: nat) returns (r: Option<seq<Text>>)
    ensures r == ReadParameters(payload, start)
  {
    hide FromBigEndian;
    var pos: nat := start;
    if pos + 2 > |payload| { return None; }
    var numFormatCodes := FromBigEndian(payload[pos..pos + 2]);
    pos := pos + 2;
    pos := pos + numFormatCodes * 2;
    if pos + 2 > |payload| { return None; }
    var numParams := FromBigEndian(payload[pos..pos + 2]);
    pos := pos + 2;
    ghost var first := pos;
    var params: seq<Text> := [];
    PrependNone(ReadValues(payload, first, numParams));
    for i := 0 to numParams
      invariant pos >= 0
      invariant ReadValues(payload, first, numParams) == PrependAll(params, ReadValues(payload, pos, numParams - i))
    {
      if pos + 4 > |payload| { return None; }
      var paramLen := FromBigEndian(payload[pos..pos + 4]);
      pos := pos + 4;
      if pos + paramLen > |payload| { return None; }
      PrependSnoc(params, payload[pos..pos + paramLen], ReadValues(payload, pos + paramLen, numParams - i - 1));
      params := params + [payload[pos..pos + paramLen]];
      pos := pos + paramLen;
    }
    assert params + [] == params;
    return Some(params);
  }

  function PrependAll(vs: seq<Text>, r: Option<seq<Text>>): Option<seq<Text>> {
    match r case None => None case Some(ws) => Some(vs + ws)
  }

  lemma PrependNone(r: Option<seq<Text>>)
    ensures PrependAll([], r) == r
  {
    if r.Some? { assert [] + r.value == r.value; }
  }

  lemma PrependSnoc(vs: seq<Text>, v: Text, r: Option<seq<Text>>)
    ensures PrependAll(vs + [v], r) == PrependAll(vs, PrependAll([v], r))
  {
    if r.Some? { assert vs + [v] + r.value == vs + ([v] + r.value); }
  }

  // ---------------------------------------------------------------- history

  predicate ParsesAs(m: Message, stmt: Text, query: Text) { Read(m) == Some(Parse(stmt, query)) }

  predicate TouchesStatement(m: Message, stmt: Text) {
    match Read(m)
    case Some(Parse(s, _)) => s == stmt
    case Some(CloseStatement(s)) => s == stmt
    case _ => false
  }

  /** `query` is the text last parsed under `stmt`, and `stmt` was not closed since. */
  ghost predicate OpenAs(ms: seq<Message>, stmt: Text, query: Text) {
    exists k :: 0 <= k < |ms| && ParsesAs(ms[k], stmt, query) && UntouchedAfter(ms, k, stmt)
  }

  ghost predicate UntouchedAfter(ms: seq<Message>, k: int, stmt: Text) {
    forall j | 0 <= j < |ms| :: k < j ==> !TouchesStatement(ms[j], stmt)
  }

  ghost predicate Open(ms: seq<Message>, stmt: Text) { exists query :: OpenAs(ms, stmt, query) }

  /** Message `k` is a Bind of `portal` to a statement open at that time. */
  ghost predicate Binds(ms: seq<Message>, k: int, portal: Text) {
    && 0 <= k < |ms|
    && Read(ms[k]).Some? && Read(ms[k]).value.Bind? && Read(ms[k]).value.portal == portal
    && Open(ms[..k], Read(ms[k]).value.stmt)
  }

  ghost predicate LastBind(ms: seq<Message>, k: int, portal: Text) {
    Binds(ms, k, portal) && forall j | k < j < |ms| :: !Binds(ms, j, portal)
  }

  ghost predicate ClosedSince(ms: seq<Message>, k: int, portal: Text) {
    exists j :: 0 <= j < |ms| && k < j && Read(ms[j]) == Some(ClosePortal(portal))
  }

  lemma OpenSnoc(ms: seq<Message>, m: Message, stmt: Text, query: Text)
    ensures OpenAs(ms + [m], stmt, query) <==>
            if TouchesStatement(m, stmt) then ParsesAs(m, stmt, query) else OpenAs(ms, stmt, query)
  {
    hide Read;
    var all := ms + [m];
    assert all[|ms|] == m;
    if OpenAs(all, stmt, query) {
      var k :| 0 <= k < |all| && ParsesAs(all[k], stmt, query) && UntouchedAfter(all, k, stmt);
      if k < |ms| {
        assert ParsesAs(ms[k], stmt, query);
        assert UntouchedAfter(ms, k, stmt) by {
          forall j | 0 <= j < |ms| && k < j ensures !TouchesStatement(ms[j], stmt) { assert all[j] == ms[j]; }
        }
      }
    }
    if TouchesStatement(m, stmt) && ParsesAs(m, stmt, query) {
      assert UntouchedAfter(all, |ms|, stmt);
    }
    if !TouchesStatement(m, stmt) && OpenAs(ms, stmt, query) {
      var k :| 0 <= k < |ms| && ParsesAs(ms[k], stmt, query) && UntouchedAfter(ms, k, stmt);
      assert all[k] == ms[k];
      assert UntouchedAfter(all, k, stmt);
    }
  }

  /** A statement is in the map, with this text, exactly when the history says so. */
  lemma {:induction false} PreparedIsHistory(ms: seq<Message>, stmt: Text, query: Text)
    ensures (stmt in Run(Fresh, ms).prepared && Run(Fresh, ms).prepared[stmt] == query) <==> OpenAs(ms, stmt, query)
    decreases |ms|
  {
    hide Read;
    if ms != [] {
      var before, m := ms[..|ms| - 1], ms[|ms| - 1];
      assert ms == before + [m];
      PreparedIsHistory(before, stmt, query);
      OpenSnoc(before, m, stmt, query);
    }
  }

  lemma OpenIsPrepared(ms: seq<Message>, stmt: Text)
    ensures stmt in Run(Fresh, ms).prepared <==> Open(ms, stmt)
  {
    if stmt in Run(Fresh, ms).prepared { PreparedIsHistory(ms, stmt, Run(Fresh, ms).prepared[stmt]); }
    if query :| OpenAs(ms, stmt, query) { PreparedIsHistory(ms, stmt, query); }
  }

  lemma BindsSnoc(ms: seq<Message>, m: Message, k: int, portal: Text)
    requires 0 <= k < |ms|
    ensures Binds(ms + [m], k, portal) == Binds(ms, k, portal)
  {
    assert (ms + [m])[..k] == ms[..k];
  }

  ghost predicate EverBound(ms: seq<Message>, portal: Text) { exists k :: LastBind(ms, k, portal) }

  /** What the portal maps hold, in terms of the last accepted Bind. */
  ghost predicate PortalIs(ms: seq<Message>, portal: Text, k: int)
    requires LastBind(ms, k, portal)
  {
    var s, b := Run(Fresh, ms), Read(ms[k]).value;
    && portal in s.attached && s.attached[portal] == b.stmt
    && (portal in s.bound <==> !ClosedSince(ms, k, portal))
    && (portal in s.bound ==> s.bound[portal] == b.values)
  }

  lemma LastBindSnoc(ms: seq<Message>, m: Message, k: int, portal: Text)
    ensures LastBind(ms + [m], k, portal) <==>
            if Binds(ms + [m], |ms|, portal) then k == |ms| else LastBind(ms, k, portal)
  {
    hide Read, Open;
    var all := ms + [m];
    forall j | 0 <= j < |ms| ensures Binds(all, j, portal) == Binds(ms, j, portal) { BindsSnoc(ms, m, j, portal); }
  }

  lemma ClosedSnoc(ms: seq<Message>, m: Message, k: int, portal: Text)
    requires k < |ms|
    ensures ClosedSince(ms + [m], k, portal) <==> (ClosedSince(ms, k, portal) || Read(m) == Some(ClosePortal(portal)))
  {
    hide Read;
    var all := ms + [m];
    assert all[|ms|] == m;
    if j :| 0 <= j < |ms| && k < j && Read(ms[j]) == Some(ClosePortal(portal)) { assert all[j] == ms[j]; }
  }

  /** Once bound, a portal stays attached to its last statement; it keeps the values of that Bind
      until it is closed. */
  lemma {:induction false} PortalIsHistory(ms: seq<Message>, portal: Text, k: int)
    requires LastBind(ms, k, portal)
    ensures PortalIs(ms, portal, k)
    decreases |ms|
  {
    hide Read, Open;
    var n := |ms| - 1;
    var before, m := ms[..n], ms[n];
    assert ms == before + [m];
    LastBindSnoc(before, m, k, portal);
    BindTaken(ms, portal);
    if k < n {
      PortalIsHistory(before, portal, k);
      ClosedSnoc(before, m, k, portal);
    }
  }

  /** The last message binds the portal exactly when the step overwrites the portal's entries. */
  lemma BindTaken(ms: seq<Message>, portal: Text)
    requires ms != []
    ensures var n := |ms| - 1;
            var c := Read(ms[n]);
            Binds(ms, n, portal) <==>
            (c.Some? && c.value.Bind? && c.value.portal == portal && c.value.stmt in Run(Fresh, ms[..n]).prepared)
  {
    hide Read;
    var c := Read(ms[|ms| - 1]);
    if c.Some? && c.value.Bind? { OpenIsPrepared(ms[..|ms| - 1], c.value.stmt); }
  }

  lemma {:induction false} NeverBoundIsHistory(ms: seq<Message>, portal: Text)
    requires !EverBound(ms, portal)
    ensures portal !in Run(Fresh, ms).attached && portal !in Run(Fresh, ms).bound
    decreases |ms|
  {
    hide Read, Open;
    if ms != [] {
      var n := |ms| - 1;
      var before, m := ms[..n], ms[n];
      assert ms == before + [m];
      LastBindSnoc(before, m, n, portal);
      BindTaken(ms, portal);
      if k :| LastBind(before, k, portal) { LastBindSnoc(before, m, k, portal); }
      NeverBoundIsHistory(before, portal);
    }
  }

  /** What Execute must run, told by the history alone. */
  ghost predicate ExecutesAs(ms: seq<Message>, portal: Text, query: Text, values: seq<Text>) {
    if EverBound(ms, portal) then
      exists k :: LastBind(ms, k, portal) && OpenAs(ms, Read(ms[k]).value.stmt, query)
               && values == if ClosedSince(ms, k, portal) then [] else Read(ms[k]).value.values
    else OpenAs(ms, [], query) && values == []
  }

  lemma OneLastBind(ms: seq<Message>, j: int, k: int, portal: Text)
    requires LastBind(ms, j, portal) && LastBind(ms, k, portal)
    ensures j == k
  {
  }

  /** Execute runs exactly what the history says. */
  lemma ExecuteIsHistory(ms: seq<Message>, portal: Text, query: Text, values: seq<Text>)
    ensures Lookup(Run(Fresh, ms), portal) == Runs(query, values) <==> ExecutesAs(ms, portal, query, values)
  {
    hide Read, OpenAs, Open;
    if k :| LastBind(ms, k, portal) {
      PortalIsHistory(ms, portal, k);
      PreparedIsHistory(ms, Read(ms[k]).value.stmt, query);
      forall j | LastBind(ms, j, portal) ensures j == k { OneLastBind(ms, j, k, portal); }
    } else {
      NeverBoundIsHistory(ms, portal);
      PreparedIsHistory(ms, [], query);
    }
  }

  /** On a portal still bound whose statement is still open, Execute uses the text last parsed under the
      statement name last bound there, and exactly that Bind's values. */
  lemma ExecuteUsesLastBind(ms: seq<Message>, portal: Text, k: int, query: Text)
    ensures LastBind(ms, k, portal) && !ClosedSince(ms, k, portal) && OpenAs(ms, Read(ms[k]).value.stmt, query) ==>
              Lookup(Run(Fresh, ms), portal) == Runs(query, Read(ms[k]).value.values)
  {
    hide Read, OpenAs, Run;
    if LastBind(ms, k, portal) { ExecuteIsHistory(ms, portal, query, Read(ms[k]).value.values); }
  }

  /** Closing a portal does not stop Execute: the statement runs without values. The protocol would
      report an unknown portal. */
  lemma ClosedPortalStillRuns(ms: seq<Message>, portal: Text, k: int, query: Text)
    ensures LastBind(ms, k, portal) && ClosedSince(ms, k, portal) && OpenAs(ms, Read(ms[k]).value.stmt, query) ==>
              Lookup(Run(Fresh, ms), portal) == Runs(query, [])
  {
    hide Read, OpenAs, Run;
    if LastBind(ms, k, portal) { ExecuteIsHistory(ms, portal, query, []); }
  }

  lemma RunOfFour(a: Message, b: Message, c: Message, d: Message)
    ensures Run(Fresh, [a, b, c, d]) == Apply(Apply(Apply(Apply(Fresh, Read(a)), Read(b)), Read(c)), Read(d))
  {
    hide Apply, Read;
    assert [a, b, c, d][..3] == [a, b, c] && [a, b, c][..2] == [a, b] && [a, b][..1] == [a] && [a][..0] == [];
    assert Run(Fresh, [a, b]) == Apply(Run(Fresh, [a]), Read(b));
    assert Run(Fresh, [a, b, c]) == Apply(Run(Fresh, [a, b]), Read(c));
  }

  /** Byte by byte: after Parse, Bind of a value, Close of the portal and Sync, Execute of the closed portal
      runs the query without the value. */
  lemma ClosedPortalRuns(query: Text, value: Text)
    requires NoNul(query) && |value| < 0x1000
    ensures var ms := [Message(PARSE, EncodeParse([], query, [])), Message(BIND, EncodeBind([], [], [], 0, [Some(value)], [])),
                       Message(CLOSE, [PORTAL] + ([] + ([0] + []))), Message(SYNC, [])];
            Lookup(Run(Fresh, ms), []) == Runs(query, [])
  {
    hide Read, EncodeBind, EncodeParse, Run;
    var parse := Message(PARSE, EncodeParse([], query, []));
    var bind := Message(BIND, EncodeBind([], [], [], 0, [Some(value)], []));
    var close := Message(CLOSE, [PORTAL] + ([] + ([0] + [])));
    ParseInvertsEncode([], query, []);
    BindSize([Some(value)]);
    BindInvertsEncode([], [], [], 0, [Some(value)], []);
    CloseInvertsEncode([]);
    SyncReadsNothing([]);
    RunOfFour(parse, bind, close, Message(SYNC, []));
  }

  lemma SyncReadsNothing(payload: seq<byte>)
    ensures Read(Message(SYNC, payload)) == None
  {
  }

  lemma BindSize(values: seq<Option<Text>>)
    requires |values| == 1 && (values[0].Some? ==> |values[0].value| < 0x1000)
    ensures |EncodeBind([], [], [], 0, values, [])| < 0x2000
  {
    assert values[1..] == [];
    assert |ValuesBytes(values)| <= 4 + 0x1000;
  }
}
