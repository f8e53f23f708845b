/** What the PostgreSQL front end does after an error, against the protocol's rule: after an ErrorResponse
    to an extended-query message, messages are read and discarded up to the next Sync (PostgreSQL 16
    documentation, section 55.2.3). `refused(i)` says that an execution of message `i` fails; every
    theorem is about all such outcomes. */
module ErrorRecovery {
  import opened Bytes
  import opened Options
  import opened ExtendedQuery

  type Outcomes = nat -> bool

  /** An ErrorResponse to an extended-query message. */
  predicate IsError(reply: Reply) { reply.Rejected? || reply.Refused? }

  /** Something is executed, with success or not. */
  predicate Executes(reply: Reply) { reply.Runs? || reply.Refused? || reply.Queries? }

  /** The state and everything executed so far. */
  datatype Trace = Trace(session: Session, executed: seq<Reply>)

  function Act(t: Trace, m: Message, refused: bool): Trace {
    var reply := Answer(t.session, m, refused);
    Trace(Apply(t.session, Read(m)), if Executes(reply) then t.executed + [reply] else t.executed)
  }

  function ProxyRun(ms: seq<Message>, refused: Outcomes): Trace {
    if ms == [] then Trace(Fresh, []) else Act(ProxyRun(ms[..|ms| - 1], refused), ms[|ms| - 1], refused(|ms| - 1))
  }

  /** The run that discards: after an error, messages are ignored up to the next Sync. */
  datatype Protocol = Protocol(trace: Trace, skipping: bool)

  function ProtocolStep(p: Protocol, m: Message, refused: bool): Protocol {
    if m.kind == SYNC then p.(skipping := false)
    else if p.skipping then p
    else Protocol(Act(p.trace, m, refused), IsError(Answer(p.trace.session, m, refused)))
  }

  function ProtocolRun(ms: seq<Message>, refused: Outcomes): Protocol {
    if ms == [] then Protocol(Trace(Fresh, []), false)
    else ProtocolStep(ProtocolRun(ms[..|ms| - 1], refused), ms[|ms| - 1], refused(|ms| - 1))
  }

  ghost predicate Fails(ms: seq<Message>, refused: Outcomes, k: int) {
    0 <= k < |ms| && IsError(Answer(Run(Fresh, ms[..k]), ms[k], refused(k)))
  }

  /** A message before position `i` was rejected and no Sync has come since. */
  ghost predicate Pending(ms: seq<Message>, refused: Outcomes, i: int) {
    exists k :: 0 <= k < i && Fails(ms, refused, k) && NoSync(ms, k, i)
  }

  ghost predicate NoSync(ms: seq<Message>, k: int, i: int) {
    forall l | 0 <= l < |ms| :: k < l < i ==> ms[l].kind != SYNC
  }

  /** Message `j` is one that the protocol discards. */
  ghost predicate Discarded(ms: seq<Message>, refused: Outcomes, j: int) { 0 <= j < |ms| && Pending(ms, refused, j) && ms[j].kind != SYNC }

  lemma PendingStep(ms: seq<Message>, refused: Outcomes, i: nat)
    requires i < |ms|
    ensures Pending(ms, refused, i + 1) <==> Fails(ms, refused, i) || (Pending(ms, refused, i) && ms[i].kind != SYNC)
  {
    hide Answer, Run;
    if Pending(ms, refused, i + 1) && !Fails(ms, refused, i) {
      var k :| 0 <= k < i + 1 && Fails(ms, refused, k) && NoSync(ms, k, i + 1);
      assert NoSync(ms, k, i);
    }
    if Fails(ms, refused, i) { assert NoSync(ms, i, i + 1); }
    if Pending(ms, refused, i) && ms[i].kind != SYNC {
      var k :| 0 <= k < i && Fails(ms, refused, k) && NoSync(ms, k, i);
      assert NoSync(ms, k, i + 1);
    }
  }

  lemma SyncIsNotRejected(s: Session, m: Message, refused: bool)
    requires m.kind == SYNC
    ensures !IsError(Answer(s, m, refused)) && !Executes(Answer(s, m, refused)) && Apply(s, Read(m)) == s
  {
  }

  lemma ProxyStep(ms: seq<Message>, refused: Outcomes, i: nat)
    requires i < |ms|
    ensures ProxyRun(ms[..i + 1], refused) == Act(ProxyRun(ms[..i], refused), ms[i], refused(i))
    ensures ProtocolRun(ms[..i + 1], refused) == ProtocolStep(ProtocolRun(ms[..i], refused), ms[i], refused(i))
    ensures Run(Fresh, ms[..i + 1]) == Apply(Run(Fresh, ms[..i]), Read(ms[i]))
  {
    hide Act, ProtocolStep, Apply, Read;
    assert ms[..i + 1][..i] == ms[..i];
  }

  lemma {:induction false} ProxySession(ms: seq<Message>, refused: Outcomes, i: nat)
    requires i <= |ms|
    ensures ProxyRun(ms[..i], refused).session == Run(Fresh, ms[..i])
  {
    hide Apply, Read, Answer, Run, ProxyRun;
    if i == 0 {
      NothingRun(ms, refused);
    } else {
      ProxySession(ms, refused, i - 1);
      ProxyStep(ms, refused, i - 1);
    }
  }

  lemma NothingRun(ms: seq<Message>, refused: Outcomes)
    ensures ProxyRun(ms[..0], refused) == Trace(Fresh, []) && Run(Fresh, ms[..0]) == Fresh
    ensures ProtocolRun(ms[..0], refused) == Protocol(Trace(Fresh, []), false)
  {
  }

  ghost predicate SameSession(ms: seq<Message>, refused: Outcomes, i: int) {
    0 <= i <= |ms| && Run(Fresh, ms[..i]) == ProtocolRun(ms[..i], refused).trace.session
  }

  /** While the states agree, the protocol is discarding exactly when a rejection is pending. */
  lemma {:induction false} SkippingIsPending(ms: seq<Message>, refused: Outcomes, i: nat)
    requires i <= |ms| && forall k: nat | k < i :: SameSession(ms, refused, k)
    ensures ProtocolRun(ms[..i], refused).skipping <==> Pending(ms, refused, i)
  {
    if i == 0 {
      NothingRun(ms, refused);
    } else {
      hide Act, Answer, Apply, Read, Run, ProtocolRun, ProxyRun;
      SkippingIsPending(ms, refused, i - 1);
      ProxyStep(ms, refused, i - 1);
      PendingStep(ms, refused, i - 1);
      assert SameSession(ms, refused, i - 1);
      if ms[i - 1].kind == SYNC { SyncIsNotRejected(Run(Fresh, ms[..i - 1]), ms[i - 1], refused(i - 1)); }
    }
  }

  /** The message changes the state. */
  predicate Changes(s: Session, m: Message) { Apply(s, Read(m)) != s }

  /** One more message keeps the states in agreement unless the protocol discards it and the proxy's
      state changes. */
  lemma SessionStep(ms: seq<Message>, refused: Outcomes, i: nat)
    requires i < |ms| && forall k: nat | k <= i :: SameSession(ms, refused, k)
    ensures SameSession(ms, refused, i + 1) <==> !(Discarded(ms, refused, i) && Changes(Run(Fresh, ms[..i]), ms[i]))
  {
    hide Answer, Apply, Read, Run, ProtocolRun, ProxyRun, Pending;
    SkippingIsPending(ms, refused, i);
    ProxyStep(ms, refused, i);
    assert SameSession(ms, refused, i);
    if ms[i].kind == SYNC { SyncIsNotRejected(Run(Fresh, ms[..i]), ms[i], refused(i)); }
  }

  ghost predicate NoDiscardedChange(ms: seq<Message>, refused: Outcomes, i: nat) {
    forall j: nat | j < i :: !(Discarded(ms, refused, j) && Changes(Run(Fresh, ms[..j]), ms[j]))
  }

  ghost predicate SameSessions(ms: seq<Message>, refused: Outcomes, i: nat) { forall k: nat | k <= i :: SameSession(ms, refused, k) }

  lemma NoDiscardedChangeStep(ms: seq<Message>, refused: Outcomes, i: nat)
    requires i < |ms|
    ensures NoDiscardedChange(ms, refused, i + 1) <==> NoDiscardedChange(ms, refused, i) && !(Discarded(ms, refused, i) && Changes(Run(Fresh, ms[..i]), ms[i]))
  {
    hide Run, Discarded, Changes;
  }

  lemma {:induction false} SessionsUpTo(ms: seq<Message>, refused: Outcomes, i: nat)
    requires i <= |ms|
    ensures SameSessions(ms, refused, i) <==> NoDiscardedChange(ms, refused, i)
  {
    if i == 0 {
      NothingRun(ms, refused);
      assert SameSession(ms, refused, 0);
    } else {
      hide SameSession, NoDiscardedChange, Run;
      SessionsUpTo(ms, refused, i - 1);
      NoDiscardedChangeStep(ms, refused, i - 1);
      assert SameSessions(ms, refused, i) <==> SameSessions(ms, refused, i - 1) && SameSession(ms, refused, i);
      if SameSessions(ms, refused, i - 1) { SessionStep(ms, refused, i - 1); }
    }
  }

  /** The proxy's state is that of the protocol after every prefix of the messages exactly when no message
      that changes the state lies between a rejected message and the next Sync. */
  lemma StatesAgreeIff(ms: seq<Message>, refused: Outcomes)
    ensures SameSessions(ms, refused, |ms|) <==> NoDiscardedChange(ms, refused, |ms|)
  {
    SessionsUpTo(ms, refused, |ms|);
  }

  /** The message changes the state or executes something. */
  predicate Acts(s: Session, m: Message, refused: bool) { Changes(s, m) || Executes(Answer(s, m, refused)) }

  ghost predicate SameTrace(ms: seq<Message>, refused: Outcomes, i: int) {
    0 <= i <= |ms| && ProxyRun(ms[..i], refused) == ProtocolRun(ms[..i], refused).trace
  }

  lemma TraceStep(ms: seq<Message>, refused: Outcomes, i: nat)
    requires i < |ms| && forall k: nat | k <= i :: SameTrace(ms, refused, k)
    ensures SameTrace(ms, refused, i + 1) <==> !(Discarded(ms, refused, i) && Acts(Run(Fresh, ms[..i]), ms[i], refused(i)))
  {
    hide Answer, Apply, Read, Run, ProtocolRun, ProxyRun, Pending;
    forall k: nat | k <= i ensures SameSession(ms, refused, k) {
      ProxySession(ms, refused, k);
      assert SameTrace(ms, refused, k);
    }
    SkippingIsPending(ms, refused, i);
    ProxyStep(ms, refused, i);
    ProxySession(ms, refused, i);
    assert SameTrace(ms, refused, i);
    if ms[i].kind == SYNC { SyncIsNotRejected(Run(Fresh, ms[..i]), ms[i], refused(i)); }
    LongerIsOther(ProxyRun(ms[..i], refused).executed, Answer(Run(Fresh, ms[..i]), ms[i], refused(i)));
  }

  lemma LongerIsOther(executed: seq<Reply>, reply: Reply)
    ensures executed + [reply] != executed
  {
    assert |executed + [reply]| != |executed|;
  }

  ghost predicate NoDiscardedAct(ms: seq<Message>, refused: Outcomes, i: nat) {
    forall j: nat | j < i :: !(Discarded(ms, refused, j) && Acts(Run(Fresh, ms[..j]), ms[j], refused(j)))
  }

  ghost predicate SameTraces(ms: seq<Message>, refused: Outcomes, i: nat) { forall k: nat | k <= i :: SameTrace(ms, refused, k) }

  lemma NoDiscardedActStep(ms: seq<Message>, refused: Outcomes, i: nat)
    requires i < |ms|
    ensures NoDiscardedAct(ms, refused, i + 1) <==> NoDiscardedAct(ms, refused, i) && !(Discarded(ms, refused, i) && Acts(Run(Fresh, ms[..i]), ms[i], refused(i)))
  {
    hide Run, Discarded, Acts;
  }

  lemma {:induction false} TracesUpTo(ms: seq<Message>, refused: Outcomes, i: nat)
    requires i <= |ms|
    ensures SameTraces(ms, refused, i) <==> NoDiscardedAct(ms, refused, i)
  {
    if i == 0 {
      NothingRun(ms, refused);
      assert SameTrace(ms, refused, 0);
    } else {
      hide SameTrace, NoDiscardedAct, Run;
      TracesUpTo(ms, refused, i - 1);
      NoDiscardedActStep(ms, refused, i - 1);
      assert SameTraces(ms, refused, i) <==> SameTraces(ms, refused, i - 1) && SameTrace(ms, refused, i);
      if SameTraces(ms, refused, i - 1) { TraceStep(ms, refused, i - 1); }
    }
  }

  /** ... and the proxy also executes exactly what the protocol would, exactly when no message that changes
      the state or executes something lies there. */
  lemma ExecutionsAgreeIff(ms: seq<Message>, refused: Outcomes)
    ensures SameTraces(ms, refused, |ms|) <==> NoDiscardedAct(ms, refused, |ms|)
  {
    TracesUpTo(ms, refused, |ms|);
  }

  // ---------------------------------------------------------------- failing pipelines

  lemma RunOne(ms: seq<Message>, m: Message, refused: Outcomes)
    ensures ProxyRun(ms + [m], refused) == Act(ProxyRun(ms, refused), m, refused(|ms|))
    ensures ProtocolRun(ms + [m], refused) == ProtocolStep(ProtocolRun(ms, refused), m, refused(|ms|))
  {
    hide Act, ProtocolStep;
    assert (ms + [m])[..|ms|] == ms;
  }

  const NONE: Outcomes := (i: nat) => false

  /** After a Bind that is refused, Execute runs the values of the Bind before, which the run that discards
      does not. */
  lemma RefusedBindRunsOldValues(parse: Message, bind: Message, bad: Message, execute: Message,
                                 portal: Text, stmt: Text, query: Text, values: seq<Text>)
    requires parse.kind == PARSE && Read(parse) == Some(Parse(stmt, query))
    requires bind.kind == BIND && Read(bind) == Some(Bind(portal, stmt, values))
    requires bad.kind == BIND && Read(bad) == None
    requires execute.kind == EXECUTE && Read(execute) == Some(Execute(portal))
    ensures var ms := [parse] + [bind] + [bad] + [execute];
            ProxyRun(ms, NONE).executed == [Runs(query, values)] && ProtocolRun(ms, NONE).trace.executed == []
  {
    hide Read, ProxyRun, ProtocolRun;
    var s1 := Session(map[stmt := query], map[], map[]);
    var s2 := Session(map[stmt := query], map[portal := values], map[portal := stmt]);
    Parsed(parse, stmt, query, NONE);
    RunOne([parse], bind, NONE);
    assert ProxyRun([parse] + [bind], NONE) == Trace(s2, []);
    assert ProtocolRun([parse] + [bind], NONE) == Protocol(Trace(s2, []), false);
    RunOne([parse] + [bind], bad, NONE);
    assert ProtocolRun([parse] + [bind] + [bad], NONE) == Protocol(Trace(s2, []), true);
    RunOne([parse] + [bind] + [bad], execute, NONE);
    assert [] + [Runs(query, values)] == [Runs(query, values)];
  }

  lemma Parsed(parse: Message, stmt: Text, query: Text, refused: Outcomes)
    requires parse.kind == PARSE && Read(parse) == Some(Parse(stmt, query))
    ensures ProxyRun([parse], refused) == Trace(Session(map[stmt := query], map[], map[]), [])
    ensures ProtocolRun([parse], refused) == Protocol(Trace(Session(map[stmt := query], map[], map[]), []), false)
  {
    hide Read;
    assert [parse][..0] == [];
  }

  /** Such a pipeline, byte by byte: a value is bound to an unnamed portal, then NULL, and executed. */
  lemma NullBindRunsOldValue(query: Text, value: Text)
    requires NoNul(query) && |value| < 0x1000
    ensures var ms := [Message(PARSE, EncodeParse([], query, []))] + [Message(BIND, EncodeBind([], [], [], 0, [Some(value)], []))]
                    + [Message(BIND, EncodeBind([], [], [], 0, [None], []))] + [Message(EXECUTE, [] + ([0] + []))];
            ProxyRun(ms, NONE).executed == [Runs(query, [value])] && ProtocolRun(ms, NONE).trace.executed == []
  {
    hide Read, ProxyRun, ProtocolRun, EncodeBind, EncodeParse;
    ParseInvertsEncode([], query, []);
    BindSize([Some(value)]);
    BindSize([None]);
    BindInvertsEncode([], [], [], 0, [Some(value)], []);
    BindInvertsEncode([], [], [], 0, [None], []);
    assert Plain([Some(value)]) == [value];
    var nulls: seq<Option<Text>> := [None];
    assert nulls[0].None?;
    assert !NoNull(nulls);
    ExecuteInvertsEncode([], []);
    RefusedBindRunsOldValues(Message(PARSE, EncodeParse([], query, [])), Message(BIND, EncodeBind([], [], [], 0, [Some(value)], [])),
                             Message(BIND, EncodeBind([], [], [], 0, [None], [])), Message(EXECUTE, [] + ([0] + [])),
                             [], [], query, [value]);
  }

  /** A statement that is parsed, bound without values and executed. */
  function Statement(query: Text): seq<Message> {
    [Message(PARSE, EncodeParse([], query, []))] + [Message(BIND, EncodeBind([], [], [], 0, [], []))] + [Message(EXECUTE, [] + ([0] + []))]
  }

  lemma StatementReads(query: Text)
    requires NoNul(query)
    ensures Read(Statement(query)[0]) == Some(Parse([], query)) && Read(Statement(query)[1]) == Some(Bind([], [], []))
    ensures Read(Statement(query)[2]) == Some(Execute([]))
  {
    hide Read, EncodeBind, EncodeParse;
    ParseInvertsEncode([], query, []);
    EmptyBindSize();
    BindInvertsEncode([], [], [], 0, [], []);
    assert Plain([]) == [];
    ExecuteInvertsEncode([], []);
  }

  lemma EmptyBindSize()
    ensures |EncodeBind([], [], [], 0, [], [])| < 0x100
  {
  }

  function Holding(query: Text): Session { Session(map[[] := query], map[[] := []], map[[] := []]) }

  /** Running a statement, from the start or after another, when nothing is being discarded. */
  lemma StatementRuns(ms: seq<Message>, query: Text, refused: Outcomes)
    requires NoNul(query) && (ProxyRun(ms, refused).session == Fresh || exists other :: ProxyRun(ms, refused).session == Holding(other))
    ensures var t := ProxyRun(ms, refused);
            ProxyRun(ms + Statement(query), refused) ==
            Trace(Holding(query), t.executed + [if refused(|ms| + 2) then Refused(query, []) else Runs(query, [])])
  {
    hide Read, ProxyRun, ProtocolRun, EncodeBind, EncodeParse, Act, ProtocolStep, Holding;
    StatementReads(query);
    var parse, bind, execute := Statement(query)[0], Statement(query)[1], Statement(query)[2];
    assert ms + Statement(query) == ms + [parse] + [bind] + [execute];
    RunOne(ms, parse, refused);
    RunOne(ms + [parse], bind, refused);
    RunOne(ms + [parse] + [bind], execute, refused);
    StatementActs(ProxyRun(ms, refused), query, parse, bind, execute, refused(|ms|), refused(|ms| + 1), refused(|ms| + 2));
  }

  lemma StatementActs(t: Trace, query: Text, parse: Message, bind: Message, execute: Message, r0: bool, r1: bool, r2: bool)
    requires t.session == Fresh || exists other :: t.session == Holding(other)
    requires parse.kind == PARSE && Read(parse) == Some(Parse([], query))
    requires bind.kind == BIND && Read(bind) == Some(Bind([], [], []))
    requires execute.kind == EXECUTE && Read(execute) == Some(Execute([]))
    ensures Act(Act(Act(t, parse, r0), bind, r1), execute, r2) ==
            Trace(Holding(query), t.executed + [if r2 then Refused(query, []) else Runs(query, [])])
  {
    hide Read;
    var t1 := Act(t, parse, r0);
    assert t1.session.prepared == map[[] := query] && t1.executed == t.executed;
    var t2 := Act(t1, bind, r1);
    assert t2 == Trace(Holding(query), t.executed);
  }

  /** Discarding goes on over messages without a Sync. */
  lemma {:induction false} StillDiscarding(ms: seq<Message>, more: seq<Message>, refused: Outcomes)
    requires ProtocolRun(ms, refused).skipping && forall i | 0 <= i < |more| :: more[i].kind != SYNC
    ensures ProtocolRun(ms + more, refused) == ProtocolRun(ms, refused)
    decreases |more|
  {
    if more == [] {
      assert ms + more == ms;
    } else {
      hide ProtocolRun, ProxyRun, Act, Answer;
      var k := |more| - 1;
      StillDiscarding(ms, more[..k], refused);
      RunOne(ms + more[..k], more[k], refused);
      assert ms + more == ms + more[..k] + [more[k]];
    }
  }

  /** Two statements in one pipeline: after the first is refused by the backend, the proxy still executes the
      second. */
  lemma FailedExecuteRunsNext(first: Text, second: Text, refused: Outcomes)
    requires NoNul(first) && NoNul(second) && refused(2) && !refused(5)
    ensures var ms := Statement(first) + Statement(second);
            && ProxyRun(ms, refused).executed == [Refused(first, []), Runs(second, [])]
            && ProtocolRun(ms, refused).trace.executed == [Refused(first, [])]
  {
    hide ProxyRun, ProtocolRun, Statement, Answer, Read;
    EmptyRun(refused);
    StatementRuns([], first, refused);
    assert [] + Statement(first) == Statement(first) && |Statement(first)| == 3 by { StatementParts(first); }
    StatementRuns(Statement(first), second, refused);
    FirstIsRefused(first, refused);
    StatementParts(second);
    StillDiscarding(Statement(first), Statement(second), refused);
    assert [] + [Refused(first, [])] == [Refused(first, [])];
    assert [Refused(first, [])] + [Runs(second, [])] == [Refused(first, []), Runs(second, [])];
  }

  lemma StatementParts(query: Text)
    ensures |Statement(query)| == 3 && forall i | 0 <= i < 3 :: Statement(query)[i].kind != SYNC
  {
  }

  lemma FirstIsRefused(first: Text, refused: Outcomes)
    requires NoNul(first) && refused(2)
    ensures ProtocolRun(Statement(first), refused) == Protocol(Trace(Holding(first), [Refused(first, [])]), true)
  {
    hide Read, ProxyRun, ProtocolRun, EncodeBind, EncodeParse;
    StatementReads(first);
    var parse, bind, execute := Statement(first)[0], Statement(first)[1], Statement(first)[2];
    Parsed(parse, [], first, refused);
    RunOne([parse], bind, refused);
    assert ProtocolRun([parse] + [bind], refused) == Protocol(Trace(Holding(first), []), false);
    RunOne([parse] + [bind], execute, refused);
    assert [] + [Refused(first, [])] == [Refused(first, [])];
  }

  /** A simple query, with its NUL, behind an empty, and so malformed, Bind is executed. */
  lemma QueryAfterRejectedBind(text: Text)
    ensures var ms := [Message(BIND, [])] + [Message(QUERY, text + [0])];
            ProxyRun(ms, NONE).executed == [Queries(text)] && ProtocolRun(ms, NONE).trace.executed == []
  {
    hide ProxyRun, ProtocolRun, QueryText;
    var bad, query := Message(BIND, []), Message(QUERY, text + [0]);
    assert IndexNul([]) == 0;
    assert Read(bad) == None && Read(query) == None;
    QueryTextOf(text);
    RunOne([], bad, NONE);
    assert [] + [bad] == [bad];
    EmptyRun(NONE);
    RunOne([bad], query, NONE);
    assert [] + [Queries(text)] == [Queries(text)];
  }

  lemma EmptyRun(refused: Outcomes)
    ensures ProxyRun([], refused) == Trace(Fresh, []) && ProtocolRun([], refused) == Protocol(Trace(Fresh, []), false)
  {
  }
}
