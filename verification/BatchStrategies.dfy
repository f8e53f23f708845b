/** The executor's strategies for a drained batch. Each takes the database as it is and returns
    the database it leaves together with what it sent to whom. The driver is abstract: a
    statement's effect on the state is a function, a failed statement has no effect, and
    `Faults` says which of the other driver calls return an error. */
module BatchStrategies {
  import opened Seqs
  import opened Options
  import opened Delivery
  import opened SqlText
  import opened SqlValue
  import opened SplitQueries
  import opened Placeholders
  import Inserts
  import Deletes
  import LoadData

  type Error = string

  datatype Request = Request(query: string, params: seq<Value>, hasReturning: bool, hasCallback: bool)

  /** WriteResult, with or without its Error. */
  datatype Result =
    | Failure(err: Error)
    | Success(affectedRows: int, lastInsertId: int, returning: Option<int>, batchSize: nat)

  datatype Sent = Sent(i: nat, result: Result) | Notified(i: nat, batchSize: nat)

  /** The statements that the executor issues: SQL text with arguments, LOAD DATA LOCAL INFILE or the
      flush of COPY into the table and columns of an INSERT. */
  datatype Stmt =
    | Sql(query: string, args: seq<Value>)
    | Load(query: string, payload: string)
    | Copy(query: string, rows: seq<seq<Value>>)

  datatype Exec<+S> = Err(err: Error) | Ok(state: S, affected: int, lastId: int)

  datatype Backend<!S> = Backend(exec: (S, Stmt) -> Exec<S>, firstIdIsFirst: bool)

  datatype Faults = Faults(begin: Option<Error>, prepare: Option<Error>, copyRow: nat -> Option<Error>,
                           close: Option<Error>, commit: Option<Error>)

  datatype Config = Config(useCopy: bool, parses: string -> bool, simple: seq<Request> -> bool)

  // ---------------------------------------------------------------- deliveries

  function EventOf(sent: Sent): Event { match sent case Sent(i, _) => Send(i) case Notified(i, _) => Notify(i) }

  function Shape(log: seq<Sent>): (events: seq<Event>)
    ensures |events| == |log|
  {
    if log == [] then [] else [EventOf(log[0])] + Shape(log[1..])
  }

  /** The results sent, in order. */
  function Results(log: seq<Sent>): seq<Result> {
    if log == [] then []
    else match log[0]
         case Sent(_, r) => [r] + Results(log[1..])
         case Notified(_, _) => Results(log[1..])
  }

  /** One request is sent its result, then its callback is invoked. */
  function ReplyTo(k: nat, n: nat, request: Request, result: Result): seq<Sent> {
    [Sent(k, result)] + (if request.hasCallback then [Notified(k, n)] else [])
  }

  function RepliesFrom(k: nat, requests: seq<Request>, results: seq<Result>): seq<Sent>
    requires k <= |requests| == |results|
    decreases |requests| - k
  {
    if k == |requests| then []
    else ReplyTo(k, |requests|, requests[k], results[k]) + RepliesFrom(k + 1, requests, results)
  }

  /** The same results sent without callbacks. */
  function SendsFrom(k: nat, results: seq<Result>): seq<Sent>
    requires k <= |results|
    decreases |results| - k
  {
    if k == |results| then [] else [Sent(k, results[k])] + SendsFrom(k + 1, results)
  }

  function AllFail(n: nat, e: Error): (rs: seq<Result>)
    ensures |rs| == n && forall i | 0 <= i < n :: rs[i] == Failure(e)
    ensures n > 0 ==> !AllSuccess(rs)
  {
    var rs := seq(n, i requires 0 <= i < n => Failure(e));
    assert n > 0 ==> rs[0].Failure?;
    rs
  }

  /** A send in front of a delivery to the later requests. */
  lemma SendFirst(k: nat, n: nat, result: Result, rest: seq<Sent>)
    requires k < n && InDelivery(Shape(rest), k + 1, n, true)
    ensures var log := [Sent(k, result)] + rest;
            InDelivery(Shape(log), k, n, false) && Results(log) == [result] + Results(rest)
  {
    AfterPrefix([Sent(k, result)], rest);
    AfterPrefix([Send(k)], Shape(rest));
    assert Shape([Sent(k, result)] + rest) == [Send(k)] + Shape(rest);
  }

  /** A callback may come between them. */
  lemma NotifyFirst(k: nat, n: nat, rest: seq<Sent>)
    requires InDelivery(Shape(rest), k + 1, n, false)
    ensures var log := [Notified(k, n)] + rest;
            InDelivery(Shape(log), k + 1, n, true) && Results(log) == Results(rest)
  {
    AfterPrefix([Notified(k, n)], rest);
    AfterPrefix([Notify(k)], Shape(rest));
    assert Shape([Notified(k, n)] + rest) == [Notify(k)] + Shape(rest);
  }

  lemma {:induction false} SendsDeliver(k: nat, results: seq<Result>)
    requires k <= |results|
    ensures InDelivery(Shape(SendsFrom(k, results)), k, |results|, false)
    ensures Results(SendsFrom(k, results)) == results[k..]
    decreases |results| - k
  {
    if k < |results| {
      hide InDelivery, Shape, Results;
      SendsDeliver(k + 1, results);
      WeakenNotify(Shape(SendsFrom(k + 1, results)), k + 1, |results|);
      SendFirst(k, |results|, results[k], SendsFrom(k + 1, results));
      assert results[k..] == [results[k]] + results[k + 1..];
    }
  }

  lemma {:induction false} RepliesDeliver(k: nat, requests: seq<Request>, results: seq<Result>)
    requires k <= |requests| == |results|
    ensures InDelivery(Shape(RepliesFrom(k, requests, results)), k, |requests|, false)
    ensures Results(RepliesFrom(k, requests, results)) == results[k..]
    decreases |requests| - k
  {
    if k < |requests| {
      hide InDelivery, Shape, Results;
      var n, rest := |requests|, RepliesFrom(k + 1, requests, results);
      RepliesDeliver(k + 1, requests, results);
      assert results[k..] == [results[k]] + results[k + 1..];
      if requests[k].hasCallback {
        NotifyFirst(k, n, rest);
        SendFirst(k, n, results[k], [Notified(k, n)] + rest);
        Regroup([Sent(k, results[k])], [Notified(k, n)], rest);
      } else {
        WeakenNotify(Shape(rest), k + 1, n);
        SendFirst(k, n, results[k], rest);
        assert ReplyTo(k, n, requests[k], results[k]) == [Sent(k, results[k])];
      }
    }
  }

  /** Exactly the requests with a callback are called back, with the size of the batch. */
  ghost predicate CallsBack(log: seq<Sent>, requests: seq<Request>) {
    forall i: nat, m: nat :: Notified(i, m) in log <==> i < |requests| && m == |requests| && requests[i].hasCallback
  }

  ghost predicate NoCallbacks(log: seq<Sent>) { forall i | 0 <= i < |log| :: log[i].Sent? }

  lemma {:induction false} RepliesCallBack(k: nat, requests: seq<Request>, results: seq<Result>, i: nat, m: nat)
    requires k <= |requests| == |results|
    ensures Notified(i, m) in RepliesFrom(k, requests, results) <==>
            k <= i < |requests| && m == |requests| && requests[i].hasCallback
    decreases |requests| - k
  {
    if k < |requests| { RepliesCallBack(k + 1, requests, results, i, m); }
  }

  lemma {:induction false} SendsCallNobody(k: nat, results: seq<Result>)
    requires k <= |results|
    ensures NoCallbacks(SendsFrom(k, results))
    decreases |results| - k
  {
    if k < |results| { SendsCallNobody(k + 1, results); }
  }

  /** The loop that answers every request with the same error. */
  method SendErrors(n: nat, e: Error) returns (log: seq<Sent>)
    ensures IsDelivery(Shape(log), n) && Results(log) == AllFail(n, e) && NoCallbacks(log)
  {
    log := [];
    var rs := AllFail(n, e);
    for i := 0 to n
      invariant log + SendsFrom(i, rs) == SendsFrom(0, rs)
    {
      Regroup(log, [Sent(i, Failure(e))], SendsFrom(i + 1, rs));
      log := log + [Sent(i, Failure(e))];
    }
    assert log + SendsFrom(n, rs) == log;
    SendsDeliver(0, rs);
    SendsCallNobody(0, rs);
    assert rs[0..] == rs;
  }

  /** The loop that sends stored results and no callbacks (executor.go:306-308). */
  method SendStored(results: seq<Result>) returns (log: seq<Sent>)
    ensures IsDelivery(Shape(log), |results|) && Results(log) == results && NoCallbacks(log)
  {
    log := [];
    for i := 0 to |results|
      invariant log + SendsFrom(i, results) == SendsFrom(0, results)
    {
      Regroup(log, [Sent(i, results[i])], SendsFrom(i + 1, results));
      log := log + [Sent(i, results[i])];
    }
    assert log + SendsFrom(|results|, results) == log;
    SendsDeliver(0, results);
    SendsCallNobody(0, results);
    assert results[0..] == results;
  }

  /** The loop that sends each request its result and then invokes its callback. */
  method SendReplies(requests: seq<Request>, results: seq<Result>) returns (log: seq<Sent>)
    requires |requests| == |results|
    ensures IsDelivery(Shape(log), |requests|) && Results(log) == results && CallsBack(log, requests)
  {
    log := [];
    for i := 0 to |requests|
      invariant log + RepliesFrom(i, requests, results) == RepliesFrom(0, requests, results)
    {
      ghost var before := log;
      log := log + [Sent(i, results[i])];
      if requests[i].hasCallback {
        log := log + [Notified(i, |requests|)];
      }
      assert log == before + ReplyTo(i, |requests|, requests[i], results[i]);
      Regroup(before, ReplyTo(i, |requests|, requests[i], results[i]), RepliesFrom(i + 1, requests, results));
    }
    assert log + RepliesFrom(|requests|, requests, results) == log;
    RepliesDeliver(0, requests, results);
    assert results[0..] == results;
    forall i: nat, m: nat
      ensures Notified(i, m) in log <==> i < |requests| && m == |requests| && requests[i].hasCallback
    {
      RepliesCallBack(0, requests, results, i, m);
    }
  }

  // ---------------------------------------------------------------- what a batch may do

  /** All requests executed as they are, one after the other, none failing. */
  function ApplyAll<S>(b: Backend<S>, s: S, requests: seq<Request>): Option<S>
    decreases |requests|
  {
    if requests == [] then Some(s)
    else match b.exec(s, Sql(requests[0].query, requests[0].params))
         case Err(_) => None
         case Ok(s', _, _) => ApplyAll(b, s', requests[1..])
  }

  predicate AllSuccess(rs: seq<Result>) { forall i | 0 <= i < |rs| :: rs[i].Success? }
  predicate AllFailure(rs: seq<Result>) { forall i | 0 <= i < |rs| :: rs[i].Failure? }

  /** Either every request is told success and all are applied in order, or every request is
      told an error and the database is unchanged. */
  ghost predicate AllOrNothing<S>(b: Backend<S>, s: S, requests: seq<Request>, s': S, rs: seq<Result>) {
    && |rs| == |requests|
    && ((AllSuccess(rs) && ApplyAll(b, s, requests) == Some(s')) || (AllFailure(rs) && s' == s))
  }

  /** On success the requests that ask for it are called back, otherwise nobody is. */
  ghost predicate Notifies(log: seq<Sent>, requests: seq<Request>) {
    if AllSuccess(Results(log)) then CallsBack(log, requests) else NoCallbacks(log)
  }

  predicate SameQuery(requests: seq<Request>) { forall i | 0 <= i < |requests| :: requests[i].query == requests[0].query }

  predicate SameCount(requests: seq<Request>) { forall i | 0 <= i < |requests| :: |requests[i].params| == |requests[0].params| }

  // ---------------------------------------------------------------- one statement for the whole batch

  function ParamsOf(requests: seq<Request>): (params: seq<seq<Value>>)
    ensures |params| == |requests| && forall i | 0 <= i < |params| :: params[i] == requests[i].params
  {
    seq(|requests|, i requires 0 <= i < |requests| => requests[i].params)
  }

  /** The multi-row INSERT: generated placeholders, or for requests without parameters the clause
      repeated. */
  function MultiRowStmt(requests: seq<Request>): Stmt
    requires requests != [] && ValuesIndex(requests[0].query) >= 0
  {
    var q, p := requests[0].query, |requests[0].params|;
    var base, clause := q[..ValuesIndex(q)], TrimSpace(q[ValuesIndex(q)..]);
    if p == 0 then Sql(RepeatedText(base, clause, |requests|), [])
    else Sql(MultiRowText(base, HasPlaceholder(q), |requests|, p), Concat(ParamsOf(requests)))
  }

  function ToParam(v: Value): LoadData.Param { match v case Null => LoadData.Null case Val(s) => LoadData.Text(s) }

  function ToParams(row: seq<Value>): seq<LoadData.Param> { seq(|row|, i requires 0 <= i < |row| => ToParam(row[i])) }

  function AllParams(rows: seq<seq<Value>>): seq<seq<LoadData.Param>> {
    if rows == [] then [] else [ToParams(rows[0])] + AllParams(rows[1..])
  }

  function LoadStmt(requests: seq<Request>): Stmt
    requires requests != []
  {
    Load(requests[0].query, LoadData.Payload(AllParams(ParamsOf(requests))))
  }

  function CopyStmt(requests: seq<Request>): Stmt
    requires requests != []
  {
    Copy(requests[0].query, ParamsOf(requests))
  }

  predicate HaveParams(requests: seq<Request>) { forall i | 0 <= i < |requests| :: requests[i].params != [] }

  function FirstParams(requests: seq<Request>): (keys: seq<Value>)
    requires HaveParams(requests)
    ensures |keys| == |requests| && forall i | 0 <= i < |keys| :: keys[i] == requests[i].params[0]
  {
    seq(|requests|, i requires 0 <= i < |requests| => requests[i].params[0])
  }

  function DeleteStmt(requests: seq<Request>): Stmt
    requires requests != [] && HaveParams(requests) && WhereIndex(requests[0].query) >= 0
  {
    var q := requests[0].query;
    Sql(Deletes.InText(q[..WhereIndex(q)], KeyColumn(q), |requests|), FirstParams(requests))
  }

  /** A one-statement form that succeeds does what the requests do one after the other. InsertTables
      and DeleteTables say of which tables and queries that holds. */
  ghost predicate FaithfulStmt<S>(b: Backend<S>, s: S, requests: seq<Request>, stmt: Stmt) {
    b.exec(s, stmt).Ok? ==> ApplyAll(b, s, requests) == Some(b.exec(s, stmt).state)
  }

  /** The batch is loaded in bulk: with COPY for `$n` placeholders, else with LOAD DATA. */
  predicate IsBulk(config: Config, requests: seq<Request>)
    requires requests != []
  {
    config.useCopy && requests[0].params != [] && config.simple(requests)
  }

  /** The forms this batch of INSERTs may take are faithful. */
  ghost predicate FaithfulForms<S>(b: Backend<S>, s: S, requests: seq<Request>, config: Config)
    requires requests != []
  {
    && (ValuesIndex(requests[0].query) >= 0 ==> FaithfulStmt(b, s, requests, MultiRowStmt(requests)))
    && (IsBulk(config, requests) ==>
          FaithfulStmt(b, s, requests, if HasPlaceholder(requests[0].query) then CopyStmt(requests) else LoadStmt(requests)))
  }

  // ---------------------------------------------------------------- strategies

  method ExecuteSingle<S>(b: Backend<S>, s: S, request: Request) returns (s': S, log: seq<Sent>)
    ensures IsDelivery(Shape(log), 1)
    ensures AllOrNothing(b, s, [request], s', Results(log))
    ensures Results(log) == OwnResults(b, s, [request], 1) && NoCallbacks(log)
  {
    match b.exec(s, Sql(request.query, request.params)) {
      case Err(e) => s', log := s, [Sent(0, Failure(e))];
      case Ok(t, affected, lastId) =>
        s', log := t, [Sent(0, Success(affected, lastId, None, 1))];
        assert [request][1..] == [];
    }
    assert log[1..] == [];
    assert Shape(log)[1..] == [];
    assert Results(log) == [log[0].result];
  }

  /** What a request of a batch of `n` is told about its statement; `scan` is for a RETURNING value. */
  function ResultOf<S>(r: Exec<S>, scan: bool, n: nat): Result {
    match r
    case Err(e) => Failure(e)
    case Ok(_, affected, lastId) =>
      if scan then Success(1, 0, Some(lastId), n) else Success(affected, lastId, None, n)
  }

  /** What the statements of a batch report when they run one after the other, up to the first that fails. */
  function OwnResults<S>(b: Backend<S>, s: S, requests: seq<Request>, n: nat): seq<Result>
    decreases |requests|
  {
    if requests == [] then []
    else
      var r := b.exec(s, Sql(requests[0].query, requests[0].params));
      [ResultOf(r, false, n)] + if r.Ok? then OwnResults(b, r.state, requests[1..], n) else []
  }

  /** Result `i` is what statement `i` reports on the database that the ones before it leave. */
  lemma {:induction false} OwnResultAt<S>(b: Backend<S>, s: S, requests: seq<Request>, n: nat, i: nat)
    requires i < |requests| && ApplyAll(b, s, requests).Some?
    ensures |OwnResults(b, s, requests, n)| == |requests| && ApplyAll(b, s, requests[..i]).Some?
    ensures OwnResults(b, s, requests, n)[i] ==
            ResultOf(b.exec(ApplyAll(b, s, requests[..i]).value, Sql(requests[i].query, requests[i].params)), false, n)
    decreases |requests|
  {
    var t := b.exec(s, Sql(requests[0].query, requests[0].params)).state;
    if i == 0 {
      assert requests[..0] == [];
      if |requests| > 1 { OwnResultAt(b, t, requests[1..], n, 0); }
    } else {
      assert requests[..i][1..] == requests[1..][..i - 1];
      OwnResultAt(b, t, requests[1..], n, i - 1);
    }
  }

  lemma AllSuccessSnoc(a: seq<Result>, r: Result)
    ensures AllSuccess(a + [r]) <==> AllSuccess(a) && r.Success?
  {
    assert (a + [r])[|a|] == r;
    forall i | 0 <= i < |a| ensures (a + [r])[i] == a[i] {
    }
  }

  /** The error of the first statement that fails. */
  function FirstError<S>(b: Backend<S>, s: S, requests: seq<Request>): Error
    requires ApplyAll(b, s, requests).None?
    decreases |requests|
  {
    match b.exec(s, Sql(requests[0].query, requests[0].params))
    case Err(e) => e
    case Ok(t, _, _) => FirstError(b, t, requests[1..])
  }

  /** Every request is told the error, and nothing has changed. */
  ghost predicate FailedWith<S>(s: S, n: nat, e: Error, s': S, rs: seq<Result>) { s' == s && rs == AllFail(n, e) }

  /** What a transaction leaves and is told: the first error of begin, the statements in turn and commit, or
      each statement's own result. */
  ghost predicate TransactionDone<S>(b: Backend<S>, s: S, requests: seq<Request>, faults: Faults, s': S, rs: seq<Result>) {
    var n := |requests|;
    if faults.begin.Some? then FailedWith(s, n, faults.begin.value, s', rs)
    else if ApplyAll(b, s, requests).None? then FailedWith(s, n, FirstError(b, s, requests), s', rs)
    else if faults.commit.Some? then FailedWith(s, n, faults.commit.value, s', rs)
    else ApplyAll(b, s, requests) == Some(s') && rs == OwnResults(b, s, requests, n)
  }

  lemma NothingSent(requests: seq<Request>)
    ensures requests == [] ==> CallsBack([], requests)
    ensures forall log: seq<Sent> | Results(log) == [] && NoCallbacks(log) :: log == []
  {
  }

  method ExecuteTransactionBatch<S>(b: Backend<S>, s: S, requests: seq<Request>, faults: Faults)
    returns (s': S, log: seq<Sent>)
    ensures IsDelivery(Shape(log), |requests|)
    ensures AllOrNothing(b, s, requests, s', Results(log))
    ensures requests != [] ==>
              (AllSuccess(Results(log)) <==> faults.begin.None? && faults.commit.None? && ApplyAll(b, s, requests).Some?)
    ensures AllSuccess(Results(log)) ==> Results(log) == OwnResults(b, s, requests, |requests|)
    ensures TransactionDone(b, s, requests, faults, s', Results(log))
    ensures Notifies(log, requests)
  {
    hide CallsBack, NoCallbacks;
    NothingSent(requests);
    if faults.begin.Some? {
      log := SendErrors(|requests|, faults.begin.value);
      assert |requests| > 0 ==> Results(log)[0].Failure?;
      return s, log;
    }
    var tx := s;
    var results: seq<Result> := [];
    assert requests[0..] == requests && [] + OwnResults(b, s, requests, |requests|) == OwnResults(b, s, requests, |requests|);
    for i := 0 to |requests|
      invariant |results| == i && AllSuccess(results)
      invariant ApplyAll(b, tx, requests[i..]) == ApplyAll(b, s, requests)
      invariant ApplyAll(b, s, requests).None? ==> FirstError(b, tx, requests[i..]) == FirstError(b, s, requests)
      invariant results + OwnResults(b, tx, requests[i..], |requests|) == OwnResults(b, s, requests, |requests|)
    {
      assert requests[i..][1..] == requests[i + 1..];
      match b.exec(tx, Sql(requests[i].query, requests[i].params)) {
        case Err(e) =>
          log := SendErrors(|requests|, e);
          assert Results(log)[i].Failure?;
          return s, log;
        case Ok(t, affected, lastId) =>
          var r := Success(affected, lastId, None, |requests|);
          assert requests[i..] != [];
          Regroup(results, [r], OwnResults(b, t, requests[i + 1..], |requests|));
          tx := t;
          results := results + [r];
      }
    }
    assert requests[|requests|..] == [] && results + [] == results;
    if faults.commit.Some? {
      log := SendErrors(|requests|, faults.commit.value);
      assert |requests| > 0 ==> Results(log)[0].Failure?;
      return s, log;
    }
    log := SendReplies(requests, results);
    return tx, log;
  }

  /** How a prepared batch runs: the prepared text, and whether a RETURNING value is scanned. */
  datatype Prepared = Prepared(query: string, scan: bool)

  /** The results of executing every request through one prepared statement, going on after failures. */
  function RunAll<S>(b: Backend<S>, s: S, p: Prepared, requests: seq<Request>, n: nat): (S, seq<Result>)
    decreases |requests|
  {
    if requests == [] then (s, [])
    else
      var (t, r) := RunOne(b, s, p, requests[0], n);
      var (u, rs) := RunAll(b, t, p, requests[1..], n);
      (u, [r] + rs)
  }

  function RunOne<S>(b: Backend<S>, s: S, p: Prepared, request: Request, n: nat): (S, Result) {
    var r := b.exec(s, Sql(p.query, request.params));
    (if r.Ok? then r.state else s, ResultOf(r, p.scan, n))
  }

  /** What executePreparedBatch leaves and sends. After a failed statement it rolls back and still
      sends the stored successes. */
  function PreparedOutcome<S>(b: Backend<S>, s: S, requests: seq<Request>, faults: Faults): (S, seq<Result>)
    requires requests != []
  {
    var n := |requests|;
    var (t, rs) := RunAll(b, s, Prepared(requests[0].query, requests[0].hasReturning), requests, n);
    if faults.begin.Some? then (s, AllFail(n, faults.begin.value))
    else if faults.prepare.Some? then (s, AllFail(n, faults.prepare.value))
    else if !AllSuccess(rs) then (s, rs)
    else if faults.commit.Some? then (s, AllFail(n, faults.commit.value))
    else (t, rs)
  }

  /** executePreparedBatch (executor.go:240-328). */
  method ExecutePreparedBatch<S>(b: Backend<S>, s: S, requests: seq<Request>, faults: Faults)
    returns (s': S, log: seq<Sent>)
    requires requests != []
    ensures IsDelivery(Shape(log), |requests|)
    ensures (s', Results(log)) == PreparedOutcome(b, s, requests, faults) && Notifies(log, requests)
    ensures SameQuery(requests) ==>
              (AllOrNothing(b, s, requests, s', Results(log)) <==> PreparedIsAtomic(b, s, requests, faults))
  {
    hide InDelivery, AllOrNothing, PreparedIsAtomic, RunOne, Shape, Results, CallsBack, NoCallbacks;
    if SameQuery(requests) { PreparedBatchIff(b, s, requests, faults); }
    if faults.begin.Some? {
      log := SendErrors(|requests|, faults.begin.value);
      return s, log;
    }
    if faults.prepare.Some? {
      log := SendErrors(|requests|, faults.prepare.value);
      return s, log;
    }
    var p := Prepared(requests[0].query, requests[0].hasReturning);
    var tx := s;
    var results: seq<Result> := [];
    var hasError := false;
    RunAllStart(b, s, p, requests, |requests|);
    for i := 0 to |requests|
      invariant |results| == i && hasError == !AllSuccess(results)
      invariant RunAll(b, s, p, requests, |requests|) == RunRest(b, tx, p, requests, i, |requests|, results)
    {
      RunAllStep(b, tx, p, requests, i, |requests|, results);
      var (t, r) := RunOne(b, tx, p, requests[i], |requests|);
      AllSuccessSnoc(results, r);
      tx := t;
      hasError := hasError || r.Failure?;
      results := results + [r];
    }
    RunAllEnd(b, tx, p, requests, |requests|, results);
    if hasError {
      log := SendStored(results);
      return s, log;
    }
    if faults.commit.Some? {
      log := SendErrors(|requests|, faults.commit.value);
      return s, log;
    }
    log := SendReplies(requests, results);
    return tx, log;
  }

  /** Results already stored, followed by those of the requests from `i` on. */
  function RunRest<S>(b: Backend<S>, tx: S, p: Prepared, requests: seq<Request>, i: nat, n: nat, results: seq<Result>): (S, seq<Result>)
    requires i <= |requests|
  {
    var (t, rs) := RunAll(b, tx, p, requests[i..], n);
    (t, results + rs)
  }

  lemma RunAllStart<S>(b: Backend<S>, s: S, p: Prepared, requests: seq<Request>, n: nat)
    ensures RunAll(b, s, p, requests, n) == RunRest(b, s, p, requests, 0, n, [])
  {
    assert requests[0..] == requests;
    assert [] + RunAll(b, s, p, requests, n).1 == RunAll(b, s, p, requests, n).1;
  }

  lemma RunAllStep<S>(b: Backend<S>, tx: S, p: Prepared, requests: seq<Request>, i: nat, n: nat, results: seq<Result>)
    requires i < |requests|
    ensures var (t, r) := RunOne(b, tx, p, requests[i], n);
            RunRest(b, tx, p, requests, i, n, results) == RunRest(b, t, p, requests, i + 1, n, results + [r])
  {
    hide RunOne;
    assert requests[i..][1..] == requests[i + 1..];
    var (t, r) := RunOne(b, tx, p, requests[i], n);
    Regroup(results, [r], RunAll(b, t, p, requests[i + 1..], n).1);
  }

  lemma RunAllEnd<S>(b: Backend<S>, tx: S, p: Prepared, requests: seq<Request>, n: nat, results: seq<Result>)
    ensures RunRest(b, tx, p, requests, |requests|, n, results) == (tx, results)
  {
    assert requests[|requests|..] == [] && results + [] == results;
  }

  /** The replies to the first `k` requests. */
  function RepliesTo(k: nat, n: nat, requests: seq<Request>, results: seq<Result>): seq<Sent>
    requires k <= |requests| && k <= |results|
  {
    if k == 0 then []
    else RepliesTo(k - 1, n, requests, results) + ReplyTo(k - 1, n, requests[k - 1], results[k - 1])
  }

  lemma {:induction false} RepliesToExtended(k: nat, n: nat, requests: seq<Request>, results: seq<Result>, request: Request, result: Result)
    requires k <= |requests| == |results|
    ensures RepliesTo(k, n, requests + [request], results + [result]) == RepliesTo(k, n, requests, results)
  {
    if k > 0 { RepliesToExtended(k - 1, n, requests, results, request, result); }
  }

  lemma {:induction false} RepliesToFrom(k: nat, requests: seq<Request>, results: seq<Result>)
    requires k <= |requests| == |results|
    ensures RepliesTo(k, |requests|, requests, results) + RepliesFrom(k, requests, results) == RepliesFrom(0, requests, results)
  {
    hide ReplyTo;
    if k == 0 {
      assert [] + RepliesFrom(0, requests, results) == RepliesFrom(0, requests, results);
    } else {
      RepliesToFrom(k - 1, requests, results);
      Regroup(RepliesTo(k - 1, |requests|, requests, results), ReplyTo(k - 1, |requests|, requests[k - 1], results[k - 1]),
              RepliesFrom(k, requests, results));
    }
  }

  /** executePreparedBatchFallback (executor.go:865-894): statement by statement, no transaction;
      each result goes out, and on success its callback, before the next statement runs. */
  method ExecutePreparedFallback<S>(b: Backend<S>, s: S, requests: seq<Request>, faults: Faults)
    returns (s': S, log: seq<Sent>)
    requires requests != []
    ensures IsDelivery(Shape(log), |requests|)
    ensures faults.prepare.None? ==>
              (s', Results(log)) == RunAll(b, s, Prepared(requests[0].query, false), requests, |requests|)
    ensures faults.prepare.Some? ==> s' == s && Results(log) == AllFail(|requests|, faults.prepare.value) && NoCallbacks(log)
    ensures |Results(log)| == |requests|
    ensures faults.prepare.None? ==> forall i: nat | i < |requests| ::
              Notified(i, |requests|) in log <==> Results(log)[i].Success? && requests[i].hasCallback
  {
    hide NoCallbacks, InDelivery, RunOne, Shape, Results, RepliesTo, RepliesFrom, RunAll, RunRest;
    if faults.prepare.Some? {
      log := SendErrors(|requests|, faults.prepare.value);
      return s, log;
    }
    var p, n := Prepared(requests[0].query, false), |requests|;
    s', log := s, [];
    ghost var notified: seq<Request> := [];
    ghost var results: seq<Result> := [];
    RunAllStart(b, s, p, requests, n);
    NoRepliesYet(n);
    for i := 0 to n
      invariant |notified| == |results| == i && log == RepliesTo(i, n, notified, results)
      invariant forall j | 0 <= j < i :: notified[j].hasCallback == (results[j].Success? && requests[j].hasCallback)
      invariant RunAll(b, s, p, requests, n) == RunRest(b, s', p, requests, i, n, results)
    {
      RunAllStep(b, s', p, requests, i, n, results);
      var (t, r) := RunOne(b, s', p, requests[i], n);
      ghost var request := requests[i].(hasCallback := r.Success? && requests[i].hasCallback);
      NextReply(n, notified, results, request, r);
      log := log + [Sent(i, r)];
      if r.Success? && requests[i].hasCallback {
        log := log + [Notified(i, n)];
      }
      s', notified, results := t, notified + [request], results + [r];
    }
    RunAllEnd(b, s', p, requests, n, results);
    AllReplies(notified, results, log);
  }

  lemma NoRepliesYet(n: nat)
    ensures RepliesTo(0, n, [], []) == []
  {
  }

  lemma NextReply(n: nat, requests: seq<Request>, results: seq<Result>, request: Request, r: Result)
    requires |requests| == |results|
    ensures var k := |results|;
            RepliesTo(k + 1, n, requests + [request], results + [r]) ==
            (if request.hasCallback then RepliesTo(k, n, requests, results) + [Sent(k, r)] + [Notified(k, n)]
             else RepliesTo(k, n, requests, results) + [Sent(k, r)])
  {
    var k := |results|;
    RepliesToExtended(k, n, requests, results, request, r);
    assert (requests + [request])[k] == request && (results + [r])[k] == r;
    Regroup(RepliesTo(k, n, requests, results), [Sent(k, r)], if request.hasCallback then [Notified(k, n)] else []);
  }

  lemma AllReplies(requests: seq<Request>, results: seq<Result>, log: seq<Sent>)
    requires |requests| == |results| && log == RepliesTo(|requests|, |requests|, requests, results)
    ensures IsDelivery(Shape(log), |requests|) && Results(log) == results
    ensures forall i: nat | i < |requests| :: Notified(i, |requests|) in log <==> requests[i].hasCallback
  {
    RepliesToFrom(|requests|, requests, results);
    assert log + RepliesFrom(|requests|, requests, results) == log;
    RepliesDeliver(0, requests, results);
    assert results[0..] == results;
    forall i: nat | i < |requests| ensures Notified(i, |requests|) in log <==> requests[i].hasCallback {
      RepliesCallBack(0, requests, results, i, |requests|);
    }
  }

  /** Each request is one row, and its id follows from its position. */
  function MultiRowReplies(firstId: int, n: nat): (rs: seq<Result>)
    ensures |rs| == n && forall i | 0 <= i < n :: rs[i] == Success(1, firstId + i, None, n)
  {
    seq(n, i requires 0 <= i < n => Success(1, firstId + i, None, n))
  }

  /** The database and the replies are those of the multi-row statement. */
  ghost predicate AsMultiRow<S>(b: Backend<S>, s: S, requests: seq<Request>, s': S, rs: seq<Result>)
    requires requests != [] && ValuesIndex(requests[0].query) >= 0
  {
    match b.exec(s, MultiRowStmt(requests))
    case Err(e) => s' == s && rs == AllFail(|requests|, e)
    case Ok(t, _, rawId) =>
      && s' == t
      && rs == MultiRowReplies(Inserts.NormalizeFirstInsertId(b.firstIdIsFirst, rawId, |requests|), |requests|)
  }

  /** executeTrueBatchedInsertMultiRow (executor.go:706-842). */
  method ExecuteMultiRow<S>(b: Backend<S>, s: S, requests: seq<Request>, faults: Faults)
    returns (s': S, log: seq<Sent>)
    requires requests != []
    ensures IsDelivery(Shape(log), |requests|)
    ensures ValuesIndex(requests[0].query) >= 0 ==> AsMultiRow(b, s, requests, s', Results(log)) && Notifies(log, requests)
    ensures ValuesIndex(requests[0].query) >= 0 && FaithfulStmt(b, s, requests, MultiRowStmt(requests)) ==>
              AllOrNothing(b, s, requests, s', Results(log))
  {
    hide InDelivery, Shape, Results, ValuesIndex, MultiRowText, Concat, HasPlaceholder, CallsBack, NoCallbacks;
    var firstQuery := requests[0].query;
    var valuesIdx := ValuesIndex(firstQuery);
    if valuesIdx == -1 {
      s', log := ExecutePreparedFallback(b, s, requests, faults);
      return;
    }
    var baseQuery := firstQuery[..valuesIdx];
    var numParams := |requests[0].params|;
    var batchQuery;
    var allParams: seq<Value> := [];
    if numParams == 0 {
      batchQuery := BuildRepeated(baseQuery, TrimSpace(firstQuery[valuesIdx..]), |requests|);
    } else {
      var isPostgres := ContainsPostgresPlaceholder(firstQuery);
      batchQuery, allParams := BuildMultiRow(baseQuery, isPostgres, numParams, ParamsOf(requests));
    }
    assert Sql(batchQuery, allParams) == MultiRowStmt(requests);
    match b.exec(s, Sql(batchQuery, allParams)) {
      case Err(e) =>
        log := SendErrors(|requests|, e);
        s' := s;
      case Ok(t, _, rawId) =>
        var n := |requests|;
        var firstId := Inserts.NormalizeFirstInsertId(b.firstIdIsFirst, rawId, n);
        log := SendReplies(requests, MultiRowReplies(firstId, n));
        s' := t;
    }
  }

  /** Bulk loading reports no ids. */
  function BulkReplies(n: nat): (rs: seq<Result>)
    ensures |rs| == n && forall i | 0 <= i < n :: rs[i] == Success(1, 0, None, n)
  {
    seq(n, i requires 0 <= i < n => Success(1, 0, None, n))
  }

  /** No driver call but the statements themselves fails. */
  ghost predicate NoFaults(faults: Faults, n: nat) {
    && faults.begin.None? && faults.prepare.None? && faults.close.None? && faults.commit.None?
    && forall i: nat | i < n :: faults.copyRow(i).None?
  }

  /** The first row that COPY fails on, from row `i` on. */
  function RowFault(faults: Faults, i: nat, n: nat): Option<Error>
    requires i <= n
    decreases n - i
  {
    if i == n then None else if faults.copyRow(i).Some? then faults.copyRow(i) else RowFault(faults, i + 1, n)
  }

  lemma {:induction false} NoRowFault(faults: Faults, i: nat, n: nat)
    requires i <= n && forall j: nat | j < n :: faults.copyRow(j).None?
    ensures RowFault(faults, i, n) == None
    decreases n - i
  {
    if i < n { NoRowFault(faults, i + 1, n); }
  }

  /** What COPY leaves and tells: without a parse or a prepared statement that of the multi-row statement, and
      otherwise the first error of begin, the rows, the flush, close and commit, or success for all. */
  ghost predicate CopyDone<S>(b: Backend<S>, s: S, requests: seq<Request>, faults: Faults, config: Config, s': S, rs: seq<Result>)
    requires requests != [] && ValuesIndex(requests[0].query) >= 0
  {
    var n := |requests|;
    if !config.parses(requests[0].query) then AsMultiRow(b, s, requests, s', rs)
    else if faults.begin.Some? then FailedWith(s, n, faults.begin.value, s', rs)
    else if faults.prepare.Some? then AsMultiRow(b, s, requests, s', rs)
    else if RowFault(faults, 0, n).Some? then FailedWith(s, n, RowFault(faults, 0, n).value, s', rs)
    else match b.exec(s, CopyStmt(requests))
         case Err(e) => FailedWith(s, n, e, s', rs)
         case Ok(t, _, _) =>
           if faults.close.Some? then FailedWith(s, n, faults.close.value, s', rs)
           else if faults.commit.Some? then FailedWith(s, n, faults.commit.value, s', rs)
           else s' == t && rs == BulkReplies(n)
  }

  /** What LOAD DATA leaves and tells: without a parse or after a refused load that of the multi-row statement,
      and otherwise the error of begin or commit, or success for all. */
  ghost predicate LoadDone<S>(b: Backend<S>, s: S, requests: seq<Request>, faults: Faults, config: Config, s': S, rs: seq<Result>)
    requires requests != [] && ValuesIndex(requests[0].query) >= 0
  {
    var n := |requests|;
    if !config.parses(requests[0].query) then AsMultiRow(b, s, requests, s', rs)
    else if faults.begin.Some? then FailedWith(s, n, faults.begin.value, s', rs)
    else match b.exec(s, LoadStmt(requests))
         case Err(_) => AsMultiRow(b, s, requests, s', rs)
         case Ok(t, _, _) =>
           if faults.commit.Some? then FailedWith(s, n, faults.commit.value, s', rs)
           else s' == t && rs == BulkReplies(n)
  }

  /** What a batch of INSERTs leaves and is told. */
  ghost predicate InsertDone<S>(b: Backend<S>, s: S, requests: seq<Request>, faults: Faults, config: Config, s': S, rs: seq<Result>)
    requires requests != [] && ValuesIndex(requests[0].query) >= 0
  {
    if !IsBulk(config, requests) then AsMultiRow(b, s, requests, s', rs)
    else if HasPlaceholder(requests[0].query) then CopyDone(b, s, requests, faults, config, s', rs)
    else LoadDone(b, s, requests, faults, config, s', rs)
  }

  /** executeCopyBatchedInsert (executor.go:471-554). */
  method ExecuteCopy<S>(b: Backend<S>, s: S, requests: seq<Request>, faults: Faults, config: Config)
    returns (s': S, log: seq<Sent>)
    requires requests != [] && requests[0].params != []
    ensures IsDelivery(Shape(log), |requests|)
    ensures ValuesIndex(requests[0].query) >= 0 && FaithfulStmt(b, s, requests, MultiRowStmt(requests)) &&
            FaithfulStmt(b, s, requests, CopyStmt(requests)) ==>
              AllOrNothing(b, s, requests, s', Results(log))
    ensures ValuesIndex(requests[0].query) >= 0 ==> CopyDone(b, s, requests, faults, config, s', Results(log))
    ensures ValuesIndex(requests[0].query) >= 0 ==> Notifies(log, requests)
  {
    hide InDelivery, Shape, Results, ValuesIndex, MultiRowStmt, LoadStmt, CallsBack, NoCallbacks, AsMultiRow;
    var n := |requests|;
    if !config.parses(requests[0].query) {
      s', log := ExecuteMultiRow(b, s, requests, faults);
      return;
    }
    if faults.begin.Some? {
      log := SendErrors(n, faults.begin.value);
      return s, log;
    }
    if faults.prepare.Some? {
      s', log := ExecuteMultiRow(b, s, requests, faults);
      return;
    }
    var rows: seq<seq<Value>> := [];
    for i := 0 to n
      invariant rows == ParamsOf(requests[..i]) && RowFault(faults, i, n) == RowFault(faults, 0, n)
    {
      if faults.copyRow(i).Some? {
        log := SendErrors(n, faults.copyRow(i).value);
        return s, log;
      }
      rows := rows + [requests[i].params];
    }
    assert requests[..n] == requests;
    match b.exec(s, Copy(requests[0].query, rows)) {
      case Err(e) =>
        log := SendErrors(n, e);
        s' := s;
      case Ok(t, _, _) =>
        if faults.close.Some? {
          log := SendErrors(n, faults.close.value);
          return s, log;
        }
        if faults.commit.Some? {
          log := SendErrors(n, faults.commit.value);
          return s, log;
        }
        log := SendReplies(requests, BulkReplies(n));
        s' := t;
    }
  }

  /** executeLoadDataInfileBatchedInsert (executor.go:558-637). */
  method ExecuteLoadData<S>(b: Backend<S>, s: S, requests: seq<Request>, faults: Faults, config: Config)
    returns (s': S, log: seq<Sent>)
    requires requests != [] && requests[0].params != []
    ensures IsDelivery(Shape(log), |requests|)
    ensures ValuesIndex(requests[0].query) >= 0 && FaithfulStmt(b, s, requests, MultiRowStmt(requests)) &&
            FaithfulStmt(b, s, requests, LoadStmt(requests)) ==>
              AllOrNothing(b, s, requests, s', Results(log))
    ensures ValuesIndex(requests[0].query) >= 0 ==> LoadDone(b, s, requests, faults, config, s', Results(log))
    ensures ValuesIndex(requests[0].query) >= 0 ==> Notifies(log, requests)
  {
    hide InDelivery, Shape, Results, ValuesIndex, MultiRowStmt, CopyStmt, CallsBack, NoCallbacks, AsMultiRow;
    var n := |requests|;
    if !config.parses(requests[0].query) {
      s', log := ExecuteMultiRow(b, s, requests, faults);
      return;
    }
    var payload := LoadData.BuildPayload(AllParams(ParamsOf(requests)));
    if faults.begin.Some? {
      log := SendErrors(n, faults.begin.value);
      return s, log;
    }
    match b.exec(s, Load(requests[0].query, payload)) {
      case Err(e) =>
        s', log := ExecuteMultiRow(b, s, requests, faults);
      case Ok(t, _, _) =>
        if faults.commit.Some? {
          log := SendErrors(n, faults.commit.value);
          return s, log;
        }
        log := SendReplies(requests, BulkReplies(n));
        s' := t;
    }
  }

  /** Every request is told the total number of deleted rows. */
  function DeleteReplies(affected: int, n: nat): (rs: seq<Result>)
    ensures |rs| == n && forall i | 0 <= i < n :: rs[i] == Success(affected, 0, None, n)
  {
    seq(n, i requires 0 <= i < n => Success(affected, 0, None, n))
  }

  /** What a batch of DELETEs leaves and is told. */
  ghost predicate DeleteDone<S>(b: Backend<S>, s: S, requests: seq<Request>, s': S, rs: seq<Result>)
    requires requests != [] && WhereIndex(requests[0].query) >= 0 && HaveParams(requests)
  {
    match b.exec(s, DeleteStmt(requests))
    case Err(e) => s' == s && rs == AllFail(|requests|, e)
    case Ok(t, affected, _) => s' == t && rs == DeleteReplies(affected, |requests|)
  }

  /** executeTrueBatchedDelete (executor.go:189-236). It slices the query at WHERE, where the dispatch
      has found it, and indexes `Params[0]` of every request, which panics for one without. */
  method ExecuteDelete<S>(b: Backend<S>, s: S, requests: seq<Request>) returns (s': S, log: seq<Sent>, crashed: bool)
    requires requests != [] && WhereIndex(requests[0].query) >= 0
    ensures crashed <==> !HaveParams(requests)
    ensures crashed ==> s' == s && log == []
    ensures !crashed ==> IsDelivery(Shape(log), |requests|) && Notifies(log, requests)
    ensures !crashed ==> DeleteDone(b, s, requests, s', Results(log))
    ensures !crashed && FaithfulStmt(b, s, requests, DeleteStmt(requests)) ==> AllOrNothing(b, s, requests, s', Results(log))
  {
    hide InDelivery, Shape, Results, WhereIndex, CallsBack, NoCallbacks;
    s', log := s, [];
    var firstQuery, n := requests[0].query, |requests|;
    var whereIdx := WhereIndex(firstQuery);
    crashed := false;
    for i := 0 to n
      invariant !crashed && forall j | 0 <= j < i :: requests[j].params != []
    {
      if requests[i].params == [] {
        crashed := true;
        return;
      }
    }
    var query, keys := Deletes.BuildDelete(firstQuery[..whereIdx], KeyColumn(firstQuery), ParamsOf(requests));
    assert keys == FirstParams(requests);
    match b.exec(s, Sql(query, keys)) {
      case Err(e) =>
        log := SendErrors(n, e);
        s' := s;
      case Ok(t, affected, _) =>
        log := SendReplies(requests, DeleteReplies(affected, n));
        s' := t;
    }
  }

  // ---------------------------------------------------------------- dispatch

  method ExecuteInsert<S>(b: Backend<S>, s: S, requests: seq<Request>, faults: Faults, config: Config)
    returns (s': S, log: seq<Sent>)
    requires requests != []
    ensures IsDelivery(Shape(log), |requests|)
    ensures ValuesIndex(requests[0].query) >= 0 && FaithfulForms(b, s, requests, config) ==>
              AllOrNothing(b, s, requests, s', Results(log))
    ensures ValuesIndex(requests[0].query) >= 0 ==> InsertDone(b, s, requests, faults, config, s', Results(log))
    ensures ValuesIndex(requests[0].query) >= 0 ==> Notifies(log, requests)
  {
    hide InDelivery, Shape, Results, ValuesIndex, MultiRowStmt, LoadStmt, CopyStmt, HasPlaceholder, CallsBack, NoCallbacks, AsMultiRow, CopyDone, LoadDone;
    if config.useCopy && |requests[0].params| > 0 && config.simple(requests) {
      var isPostgres := ContainsPostgresPlaceholder(requests[0].query);
      if isPostgres {
        s', log := ExecuteCopy(b, s, requests, faults, config);
      } else {
        s', log := ExecuteLoadData(b, s, requests, faults, config);
      }
    } else {
      s', log := ExecuteMultiRow(b, s, requests, faults);
    }
  }

  /** The batch goes to executeTrueBatchedInsert. */
  predicate IsInsert(requests: seq<Request>)
    requires requests != []
  {
    SameQuery(requests) && !requests[0].hasReturning && IsBatchableInsert(requests[0].query)
  }

  predicate IsDelete(requests: seq<Request>)
    requires requests != []
  {
    SameQuery(requests) && !IsInsert(requests) && IsBatchableDelete(requests[0].query)
  }

  /** The batch goes to executePreparedBatch. */
  predicate IsPrepared(requests: seq<Request>)
    requires requests != []
  {
    SameQuery(requests) && !IsInsert(requests) && !IsBatchableDelete(requests[0].query)
  }

  ghost predicate FaithfulDelete<S>(b: Backend<S>, s: S, requests: seq<Request>)
    requires requests != []
  {
    HaveParams(requests) && WhereIndex(requests[0].query) >= 0 ==> FaithfulStmt(b, s, requests, DeleteStmt(requests))
  }

  method AllSame(requests: seq<Request>) returns (allSame: bool)
    requires requests != []
    ensures allSame == SameQuery(requests)
  {
    allSame := true;
    for i := 1 to |requests|
      invariant allSame
      invariant forall j | 0 <= j < i :: requests[j].query == requests[0].query
    {
      if requests[i].query != requests[0].query {
        allSame := false;
        break;
      }
    }
  }

  /** executeBatch after its drain (executor.go:59-63, executor.go:123-148): whatever the strategy and
      whatever fails, each request is sent exactly one result, in order, unless a batch of DELETEs
      lacks a parameter, which panics. The batch is all or nothing alone, with mixed queries, and
      wherever its one-statement forms are faithful; a prepared batch exactly on the condition of
      PreparedBatchIff. */
  method ExecuteBatch<S>(b: Backend<S>, s: S, requests: seq<Request>, faults: Faults, config: Config)
    returns (s': S, log: seq<Sent>, crashed: bool)
    requires requests != []
    ensures crashed <==> |requests| > 1 && IsDelete(requests) && !HaveParams(requests)
    ensures crashed ==> s' == s && log == []
    ensures !crashed ==> IsDelivery(Shape(log), |requests|)
    ensures |requests| == 1 ==> Results(log) == OwnResults(b, s, requests, 1) && NoCallbacks(log)
    ensures |requests| > 1 && !crashed ==> Notifies(log, requests)
    ensures !SameQuery(requests) ==> TransactionDone(b, s, requests, faults, s', Results(log))
    ensures !SameQuery(requests) ==>
              (AllSuccess(Results(log)) <==> faults.begin.None? && faults.commit.None? && ApplyAll(b, s, requests).Some?)
    ensures |requests| > 1 && IsInsert(requests) ==>
              ValuesIndex(requests[0].query) >= 0 && InsertDone(b, s, requests, faults, config, s', Results(log))
    ensures |requests| > 1 && IsDelete(requests) && !crashed ==>
              WhereIndex(requests[0].query) >= 0 && DeleteDone(b, s, requests, s', Results(log))
    ensures |requests| > 1 && IsPrepared(requests) ==> (s', Results(log)) == PreparedOutcome(b, s, requests, faults)
    ensures |requests| == 1 || !SameQuery(requests) ==> AllOrNothing(b, s, requests, s', Results(log))
    ensures IsInsert(requests) && FaithfulForms(b, s, requests, config) ==> AllOrNothing(b, s, requests, s', Results(log))
    ensures IsDelete(requests) && !crashed && FaithfulDelete(b, s, requests) ==> AllOrNothing(b, s, requests, s', Results(log))
    ensures IsPrepared(requests) && |requests| > 1 ==>
              (AllOrNothing(b, s, requests, s', Results(log)) <==> PreparedIsAtomic(b, s, requests, faults))
  {
    hide InDelivery, Shape, Results, AllOrNothing, IsBatchableInsert, IsBatchableDelete, ValuesIndex, WhereIndex, FaithfulForms, PreparedIsAtomic, Notifies, NoCallbacks, InsertDone, DeleteDone, PreparedOutcome, OwnResults, ApplyAll, TransactionDone;
    crashed := false;
    if |requests| == 1 {
      s', log := ExecuteSingle(b, s, requests[0]);
      assert [requests[0]] == requests;
      return;
    }
    var allSame := AllSame(requests);
    if !allSame {
      s', log := ExecuteTransactionBatch(b, s, requests, faults);
    } else if !requests[0].hasReturning && IsBatchableInsert(requests[0].query) {
      BatchableInsertHasValues(requests[0].query);
      s', log := ExecuteInsert(b, s, requests, faults, config);
    } else if IsBatchableDelete(requests[0].query) {
      BatchableDeleteHasWhere(requests[0].query);
      s', log, crashed := ExecuteDelete(b, s, requests);
    } else {
      s', log := ExecutePreparedBatch(b, s, requests, faults);
    }
  }

  // ---------------------------------------------------------------- the prepared path

  /** A prepared batch is all or nothing when begin or prepare fails, when every statement would succeed
      after those before it, or when every statement is refused as the database is. */
  ghost predicate PreparedIsAtomic<S>(b: Backend<S>, s: S, requests: seq<Request>, faults: Faults)
    requires requests != []
  {
    || faults.begin.Some?
    || faults.prepare.Some?
    || ApplyAll(b, s, requests).Some?
    || forall i | 0 <= i < |requests| :: b.exec(s, Sql(requests[0].query, requests[i].params)).Err?
  }

  /** ... and only then: a batch that mixes successes and failures is rolled back although some of its
      requests are told success. */
  lemma PreparedBatchIff<S>(b: Backend<S>, s: S, requests: seq<Request>, faults: Faults)
    requires requests != [] && SameQuery(requests)
    ensures var (s', rs) := PreparedOutcome(b, s, requests, faults);
            AllOrNothing(b, s, requests, s', rs) <==> PreparedIsAtomic(b, s, requests, faults)
  {
    hide RunAll, ApplyAll;
    var p := Prepared(requests[0].query, requests[0].hasReturning);
    RunAllLength(b, s, p, requests, |requests|);
    RunAllSucceeds(b, s, p, requests, |requests|);
    RunAllFails(b, s, p, requests, |requests|);
    var rs := PreparedOutcome(b, s, requests, faults).1;
    assert AllSuccess(rs) ==> !rs[0].Failure?;
  }

  lemma {:induction false} RunAllLength<S>(b: Backend<S>, s: S, p: Prepared, requests: seq<Request>, n: nat)
    ensures |RunAll(b, s, p, requests, n).1| == |requests|
    decreases |requests|
  {
    if requests != [] { RunAllLength(b, RunOne(b, s, p, requests[0], n).0, p, requests[1..], n); }
  }

  lemma SuccessHead(r: Result, rs: seq<Result>)
    ensures AllSuccess([r] + rs) <==> r.Success? && AllSuccess(rs)
    ensures AllFailure([r] + rs) <==> r.Failure? && AllFailure(rs)
  {
    var all := [r] + rs;
    assert all[0] == r;
    forall i | 0 <= i < |rs| ensures all[i + 1] == rs[i] {
    }
  }

  /** All statements succeed exactly when the requests can be applied one after the other. */
  lemma {:induction false} RunAllSucceeds<S>(b: Backend<S>, s: S, p: Prepared, requests: seq<Request>, n: nat)
    requires forall i | 0 <= i < |requests| :: requests[i].query == p.query
    ensures AllSuccess(RunAll(b, s, p, requests, n).1) <==> ApplyAll(b, s, requests).Some?
    ensures ApplyAll(b, s, requests).Some? ==> ApplyAll(b, s, requests) == Some(RunAll(b, s, p, requests, n).0)
    decreases |requests|
  {
    if requests != [] {
      var (t, r) := RunOne(b, s, p, requests[0], n);
      RunAllSucceeds(b, t, p, requests[1..], n);
      SuccessHead(r, RunAll(b, t, p, requests[1..], n).1);
    }
  }

  /** All statements fail exactly when each is refused by the database as it was. */
  lemma {:induction false} RunAllFails<S>(b: Backend<S>, s: S, p: Prepared, requests: seq<Request>, n: nat)
    ensures AllFailure(RunAll(b, s, p, requests, n).1) <==>
            forall i | 0 <= i < |requests| :: b.exec(s, Sql(p.query, requests[i].params)).Err?
    decreases |requests|
  {
    if requests != [] {
      var (t, r) := RunOne(b, s, p, requests[0], n);
      SuccessHead(r, RunAll(b, t, p, requests[1..], n).1);
      RunAllFails(b, t, p, requests[1..], n);
      if r.Failure? {
        var rest := requests[1..];
        assert (forall i | 0 <= i < |rest| :: b.exec(s, Sql(p.query, rest[i].params)).Err?) ==>
            forall i | 0 <= i < |requests| :: b.exec(s, Sql(p.query, requests[i].params)).Err? by {
          forall i | 1 <= i < |requests| ensures requests[i] == rest[i - 1] {
          }
        }
      }
    }
  }

  /** A counter that refuses NULL. */
  function CounterExec(s: int, stmt: Stmt): Exec<int> {
    if stmt.Sql? && stmt.args == [Null] then Err("refused") else Ok(s + 1, 1, 0)
  }

  lemma RunTwo<S>(b: Backend<S>, s: S, p: Prepared, first: Request, second: Request, n: nat)
    ensures var (t, r) := RunOne(b, s, p, first, n); var (u, q) := RunOne(b, t, p, second, n);
            RunAll(b, s, p, [first, second], n) == (u, [r, q])
  {
    hide RunOne;
    var (t, r) := RunOne(b, s, p, first, n);
    var (u, q) := RunOne(b, t, p, second, n);
    assert [second][1..] == [] && [first, second][1..] == [second];
    assert RunAll(b, u, p, [], n) == (u, []);
    assert [q] + [] == [q] && [r] + [q] == [r, q];
  }

  /** Two requests of one prepared statement, the second refused: the first is told success, and the
      database is as it was. */
  lemma MixedBatchMisreports(query: string)
    ensures var b, none := Backend(CounterExec, true), Faults(None, None, (i: nat) => None, None, None);
            var requests := [Request(query, [Val("1")], false, false), Request(query, [Null], false, false)];
            && PreparedOutcome(b, 0, requests, none) == (0, [Success(1, 0, None, 2), Failure("refused")])
            && !AllOrNothing(b, 0, requests, 0, [Success(1, 0, None, 2), Failure("refused")])
  {
    var b := Backend(CounterExec, true);
    assert [Val("1")][0] != [Null][0];
    RunTwo(b, 0, Prepared(query, false), Request(query, [Val("1")], false, false), Request(query, [Null], false, false), 2);
    var rs := [Success(1, 0, None, 2), Failure("refused")];
    assert rs[0].Success? && rs[1].Failure?;
  }
}
