/** The tables of Inserts as backends of the batch strategies. They execute the SQL text that the executor
    sends, so that what is proved here is about that text: on which queries and tables the
    one-statement forms of a batch are faithful. */
module InsertTables {
  import opened Seqs
  import opened Options
  import opened SqlValue
  import opened SplitQueries
  import opened SqlText
  import opened Placeholders
  import opened ValuesText
  import LiteralText
  import opened BatchStrategies
  import I = Inserts
  import L = LoadData

  // ---------------------------------------------------------------- a table behind INSERT

  function FromOutcome(o: I.Outcome): Exec<I.Table> {
    match o
    case Failed => Err("insert failed")
    case Done(t, rawId, affected) => Ok(t, affected, rawId)
  }

  function FromField(f: Option<string>): Value { match f case None => Null case Some(s) => Val(s) }

  function FromFields(row: seq<Option<string>>): seq<Value> { seq(|row|, i requires 0 <= i < |row| => FromField(row[i])) }

  function AllFields(rows: seq<seq<Option<string>>>): seq<seq<Value>> {
    if rows == [] then [] else [FromFields(rows[0])] + AllFields(rows[1..])
  }

  /** The rows the server reads from a LOAD DATA payload. */
  function LoadedRows(payload: string): seq<seq<Value>> { AllFields(L.ReadRows([], payload)) }

  /** The rows that a VALUES clause other than plain placeholder tuples stands for with its arguments, if
      the server accepts it: literal values, expressions, functions of placeholders. */
  type Clauses = (string, seq<Value>) -> Option<seq<I.Row>>

  /** An INSERT is executed by what stands behind VALUES. A row that COPY refuses undoes it; one that LOAD
      DATA LOCAL refuses is skipped, as with IGNORE (MySQL Reference Manual, "LOAD DATA Statement"). */
  function InsertExec(server: I.Server, clauses: Clauses, t: I.Table, stmt: Stmt): Exec<I.Table> {
    match stmt
    case Sql(query, args) =>
      if ValuesIndex(query) == -1 then Err("not an insert") else InsertValues(server, clauses, t, query[ValuesIndex(query)..], args)
    case Load(_, payload) =>
      var loaded := I.AddAdmitted(server, t, LoadedRows(payload));
      Ok(loaded, |loaded.rows| - |t.rows|, 0)
    case Copy(_, rows) => FromOutcome(I.InsertRows(server, t, rows))
  }

  function InsertValues(server: I.Server, clauses: Clauses, t: I.Table, clause: string, args: seq<Value>): Exec<I.Table> {
    match ReadValues(clause)
    case Some(tuples) => FromOutcome(I.ExecInsert(server, t, tuples, args))
    case None =>
      match clauses(TrimSpace(clause), args)
      case None => Err("syntax error")
      case Some(rows) => FromOutcome(I.InsertRows(server, t, rows))
  }

  /** The manager's id convention follows the driver (manager.go:32-42). */
  function InsertBackend(server: I.Server, clauses: Clauses): Backend<I.Table> {
    Backend((t: I.Table, stmt: Stmt) => InsertExec(server, clauses, t, stmt), server.report.FirstId?)
  }

  // ---------------------------------------------------------------- INSERT with parameters

  /** The VALUES clause is one tuple of `p` plain placeholders. */
  predicate PlainTuple(query: string, p: nat) {
    && p > 0 && ValuesIndex(query) >= 0
    && ReadValues(query[ValuesIndex(query)..]) == Some([I.Marks(HasPlaceholder(query), 1, p)])
  }

  /** The server refuses rows that do not have the statement's `p` columns. */
  ghost predicate WidthChecked(server: I.Server, p: nat) {
    forall stored, row :: server.admits(stored, row) ==> |row| == p
  }

  lemma {:induction false} LoadedIsWritten(rows: seq<seq<Value>>)
    requires forall i | 0 <= i < |rows| :: rows[i] != []
    ensures LoadedRows(L.Payload(AllParams(rows))) == rows
  {
    L.PayloadRoundTrip(AllParams(rows));
    ParamsNotEmpty(rows);
    FieldsOfParams(rows);
  }

  lemma {:induction false} ParamsNotEmpty(rows: seq<seq<Value>>)
    requires forall i | 0 <= i < |rows| :: rows[i] != []
    ensures L.NoEmptyRow(AllParams(rows))
  {
    if rows != [] { ParamsNotEmpty(rows[1..]); }
  }

  lemma {:induction false} FieldsOfParams(rows: seq<seq<Value>>)
    ensures AllFields(L.AllValues(AllParams(rows))) == rows
  {
    if rows != [] {
      hide FromFields, ToParams, L.Values;
      FieldsOfParams(rows[1..]);
      FieldsOfRow(rows[0]);
    }
  }

  lemma FieldsOfRow(row: seq<Value>)
    ensures FromFields(L.Values(ToParams(row))) == row
  {
    var read := FromFields(L.Values(ToParams(row)));
    forall i | 0 <= i < |row| ensures read[i] == row[i] {
    }
  }

  /** One request on its own. */
  lemma SingleInsert(server: I.Server, clauses: Clauses, p: nat, t: I.Table, query: string, row: seq<Value>)
    requires PlainTuple(query, p)
    ensures InsertExec(server, clauses, t, Sql(query, row)) ==
            if |row| == p then FromOutcome(I.InsertRows(server, t, [row])) else Err("insert failed")
  {
    hide ValuesIndex, ReadValues, HasPlaceholder;
    I.SingleBinds(server, HasPlaceholder(query), t, p, row);
  }

  /** Applying the requests is adding their rows. */
  lemma {:induction false} ApplyAddsRows(server: I.Server, clauses: Clauses, p: nat, t: I.Table, query: string, requests: seq<Request>)
    requires PlainTuple(query, p)
    requires forall i | 0 <= i < |requests| :: requests[i].query == query && |requests[i].params| == p
    ensures ApplyAll(InsertBackend(server, clauses), t, requests) == I.AddRows(server, t, ParamsOf(requests))
    decreases |requests|
  {
    if requests != [] {
      hide InsertExec, PlainTuple;
      var row := requests[0].params;
      SingleInsert(server, clauses, p, t, query, row);
      I.AddOneRow(server, t, row);
      assert ParamsOf(requests)[1..] == ParamsOf(requests[1..]);
      if server.admits(t.rows, row) {
        ApplyAddsRows(server, clauses, p, I.Table(t.rows + [I.Stored(t.nextId, row)], t.nextId + 1), query, requests[1..]);
      }
    }
  }

  lemma BehindValues(query: string, rest: string)
    requires ValuesIndex(query) >= 0
    ensures var text := query[..ValuesIndex(query)] + rest;
            ValuesIndex(text) == ValuesIndex(query) && text[ValuesIndex(text)..] == rest
  {
    hide ValuesIndex;
    ValuesIndexKept(query, rest);
    AfterPrefix(query[..ValuesIndex(query)], rest);
  }

  /** The server executes the generated text as the insertion of the requests' rows. */
  lemma MultiRowInserts(server: I.Server, clauses: Clauses, t: I.Table, requests: seq<Request>)
    requires requests != [] && requests[0].params != [] && SameCount(requests) && ValuesIndex(requests[0].query) >= 0
    ensures InsertExec(server, clauses, t, MultiRowStmt(requests)) == FromOutcome(I.InsertRows(server, t, ParamsOf(requests)))
  {
    hide ValuesIndex, ReadValues, HasPlaceholder, RowsText, I.ExecInsert, I.Tuples;
    var query, n, p := requests[0].query, |requests|, |requests[0].params|;
    var isPostgres := HasPlaceholder(query);
    BehindValues(query, " " + RowsText(isPostgres, 1, 0, n, p));
    GeneratedTextIsRead(isPostgres, n, p);
    I.MultiRowBinds(server, isPostgres, t, p, ParamsOf(requests));
  }

  lemma NarrowRowsRefused(server: I.Server, p: nat, t: I.Table, rows: seq<I.Row>)
    requires WidthChecked(server, p) && rows != [] && |rows[0]| != p
    ensures I.InsertRows(server, t, rows) == I.Failed
  {
  }

  /** Without arguments, a text of placeholder tuples is refused, repeated or not. */
  lemma NoArgumentsRefused(server: I.Server, clauses: Clauses, t: I.Table, clause: string)
    requires ReadValues(clause).Some?
    ensures InsertValues(server, clauses, t, clause, []).Err?
  {
    hide ReadValues;
    var tuples := ReadValues(clause).value;
    TuplesHaveMarks(clause);
  }

  lemma TuplesHaveMarks(clause: string)
    requires ReadValues(clause).Some?
    ensures I.MarkCount(ReadValues(clause).value) > 0
  {
    var text := NoSpaces(clause);
    ColsHaveMarks(text[1..]);
  }

  lemma ColsHaveMarks(text: string)
    requires ReadCols(text).Some?
    ensures ReadCols(text).value.0 != []
  {
  }

  /** The repeated clause, as the server reads it behind VALUES. */
  lemma RepeatedInserts(server: I.Server, clauses: Clauses, t: I.Table, requests: seq<Request>)
    requires requests != [] && requests[0].params == [] && ValuesIndex(requests[0].query) >= 0
    ensures var q := requests[0].query;
            InsertExec(server, clauses, t, MultiRowStmt(requests)) ==
            InsertValues(server, clauses, t, " " + RepeatedList(TrimSpace(q[ValuesIndex(q)..]), |requests|), [])
  {
    hide ValuesIndex, ReadValues, RepeatedList, TrimSpace, InsertValues;
    var q := requests[0].query;
    var base, list := q[..ValuesIndex(q)], RepeatedList(TrimSpace(q[ValuesIndex(q)..]), |requests|);
    Regroup(base, " ", list);
    BehindValues(q, " " + list);
  }

  /** A batch that lacks the arguments its placeholders ask for is refused. */
  lemma MissingArgumentsRefused(server: I.Server, clauses: Clauses, t: I.Table, p: nat, requests: seq<Request>)
    requires requests != [] && requests[0].params == [] && PlainTuple(requests[0].query, p)
    ensures InsertExec(server, clauses, t, MultiRowStmt(requests)).Err?
  {
    hide ValuesIndex, ReadTuples, NoSpaces, RepeatedList, TrimSpace, InsertExec, InsertValues, HasPlaceholder;
    var q := requests[0].query;
    var clause := q[ValuesIndex(q)..];
    var list := RepeatedList(TrimSpace(clause), |requests|);
    RepeatedInserts(server, clauses, t, requests);
    TrimKeepsText(clause);
    RepeatedIsRead(TrimSpace(clause), |requests|);
    NoSpacesConcat(" ", list);
    OneSpace();
    assert [] + NoSpaces(list) == NoSpaces(list);
    NoArgumentsRefused(server, clauses, t, " " + list);
  }

  /** The batched forms of an INSERT of one placeholder tuple, whatever its spelling and its placeholders,
      do what the requests do one after the other: multi-row text and COPY always, LOAD DATA exactly
      when every row is admitted in turn. */
  lemma InsertFaithfulIff(server: I.Server, clauses: Clauses, p: nat, t: I.Table, requests: seq<Request>, config: Config)
    requires requests != [] && SameQuery(requests) && SameCount(requests)
    requires PlainTuple(requests[0].query, p) && WidthChecked(server, p)
    ensures FaithfulForms(InsertBackend(server, clauses), t, requests, config) <==>
            (IsBulk(config, requests) && !HasPlaceholder(requests[0].query) ==> I.AddRows(server, t, ParamsOf(requests)).Some?)
  {
    hide ValuesIndex, PlainTuple, MultiRowStmt, InsertValues, HasPlaceholder, I.AddRows, I.AddAdmitted, ApplyAll;
    PlainHasValues(requests[0].query, p);
    if requests[0].params == [] {
      MissingArgumentsRefused(server, clauses, t, p, requests);
    } else {
      MultiRowInserts(server, clauses, t, requests);
      BulkFaithful(server, clauses, p, t, requests);
      LoadFaithfulIff(server, clauses, p, t, requests);
    }
  }

  /** Loading tells every request success whatever was skipped, so it is faithful exactly when nothing is. */
  lemma LoadFaithfulIff(server: I.Server, clauses: Clauses, p: nat, t: I.Table, requests: seq<Request>)
    requires requests != [] && SameQuery(requests) && SameCount(requests) && requests[0].params != []
    requires PlainTuple(requests[0].query, p) && WidthChecked(server, p)
    ensures FaithfulStmt(InsertBackend(server, clauses), t, requests, LoadStmt(requests)) <==>
            I.AddRows(server, t, ParamsOf(requests)).Some?
  {
    hide PlainTuple, InsertValues, I.AddRows, I.AddAdmitted, ApplyAll, LoadedRows;
    var rows := ParamsOf(requests);
    LoadedIsWritten(rows);
    AppliedIffAdmitted(server, clauses, p, t, requests);
    if I.AddRows(server, t, rows).Some? { I.AllAdmitted(server, t, rows); }
  }

  /** The requests can be applied exactly when their rows are admitted in turn. */
  lemma AppliedIffAdmitted(server: I.Server, clauses: Clauses, p: nat, t: I.Table, requests: seq<Request>)
    requires requests != [] && SameQuery(requests) && SameCount(requests)
    requires PlainTuple(requests[0].query, p) && WidthChecked(server, p)
    ensures ApplyAll(InsertBackend(server, clauses), t, requests) == I.AddRows(server, t, ParamsOf(requests))
  {
    hide PlainTuple;
    var q := requests[0].query;
    if |requests[0].params| == p {
      ApplyAddsRows(server, clauses, p, t, q, requests);
    } else {
      hide InsertExec;
      NarrowRowsRefused(server, p, t, ParamsOf(requests));
      SingleInsert(server, clauses, p, t, q, requests[0].params);
    }
  }

  /** A table of one column that admits no value twice. */
  function Unique(): I.Server {
    I.Server((stored: seq<I.Stored>, row: I.Row) => |row| == 1 && forall i | 0 <= i < |stored| :: stored[i].values != row, I.FirstId)
  }

  lemma OnlyOnce(v: Value)
    ensures I.AddRows(Unique(), I.Table([], 1), [[v], [v]]) == None
    ensures I.AddAdmitted(Unique(), I.Table([], 1), [[v], [v]]) == I.Table([I.Stored(1, [v])], 2)
  {
    var t, t1 := I.Table([], 1), I.Table([I.Stored(1, [v])], 2);
    assert [[v], [v]][1..] == [[v]] && [[v]][1..] == [];
    assert t.rows + [I.Stored(1, [v])] == t1.rows;
    assert t1.rows[0].values == [v];
    assert Unique().admits(t.rows, [v]) && !Unique().admits(t1.rows, [v]);
    assert I.AddRows(Unique(), t1, [[v]]) == None;
    assert I.AddAdmitted(Unique(), t1, [[v]]) == I.AddAdmitted(Unique(), t1, []) == t1;
  }

  /** Two requests with the same value: the load succeeds with one row, where the second INSERT would have
      failed. */
  lemma DuplicateIsSkipped(clauses: Clauses, query: string, v: Value)
    requires PlainTuple(query, 1)
    ensures var requests := [Request(query, [v], false, false), Request(query, [v], false, false)];
            var b, t := InsertBackend(Unique(), clauses), I.Table([], 1);
            && b.exec(t, LoadStmt(requests)) == Ok(I.Table([I.Stored(1, [v])], 2), 1, 0)
            && ApplyAll(b, t, requests) == None
            && !FaithfulStmt(b, t, requests, LoadStmt(requests))
  {
    hide PlainTuple, InsertValues, LoadedRows, InsertBackend, Unique, I.AddRows, I.AddAdmitted, ApplyAll;
    var requests := [Request(query, [v], false, false), Request(query, [v], false, false)];
    var t := I.Table([], 1);
    assert ParamsOf(requests) == [[v], [v]];
    LoadedIsWritten([[v], [v]]);
    OnlyOnce(v);
    OneColumn();
    AppliedIffAdmitted(Unique(), clauses, 1, t, requests);
    BackendExec(Unique(), clauses, t, LoadStmt(requests));
  }

  lemma OneColumn()
    ensures WidthChecked(Unique(), 1)
  {
  }

  lemma BackendExec(server: I.Server, clauses: Clauses, t: I.Table, stmt: Stmt)
    ensures InsertBackend(server, clauses).exec(t, stmt) == InsertExec(server, clauses, t, stmt)
  {
  }

  lemma PlainHasValues(query: string, p: nat)
    requires PlainTuple(query, p)
    ensures ValuesIndex(query) >= 0 && p > 0
  {
  }

  /** Inserting the requests' rows at once does what the requests do. */
  lemma BulkFaithful(server: I.Server, clauses: Clauses, p: nat, t: I.Table, requests: seq<Request>)
    requires requests != [] && SameQuery(requests) && SameCount(requests)
    requires PlainTuple(requests[0].query, p) && WidthChecked(server, p)
    ensures match I.InsertRows(server, t, ParamsOf(requests))
            case Failed => true
            case Done(t', _, _) => ApplyAll(InsertBackend(server, clauses), t, requests) == Some(t')
  {
    hide PlainTuple, InsertExec, ApplyAll, I.AddRows;
    AppliedIffAdmitted(server, clauses, p, t, requests);
  }

  /** What ExecuteMultiRow tells request `i`, with a driver that reports ids, is the id of a new row that
      holds request `i`'s parameters. */
  lemma ReplyIdIsOwnRow(server: I.Server, clauses: Clauses, t: I.Table, requests: seq<Request>, i: nat)
    requires i < |requests| && SameCount(requests) && requests[0].params != [] && ValuesIndex(requests[0].query) >= 0
    requires !server.report.NoId? && InsertExec(server, clauses, t, MultiRowStmt(requests)).Ok?
    ensures var r := InsertExec(server, clauses, t, MultiRowStmt(requests));
            var n := |requests|;
            var told := MultiRowReplies(I.NormalizeFirstInsertId(server.report.FirstId?, r.lastId, n), n);
            |r.state.rows| == |t.rows| + n &&
            r.state.rows[|t.rows| + i] == I.Stored(told[i].lastInsertId, requests[i].params)
  {
    hide ValuesIndex, InsertExec, MultiRowStmt, I.AddRows;
    MultiRowInserts(server, clauses, t, requests);
    I.AddRowsShape(server, t, ParamsOf(requests));
  }

  /** One row each with its id, which for RETURNING is the returned value. */
  function ToldEach(server: I.Server, nextId: int, scan: bool, n: nat, k: nat): (rs: seq<Result>)
    ensures |rs| == k
    ensures forall i | 0 <= i < k ::
              var id := if server.report.NoId? then 0 else nextId + i;
              rs[i] == if scan then Success(1, 0, Some(id), n) else Success(1, id, None, n)
  {
    seq(k, i requires 0 <= i < k =>
      var id := if server.report.NoId? then 0 else nextId + i;
      if scan then Success(1, 0, Some(id), n) else Success(1, id, None, n))
  }

  lemma ToldFirst(server: I.Server, nextId: int, scan: bool, n: nat, k: nat)
    requires k > 0
    ensures [ToldEach(server, nextId, scan, n, 1)[0]] + ToldEach(server, nextId + 1, scan, n, k - 1) == ToldEach(server, nextId, scan, n, k)
  {
  }

  lemma PreparedOne(server: I.Server, clauses: Clauses, t: I.Table, p: Prepared, request: Request, n: nat)
    requires PlainTuple(p.query, |request.params|) && server.admits(t.rows, request.params)
    ensures RunOne(InsertBackend(server, clauses), t, p, request, n) ==
            (I.Table(t.rows + [I.Stored(t.nextId, request.params)], t.nextId + 1), ToldEach(server, t.nextId, p.scan, n, 1)[0])
  {
    hide InsertExec, PlainTuple;
    SingleInsert(server, clauses, |request.params|, t, p.query, request.params);
    I.AddOneRow(server, t, request.params);
  }

  /** What a prepared batch of INSERTs tells. */
  lemma {:induction false} PreparedInsertResults(server: I.Server, clauses: Clauses, w: nat, t: I.Table, p: Prepared, requests: seq<Request>, n: nat)
    requires PlainTuple(p.query, w) && I.AddRows(server, t, ParamsOf(requests)).Some?
    requires forall i | 0 <= i < |requests| :: |requests[i].params| == w
    ensures RunAll(InsertBackend(server, clauses), t, p, requests, n) ==
            (I.AddRows(server, t, ParamsOf(requests)).value, ToldEach(server, t.nextId, p.scan, n, |requests|))
    decreases |requests|
  {
    hide PlainTuple, RunOne, ToldEach;
    if requests != [] {
      PreparedOne(server, clauses, t, p, requests[0], n);
      assert ParamsOf(requests)[1..] == ParamsOf(requests[1..]);
      PreparedInsertResults(server, clauses, w, I.Table(t.rows + [I.Stored(t.nextId, requests[0].params)], t.nextId + 1), p, requests[1..], n);
      ToldFirst(server, t.nextId, p.scan, n, |requests|);
    } else {
      assert ToldEach(server, t.nextId, p.scan, n, 0) == [];
    }
  }

  /** What the single INSERTs, and so a transaction of them, report. */
  lemma {:induction false} OwnInsertResults(server: I.Server, clauses: Clauses, w: nat, t: I.Table, query: string, requests: seq<Request>, n: nat)
    requires PlainTuple(query, w) && I.AddRows(server, t, ParamsOf(requests)).Some?
    requires forall i | 0 <= i < |requests| :: requests[i].query == query && |requests[i].params| == w
    ensures OwnResults(InsertBackend(server, clauses), t, requests, n) == ToldEach(server, t.nextId, false, n, |requests|)
    decreases |requests|
  {
    hide PlainTuple, ToldEach, InsertBackend;
    if requests != [] {
      PreparedOne(server, clauses, t, Prepared(query, false), requests[0], n);
      assert ParamsOf(requests)[1..] == ParamsOf(requests[1..]);
      OwnInsertResults(server, clauses, w, I.Table(t.rows + [I.Stored(t.nextId, requests[0].params)], t.nextId + 1), query, requests[1..], n);
      ToldFirst(server, t.nextId, false, n, |requests|);
    } else {
      assert ToldEach(server, t.nextId, false, n, 0) == [];
    }
  }

  /** End to end: a batch of INSERTs whose rows the table admits in turn, executed without driver failures,
      adds exactly those rows and tells every request success with one row; on the multi-row path, with a
      driver that reports ids, it tells every request the id of its own row. */
  lemma AdmittedBatchSucceeds(server: I.Server, clauses: Clauses, p: nat, t: I.Table, requests: seq<Request>, faults: Faults, config: Config, t': I.Table, rs: seq<Result>)
    requires requests != [] && SameQuery(requests) && SameCount(requests) && |requests[0].params| == p
    requires PlainTuple(requests[0].query, p) && I.AddRows(server, t, ParamsOf(requests)).Some?
    requires NoFaults(faults, |requests|) && InsertDone(InsertBackend(server, clauses), t, requests, faults, config, t', rs)
    ensures I.AddRows(server, t, ParamsOf(requests)) == Some(t') == ApplyAll(InsertBackend(server, clauses), t, requests)
    ensures |rs| == |requests| && forall i | 0 <= i < |rs| :: rs[i].Success? && rs[i].affectedRows == 1
    ensures !(IsBulk(config, requests) && config.parses(requests[0].query)) && !server.report.NoId? ==>
              |t'.rows| == |t.rows| + |requests| &&
              forall i | 0 <= i < |rs| :: t'.rows[|t.rows| + i] == I.Stored(rs[i].lastInsertId, requests[i].params)
  {
    hide PlainTuple, ValuesIndex, MultiRowStmt, InsertValues, HasPlaceholder, I.AddRows, I.AddAdmitted, ApplyAll, LoadedRows, InsertBackend;
    PlainHasValues(requests[0].query, p);
    NoRowFault(faults, 0, |requests|);
    var rows := ParamsOf(requests);
    ApplyAddsRows(server, clauses, p, t, requests[0].query, requests);
    I.AllAdmitted(server, t, rows);
    I.AddRowsShape(server, t, rows);
    LoadedIsWritten(rows);
    MultiRowInserts(server, clauses, t, requests);
    BackendExec(server, clauses, t, MultiRowStmt(requests));
    BackendExec(server, clauses, t, LoadStmt(requests));
    BackendExec(server, clauses, t, CopyStmt(requests));
    BackendIds(server, clauses);
  }

  lemma BackendIds(server: I.Server, clauses: Clauses)
    ensures InsertBackend(server, clauses).firstIdIsFirst == server.report.FirstId?
  {
  }

  // ---------------------------------------------------------------- INSERT without parameters

  /** SQL's reading of a list: a clause repeated is its rows repeated, or the server refuses the list. */
  ghost predicate ReadsRepeats(clauses: Clauses, clause: string) {
    forall n: nat | n > 0 :: clauses(RepeatedList(clause, n), []).Some? ==>
      clauses(clause, []).Some? && clauses(RepeatedList(clause, n), []).value == I.Repeated(clauses(clause, []).value, n)
  }

  /** The query carries its values in its text. */
  ghost predicate LiteralQuery(clauses: Clauses, query: string) {
    && ValuesIndex(query) >= 0
    && var clause := query[ValuesIndex(query)..];
       ReadValues(clause).None? && TrimSpace(clause) != [] && ReadsRepeats(clauses, TrimSpace(clause))
  }

  function LiteralRows(clauses: Clauses, query: string): Option<seq<I.Row>>
    requires ValuesIndex(query) >= 0
  {
    clauses(TrimSpace(query[ValuesIndex(query)..]), [])
  }

  lemma {:induction false} ListTrimmed(clause: string, n: nat)
    requires IsTrimmed(clause) && n > 0
    ensures IsTrimmed(RepeatedList(clause, n))
    decreases n
  {
    if n > 1 {
      ListTrimmed(clause, n - 1);
      var front := RepeatedList(clause, n - 1) + ", ";
      assert (front + clause)[|front| + |clause| - 1] == clause[|clause| - 1];
      assert (front + clause)[0] == RepeatedList(clause, n - 1)[0];
    }
  }

  lemma TrimmedStays(s: string)
    requires IsTrimmed(s)
    ensures TrimSpace(" " + s) == s
  {
    AfterPrefix(" ", s);
    assert TrimLeft(" " + s) == TrimLeft(s) == s;
    assert TrimRight(s) == s;
  }

  /** The batch inserts the literal rows repeated, or nothing. */
  lemma LiteralBatch(server: I.Server, clauses: Clauses, t: I.Table, requests: seq<Request>)
    requires requests != [] && requests[0].params == [] && LiteralQuery(clauses, requests[0].query)
    ensures var q := requests[0].query;
            InsertExec(server, clauses, t, MultiRowStmt(requests)).Ok? ==>
            && LiteralRows(clauses, q).Some?
            && InsertExec(server, clauses, t, MultiRowStmt(requests)) ==
               FromOutcome(I.InsertRows(server, t, I.Repeated(LiteralRows(clauses, q).value, |requests|)))
  {
    hide ValuesIndex, ReadValues, RepeatedList, TrimSpace, InsertExec, MultiRowStmt, I.InsertRows, I.Repeated;
    var q := requests[0].query;
    var clause := TrimSpace(q[ValuesIndex(q)..]);
    var list := RepeatedList(clause, |requests|);
    RepeatedInserts(server, clauses, t, requests);
    TrimSpaceTrims(q[ValuesIndex(q)..]);
    ListTrimmed(clause, |requests|);
    TrimmedStays(list);
    if ReadValues(" " + list).Some? {
      hide InsertValues;
      NoArgumentsRefused(server, clauses, t, " " + list);
    }
  }

  lemma SingleLiteral(server: I.Server, clauses: Clauses, t: I.Table, query: string)
    requires LiteralQuery(clauses, query) && LiteralRows(clauses, query).Some?
    ensures InsertExec(server, clauses, t, Sql(query, [])) ==
            FromOutcome(I.InsertRows(server, t, LiteralRows(clauses, query).value))
  {
    hide ValuesIndex, ReadValues, TrimSpace;
  }

  lemma {:induction false} ApplyAddsLiterals(server: I.Server, clauses: Clauses, t: I.Table, query: string, requests: seq<Request>)
    requires LiteralQuery(clauses, query) && LiteralRows(clauses, query).Some?
    requires forall i | 0 <= i < |requests| :: requests[i].query == query && requests[i].params == []
    ensures ApplyAll(InsertBackend(server, clauses), t, requests) ==
            I.AddRows(server, t, I.Repeated(LiteralRows(clauses, query).value, |requests|))
    decreases |requests|
  {
    hide InsertExec, LiteralQuery, LiteralRows, ValuesIndex, I.AddRows;
    LiteralHasValues(clauses, query);
    var rows := LiteralRows(clauses, query).value;
    if requests == [] {
      NothingAdded(server, t);
    } else {
      SingleLiteral(server, clauses, t, query);
      I.AddRowsConcat(server, t, rows, I.Repeated(rows, |requests| - 1));
      if I.AddRows(server, t, rows).Some? {
        ApplyAddsLiterals(server, clauses, I.AddRows(server, t, rows).value, query, requests[1..]);
      }
    }
  }

  lemma NothingAdded(server: I.Server, t: I.Table)
    ensures I.AddRows(server, t, []) == Some(t)
  {
  }

  /** The batched form of an INSERT that carries its values in its text, of however many rows, does what
      the requests do one after the other. */
  lemma LiteralInsertFaithful(server: I.Server, clauses: Clauses, t: I.Table, requests: seq<Request>, config: Config)
    requires requests != [] && SameQuery(requests) && SameCount(requests) && requests[0].params == []
    requires LiteralQuery(clauses, requests[0].query)
    ensures FaithfulForms(InsertBackend(server, clauses), t, requests, config)
  {
    hide InsertExec, LiteralQuery, LiteralRows, ValuesIndex, MultiRowStmt, ApplyAll, I.AddRows, I.Repeated;
    LiteralHasValues(clauses, requests[0].query);
    if InsertExec(server, clauses, t, MultiRowStmt(requests)).Ok? {
      LiteralBatch(server, clauses, t, requests);
      ApplyAddsLiterals(server, clauses, t, requests[0].query, requests);
    }
  }

  lemma LiteralHasValues(clauses: Clauses, query: string)
    requires LiteralQuery(clauses, query)
    ensures ValuesIndex(query) >= 0
  {
  }

  /** What ExecuteMultiRow tells such a batch is what Inserts.Parameterless tells: right exactly on the
      conditions of ParameterlessRefines and ParameterlessIdsIff. */
  lemma LiteralReplies(server: I.Server, clauses: Clauses, t: I.Table, requests: seq<Request>)
    requires requests != [] && requests[0].params == [] && LiteralQuery(clauses, requests[0].query)
    ensures var r, n := InsertExec(server, clauses, t, MultiRowStmt(requests)), |requests|;
            r.Ok? ==>
            var replies := MultiRowReplies(I.NormalizeFirstInsertId(server.report.FirstId?, r.lastId, n), n);
            && LiteralRows(clauses, requests[0].query).Some?
            && var batch := I.Parameterless(server, t, LiteralRows(clauses, requests[0].query).value, n);
               && batch.BatchDone? && batch.table == r.state
               && forall i | 0 <= i < n :: batch.told[i] == I.Told(replies[i].lastInsertId, replies[i].affectedRows)
  {
    hide InsertExec, LiteralQuery, LiteralRows, ValuesIndex, MultiRowStmt, I.AddRows, I.Repeated;
    LiteralBatch(server, clauses, t, requests);
  }

  // ---------------------------------------------------------------- the reader of literal tuples

  function Rows(row: string -> I.Row, raws: seq<string>): (rows: seq<I.Row>)
    ensures |rows| == |raws| && forall i | 0 <= i < |raws| :: rows[i] == row(raws[i])
  {
    seq(|raws|, i requires 0 <= i < |raws| => row(raws[i]))
  }

  /** A server that reads literal tuples as LiteralText does, and each tuple by `row`. */
  function LiteralClauses(row: string -> I.Row): Clauses {
    (text: string, args: seq<Value>) =>
      if args != [] then None
      else match LiteralText.ReadTuples(text) case None => None case Some(raws) => Some(Rows(row, raws))
  }

  lemma {:induction false} RowsOfCopies(row: string -> I.Row, raws: seq<string>, n: nat)
    ensures Rows(row, LiteralText.Copies(raws, n)) == I.Repeated(Rows(row, raws), n)
    decreases n
  {
    if n > 0 {
      RowsOfCopies(row, raws, n - 1);
      var front := LiteralText.Copies(raws, n - 1);
      assert Rows(row, front + raws) == Rows(row, front) + Rows(row, raws);
      RepeatedSnoc(Rows(row, raws), n - 1);
    }
  }

  lemma {:induction false} RepeatedSnoc(rows: seq<I.Row>, n: nat)
    ensures I.Repeated(rows, n) + rows == rows + I.Repeated(rows, n)
    decreases n
  {
    if n == 0 {
      assert [] + rows == rows + [];
    } else {
      RepeatedSnoc(rows, n - 1);
      Regroup(rows, I.Repeated(rows, n - 1), rows);
    }
  }

  /** The premise of LiteralInsertFaithful holds of this reader for every clause that does not end in a
      comment ... */
  lemma ClosedClauseRepeats(row: string -> I.Row, clause: string)
    requires LiteralText.Closed(clause)
    ensures ReadsRepeats(LiteralClauses(row), clause)
  {
    hide LiteralText.ReadOn, RepeatedList;
    var raws := LiteralText.ReadTuples(clause).value;
    forall n: nat | n > 0
      ensures LiteralClauses(row)(RepeatedList(clause, n), []) == Some(I.Repeated(Rows(row, raws), n))
    {
      LiteralText.ClosedRepeats(clause, n);
      RowsOfCopies(row, raws, n);
      LiteralRead(row, RepeatedList(clause, n), LiteralText.Copies(raws, n));
    }
    LiteralRead(row, clause, raws);
  }

  lemma LiteralRead(row: string -> I.Row, text: string, raws: seq<string>)
    requires LiteralText.ReadTuples(text) == Some(raws)
    ensures LiteralClauses(row)(text, []) == Some(Rows(row, raws))
  {
  }

  /** ... and the batch of two requests whose clause does inserts one row, and tells both success. */
  lemma CommentedInsertIsLost(row: string -> I.Row, t: I.Table, query: string)
    requires ValuesIndex(query) >= 0 && TrimSpace(query[ValuesIndex(query)..]) == "(1) -- c)"
    ensures var requests := [Request(query, [], false, false), Request(query, [], false, false)];
            var b := InsertBackend(I.Unchecked(), LiteralClauses(row));
            && b.exec(t, MultiRowStmt(requests)).Ok? && |b.exec(t, MultiRowStmt(requests)).state.rows| == |t.rows| + 1
            && !FaithfulStmt(b, t, requests, MultiRowStmt(requests))
  {
    hide ValuesIndex, TrimSpace, InsertExec, LiteralText.ReadTuples, RepeatedList, MultiRowStmt, ReadValues, ApplyAll, InsertBackend;
    var server, clauses := I.Unchecked(), LiteralClauses(row);
    var requests := [Request(query, [], false, false), Request(query, [], false, false)];
    var clause := "(1) -- c)";
    var list, one := RepeatedList(clause, 2), Rows(row, ["1"]);
    LiteralText.CommentedClause();
    RepeatedInserts(server, clauses, t, requests);
    ListTrimmed(clause, 2);
    TrimmedStays(list);
    CommentedIsNoPlaceholder();
    I.AddOneRow(server, t, row("1"));
    assert one == [row("1")];
    BackendExec(server, clauses, t, MultiRowStmt(requests));
    CommentedApplied(server, clauses, t, query, row("1"));
  }

  lemma CommentedIsNoPlaceholder()
    ensures ReadValues(" " + RepeatedList("(1) -- c)", 2)).None? && ReadValues("(1) -- c)").None?
  {
    hide ReadTuples, NoSpaces;
    var clause, tail := "(1) -- c)", ") -- c)";
    var list := RepeatedList(clause, 2);
    assert clause == "(1" + tail;
    assert list == RepeatedList(clause, 1) + ", " + clause == clause + ", " + clause;
    Regroup("(1" + tail, ", ", clause);
    Regroup("(1", tail, ", " + clause);
    NoPlaceholderFirst('1', tail);
    NoPlaceholderFirst('1', tail + (", " + clause));
    assert ['('] + ['1'] == "(1";
    NoSpacesConcat(" ", list);
    OneSpace();
    assert [] + NoSpaces(list) == NoSpaces(list);
  }

  /** A tuple that does not start with a placeholder is no placeholder tuple. */
  lemma NoPlaceholderFirst(c: char, rest: string)
    requires c != '?' && c != '$' && !IsSpace(c)
    ensures ReadValues(['('] + [c] + rest).None?
  {
    NoSpacesConcat(['('] + [c], rest);
    NothingToDrop(['('] + [c]);
    var text := ['('] + [c] + NoSpaces(rest);
    assert text[0] == '(' && text[1..][0] == c;
  }

  lemma CommentedApplied(server: I.Server, clauses: Clauses, t: I.Table, query: string, row: I.Row)
    requires server == I.Unchecked() && ValuesIndex(query) >= 0
    requires var clause := query[ValuesIndex(query)..];
             ReadValues(TrimSpace(clause)).None? && clauses(TrimSpace(clause), []) == Some([row])
    ensures var requests := [Request(query, [], false, false), Request(query, [], false, false)];
            var done := ApplyAll(InsertBackend(server, clauses), t, requests);
            done.Some? && |done.value.rows| == |t.rows| + 2
  {
    hide ValuesIndex, TrimSpace, ReadTuples, NoSpaces;
    TrimKeepsText(query[ValuesIndex(query)..]);
    var request := Request(query, [], false, false);
    var t1 := I.Table(t.rows + [I.Stored(t.nextId, row)], t.nextId + 1);
    var t2 := I.Table(t1.rows + [I.Stored(t1.nextId, row)], t1.nextId + 1);
    I.AddOneRow(server, t, row);
    I.AddOneRow(server, t1, row);
    assert [request, request][1..] == [request] && [request][1..] == [];
    assert ApplyAll(InsertBackend(server, clauses), t1, [request]) == Some(t2);
  }

  // ---------------------------------------------------------------- clauses of expressions

  /** The rows that the requests' own statements stand for, in order, if all are accepted. */
  function Made(clauses: Clauses, clause: string, requests: seq<Request>): Option<seq<I.Row>> {
    if requests == [] then Some([])
    else
      match (clauses(clause, requests[0].params), Made(clauses, clause, requests[1..]))
      case (Some(rows), Some(more)) => Some(rows + more)
      case _ => None
  }

  lemma {:induction false} ApplyAddsMade(server: I.Server, clauses: Clauses, t: I.Table, query: string, requests: seq<Request>)
    requires ValuesIndex(query) >= 0 && ReadValues(query[ValuesIndex(query)..]).None?
    requires forall i | 0 <= i < |requests| :: requests[i].query == query
    ensures ApplyAll(InsertBackend(server, clauses), t, requests) ==
            match Made(clauses, TrimSpace(query[ValuesIndex(query)..]), requests)
            case None => None
            case Some(rows) => I.AddRows(server, t, rows)
    decreases |requests|
  {
    hide ValuesIndex, TrimSpace, ReadValues, I.AddRows;
    var clause := TrimSpace(query[ValuesIndex(query)..]);
    if requests == [] {
      NothingAdded(server, t);
    } else {
      var first := clauses(clause, requests[0].params);
      if first.Some? {
        var more := Made(clauses, clause, requests[1..]);
        if I.AddRows(server, t, first.value).Some? {
          ApplyAddsMade(server, clauses, I.AddRows(server, t, first.value).value, query, requests[1..]);
        }
        if more.Some? { I.AddRowsConcat(server, t, first.value, more.value); }
      }
    }
  }

  /** The batched text replaces the clause by plain placeholders. For a clause that is not a tuple of those,
      it is faithful with every server and table exactly when the clause stands for the parameters
      as they are. */
  lemma ClauseReplacedIff(clauses: Clauses, requests: seq<Request>)
    requires requests != [] && SameQuery(requests) && SameCount(requests) && requests[0].params != []
    requires ValuesIndex(requests[0].query) >= 0 && ReadValues(requests[0].query[ValuesIndex(requests[0].query)..]).None?
    ensures (forall server, t :: FaithfulStmt(InsertBackend(server, clauses), t, requests, MultiRowStmt(requests))) <==>
            Made(clauses, TrimSpace(requests[0].query[ValuesIndex(requests[0].query)..]), requests) == Some(ParamsOf(requests))
  {
    hide ValuesIndex, TrimSpace, ReadValues, MultiRowStmt, InsertExec, ApplyAll, I.AddRows, Made, InsertBackend;
    var q, params := requests[0].query, ParamsOf(requests);
    var made := Made(clauses, TrimSpace(q[ValuesIndex(q)..]), requests);
    forall server, t
      ensures FaithfulStmt(InsertBackend(server, clauses), t, requests, MultiRowStmt(requests)) <==>
              (I.AddRows(server, t, params).Some? ==> made.Some? && I.AddRows(server, t, made.value) == I.AddRows(server, t, params))
    {
      MultiRowInserts(server, clauses, t, requests);
      BackendExec(server, clauses, t, MultiRowStmt(requests));
      ApplyAddsMade(server, clauses, t, q, requests);
    }
    var server, t := I.Unchecked(), I.Table([], 1);
    if FaithfulStmt(InsertBackend(server, clauses), t, requests, MultiRowStmt(requests)) {
      I.Unconstrained(server, t, params);
      SameTableSameRows(server, t, made.value, params);
    }
  }

  /** A clause that lower-cases its placeholder, which the batched text does not. */
  lemma LowerIsLost(clauses: Clauses, query: string)
    requires ValuesIndex(query) >= 0 && TrimSpace(query[ValuesIndex(query)..]) == "(LOWER(?))"
    requires clauses("(LOWER(?))", [Val("A")]) == Some([[Val("a")]])
    ensures var requests := [Request(query, [Val("A")], false, false), Request(query, [Val("A")], false, false)];
            exists server, t :: !FaithfulStmt(InsertBackend(server, clauses), t, requests, MultiRowStmt(requests))
  {
    hide ValuesIndex, TrimSpace, ReadTuples, NoSpaces, InsertBackend, FaithfulStmt, MultiRowStmt;
    var requests := [Request(query, [Val("A")], false, false), Request(query, [Val("A")], false, false)];
    var clause := query[ValuesIndex(query)..];
    TrimKeepsText(clause);
    NoPlaceholderFirst('L', "OWER(?))");
    assert ['('] + ['L'] + "OWER(?))" == "(LOWER(?))";
    ClauseReplacedIff(clauses, requests);
    var made := Made(clauses, "(LOWER(?))", requests);
    if made.Some? { assert made.value[0] == [Val("a")]; }
    assert ParamsOf(requests)[0] == [Val("A")];
    assert [Val("a")][0] != [Val("A")][0] by { assert "a"[0] != "A"[0]; }
  }

  lemma SameTableSameRows(server: I.Server, t: I.Table, a: seq<I.Row>, b: seq<I.Row>)
    requires I.AddRows(server, t, a).Some? && I.AddRows(server, t, a) == I.AddRows(server, t, b)
    ensures a == b
  {
    hide I.AddRows;
    I.AddRowsShape(server, t, a);
    I.AddRowsShape(server, t, b);
    forall i | 0 <= i < |a| ensures a[i] == b[i] {
      assert I.AddRows(server, t, a).value.rows[|t.rows| + i] == I.Stored(t.nextId + i, a[i]) == I.Stored(t.nextId + i, b[i]);
    }
  }
}
