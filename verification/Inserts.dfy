/** Batched INSERT against one INSERT per request, over an abstract table with
    auto-increment ids and an arbitrary row constraint. */
module Inserts {
  import opened Options
  import opened Decimal
  import opened Placeholders
  import opened SqlValue

  type Row = seq<Value>

  datatype Stored = Stored(id: int, values: Row)
  datatype Table = Table(rows: seq<Stored>, nextId: int)

  /** The id a driver reports for a multi-row INSERT: the first (MySQL), the last (SQLite) or none
      at all (pq, whose LastInsertId is an error that the executor ignores, with value 0). */
  datatype Report = FirstId | LastId | NoId

  /** What the server and its driver do: whether a row may be added (keys, checks, column counts),
      and what is reported. */
  datatype Server = Server(admits: (seq<Stored>, Row) -> bool, report: Report)

  datatype Outcome = Failed | Done(table: Table, rawId: int, affected: nat)

  // ---------------------------------------------------------------- the server

  /** A placeholder of a VALUES tuple. */
  datatype Mark = Question | Dollar(k: nat)

  /** The values of one tuple; `next` is the first argument not yet taken by a question mark. */
  function BindTuple(marks: seq<Mark>, args: seq<Value>, next: nat): Option<Row> {
    if marks == [] then Some([])
    else
      var at := match marks[0] case Question => next case Dollar(k) => k - 1;
      if 0 <= at < |args| then
        match BindTuple(marks[1..], args, next + 1)
        case None => None
        case Some(row) => Some([args[at]] + row)
      else None
  }

  function BindTuples(tuples: seq<seq<Mark>>, args: seq<Value>, next: nat): Option<seq<Row>> {
    if tuples == [] then Some([])
    else
      match (BindTuple(tuples[0], args, next), BindTuples(tuples[1..], args, next + |tuples[0]|))
      case (Some(row), Some(rows)) => Some([row] + rows)
      case _ => None
  }

  function MarkCount(tuples: seq<seq<Mark>>): nat {
    if tuples == [] then 0 else |tuples[0]| + MarkCount(tuples[1..])
  }

  /** Rows go in one after the other with consecutive ids; a refused row undoes the statement. */
  function AddRows(server: Server, t: Table, rows: seq<Row>): Option<Table>
    decreases |rows|
  {
    if rows == [] then Some(t)
    else if server.admits(t.rows, rows[0]) then
      AddRows(server, Table(t.rows + [Stored(t.nextId, rows[0])], t.nextId + 1), rows[1..])
    else None
  }

  /** Rows go in one after the other, and refused rows are skipped. */
  function AddAdmitted(server: Server, t: Table, rows: seq<Row>): Table
    decreases |rows|
  {
    if rows == [] then t
    else if server.admits(t.rows, rows[0]) then
      AddAdmitted(server, Table(t.rows + [Stored(t.nextId, rows[0])], t.nextId + 1), rows[1..])
    else AddAdmitted(server, t, rows[1..])
  }

  lemma {:induction false} AllAdmitted(server: Server, t: Table, rows: seq<Row>)
    requires AddRows(server, t, rows).Some?
    ensures AddAdmitted(server, t, rows) == AddRows(server, t, rows).value
    decreases |rows|
  {
    if rows != [] {
      AllAdmitted(server, Table(t.rows + [Stored(t.nextId, rows[0])], t.nextId + 1), rows[1..]);
    }
  }

  function Reported(server: Server, t: Table, n: nat): int {
    match server.report
    case FirstId => t.nextId
    case LastId => if n == 0 then t.nextId else t.nextId + n - 1
    case NoId => 0
  }

  /** Executing INSERT ... VALUES with these tuples and arguments. */
  function ExecInsert(server: Server, t: Table, tuples: seq<seq<Mark>>, args: seq<Value>): Outcome {
    if |args| != MarkCount(tuples) then Failed
    else
      match BindTuples(tuples, args, 0)
      case None => Failed
      case Some(rows) => InsertRows(server, t, rows)
  }

  function InsertRows(server: Server, t: Table, rows: seq<Row>): Outcome {
    match AddRows(server, t, rows)
    case None => Failed
    case Some(t') => Done(t', Reported(server, t, |rows|), |rows|)
  }

  // ---------------------------------------------------------------- the proxy

  function Marks(isPostgres: bool, k: nat, p: nat): (marks: seq<Mark>)
    ensures |marks| == p
  {
    seq(p, c requires 0 <= c < p => if isPostgres then Dollar(k + c) else Question)
  }

  /** The tuples that MultiRowText writes: `n` rows of `p` placeholders, numbered from `k`. */
  function Tuples(isPostgres: bool, k: nat, n: nat, p: nat): (tuples: seq<seq<Mark>>)
    ensures |tuples| == n
    decreases n
  {
    if n == 0 then [] else [Marks(isPostgres, k, p)] + Tuples(isPostgres, k + p, n - 1, p)
  }

  /** normalizeFirstInsertID (executor.go:847-852); the flag is set for MySQL drivers only (manager.go:32-42). */
  function NormalizeFirstInsertId(firstIdIsFirst: bool, rawId: int, n: nat): int {
    if firstIdIsFirst then rawId else rawId - (n - 1)
  }

  /** What a request is told: its LastInsertID and its AffectedRows. */
  datatype Told = Told(id: int, affected: int)

  /** What a multi-row statement makes the executor tell: consecutive ids and one row each. */
  function TellEach(firstId: int, n: nat): (told: seq<Told>)
    ensures |told| == n && forall i | 0 <= i < n :: told[i] == Told(firstId + i, 1)
  {
    seq(n, i requires 0 <= i < n => Told(firstId + i, 1))
  }

  datatype BatchOutcome = BatchFailed | BatchDone(table: Table, told: seq<Told>)

  /** executeTrueBatchedInsertMultiRow with parameters (executor.go:777-842). */
  function MultiRow(server: Server, isPostgres: bool, t: Table, params: seq<Row>): BatchOutcome
    requires params != []
  {
    match ExecInsert(server, t, Tuples(isPostgres, 1, |params|, |params[0]|), Concat(params))
    case Failed => BatchFailed
    case Done(t', rawId, _) =>
      BatchDone(t', TellEach(NormalizeFirstInsertId(server.report.FirstId?, rawId, |params|), |params|))
  }

  /** Reference: each request on its own, as written (one tuple of `p` placeholders), stopping at
      the first failure. */
  function OneByOne(server: Server, isPostgres: bool, t: Table, p: nat, params: seq<Row>): BatchOutcome
    decreases |params|
  {
    if params == [] then BatchDone(t, [])
    else
      match ExecInsert(server, t, [Marks(isPostgres, 1, p)], params[0])
      case Failed => BatchFailed
      case Done(t', id, affected) =>
        match OneByOne(server, isPostgres, t', p, params[1..])
        case BatchFailed => BatchFailed
        case BatchDone(t'', told) => BatchDone(t'', [Told(id, affected)] + told)
  }

  predicate SameCount(params: seq<Row>, p: nat) { forall i | 0 <= i < |params| :: |params[i]| == p }

  // ---------------------------------------------------------------- the text stands for the tuples

  function MarkText(mark: Mark): string { match mark case Question => "?" case Dollar(k) => "$" + NatText(k) }

  function RenderMarks(marks: seq<Mark>, first: bool): string {
    if marks == [] then []
    else (if first then "" else ",") + (MarkText(marks[0]) + RenderMarks(marks[1..], false))
  }

  /** VALUES tuples as SQL text. */
  function RenderTuples(tuples: seq<seq<Mark>>, first: bool): string {
    if tuples == [] then []
    else (if first then "" else ", ") + (("(" + (RenderMarks(tuples[0], true) + ")")) + RenderTuples(tuples[1..], false))
  }

  lemma {:induction false} ColsRender(isPostgres: bool, k: nat, c: nat, p: nat)
    requires c <= p
    ensures ColsText(isPostgres, k, c, p) == RenderMarks(Marks(isPostgres, k + c, p - c), c == 0)
    decreases p - c
  {
    if c < p {
      ColsRender(isPostgres, k, c + 1, p);
      assert Marks(isPostgres, k + c, p - c)[1..] == Marks(isPostgres, k + (c + 1), p - (c + 1));
    }
  }

  lemma {:induction false} RowsRender(isPostgres: bool, k: nat, r: nat, n: nat, p: nat)
    requires r <= n
    ensures RowsText(isPostgres, k, r, n, p) == RenderTuples(Tuples(isPostgres, k, n - r, p), r == 0)
    decreases n - r
  {
    if r < n {
      ColsRender(isPostgres, k, 0, p);
      RowsRender(isPostgres, k + p, r + 1, n, p);
      assert Tuples(isPostgres, k, n - r, p)[1..] == Tuples(isPostgres, k + p, n - (r + 1), p);
    }
  }

  /** The text that BuildMultiRow sends is the INSERT whose execution MultiRow models. */
  lemma TextDenotesTuples(base: string, isPostgres: bool, n: nat, p: nat)
    ensures MultiRowText(base, isPostgres, n, p) == base + (" " + RenderTuples(Tuples(isPostgres, 1, n, p), true))
  {
    RowsRender(isPostgres, 1, 0, n, p);
  }

  // ---------------------------------------------------------------- binding

  lemma {:induction false} BindMarks(isPostgres: bool, k: nat, p: nat, args: seq<Value>, next: nat)
    requires next + p <= |args| && (isPostgres ==> k == next + 1)
    ensures BindTuple(Marks(isPostgres, k, p), args, next) == Some(args[next..next + p])
    decreases p
  {
    if p == 0 {
      assert args[next..next + p] == [];
    } else {
      assert Marks(isPostgres, k, p)[1..] == Marks(isPostgres, k + 1, p - 1);
      BindMarks(isPostgres, k + 1, p - 1, args, next + 1);
      assert args[next..next + p] == [args[next]] + args[next + 1..next + p];
    }
  }

  lemma {:induction false} TuplesMarkCount(isPostgres: bool, k: nat, n: nat, p: nat)
    ensures MarkCount(Tuples(isPostgres, k, n, p)) == n * p
    decreases n
  {
    if n > 0 { TuplesMarkCount(isPostgres, k + p, n - 1, p); }
  }

  /** Consecutive pieces of `p` arguments, from `next` on. */
  function Chunks(args: seq<Value>, next: nat, n: nat, p: nat): seq<Row>
    requires next + n * p <= |args|
    decreases n
  {
    if n == 0 then []
    else
      OneLess(n, p);
      [args[next..next + p]] + Chunks(args, next + p, n - 1, p)
  }

  lemma OneLess(n: nat, p: nat)
    requires n > 0
    ensures n * p == p + (n - 1) * p
  {
  }

  lemma TuplesHead(isPostgres: bool, k: nat, n: nat, p: nat)
    requires n > 0
    ensures Tuples(isPostgres, k, n, p)[0] == Marks(isPostgres, k, p)
    ensures Tuples(isPostgres, k, n, p)[1..] == Tuples(isPostgres, k + p, n - 1, p)
  {
  }

  lemma {:induction false} BindAllTuples(isPostgres: bool, k: nat, n: nat, p: nat, args: seq<Value>, next: nat)
    requires next + n * p <= |args| && (isPostgres ==> k == next + 1)
    ensures BindTuples(Tuples(isPostgres, k, n, p), args, next) == Some(Chunks(args, next, n, p))
    decreases n
  {
    if n > 0 {
      hide BindTuple, Marks;
      OneLess(n, p);
      BindMarks(isPostgres, k, p, args, next);
      BindAllTuples(isPostgres, k + p, n - 1, p, args, next + p);
      TuplesHead(isPostgres, k, n, p);
    }
  }

  lemma {:induction false} ChunksOfConcat(before: seq<Value>, params: seq<Row>, p: nat)
    requires SameCount(params, p)
    ensures |Concat(params)| == |params| * p
    ensures Chunks(before + Concat(params), |before|, |params|, p) == params
    decreases |params|
  {
    ConcatLength(params, p);
    if params != [] {
      var args := before + Concat(params);
      OneLess(|params|, p);
      assert before + params[0] + Concat(params[1..]) == args;
      assert args[|before|..|before| + p] == params[0];
      ChunksOfConcat(before + params[0], params[1..], p);
      assert params == [params[0]] + params[1..];
    }
  }

  /** The multi-row statement binds request `i`'s parameters to row `i`. */
  lemma MultiRowBinds(server: Server, isPostgres: bool, t: Table, p: nat, params: seq<Row>)
    requires SameCount(params, p)
    ensures ExecInsert(server, t, Tuples(isPostgres, 1, |params|, p), Concat(params)) == InsertRows(server, t, params)
  {
    TuplesMarkCount(isPostgres, 1, |params|, p);
    ConcatLength(params, p);
    BindAllTuples(isPostgres, 1, |params|, p, Concat(params), 0);
    ChunksOfConcat([], params, p);
    assert [] + Concat(params) == Concat(params);
  }

  lemma SingleBinds(server: Server, isPostgres: bool, t: Table, p: nat, row: Row)
    ensures ExecInsert(server, t, [Marks(isPostgres, 1, p)], row) ==
            if |row| == p then InsertRows(server, t, [row]) else Failed
  {
    var tuples := [Marks(isPostgres, 1, p)];
    assert tuples[1..] == [];
    assert MarkCount(tuples) == p;
    if |row| == p {
      BindMarks(isPostgres, 1, p, row, 0);
      assert row[0..0 + p] == row;
      assert BindTuples(tuples, row, 0) == Some([row] + []);
      assert [row] + [] == [row];
    }
  }

  // ---------------------------------------------------------------- refinement

  lemma {:induction false} AddRowsShape(server: Server, t: Table, rows: seq<Row>)
    ensures match AddRows(server, t, rows)
            case None => true
            case Some(t') =>
              && t'.nextId == t.nextId + |rows| && |t'.rows| == |t.rows| + |rows| && t.rows <= t'.rows
              && forall i | 0 <= i < |rows| :: t'.rows[|t.rows| + i] == Stored(t.nextId + i, rows[i])
    decreases |rows|
  {
    if rows != [] && server.admits(t.rows, rows[0]) {
      var t1 := Table(t.rows + [Stored(t.nextId, rows[0])], t.nextId + 1);
      AddRowsShape(server, t1, rows[1..]);
      var r := AddRows(server, t1, rows[1..]);
      if r.Some? {
        forall i | 0 <= i < |rows| ensures r.value.rows[|t.rows| + i] == Stored(t.nextId + i, rows[i]) {
          if i == 0 { assert r.value.rows[|t.rows|] == t1.rows[|t.rows|]; }
          else { assert r.value.rows[|t1.rows| + (i - 1)] == Stored(t1.nextId + (i - 1), rows[1..][i - 1]); }
        }
      }
    }
  }

  /** What `n` single-row statements report, from `nextId` on. */
  function OwnTold(server: Server, nextId: int, n: nat): (told: seq<Told>)
    ensures |told| == n
    ensures forall i | 0 <= i < n :: told[i] == Told(if server.report.NoId? then 0 else nextId + i, 1)
  {
    seq(n, i requires 0 <= i < n => Told(if server.report.NoId? then 0 else nextId + i, 1))
  }

  lemma OwnToldHead(server: Server, nextId: int, n: nat)
    requires n > 0
    ensures [OwnTold(server, nextId, 1)[0]] + OwnTold(server, nextId + 1, n - 1) == OwnTold(server, nextId, n)
  {
  }

  lemma AddOneRow(server: Server, t: Table, row: Row)
    ensures AddRows(server, t, [row]) ==
            if server.admits(t.rows, row) then Some(Table(t.rows + [Stored(t.nextId, row)], t.nextId + 1)) else None
  {
    assert [row][1..] == [];
  }

  /** One request at a time is one row at a time. */
  lemma {:induction false} OneByOneAddsRows(server: Server, isPostgres: bool, t: Table, p: nat, params: seq<Row>)
    requires SameCount(params, p)
    ensures OneByOne(server, isPostgres, t, p, params) ==
            match AddRows(server, t, params)
            case None => BatchFailed
            case Some(t') => BatchDone(t', OwnTold(server, t.nextId, |params|))
    decreases |params|
  {
    hide ExecInsert;
    if params != [] {
      SingleBinds(server, isPostgres, t, p, params[0]);
      AddOneRow(server, t, params[0]);
      if server.admits(t.rows, params[0]) {
        OneByOneAddsRows(server, isPostgres, Table(t.rows + [Stored(t.nextId, params[0])], t.nextId + 1), p, params[1..]);
        OwnToldHead(server, t.nextId, |params|);
      }
    }
  }

  /** Multi-row INSERT refines sequential execution: with equal parameter counts it succeeds exactly
      when every single insert would, and then leaves the same table. Every request is told
      what its own insert would have told it, under both id conventions; with a driver that
      reports no id that holds only for a batch of one. */
  lemma MultiRowRefinesOneByOne(server: Server, isPostgres: bool, t: Table, params: seq<Row>)
    requires params != [] && SameCount(params, |params[0]|)
    ensures var batch, single := MultiRow(server, isPostgres, t, params), OneByOne(server, isPostgres, t, |params[0]|, params);
            && (batch.BatchDone? <==> single.BatchDone?)
            && (batch.BatchDone? ==> batch.table == single.table)
            && (batch.BatchDone? ==> (batch == single <==> !server.report.NoId? || |params| == 1))
  {
    hide ExecInsert, Tuples, OneByOne, AddRows;
    MultiRowBinds(server, isPostgres, t, |params[0]|, params);
    OneByOneAddsRows(server, isPostgres, t, |params[0]|, params);
    ToldIff(server, t, |params|);
  }

  /** What the executor tells after a batch of `n` single rows is what the single inserts tell. */
  lemma ToldIff(server: Server, t: Table, n: nat)
    requires n > 0
    ensures var told := TellEach(NormalizeFirstInsertId(server.report.FirstId?, Reported(server, t, n), n), n);
            told == OwnTold(server, t.nextId, n) <==> !server.report.NoId? || n == 1
  {
    var told := TellEach(NormalizeFirstInsertId(server.report.FirstId?, Reported(server, t, n), n), n);
    if server.report.NoId? && n > 1 {
      assert told[0].id == 1 - n;
    } else {
      assert told == OwnTold(server, t.nextId, n);
    }
  }

  /** ... and with a driver that reports ids, the id told to request `i` is that of a new row that
      carries request `i`'s own values. With pq, request `i` of `n` is told `i + 1 - n`. */
  lemma ReportedRowIsOwn(server: Server, isPostgres: bool, t: Table, params: seq<Row>, i: nat)
    requires params != [] && SameCount(params, |params[0]|) && i < |params|
    ensures match MultiRow(server, isPostgres, t, params)
            case BatchFailed => true
            case BatchDone(t', told) =>
              && |told| == |params| && |t'.rows| == |t.rows| + |params|
              && (!server.report.NoId? ==> t'.rows[|t.rows| + i] == Stored(told[i].id, params[i]))
              && (server.report.NoId? ==> told[i].id == i + 1 - |params|)
  {
    hide ExecInsert, Tuples, AddRows;
    MultiRowBinds(server, isPostgres, t, |params[0]|, params);
    AddRowsShape(server, t, params);
  }

  // ---------------------------------------------------------------- unequal counts

  lemma {:induction false} OneByOneNeedsCounts(server: Server, isPostgres: bool, t: Table, p: nat, params: seq<Row>)
    requires !SameCount(params, p)
    ensures OneByOne(server, isPostgres, t, p, params) == BatchFailed
    decreases |params|
  {
    SingleBinds(server, isPostgres, t, p, params[0]);
    match ExecInsert(server, t, [Marks(isPostgres, 1, p)], params[0])
    case Failed =>
    case Done(t', _, _) => OneByOneNeedsCounts(server, isPostgres, t', p, params[1..]);
  }

  /** When counts differ but happen to add up, the statement is accepted with the arguments cut
      into other rows than the requests'; when they do not add up it fails. So the batch and
      the single inserts agree on every table and constraint exactly if the counts are equal
      or do not add up. */
  lemma AgreeIff(isPostgres: bool, params: seq<Row>)
    requires params != []
    ensures (forall server: Server, t: Table | !server.report.NoId? ::
               MultiRow(server, isPostgres, t, params) == OneByOne(server, isPostgres, t, |params[0]|, params))
            <==> SameCount(params, |params[0]|) || |Concat(params)| != |params| * |params[0]|
  {
    hide MultiRow, OneByOne;
    var p := |params[0]|;
    if SameCount(params, p) || |Concat(params)| != |params| * p {
      forall server: Server, t: Table | !server.report.NoId?
        ensures MultiRow(server, isPostgres, t, params) == OneByOne(server, isPostgres, t, p, params)
      {
        Agreement(server, isPostgres, t, params);
      }
    } else {
      Misbound(isPostgres, Table([], 1), params);
    }
  }

  lemma Agreement(server: Server, isPostgres: bool, t: Table, params: seq<Row>)
    requires params != [] && !server.report.NoId?
    requires SameCount(params, |params[0]|) || |Concat(params)| != |params| * |params[0]|
    ensures MultiRow(server, isPostgres, t, params) == OneByOne(server, isPostgres, t, |params[0]|, params)
  {
    hide OneByOne, Tuples, AddRows, BindTuples;
    if SameCount(params, |params[0]|) {
      MultiRowRefinesOneByOne(server, isPostgres, t, params);
    } else {
      TuplesMarkCount(isPostgres, 1, |params|, |params[0]|);
      OneByOneNeedsCounts(server, isPostgres, t, |params[0]|, params);
    }
  }

  /** A server that takes every row. */
  function Unchecked(): Server { Server((rows: seq<Stored>, row: Row) => true, FirstId) }

  /** Unequal counts that add up are accepted as a batch although a single insert would fail. */
  lemma Misbound(isPostgres: bool, t: Table, params: seq<Row>)
    requires params != [] && !SameCount(params, |params[0]|) && |Concat(params)| == |params| * |params[0]|
    ensures MultiRow(Unchecked(), isPostgres, t, params).BatchDone?
    ensures OneByOne(Unchecked(), isPostgres, t, |params[0]|, params) == BatchFailed
  {
    var server := Unchecked();
    hide OneByOne, Tuples, AddRows, BindTuples, Chunks;
    var n, p := |params|, |params[0]|;
    TuplesMarkCount(isPostgres, 1, n, p);
    OneByOneNeedsCounts(server, isPostgres, t, p, params);
    BindAllTuples(isPostgres, 1, n, p, Concat(params), 0);
    Unconstrained(server, t, Chunks(Concat(params), 0, n, p));
  }

  /** Three requests of a one-placeholder INSERT with one, no and two parameters: the batch inserts three
      rows, of which the second request's is made of a parameter of the third. */
  lemma MisboundRows(isPostgres: bool, a: Value, b: Value, c: Value)
    ensures MultiRow(Unchecked(), isPostgres, Table([], 1), [[a], [], [b, c]]) ==
            BatchDone(Table([Stored(1, [a]), Stored(2, [b]), Stored(3, [c])], 4), TellEach(1, 3))
    ensures OneByOne(Unchecked(), isPostgres, Table([], 1), 1, [[a], [], [b, c]]) == BatchFailed
  {
    hide OneByOne, Tuples, BindTuples;
    var params := [[a], [], [b, c]];
    assert params[1..] == [[], [b, c]] && params[1..][1..] == [[b, c]] && params[1..][1..][1..] == [];
    assert Concat(params[1..][1..]) == [b, c] && Concat(params[1..]) == [b, c];
    assert Concat(params) == [a, b, c];
    TuplesMarkCount(isPostgres, 1, 3, 1);
    BindAllTuples(isPostgres, 1, 3, 1, [a, b, c], 0);
    ThreeChunks(a, b, c);
    ThreeRows(a, b, c);
    assert |params[1]| != 1;
    OneByOneNeedsCounts(Unchecked(), isPostgres, Table([], 1), 1, params);
  }

  lemma ThreeChunks(a: Value, b: Value, c: Value)
    ensures Chunks([a, b, c], 0, 3, 1) == [[a], [b], [c]]
  {
    var args := [a, b, c];
    assert args[0..1] == [a] && args[1..2] == [b] && args[2..3] == [c];
    assert Chunks(args, 2, 1, 1) == [[c]] + Chunks(args, 3, 0, 1);
    assert Chunks(args, 1, 2, 1) == [[b]] + Chunks(args, 2, 1, 1);
  }

  lemma ThreeRows(a: Value, b: Value, c: Value)
    ensures AddRows(Unchecked(), Table([], 1), [[a], [b], [c]]) ==
            Some(Table([Stored(1, [a]), Stored(2, [b]), Stored(3, [c])], 4))
  {
    AddOneRow(Unchecked(), Table([], 1), [a]);
    AddOneRow(Unchecked(), Table([Stored(1, [a])], 2), [b]);
    AddOneRow(Unchecked(), Table([Stored(1, [a]), Stored(2, [b])], 3), [c]);
    AddRowsConcat(Unchecked(), Table([], 1), [[a]], [[b]]);
    AddRowsConcat(Unchecked(), Table([], 1), [[a], [b]], [[c]]);
    assert [[a]] + [[b]] == [[a], [b]] && [[a], [b]] + [[c]] == [[a], [b], [c]];
    var r1, r2, r3 := Stored(1, [a]), Stored(2, [b]), Stored(3, [c]);
    assert [] + [r1] == [r1] && [r1] + [r2] == [r1, r2] && [r1, r2] + [r3] == [r1, r2, r3];
    hide AddRows;
    assert AddRows(Unchecked(), Table([], 1), [[a], [b]]) == Some(Table([r1, r2], 3));
  }

  lemma {:induction false} Unconstrained(server: Server, t: Table, rows: seq<Row>)
    requires forall stored, row :: server.admits(stored, row)
    ensures AddRows(server, t, rows).Some?
    decreases |rows|
  {
    if rows != [] {
      Unconstrained(server, Table(t.rows + [Stored(t.nextId, rows[0])], t.nextId + 1), rows[1..]);
    }
  }

  // ---------------------------------------------------------------- without parameters

  /** The VALUES clause repeated for each request (executor.go:728-775): `clause` is its rows. */
  function Repeated(clause: seq<Row>, n: nat): (rows: seq<Row>)
    decreases n
  {
    if n == 0 then [] else clause + Repeated(clause, n - 1)
  }

  function Parameterless(server: Server, t: Table, clause: seq<Row>, n: nat): BatchOutcome {
    match InsertRows(server, t, Repeated(clause, n))
    case Failed => BatchFailed
    case Done(t', rawId, _) => BatchDone(t', TellEach(NormalizeFirstInsertId(server.report.FirstId?, rawId, n), n))
  }

  lemma {:induction false} RepeatedLength(clause: seq<Row>, n: nat)
    ensures |Repeated(clause, n)| == n * |clause|
    decreases n
  {
    if n > 0 { RepeatedLength(clause, n - 1); }
  }

  /** The ids of the rows that request `i`'s copy of the clause became. */
  predicate IdOfOwnCopy(t: Table, k: nat, i: nat, id: int) {
    t.nextId + i * k <= id < t.nextId + i * k + k
  }

  /** What request `i` is told is right: the id of a row of its own copy, and the size of that copy. */
  predicate ToldOwnCopy(t: Table, k: nat, i: nat, told: Told) {
    IdOfOwnCopy(t, k, i, told.id) && told.affected == k
  }

  /** In a batch of several requests that succeeds, with a driver that reports ids, request `i` is
      told the id of a row of its own copy for every `i`, exactly when the clause is a single
      row; and then the count it is told is right too. */
  lemma ParameterlessIdsIff(server: Server, t: Table, clause: seq<Row>, n: nat)
    requires n >= 2 && clause != [] && !server.report.NoId? && Parameterless(server, t, clause, n).BatchDone?
    ensures var told := Parameterless(server, t, clause, n).told;
            && ((forall i: nat | i < n :: IdOfOwnCopy(t, |clause|, i, told[i].id)) <==> |clause| == 1)
            && ((forall i: nat | i < n :: ToldOwnCopy(t, |clause|, i, told[i])) <==> |clause| == 1)
  {
    hide AddRows, Repeated;
    var k := |clause|;
    var told := Parameterless(server, t, clause, n).told;
    RepeatedLength(clause, n);
    if k == 1 {
      forall i: nat | i < n ensures ToldOwnCopy(t, k, i, told[i]) {
      }
    } else {
      TooFar(n - 1, k);
      LastCopy(n, k);
      assert !IdOfOwnCopy(t, k, if server.report.FirstId? then n - 1 else 0, told[if server.report.FirstId? then n - 1 else 0].id);
      assert !ToldOwnCopy(t, k, 0, told[0]);
    }
  }

  /** Two requests of a two-row clause: the second is told the id of the first one's second row. */
  lemma OtherRequestsRow(a: Row, b: Row)
    ensures Parameterless(Unchecked(), Table([], 1), [a, b], 2).BatchDone?
    ensures Parameterless(Unchecked(), Table([], 1), [a, b], 2).told == [Told(1, 1), Told(2, 1)]
    ensures !IdOfOwnCopy(Table([], 1), 2, 1, 2)
  {
    Unconstrained(Unchecked(), Table([], 1), Repeated([a, b], 2));
  }

  lemma LastCopy(n: nat, k: nat)
    requires n > 0
    ensures n * k == (n - 1) * k + k
  {
  }

  lemma {:induction false} TooFar(m: nat, k: nat)
    requires m >= 1 && k >= 2
    ensures m * k >= m + 1
    decreases m
  {
    if m > 1 {
      TooFar(m - 1, k);
      assert m * k == (m - 1) * k + k;
    }
  }

  /** Reference: the parameterless statement executed on its own `n` times. */
  function Separately(server: Server, t: Table, clause: seq<Row>, n: nat): BatchOutcome
    decreases n
  {
    if n == 0 then BatchDone(t, [])
    else
      match InsertRows(server, t, clause)
      case Failed => BatchFailed
      case Done(t', id, affected) =>
        match Separately(server, t', clause, n - 1)
        case BatchFailed => BatchFailed
        case BatchDone(t'', told) => BatchDone(t'', [Told(id, affected)] + told)
  }

  lemma {:induction false} AddRowsConcat(server: Server, t: Table, a: seq<Row>, b: seq<Row>)
    ensures AddRows(server, t, a + b) ==
            match AddRows(server, t, a) case None => None case Some(t') => AddRows(server, t', b)
    decreases |a|
  {
    if a == [] {
      assert a + b == b;
    } else {
      assert (a + b)[1..] == a[1..] + b;
      if server.admits(t.rows, a[0]) {
        AddRowsConcat(server, Table(t.rows + [Stored(t.nextId, a[0])], t.nextId + 1), a[1..], b);
      }
    }
  }

  lemma {:induction false} SeparatelyAddsRows(server: Server, t: Table, clause: seq<Row>, n: nat)
    ensures Separately(server, t, clause, n).BatchDone? <==> AddRows(server, t, Repeated(clause, n)).Some?
    ensures Separately(server, t, clause, n).BatchDone? ==>
              Separately(server, t, clause, n).table == AddRows(server, t, Repeated(clause, n)).value
    decreases n
  {
    if n > 0 {
      AddRowsConcat(server, t, clause, Repeated(clause, n - 1));
      if AddRows(server, t, clause).Some? {
        SeparatelyAddsRows(server, AddRows(server, t, clause).value, clause, n - 1);
      }
    }
  }

  lemma {:induction false} SeparateTold(server: Server, t: Table, row: Row, n: nat)
    requires Separately(server, t, [row], n).BatchDone?
    ensures Separately(server, t, [row], n).told == OwnTold(server, t.nextId, n)
    decreases n
  {
    if n > 0 {
      AddOneRow(server, t, row);
      SeparateTold(server, AddRows(server, t, [row]).value, row, n - 1);
      OwnToldHead(server, t.nextId, n);
    }
  }

  /** Repeating the clause leaves the table that `n` separate executions leave, whatever the clause.
      What the requests are told is the same exactly when the clause is a single row, and the
      driver reports ids or the batch has one request. */
  lemma ParameterlessRefines(server: Server, t: Table, clause: seq<Row>, n: nat)
    requires n > 0
    ensures var batch, single := Parameterless(server, t, clause, n), Separately(server, t, clause, n);
            && (batch.BatchDone? <==> single.BatchDone?)
            && (batch.BatchDone? ==> batch.table == single.table)
            && (batch.BatchDone? ==> (batch == single <==> |clause| == 1 && (!server.report.NoId? || n == 1)))
  {
    SeparatelyAddsRows(server, t, clause, n);
    if Separately(server, t, clause, n).BatchDone? {
      if |clause| == 1 {
        RepeatedLength(clause, n);
        assert clause == [clause[0]];
        SeparateTold(server, t, clause[0], n);
        ToldIff(server, t, n);
      } else {
        assert Separately(server, t, clause, n).told[0].affected == |clause|;
        assert Parameterless(server, t, clause, n).told[0].affected == 1;
      }
    }
  }
}
