/** The tables of Deletes as backends of the batch strategies. The server gives every WHERE clause a meaning;
    the batched text of a DELETE is faithful exactly when its clause means, for the list of keys,
    what the requests' clause means for any of them. */
module DeleteTables {
  import opened Seqs
  import opened Options
  import opened SqlValue
  import opened SplitQueries
  import opened SqlText
  import opened BatchStrategies
  import opened Deletes

  /** What a WHERE clause asks of a row, with that many arguments; None if the server refuses it. */
  type Meaning = (string, nat) -> Option<ListPick>

  function FromDeleted(d: Deleted): Exec<seq<Row>> { Ok(d.rows, d.affected, 0) }

  /** A DELETE is executed by what stands behind WHERE. */
  function DeleteExec(means: Meaning, rows: seq<Row>, stmt: Stmt): Exec<seq<Row>> {
    if !stmt.Sql? || WhereIndex(stmt.query) == -1 then Err("not a delete")
    else match means(stmt.query[WhereIndex(stmt.query) + 7..], |stmt.args|)
         case None => Err("syntax error")
         case Some(list) => FromDeleted(DeleteList(list, rows, stmt.args))
  }

  function DeleteBackend(means: Meaning): Backend<seq<Row>> {
    Backend((rows: seq<Row>, stmt: Stmt) => DeleteExec(means, rows, stmt), true)
  }

  lemma BackendExec(means: Meaning, rows: seq<Row>, stmt: Stmt)
    ensures DeleteBackend(means).exec(rows, stmt) == DeleteExec(means, rows, stmt)
  {
  }

  /** A clause with one placeholder, as a test of a row and its argument. */
  function PickOf(list: ListPick): Pick { (row: Row, key: Value) => list(row, [key]) }

  /** The requests' own clause, and the clause of the batched text. */
  function OwnClause(requests: seq<Request>): string
    requires requests != [] && WhereIndex(requests[0].query) >= 0
  {
    requests[0].query[WhereIndex(requests[0].query) + 7..]
  }

  function BatchClause(requests: seq<Request>): string
    requires requests != [] && WhereIndex(requests[0].query) >= 0
  {
    InClause(KeyColumn(requests[0].query), |requests|)
  }

  // ---------------------------------------------------------------- when the batched text is faithful

  lemma {:induction false} ApplyDeletesEach(means: Meaning, rows: seq<Row>, query: string, requests: seq<Request>)
    requires WhereIndex(query) >= 0 && means(query[WhereIndex(query) + 7..], 1).Some?
    requires forall i | 0 <= i < |requests| :: requests[i].query == query && |requests[i].params| == 1
    ensures ApplyAll(DeleteBackend(means), rows, requests) ==
            Some(DeleteEach(PickOf(means(query[WhereIndex(query) + 7..], 1).value), rows, FirstParams(requests)).rows)
    decreases |requests|
  {
    hide WhereIndex, Delete;
    if requests != [] {
      var list := means(query[WhereIndex(query) + 7..], 1).value;
      var key, keys := requests[0].params[0], FirstParams(requests);
      assert requests[0].params == [key];
      SingleDelete(list, rows, key);
      ApplyDeletesEach(means, DeleteOne(PickOf(list), rows, key).rows, query, requests[1..]);
      assert keys[1..] == FirstParams(requests[1..]);
    }
  }

  lemma SingleDelete(list: ListPick, rows: seq<Row>, key: Value)
    ensures DeleteList(list, rows, [key]) == DeleteOne(PickOf(list), rows, key)
  {
    var pick, keys := PickOf(list), [key];
    var f, g := (row: Row) => list(row, keys), (row: Row) => pick(row, key);
    forall row ensures f(row) == g(row) {
      assert pick(row, key) == list(row, [key]);
    }
    SameChoice(f, g, rows);
  }

  /** The server executes the batched text by the batched clause, with the requests' keys. */
  lemma BatchedText(means: Meaning, rows: seq<Row>, requests: seq<Request>)
    requires requests != [] && HaveParams(requests) && WhereIndex(requests[0].query) >= 0
    ensures DeleteExec(means, rows, DeleteStmt(requests)) ==
            match means(BatchClause(requests), |requests|)
            case None => Err("syntax error")
            case Some(list) => FromDeleted(DeleteList(list, rows, FirstParams(requests)))
  {
    hide WhereIndex, InClause, KeyColumn, DeleteList;
    var q, clause := requests[0].query, BatchClause(requests);
    WhereIndexKept(q, clause);
    AfterPrefix(q[..WhereIndex(q)] + " WHERE ", clause);
  }

  /** The server accepts the batched clause only if it accepts the requests' own, and then the two agree on
      every row. */
  ghost predicate ClausesAgree(means: Meaning, rows: seq<Row>, requests: seq<Request>)
    requires requests != [] && HaveParams(requests) && WhereIndex(requests[0].query) >= 0
  {
    var own, batched := means(OwnClause(requests), 1), means(BatchClause(requests), |requests|);
    batched.Some? ==> own.Some? && Agree(PickOf(own.value), batched.value, rows, FirstParams(requests))
  }

  /** The batched DELETE is faithful on a table exactly when its clause agrees with the requests' clause on
      every row. That covers whatever the dispatch lets through: a second condition behind AND or
      OR, NOT or an expression before the equals sign, arithmetic behind it. */
  lemma DeleteFaithfulIff(means: Meaning, rows: seq<Row>, requests: seq<Request>)
    requires requests != [] && SameQuery(requests) && SameCount(requests) && |requests[0].params| == 1
    requires WhereIndex(requests[0].query) >= 0
    ensures HaveParams(requests)
    ensures FaithfulDelete(DeleteBackend(means), rows, requests) <==> ClausesAgree(means, rows, requests)
  {
    hide WhereIndex, KeyColumn, DeleteStmt, ApplyAll, Agree, DeleteList, DeleteEach, InClause, DeleteBackend;
    BatchedText(means, rows, requests);
    BackendExec(means, rows, DeleteStmt(requests));
    var own, batched := means(OwnClause(requests), 1), means(BatchClause(requests), |requests|);
    if own.Some? {
      ApplyDeletesEach(means, rows, requests[0].query, requests);
      if batched.Some? { ListRefinesEachIff(PickOf(own.value), batched.value, rows, FirstParams(requests)); }
    } else {
      OwnRefused(means, rows, requests);
    }
  }

  lemma OwnRefused(means: Meaning, rows: seq<Row>, requests: seq<Request>)
    requires requests != [] && |requests[0].params| == 1
    requires WhereIndex(requests[0].query) >= 0 && means(OwnClause(requests), 1).None?
    ensures ApplyAll(DeleteBackend(means), rows, requests) == None
  {
    hide WhereIndex;
  }

  // ---------------------------------------------------------------- a plain key test

  predicate IsNameChar(c: char) { 'a' <= c <= 'z' || 'A' <= c <= 'Z' || '0' <= c <= '9' || c in {'_', '$', '.', '`', '"'} }

  /** A column name, possibly qualified or quoted. */
  predicate IsName(s: string) { s != [] && forall i | 0 <= i < |s| :: IsNameChar(s[i]) }

  /** The clause is `col = ?` and nothing else. */
  predicate IsKeyTest(clause: string, col: string) {
    var k := |BeforeEquals(clause)|;
    k < |clause| && TrimSpace(clause[..k]) == col && TrimSpace(clause[k + 1..]) == "?"
  }

  /** The server reads a key test and a list of keys on a column as such. */
  ghost predicate ReadsKeys(means: Meaning, eq: Equality, col: string) {
    && (forall clause: string | IsKeyTest(clause, col) ::
          means(clause, 1).Some? && forall row: Row, key: Value :: PickOf(means(clause, 1).value)(row, key) == Matches(eq, row, key))
    && (forall n: nat | n > 0 ::
          means(InClause(col, n), n).Some? && forall row: Row, keys: seq<Value> | |keys| == n ::
            means(InClause(col, n), n).value(row, keys) == PicksAny(KeyTest(eq), row, keys))
  }

  lemma {:induction false} SamePicks(f: Pick, g: Pick, row: Row, keys: seq<Value>)
    requires forall key :: f(row, key) == g(row, key)
    ensures PicksAny(f, row, keys) == PicksAny(g, row, keys)
  {
    if keys != [] { SamePicks(f, g, row, keys[1..]); }
  }

  /** For `WHERE col = ?` on a column, the batched form is faithful on every table. */
  lemma DeleteBackendFaithful(means: Meaning, eq: Equality, rows: seq<Row>, requests: seq<Request>)
    requires requests != [] && SameQuery(requests) && SameCount(requests) && |requests[0].params| == 1
    requires WhereIndex(requests[0].query) >= 0
    requires var col := KeyColumn(requests[0].query);
             IsName(col) && IsKeyTest(OwnClause(requests), col) && ReadsKeys(means, eq, col)
    ensures FaithfulDelete(DeleteBackend(means), rows, requests)
  {
    hide WhereIndex, KeyColumn, DeleteStmt, InClause, DeleteBackend, PicksAny, IsKeyTest, FaithfulDelete;
    DeleteFaithfulIff(means, rows, requests);
    var keys, n := FirstParams(requests), |requests|;
    var own, batched := means(OwnClause(requests), 1).value, means(BatchClause(requests), n).value;
    forall i | 0 <= i < |rows| ensures batched(rows[i], keys) == PicksAny(PickOf(own), rows[i], keys) {
      SamePicks(PickOf(own), KeyTest(eq), rows[i], keys);
    }
  }

  /** What the single DELETEs report: each its own count. */
  lemma {:induction false} OwnDeleteResults(means: Meaning, rows: seq<Row>, query: string, requests: seq<Request>, n: nat)
    requires WhereIndex(query) >= 0 && means(query[WhereIndex(query) + 7..], 1).Some?
    requires forall i | 0 <= i < |requests| :: requests[i].query == query && |requests[i].params| == 1
    ensures var rs := OwnResults(DeleteBackend(means), rows, requests, n);
            var counts := OwnCounts(PickOf(means(query[WhereIndex(query) + 7..], 1).value), rows, FirstParams(requests));
            |rs| == |requests| && forall i | 0 <= i < |rs| :: rs[i] == Success(counts[i], 0, None, n)
    decreases |requests|
  {
    hide WhereIndex, Delete;
    if requests != [] {
      var list := means(query[WhereIndex(query) + 7..], 1).value;
      var key, keys := requests[0].params[0], FirstParams(requests);
      assert requests[0].params == [key];
      SingleDelete(list, rows, key);
      OwnDeleteResults(means, DeleteOne(PickOf(list), rows, key).rows, query, requests[1..], n);
      assert keys[1..] == FirstParams(requests[1..]);
    }
  }

  /** Every request of a batch of several is told the total of deleted rows. Where the batch does what the
      requests do, that is what each of them deleted exactly when none deletes anything. */
  lemma DeleteRepliesIff(means: Meaning, rows: seq<Row>, requests: seq<Request>)
    requires |requests| >= 2 && HaveParams(requests) && WhereIndex(requests[0].query) >= 0
    requires means(OwnClause(requests), 1).Some? && means(BatchClause(requests), |requests|).Some?
    ensures var keys, own := FirstParams(requests), PickOf(means(OwnClause(requests), 1).value);
            var r := DeleteExec(means, rows, DeleteStmt(requests));
            && r.Ok?
            && var replies := DeleteReplies(r.affected, |requests|);
               Agree(own, means(BatchClause(requests), |requests|).value, rows, keys) ==>
                 ((forall i | 0 <= i < |requests| :: replies[i].affectedRows == OwnCounts(own, rows, keys)[i]) <==>
                  NonePicked(own, rows, keys))
  {
    hide WhereIndex, KeyColumn, DeleteStmt, DeleteExec, OwnCounts, NonePicked, DeleteList, Agree, InClause;
    BatchedText(means, rows, requests);
    TotalIsOwnCountIff(PickOf(means(OwnClause(requests), 1).value), means(BatchClause(requests), |requests|).value, rows, FirstParams(requests));
  }

  // ---------------------------------------------------------------- queries that the dispatch lets through

  const HEAD: string := "DELETE FROM T WHERE "

  predicate Has(s: string, c: char) { exists i | 0 <= i < |s| :: s[i] == c }

  /** A clause with one equals sign and, behind it, one question mark. */
  function Clause(a: string, b: string, c: string): string { a + ("=" + (b + ("?" + c))) }

  predicate Free(s: string) { !Has(s, '=') && !Has(s, '?') }

  lemma {:induction false} CountConcat(a: string, b: string, c: char)
    ensures Count(a + b, c) == Count(a, c) + Count(b, c)
  {
    if a == [] {
      assert a + b == b;
    } else {
      assert (a + b)[1..] == a[1..] + b;
      CountConcat(a[1..], b, c);
    }
  }

  lemma {:induction false} CountNone(s: string, c: char)
    requires !Has(s, c)
    ensures Count(s, c) == 0
  {
    if s != [] {
      assert s[0] != c;
      forall i | 0 <= i < |s[1..]| ensures s[1..][i] != c { assert s[1..][i] == s[i + 1]; }
      CountNone(s[1..], c);
    }
  }

  lemma CountOne(c: char, d: char)
    ensures Count([c], d) == if c == d then 1 else 0
  {
    assert [c][1..] == [];
  }

  lemma ClauseCounts(a: string, b: string, c: string)
    requires Free(a) && Free(b) && Free(c)
    ensures Count(Clause(a, b, c), '=') == 1 && Count(Clause(a, b, c), '?') == 1
  {
    hide Count, Has;
    forall d | d == '=' || d == '?' ensures Count(Clause(a, b, c), d) == Count("=", d) + Count("?", d) {
      CountConcat(a, "=" + (b + ("?" + c)), d);
      CountConcat("=", b + ("?" + c), d);
      CountConcat(b, "?" + c, d);
      CountConcat("?", c, d);
      CountNone(a, d);
      CountNone(b, d);
      CountNone(c, d);
    }
    CountOne('=', '=');
    CountOne('?', '=');
    CountOne('=', '?');
    CountOne('?', '?');
  }

  lemma {:induction false} BeforeFirstEquals(a: string, b: string)
    requires !Has(a, '=')
    ensures BeforeEquals(a + ("=" + b)) == a
  {
    if a != [] {
      assert a[0] != '=';
      assert (a + ("=" + b))[1..] == a[1..] + ("=" + b);
      forall i | 0 <= i < |a[1..]| ensures a[1..][i] != '=' { assert a[1..][i] == a[i + 1]; }
      BeforeFirstEquals(a[1..], b);
    }
  }

  lemma HeadText()
    ensures |HEAD| == 20 && HEAD[..12] == "DELETE FROM " && HEAD[..13] == "DELETE FROM T" && HEAD[0] == 'D' && Upper(HEAD) == HEAD
  {
    assert HEAD[..13] == "DELETE FROM T" && HEAD[..12] == "DELETE FROM ";
  }

  lemma HeadWhere()
    ensures Index(HEAD, " WHERE ") == 13
  {
    assert HEAD[13..20] == " WHERE ";
    forall j: nat | j < 13 ensures !OccursAt(HEAD, " WHERE ", j) {
      assert HEAD[j..j + 7][0] == HEAD[j] && HEAD[j..j + 7][1] == HEAD[j + 1];
    }
    IndexIs(HEAD, " WHERE ", 13);
  }

  lemma QueryParts(clause: string)
    ensures var q := HEAD + clause;
            WhereIndex(q) == 13 && q[..13] == "DELETE FROM T" && q[20..] == clause && "DELETE FROM " <= Upper(q)
  {
    hide Index, HEAD;
    var q := HEAD + clause;
    HeadText();
    HeadWhere();
    AfterPrefix(HEAD, clause);
    UpperIndexKept(HEAD, q, " WHERE ");
    assert q[..13] == HEAD[..13];
    UpperConcat(HEAD, clause);
    assert Upper(q)[..12] == HEAD[..12];
  }

  /** Such a query is dispatched as a batchable DELETE exactly if its clause has one equals sign and one question
      mark. */
  lemma DispatchIff(clause: string)
    requires clause != [] && !IsSpace(clause[|clause| - 1])
    ensures IsBatchableDelete(HEAD + clause) <==> Count(clause, '=') == 1 && Count(clause, '?') == 1
  {
    hide Count, Index, SkipComments, HEAD, Upper, TrimSpace;
    var q := HEAD + clause;
    HeadText();
    QueryParts(clause);
    assert q[|q| - 1] == clause[|clause| - 1] && q[0] == HEAD[0];
    NotSkipped(q);
  }

  /** Any clause with one equals sign and one question mark is dispatched as a batchable DELETE, and what
      stands before the equals sign is taken for the key column. */
  lemma DispatchedAsDelete(a: string, b: string, c: string)
    requires Free(a) && Free(b) && Free(c) && (c != [] ==> !IsSpace(c[|c| - 1]))
    ensures var q := HEAD + Clause(a, b, c);
            IsBatchableDelete(q) && WhereIndex(q) == 13 && q[..13] == "DELETE FROM T" && q[20..] == Clause(a, b, c) && KeyColumn(q) == TrimSpace(a)
  {
    hide Count, IsBatchableDelete, HEAD, WhereIndex, TrimSpace, BeforeEquals, Has;
    var clause := Clause(a, b, c);
    assert clause[|clause| - 1] == if c == [] then '?' else c[|c| - 1];
    QueryParts(clause);
    ClauseCounts(a, b, c);
    DispatchIff(clause);
    BeforeFirstEquals(a, b + ("?" + c));
  }

  function Two(query: string): seq<Request> {
    [Request(query, [Val("1")], false, false), Request(query, [Val("2")], false, false)]
  }

  const KEYS: seq<Value> := [Val("1"), Val("2")]

  lemma TwoKeys(query: string)
    ensures SameQuery(Two(query)) && SameCount(Two(query)) && HaveParams(Two(query)) && FirstParams(Two(query)) == KEYS
  {
  }

  predicate Same(a: string, b: string) { a == b }

  function AsList(pick: Pick): ListPick { (row: Row, keys: seq<Value>) => keys != [] && pick(row, keys[0]) }

  lemma PicksOfTwo(pick: Pick, row: Row)
    ensures PicksAny(pick, row, KEYS) == (pick(row, Val("1")) || pick(row, Val("2")))
  {
    var rest := KEYS[1..];
    assert KEYS[0] == Val("1") && rest == [Val("2")] && rest[1..] == [];
    assert PicksAny(pick, row, rest) == (pick(row, rest[0]) || PicksAny(pick, row, rest[1..]));
    assert PicksAny(pick, row, KEYS) == (pick(row, KEYS[0]) || PicksAny(pick, row, rest));
  }

  /** With two keys, an unfaithful row is one on which the clauses differ. */
  lemma UnfaithfulRow(means: Meaning, q: string, clause: string, col: string, pick: Pick, list: ListPick, row: Row)
    requires WhereIndex(q) == 13 && q[20..] == clause && KeyColumn(q) == col
    requires means(clause, 1) == Some(AsList(pick)) && means(InClause(col, 2), 2) == Some(list)
    requires list(row, KEYS) != (pick(row, Val("1")) || pick(row, Val("2")))
    ensures !FaithfulDelete(DeleteBackend(means), [row], Two(q))
  {
    hide WhereIndex, KeyColumn, InClause, FaithfulDelete, PicksAny;
    TwoKeys(q);
    DeleteFaithfulIff(means, [row], Two(q));
    var own := PickOf(AsList(pick));
    PicksOfTwo(own, row);
    forall key ensures own(row, key) == pick(row, key) { assert own(row, key) == AsList(pick)(row, [key]); }
    assert [row][0] == row;
  }

  /** What two such requests are sent as. */
  lemma BatchedTextOfTwo(a: string, b: string, c: string)
    requires Free(a) && Free(b) && Free(c) && (c != [] ==> !IsSpace(c[|c| - 1]))
    ensures var q := HEAD + Clause(a, b, c);
            WhereIndex(q) >= 0 && HaveParams(Two(q)) && DeleteStmt(Two(q)) == Sql(InText("DELETE FROM T", TrimSpace(a), 2), KEYS)
  {
    hide IsBatchableDelete, WhereIndex, KeyColumn, Clause, HEAD, TrimSpace, InText;
    DispatchedAsDelete(a, b, c);
    TwoKeys(HEAD + Clause(a, b, c));
  }

  /** `A=? AND B`: a row with a key that does not meet B is deleted by the batch alone. */
  lemma AndIsDropped(means: Meaning, cond: Row -> bool, row: Row)
    requires means(Clause("A", "", " AND B"), 1) == Some(AsList(AndTest(Same, cond)))
    requires means(InClause("A", 2), 2) == Some(KeyList(Same)) && row.key == Val("1") && !cond(row)
    ensures var q := HEAD + Clause("A", "", " AND B");
            IsBatchableDelete(q) && !FaithfulDelete(DeleteBackend(means), [row], Two(q))
  {
    hide IsBatchableDelete, WhereIndex, KeyColumn, InClause, Clause, HEAD, FaithfulDelete;
    assert TrimSpace("A") == "A";
    PicksOfTwo(KeyTest(Same), row);
    assert KeyTest(Same)(row, Val("1"));
    DispatchedAsDelete("A", "", " AND B");
    UnfaithfulRow(means, HEAD + Clause("A", "", " AND B"), Clause("A", "", " AND B"), "A", AndTest(Same, cond), KeyList(Same), row);
  }

  /** `A=? OR B`: a row that meets B and has none of the keys is kept by the batch alone. */
  lemma OrIsDropped(means: Meaning, cond: Row -> bool, row: Row)
    requires means(Clause("A", "", " OR B"), 1) == Some(AsList(OrTest(Same, cond)))
    requires means(InClause("A", 2), 2) == Some(KeyList(Same)) && row.key == Null && cond(row)
    ensures var q := HEAD + Clause("A", "", " OR B");
            IsBatchableDelete(q) && !FaithfulDelete(DeleteBackend(means), [row], Two(q))
  {
    hide IsBatchableDelete, WhereIndex, KeyColumn, InClause, Clause, HEAD, FaithfulDelete;
    assert TrimSpace("A") == "A";
    PicksOfTwo(KeyTest(Same), row);
    assert !KeyTest(Same)(row, Val("1")) && !KeyTest(Same)(row, Val("2"));
    DispatchedAsDelete("A", "", " OR B");
    UnfaithfulRow(means, HEAD + Clause("A", "", " OR B"), Clause("A", "", " OR B"), "A", OrTest(Same, cond), KeyList(Same), row);
  }

  lemma NotOfTwo(row: Row)
    requires row.key == Val("1")
    ensures !NotTest(Same)(row, Val("1")) && NotTest(Same)(row, Val("2")) && !NotList(Same)(row, KEYS)
  {
    assert "1" != "2" by { assert "1"[0] != "2"[0]; }
    var eq: Equality := Same;
    assert eq("1", "1") && !eq("1", "2");
    assert KEYS[0] == Val("1");
    assert !MatchesNone(eq, row, KEYS);
  }

  /** `NOT A=?`: a row with one of the keys is kept by the batch alone. */
  lemma NotIsMisread(means: Meaning, row: Row)
    requires means(Clause("NOT A", "", ""), 1) == Some(AsList(NotTest(Same)))
    requires means(InClause("NOT A", 2), 2) == Some(NotList(Same)) && row.key == Val("1")
    ensures var q := HEAD + Clause("NOT A", "", "");
            IsBatchableDelete(q) && !FaithfulDelete(DeleteBackend(means), [row], Two(q))
  {
    hide IsBatchableDelete, WhereIndex, KeyColumn, InClause, Clause, HEAD, FaithfulDelete;
    assert TrimSpace("NOT A") == "NOT A" by {
      assert IsTrimmed("NOT A");
      assert TrimLeft("NOT A") == "NOT A" && TrimRight("NOT A") == "NOT A";
    }
    NotOfTwo(row);
    DispatchedAsDelete("NOT A", "", "");
    UnfaithfulRow(means, HEAD + Clause("NOT A", "", ""), Clause("NOT A", "", ""), "NOT A", NotTest(Same), NotList(Same), row);
  }

  /** A question mark in a string is taken for a placeholder: two such queries without parameters, as MariaDB
      handlers send them, go to the DELETE strategy, which panics (see ExecuteBatch). */
  lemma QuotedMarkPanics()
    ensures var q := HEAD + Clause("A", "'", "'");
            var requests := [Request(q, [], false, false), Request(q, [], false, false)];
            IsDelete(requests) && !HaveParams(requests)
  {
    hide IsBatchableDelete, WhereIndex, KeyColumn, Clause, HEAD, IsBatchableInsert;
    var q := HEAD + Clause("A", "'", "'");
    DispatchedAsDelete("A", "'", "'");
    assert !IsBatchableInsert(q) by { DeleteIsNoInsert("A", "'", "'"); }
    var requests := [Request(q, [], false, false), Request(q, [], false, false)];
    assert requests[0].params == [];
  }

  lemma DeleteIsNoInsert(a: string, b: string, c: string)
    requires c != [] && !IsSpace(c[|c| - 1])
    ensures !IsBatchableInsert(HEAD + Clause(a, b, c))
  {
    hide Index, SkipComments, HEAD, TrimSpace;
    var clause := Clause(a, b, c);
    var q := HEAD + clause;
    HeadText();
    assert clause[|clause| - 1] == c[|c| - 1];
    assert q[|q| - 1] == clause[|clause| - 1] && q[0] == HEAD[0];
    NotSkipped(q);
    assert Upper(q)[0] == 'D';
  }
}
