/** Batched DELETE against one DELETE per request, over an abstract table. */
module Deletes {
  import opened SqlValue

  /** A row with its key column, which may be NULL. */
  datatype Row = Row(key: Value, rest: seq<Value>)

  /** What a WHERE clause with one placeholder asks of a row and its argument. */
  type Pick = (Row, Value) -> bool

  /** What a WHERE clause with a list of placeholders asks of a row and the arguments. */
  type ListPick = (Row, seq<Value>) -> bool

  predicate PicksAny(pick: Pick, row: Row, keys: seq<Value>) {
    keys != [] && (pick(row, keys[0]) || PicksAny(pick, row, keys[1..]))
  }

  datatype Deleted = Deleted(rows: seq<Row>, affected: nat)

  function Delete(chosen: Row -> bool, rows: seq<Row>): Deleted {
    if rows == [] then Deleted([], 0)
    else
      var d := Delete(chosen, rows[1..]);
      if chosen(rows[0]) then Deleted(d.rows, d.affected + 1) else Deleted([rows[0]] + d.rows, d.affected)
  }

  function DeleteOne(pick: Pick, rows: seq<Row>, key: Value): Deleted { Delete((row: Row) => pick(row, key), rows) }

  function DeleteList(list: ListPick, rows: seq<Row>, keys: seq<Value>): Deleted { Delete((row: Row) => list(row, keys), rows) }

  /** Reference: one DELETE per key, in order, with the counts added up. */
  function DeleteEach(pick: Pick, rows: seq<Row>, keys: seq<Value>): Deleted
    decreases |keys|
  {
    if keys == [] then Deleted(rows, 0)
    else
      var d := DeleteOne(pick, rows, keys[0]);
      var e := DeleteEach(pick, d.rows, keys[1..]);
      Deleted(e.rows, d.affected + e.affected)
  }

  // ---------------------------------------------------------------- choices

  lemma {:induction false} SameChoice(f: Row -> bool, g: Row -> bool, rows: seq<Row>)
    requires forall i | 0 <= i < |rows| :: f(rows[i]) == g(rows[i])
    ensures Delete(f, rows) == Delete(g, rows)
  {
    if rows != [] { SameChoice(f, g, rows[1..]); }
  }

  lemma {:induction false} KeptIff(f: Row -> bool, rows: seq<Row>, row: Row)
    ensures row in Delete(f, rows).rows <==> row in rows && !f(row)
  {
    if rows != [] { KeptIff(f, rows[1..], row); }
  }

  /** Two deletions leave the same rows exactly when they choose the same rows. */
  lemma SameRowsIff(f: Row -> bool, g: Row -> bool, rows: seq<Row>)
    ensures Delete(f, rows).rows == Delete(g, rows).rows <==> forall i | 0 <= i < |rows| :: f(rows[i]) == g(rows[i])
  {
    if Delete(f, rows).rows == Delete(g, rows).rows {
      forall i | 0 <= i < |rows| ensures f(rows[i]) == g(rows[i]) {
        KeptIff(f, rows, rows[i]);
        KeptIff(g, rows, rows[i]);
      }
    }
    if forall i | 0 <= i < |rows| :: f(rows[i]) == g(rows[i]) { SameChoice(f, g, rows); }
  }

  /** Deleting by one choice and then by another. */
  lemma {:induction false} DeleteTwice(f: Row -> bool, g: Row -> bool, both: Row -> bool, rows: seq<Row>)
    requires forall row :: both(row) == (f(row) || g(row))
    ensures var d := Delete(f, rows); var e := Delete(g, d.rows);
            Delete(both, rows) == Deleted(e.rows, d.affected + e.affected)
  {
    if rows != [] {
      DeleteTwice(f, g, both, rows[1..]);
      var d := Delete(f, rows[1..]);
      assert ([rows[0]] + d.rows)[1..] == d.rows;
    }
  }

  lemma {:induction false} NoneChosen(f: Row -> bool, rows: seq<Row>)
    requires forall row :: !f(row)
    ensures Delete(f, rows) == Deleted(rows, 0)
  {
    if rows != [] { NoneChosen(f, rows[1..]); }
  }

  /** The single deletes in order remove the rows that any of them picks, each counted once. */
  lemma {:induction false} EachIsAny(pick: Pick, rows: seq<Row>, keys: seq<Value>)
    ensures DeleteEach(pick, rows, keys) == Delete((row: Row) => PicksAny(pick, row, keys), rows)
    decreases |keys|
  {
    var any := (row: Row) => PicksAny(pick, row, keys);
    if keys == [] {
      NoneChosen(any, rows);
    } else {
      var first, later := (row: Row) => pick(row, keys[0]), (row: Row) => PicksAny(pick, row, keys[1..]);
      EachIsAny(pick, Delete(first, rows).rows, keys[1..]);
      DeleteTwice(first, later, any, rows);
    }
  }

  /** On every row, the list asks what any of the single clauses asks. */
  ghost predicate Agree(pick: Pick, list: ListPick, rows: seq<Row>, keys: seq<Value>) {
    forall i | 0 <= i < |rows| :: list(rows[i], keys) == PicksAny(pick, rows[i], keys)
  }

  /** One DELETE with a list leaves what the single deletes leave exactly when the two agree on every row;
      and then it counts what they count together. */
  lemma ListRefinesEachIff(pick: Pick, list: ListPick, rows: seq<Row>, keys: seq<Value>)
    ensures DeleteList(list, rows, keys).rows == DeleteEach(pick, rows, keys).rows <==> Agree(pick, list, rows, keys)
    ensures Agree(pick, list, rows, keys) ==> DeleteList(list, rows, keys) == DeleteEach(pick, rows, keys)
  {
    var f, g := (row: Row) => list(row, keys), (row: Row) => PicksAny(pick, row, keys);
    EachIsAny(pick, rows, keys);
    SameRowsIff(f, g, rows);
    if Agree(pick, list, rows, keys) { SameChoice(f, g, rows); }
  }

  // ---------------------------------------------------------------- each request's own count

  /** How many rows each of the single deletes removes. */
  function OwnCounts(pick: Pick, rows: seq<Row>, keys: seq<Value>): (counts: seq<nat>)
    ensures |counts| == |keys|
    decreases |keys|
  {
    if keys == [] then []
    else
      var d := DeleteOne(pick, rows, keys[0]);
      [d.affected] + OwnCounts(pick, d.rows, keys[1..])
  }

  /** Every own count is part of the total, and no row is counted for two requests. */
  lemma {:induction false} OwnCountsAddUp(pick: Pick, rows: seq<Row>, keys: seq<Value>)
    ensures var counts, total := OwnCounts(pick, rows, keys), DeleteEach(pick, rows, keys).affected;
            && (forall i | 0 <= i < |counts| :: counts[i] <= total)
            && (|counts| >= 2 ==> counts[0] + counts[1] <= total)
    decreases |keys|
  {
    if keys != [] { OwnCountsAddUp(pick, DeleteOne(pick, rows, keys[0]).rows, keys[1..]); }
  }

  ghost predicate NonePicked(pick: Pick, rows: seq<Row>, keys: seq<Value>) {
    forall i | 0 <= i < |rows| :: !PicksAny(pick, rows[i], keys)
  }

  lemma {:induction false} NoneDeletedIff(f: Row -> bool, rows: seq<Row>)
    ensures Delete(f, rows).affected == 0 <==> forall i | 0 <= i < |rows| :: !f(rows[i])
  {
    if rows != [] {
      NoneDeletedIff(f, rows[1..]);
      if forall i | 0 <= i < |rows| :: !f(rows[i]) {
        forall i | 0 <= i < |rows[1..]| ensures !f(rows[1..][i]) { assert rows[1..][i] == rows[i + 1]; }
      }
    }
  }

  /** A batch of several requests is told the total. Where the list does what the single deletes do, that
      is every request's own count exactly when no row is picked by any of them. */
  lemma TotalIsOwnCountIff(pick: Pick, list: ListPick, rows: seq<Row>, keys: seq<Value>)
    requires |keys| >= 2
    ensures var counts, total := OwnCounts(pick, rows, keys), DeleteList(list, rows, keys).affected;
            Agree(pick, list, rows, keys) ==>
              ((forall i | 0 <= i < |keys| :: counts[i] == total) <==> NonePicked(pick, rows, keys))
  {
    ListRefinesEachIff(pick, list, rows, keys);
    EachIsAny(pick, rows, keys);
    OwnCountsAddUp(pick, rows, keys);
    NoneDeletedIff((row: Row) => PicksAny(pick, row, keys), rows);
  }

  // ---------------------------------------------------------------- clauses

  /** SQL `=`, whatever the collation or type conversion; NULL equals nothing. */
  type Equality = (string, string) -> bool

  predicate Matches(eq: Equality, row: Row, key: Value) {
    row.key.Val? && key.Val? && eq(row.key.text, key.text)
  }

  /** `col = ?` */
  function KeyTest(eq: Equality): Pick { (row: Row, key: Value) => Matches(eq, row, key) }

  /** `col IN (?,...)` */
  function KeyList(eq: Equality): ListPick { (row: Row, keys: seq<Value>) => PicksAny(KeyTest(eq), row, keys) }

  /** `col = ? AND cond` and `col = ? OR cond` */
  function AndTest(eq: Equality, cond: Row -> bool): Pick { (row: Row, key: Value) => Matches(eq, row, key) && cond(row) }
  function OrTest(eq: Equality, cond: Row -> bool): Pick { (row: Row, key: Value) => Matches(eq, row, key) || cond(row) }

  /** `NOT col = ?`, which is NULL, and so picks nothing, where one side is NULL. */
  function NotTest(eq: Equality): Pick { (row: Row, key: Value) => row.key.Val? && key.Val? && !eq(row.key.text, key.text) }

  predicate MatchesNone(eq: Equality, row: Row, keys: seq<Value>) {
    row.key.Val? && (keys != [] ==> NotTest(eq)(row, keys[0]) && MatchesNone(eq, row, keys[1..]))
  }

  /** `NOT col IN (?,...)` */
  function NotList(eq: Equality): ListPick { (row: Row, keys: seq<Value>) => MatchesNone(eq, row, keys) }

  /** Batched DELETE refines the single deletes in order, duplicate and NULL keys included: the
      same rows remain, and the reported count is the sum of the single counts. */
  lemma DeleteInRefinesDeleteEach(eq: Equality, rows: seq<Row>, keys: seq<Value>)
    ensures DeleteList(KeyList(eq), rows, keys) == DeleteEach(KeyTest(eq), rows, keys)
  {
    ListRefinesEachIff(KeyTest(eq), KeyList(eq), rows, keys);
  }

  lemma {:induction false} AndPicks(eq: Equality, cond: Row -> bool, row: Row, keys: seq<Value>)
    ensures PicksAny(AndTest(eq, cond), row, keys) <==> PicksAny(KeyTest(eq), row, keys) && cond(row)
  {
    if keys != [] { AndPicks(eq, cond, row, keys[1..]); }
  }

  lemma {:induction false} OrPicks(eq: Equality, cond: Row -> bool, row: Row, keys: seq<Value>)
    ensures PicksAny(OrTest(eq, cond), row, keys) <==> PicksAny(KeyTest(eq), row, keys) || (keys != [] && cond(row))
  {
    if keys != [] { OrPicks(eq, cond, row, keys[1..]); }
  }

  /** The list without the second condition agrees with `AND cond` exactly when every row with one of the
      keys meets the condition ... */
  lemma DroppedAndIff(eq: Equality, cond: Row -> bool, rows: seq<Row>, keys: seq<Value>)
    ensures Agree(AndTest(eq, cond), KeyList(eq), rows, keys) <==>
            forall i | 0 <= i < |rows| :: PicksAny(KeyTest(eq), rows[i], keys) ==> cond(rows[i])
  {
    forall i | 0 <= i < |rows| ensures PicksAny(AndTest(eq, cond), rows[i], keys) <==> PicksAny(KeyTest(eq), rows[i], keys) && cond(rows[i]) {
      AndPicks(eq, cond, rows[i], keys);
    }
  }

  /** ... and with `OR cond` exactly when every row that meets the condition has one of the keys. */
  lemma DroppedOrIff(eq: Equality, cond: Row -> bool, rows: seq<Row>, keys: seq<Value>)
    requires keys != []
    ensures Agree(OrTest(eq, cond), KeyList(eq), rows, keys) <==>
            forall i | 0 <= i < |rows| :: cond(rows[i]) ==> PicksAny(KeyTest(eq), rows[i], keys)
  {
    forall i | 0 <= i < |rows| ensures PicksAny(OrTest(eq, cond), rows[i], keys) <==> PicksAny(KeyTest(eq), rows[i], keys) || cond(rows[i]) {
      OrPicks(eq, cond, rows[i], keys);
    }
  }

  /** Two keys and a table with a row for the first: its request deletes one row, the other none, and
      both are told one. */
  lemma TotalIsNotOwnCount()
    ensures var eq: Equality := (a, b) => a == b; var rows, keys := [Row(Val("a"), [])], [Val("a"), Val("b")];
            OwnCounts(KeyTest(eq), rows, keys) == [1, 0] && DeleteList(KeyList(eq), rows, keys).affected == 1
  {
    var eq: Equality := (a, b) => a == b;
    var row, keys := Row(Val("a"), []), [Val("a"), Val("b")];
    var pick := KeyTest(eq);
    assert [row][1..] == [] && keys[1..] == [Val("b")] && keys[1..][1..] == [];
    assert pick(row, Val("a"));
    assert Delete((r: Row) => pick(r, Val("a")), [row][1..]) == Deleted([], 0);
    assert DeleteOne(pick, [row], Val("a")) == Deleted([], 1);
    assert DeleteOne(pick, [], Val("b")) == Deleted([], 0);
    assert OwnCounts(pick, [], keys[1..]) == [0] + OwnCounts(pick, [], keys[1..][1..]) == [0];
    assert PicksAny(pick, row, keys);
  }

  // ---------------------------------------------------------------- the text

  /** `n` question marks separated by commas. */
  function Marks(n: nat): string {
    if n == 0 then [] else if n == 1 then "?" else Marks(n - 1) + ",?"
  }

  function InClause(keyCol: string, n: nat): string { keyCol + " IN (" + Marks(n) + ")" }

  function InText(base: string, keyCol: string, n: nat): string { base + " WHERE " + InClause(keyCol, n) }

  /** The list is `n` question marks with commas between. */
  lemma {:induction false} MarksAre(n: nat)
    requires n > 0
    ensures |Marks(n)| == 2 * n - 1
    ensures forall i: nat | i < n :: Marks(n)[2 * i] == '?'
    ensures forall i: nat | i < n - 1 :: Marks(n)[2 * i + 1] == ','
    decreases n
  {
    if n > 1 { MarksAre(n - 1); }
  }

  /** The text for two keys. */
  lemma InTextOfTwo(base: string, col: string)
    ensures InText(base, col, 2) == base + (" WHERE " + (col + " IN (?,?)"))
  {
    assert Marks(2) == "?" + ",?" == "?,?";
    assert " IN (" + "?,?" + ")" == " IN (?,?)";
    assert col + " IN (" + "?,?" + ")" == col + (" IN (" + "?,?" + ")");
  }

  /** The text and key loops of executeTrueBatchedDelete (executor.go:197-215). Indexing
      `Params[0]` needs every request to have a parameter. */
  method BuildDelete(base: string, keyCol: string, params: seq<seq<Value>>)
    returns (query: string, keys: seq<Value>)
    requires forall i | 0 <= i < |params| :: params[i] != []
    ensures query == InText(base, keyCol, |params|)
    ensures |keys| == |params| && forall i | 0 <= i < |params| :: keys[i] == params[i][0]
  {
    query := base;
    query := query + " WHERE ";
    ghost var front := query;
    query := query + keyCol;
    query := query + " IN (";
    for i := 0 to |params|
      invariant query == front + (keyCol + " IN (" + Marks(i))
    {
      ghost var before := query;
      if i > 0 {
        query := query + ",";
      }
      query := query + "?";
      assert query == front + (keyCol + " IN (" + Marks(i + 1)) by {
        if i > 0 {
          assert before + "," + "?" == front + (keyCol + " IN (" + (Marks(i) + ",?"));
        } else {
          assert Marks(0) == [] && before == front + (keyCol + " IN (");
        }
      }
    }
    query := query + ")";
    keys := [];
    for i := 0 to |params|
      invariant |keys| == i && forall j | 0 <= j < i :: keys[j] == params[j][0]
    {
      keys := keys + [params[i][0]];
    }
  }
}
