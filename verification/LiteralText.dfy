/** How a server reads a VALUES clause that carries its values in its text: tuples in parentheses, separated
    by commas, with quoted strings, nested parentheses and, between tuples, comments up to the end
    of the line. A text is read to the raw texts of its tuples. */
module LiteralText {
  import opened Seqs
  import opened Options
  import opened SplitQueries
  import opened SqlText

  datatype Mode =
    | Before                                                             // a tuple must follow
    | Inside(depth: nat, quote: Option<char>, escaped: bool, raw: string)
    | After                                                              // behind a tuple
    | Dash | Dashes                                                      // behind one or two dashes
    | Comment                                                            // up to the end of the line
    | Broken

  datatype Reader = Reader(mode: Mode, done: seq<string>)

  const START := Reader(Before, [])

  function InTuple(m: Mode, done: seq<string>, ch: char): Reader
    requires m.Inside?
  {
    var raw := m.raw + [ch];
    if m.quote.Some? then
      if m.escaped then Reader(m.(escaped := false, raw := raw), done)
      else if ch == '\\' then Reader(m.(escaped := true, raw := raw), done)
      else if ch == m.quote.value then Reader(m.(quote := None, raw := raw), done)
      else Reader(m.(raw := raw), done)
    else if IsQuote(ch) then Reader(m.(quote := Some(ch), raw := raw), done)
    else if ch == '(' then Reader(m.(depth := m.depth + 1, raw := raw), done)
    else if ch == ')' then
      if m.depth == 0 then Reader(After, done + [m.raw]) else Reader(m.(depth := m.depth - 1, raw := raw), done)
    else Reader(m.(raw := raw), done)
  }

  function Step(r: Reader, ch: char): Reader {
    match r.mode
    case Before =>
      if IsSpace(ch) then r else if ch == '(' then r.(mode := Inside(0, None, false, "")) else r.(mode := Broken)
    case Inside(_, _, _, _) => InTuple(r.mode, r.done, ch)
    case After =>
      if IsSpace(ch) then r
      else if ch == ',' then r.(mode := Before)
      else if ch == '-' then r.(mode := Dash)
      else if ch == '#' then r.(mode := Comment)
      else r.(mode := Broken)
    case Dash => r.(mode := if ch == '-' then Dashes else Broken)
    case Dashes => r.(mode := if ch == ' ' then Comment else Broken)
    case Comment => if ch == '\n' then r.(mode := After) else r
    case Broken => r
  }

  function ReadOn(r: Reader, text: string): Reader
    decreases |text|
  {
    if text == [] then r else ReadOn(Step(r, text[0]), text[1..])
  }

  /** The tuples of a clause, if it is one. */
  function ReadTuples(clause: string): Option<seq<string>> {
    var r := ReadOn(START, clause);
    if r.mode.After? || r.mode.Comment? then Some(r.done) else None
  }

  /** The clause ends behind a tuple and not in a comment. */
  predicate Closed(clause: string) { ReadOn(START, clause).mode.After? }

  // ---------------------------------------------------------------- reading on

  lemma {:induction false} ReadConcat(r: Reader, a: string, b: string)
    ensures ReadOn(r, a + b) == ReadOn(ReadOn(r, a), b)
    decreases |a|
  {
    if a == [] {
      assert a + b == b;
    } else {
      assert (a + b)[1..] == a[1..] + b;
      ReadConcat(Step(r, a[0]), a[1..], b);
    }
  }

  /** What was read before does not matter for what follows. */
  lemma {:induction false} ReadAfter(mode: Mode, earlier: seq<string>, done: seq<string>, text: string)
    ensures var r := ReadOn(Reader(mode, done), text);
            ReadOn(Reader(mode, earlier + done), text) == Reader(r.mode, earlier + r.done)
    decreases |text|
  {
    if text != [] {
      var next := Step(Reader(mode, done), text[0]);
      StepAfter(mode, earlier, done, text[0]);
      ReadAfter(next.mode, earlier, next.done, text[1..]);
    }
  }

  lemma StepAfter(mode: Mode, earlier: seq<string>, done: seq<string>, ch: char)
    ensures var r := Step(Reader(mode, done), ch);
            Step(Reader(mode, earlier + done), ch) == Reader(r.mode, earlier + r.done)
  {
    if mode.Inside? { Regroup(earlier, done, [mode.raw]); }
  }

  predicate BehindTuple(mode: Mode) { mode.After? || mode.Dash? || mode.Dashes? || mode.Comment? }

  lemma {:induction false} SomethingRead(r: Reader, text: string)
    requires BehindTuple(r.mode) ==> r.done != []
    ensures BehindTuple(ReadOn(r, text).mode) ==> ReadOn(r, text).done != []
    decreases |text|
  {
    if text != [] { SomethingRead(Step(r, text[0]), text[1..]); }
  }

  // ---------------------------------------------------------------- repeated clauses

  function Copies<T>(rows: seq<T>, n: nat): (all: seq<T>)
    ensures |all| == n * |rows|
  {
    if n == 0 then [] else
    assert n * |rows| == (n - 1) * |rows| + |rows|;
    Copies(rows, n - 1) + rows
  }

  /** A clause that is closed can be repeated: it is read as its tuples repeated. */
  lemma {:induction false} ClosedRepeats(clause: string, n: nat)
    requires Closed(clause) && n > 0
    ensures ReadOn(START, RepeatedList(clause, n)) == Reader(After, Copies(ReadOn(START, clause).done, n))
    decreases n
  {
    var rows := ReadOn(START, clause).done;
    if n == 1 {
      assert Copies(rows, 1) == [] + rows == rows;
    } else {
      ClosedRepeats(clause, n - 1);
      var front, earlier := RepeatedList(clause, n - 1), Copies(rows, n - 1);
      ReadConcat(START, front + ", ", clause);
      ReadConcat(START, front, ", ");
      SeparatorRead(earlier);
      ReadAfter(Before, earlier, [], clause);
      assert earlier + [] == earlier;
    }
  }

  lemma SeparatorRead(done: seq<string>)
    ensures ReadOn(Reader(After, done), ", ") == Reader(Before, done)
  {
    assert ", "[1..] == " " && " "[1..] == "";
    assert ReadOn(Reader(Before, done), " ") == ReadOn(Step(Reader(Before, done), ' '), "");
  }

  predicate OneLine(s: string) { forall i | 0 <= i < |s| :: s[i] != '\n' }

  lemma {:induction false} StaysComment(done: seq<string>, text: string)
    requires OneLine(text)
    ensures ReadOn(Reader(Comment, done), text) == Reader(Comment, done)
    decreases |text|
  {
    if text != [] { StaysComment(done, text[1..]); }
  }

  /** A clause of one line that ends in a comment swallows its repetitions. */
  lemma {:induction false} CommentSwallows(clause: string, n: nat)
    requires OneLine(clause) && ReadOn(START, clause).mode.Comment? && n > 0
    ensures ReadOn(START, RepeatedList(clause, n)) == ReadOn(START, clause)
    decreases n
  {
    if n > 1 {
      CommentSwallows(clause, n - 1);
      var front, done := RepeatedList(clause, n - 1), ReadOn(START, clause).done;
      ReadConcat(START, front + ", ", clause);
      ReadConcat(START, front, ", ");
      StaysComment(done, ", ");
      StaysComment(done, clause);
    }
  }

  /** A one-line clause that is read by itself is read as its tuples repeated, when repeated, exactly if it
      does not end in a comment. */
  lemma RepeatedIsCopiesIff(clause: string, n: nat)
    requires OneLine(clause) && ReadTuples(clause).Some? && n >= 2
    ensures ReadTuples(RepeatedList(clause, n)) == Some(Copies(ReadTuples(clause).value, n)) <==> Closed(clause)
  {
    if Closed(clause) {
      ClosedRepeats(clause, n);
    } else {
      CommentSwallows(clause, n);
      SomethingRead(START, clause);
      MoreCopies(n, |ReadTuples(clause).value|);
    }
  }

  lemma MoreCopies(n: nat, k: nat)
    requires n >= 2 && k > 0
    ensures n * k > k
  {
    assert n * k == (n - 1) * k + k;
    assert (n - 1) * k >= 1 * k;
  }

  /** Such a clause: its second copy is not read. */
  lemma CommentedClause()
    ensures ReadTuples("(1) -- c)") == Some(["1"]) && ReadTuples(RepeatedList("(1) -- c)", 2)) == Some(["1"])
  {
    hide ReadOn;
    var clause := "(1) -- c)";
    assert clause == "(1)" + (" -- " + "c)");
    ReadConcat(START, "(1)", " -- " + "c)");
    OneTuple();
    ReadConcat(Reader(After, ["1"]), " -- ", "c)");
    DashesRead(["1"]);
    StaysComment(["1"], "c)");
    CommentSwallows(clause, 2);
  }

  lemma OneTuple()
    ensures ReadOn(START, "(1)") == Reader(After, ["1"])
  {
    var inside, read := Reader(Inside(0, None, false, ""), []), Reader(Inside(0, None, false, "1"), []);
    assert "(1)"[1..] == "1)" && "1)"[1..] == ")" && ")"[1..] == "";
    assert Step(START, '(') == inside;
    assert Step(inside, '1') == read by { assert "" + ['1'] == "1"; }
    assert Step(read, ')') == Reader(After, ["1"]) by { assert [] + ["1"] == ["1"]; }
    assert ReadOn(read, ")") == ReadOn(Step(read, ')'), ")"[1..]);
    assert ReadOn(inside, "1)") == ReadOn(Step(inside, '1'), "1)"[1..]);
    assert ReadOn(START, "(1)") == ReadOn(Step(START, '('), "(1)"[1..]);
  }

  lemma DashesRead(done: seq<string>)
    ensures ReadOn(Reader(After, done), " -- ") == Reader(Comment, done)
  {
    assert " -- "[1..] == "-- " && "-- "[1..] == "- " && "- "[1..] == " " && " "[1..] == "";
    assert ReadOn(Reader(Dashes, done), " ") == Reader(Comment, done);
    assert ReadOn(Reader(Dash, done), "- ") == Reader(Comment, done);
    assert ReadOn(Reader(After, done), "-- ") == Reader(Comment, done);
  }
}
