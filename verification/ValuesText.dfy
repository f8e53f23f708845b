/** How a server reads the VALUES clause of an INSERT with placeholders: tuples of `?` or `$n`, separated
    by commas, white space ignored. */
module ValuesText {
  import opened Seqs
  import opened Options
  import opened Decimal
  import opened Placeholders
  import opened Inserts
  import opened SplitQueries
  import opened SqlText

  function ReadMark(text: string): (r: Option<(Mark, string)>)
    ensures r.Some? ==> |r.value.1| < |text|
  {
    if text != [] && text[0] == '?' then Some((Question, text[1..]))
    else if StartsPlaceholder(text) then
      var digits := DigitsOf(text[1..]);
      Some((Dollar(NatValue(digits)), text[1..][|digits|..]))
    else None
  }

  /** The placeholders up to the closing parenthesis. */
  function ReadCols(text: string): (r: Option<(seq<Mark>, string)>)
    ensures r.Some? ==> |r.value.1| < |text|
    decreases |text|
  {
    match ReadMark(text)
    case None => None
    case Some((mark, rest)) =>
      if rest == [] then None
      else if rest[0] == ')' then Some(([mark], rest[1..]))
      else if rest[0] == ',' then
        match ReadCols(rest[1..])
        case None => None
        case Some((marks, after)) => Some(([mark] + marks, after))
      else None
  }

  function ReadTuples(text: string): Option<seq<seq<Mark>>>
    decreases |text|
  {
    if text == [] || text[0] != '(' then None
    else match ReadCols(text[1..])
         case None => None
         case Some((marks, rest)) =>
           if rest == [] then Some([marks])
           else if rest[0] == ',' then
             match ReadTuples(rest[1..])
             case None => None
             case Some(tuples) => Some([marks] + tuples)
           else None
  }

  function ReadValues(clause: string): Option<seq<seq<Mark>>> { ReadTuples(NoSpaces(clause)) }

  // ---------------------------------------------------------------- reading inverts rendering

  lemma {:induction false} NothingToDrop(s: string)
    requires forall i | 0 <= i < |s| :: !IsSpace(s[i])
    ensures NoSpaces(s) == s
  {
    if s != [] {
      NothingToDrop(s[1..]);
      assert s == [s[0]] + s[1..];
    }
  }

  lemma {:induction false} MarksHaveNoSpaces(marks: seq<Mark>, first: bool)
    ensures forall i | 0 <= i < |RenderMarks(marks, first)| :: !IsSpace(RenderMarks(marks, first)[i])
  {
    if marks != [] { MarksHaveNoSpaces(marks[1..], false); }
  }

  lemma ReadMarkOf(mark: Mark, rest: string)
    requires rest != [] && !IsDigit(rest[0])
    ensures ReadMark(MarkText(mark) + rest) == Some((mark, rest))
  {
    match mark
    case Question => AfterPrefix("?", rest);
    case Dollar(k) =>
      hide NatText, NatValue, DigitsOf;
      var digits := NatText(k);
      Regroup("$", digits, rest);
      AfterPrefix("$", digits + rest);
      AfterPrefix(digits, rest);
      DigitsOfConcat(digits, rest);
      NatTextValue(k);
      assert (MarkText(mark) + rest)[1] == digits[0];
  }

  lemma RenderTail(marks: seq<Mark>)
    requires marks != []
    ensures RenderMarks(marks, false) == "," + RenderMarks(marks, true)
  {
    assert RenderMarks(marks, true) == MarkText(marks[0]) + RenderMarks(marks[1..], false);
  }

  lemma {:induction false} ReadColsOf(marks: seq<Mark>, rest: string)
    requires marks != []
    ensures ReadCols(RenderMarks(marks, true) + (")" + rest)) == Some((marks, rest))
    decreases |marks|
  {
    hide ReadMark, MarkText;
    var mark, tail := MarkText(marks[0]), RenderMarks(marks[1..], false);
    assert RenderMarks(marks, true) == mark + tail;
    Regroup(mark, tail, ")" + rest);
    if |marks| == 1 {
      assert tail + (")" + rest) == ")" + rest;
      ReadMarkOf(marks[0], ")" + rest);
      AfterPrefix(")", rest);
      assert marks == [marks[0]];
    } else {
      RenderTail(marks[1..]);
      var others := RenderMarks(marks[1..], true);
      Regroup(",", others, ")" + rest);
      ReadMarkOf(marks[0], "," + (others + (")" + rest)));
      AfterPrefix(",", others + (")" + rest));
      ReadColsOf(marks[1..], rest);
      assert marks == [marks[0]] + marks[1..];
    }
  }

  /** Tuples without the space between them. */
  function Compact(tuples: seq<seq<Mark>>, first: bool): string {
    if tuples == [] then []
    else (if first then "" else ",") + (("(" + (RenderMarks(tuples[0], true) + ")")) + Compact(tuples[1..], false))
  }

  lemma {:induction false} RenderedIsCompact(tuples: seq<seq<Mark>>, first: bool)
    ensures NoSpaces(RenderTuples(tuples, first)) == Compact(tuples, first)
    decreases |tuples|
  {
    if tuples != [] {
      hide NoSpaces;
      var sep := if first then "" else ", ";
      var marks := RenderMarks(tuples[0], true);
      var row, rest := "(" + (marks + ")"), RenderTuples(tuples[1..], false);
      NoSpacesConcat(sep, row + rest);
      NoSpacesConcat(row, rest);
      SeparatorCompact(first);
      RowCompact(tuples[0]);
      RenderedIsCompact(tuples[1..], false);
    }
  }

  lemma SeparatorCompact(first: bool)
    ensures NoSpaces(if first then "" else ", ") == if first then "" else ","
  {
    if !first {
      assert ", "[1..] == " " && " "[1..] == "";
    }
  }

  lemma RowCompact(marks: seq<Mark>)
    ensures NoSpaces("(" + (RenderMarks(marks, true) + ")")) == "(" + (RenderMarks(marks, true) + ")")
  {
    MarksHaveNoSpaces(marks, true);
    NothingToDrop("(" + (RenderMarks(marks, true) + ")"));
  }

  ghost predicate NoEmptyTuple(tuples: seq<seq<Mark>>) { forall i | 0 <= i < |tuples| :: tuples[i] != [] }

  lemma {:induction false} ReadTuplesOf(tuples: seq<seq<Mark>>)
    requires tuples != [] && NoEmptyTuple(tuples)
    ensures ReadTuples(Compact(tuples, true)) == Some(tuples)
    decreases |tuples|
  {
    hide ReadCols, RenderMarks;
    var marks, rest := RenderMarks(tuples[0], true), Compact(tuples[1..], false);
    var text := Compact(tuples, true);
    assert text == ("(" + (marks + ")")) + rest;
    Regroup("(", marks + ")", rest);
    Regroup(marks, ")", rest);
    AfterPrefix("(", marks + (")" + rest));
    ReadColsOf(tuples[0], rest);
    if |tuples| == 1 {
      assert tuples == [tuples[0]];
    } else {
      CompactTail(tuples[1..]);
      AfterPrefix(",", Compact(tuples[1..], true));
      ReadTuplesOf(tuples[1..]);
      assert tuples == [tuples[0]] + tuples[1..];
    }
  }

  lemma CompactTail(tuples: seq<seq<Mark>>)
    requires tuples != []
    ensures Compact(tuples, false) == "," + Compact(tuples, true)
  {
    hide RenderMarks;
    assert Compact(tuples, true) == ("(" + (RenderMarks(tuples[0], true) + ")")) + Compact(tuples[1..], false);
  }

  lemma {:induction false} TuplesNotEmpty(isPostgres: bool, k: nat, n: nat, p: nat)
    requires p > 0
    ensures NoEmptyTuple(Tuples(isPostgres, k, n, p))
    decreases n
  {
    if n > 0 { TuplesNotEmpty(isPostgres, k + p, n - 1, p); }
  }

  /** The server reads the generated rows as the tuples they stand for. */
  lemma GeneratedTextIsRead(isPostgres: bool, n: nat, p: nat)
    requires n > 0 && p > 0
    ensures ReadValues(" " + RowsText(isPostgres, 1, 0, n, p)) == Some(Tuples(isPostgres, 1, n, p))
  {
    hide RowsText, Tuples, RenderTuples, ReadTuples, Compact;
    var tuples := Tuples(isPostgres, 1, n, p);
    RowsRender(isPostgres, 1, 0, n, p);
    RenderedIsCompact(tuples, true);
    NoSpacesConcat(" ", RenderTuples(tuples, true));
    OneSpace();
    assert [] + Compact(tuples, true) == Compact(tuples, true);
    TuplesNotEmpty(isPostgres, 1, n, p);
    ReadTuplesOf(tuples);
  }

  lemma OneSpace()
    ensures NoSpaces(" ") == []
  {
    assert " "[1..] == "";
  }

  // ---------------------------------------------------------------- lists of clauses

  lemma {:induction false} DigitsEnd(s: string)
    ensures |DigitsOf(s)| < |s| ==> !IsDigit(s[|DigitsOf(s)|])
  {
    if s != [] && IsDigit(s[0]) { DigitsEnd(s[1..]); }
  }

  /** What follows does not change a mark that is already followed by something. */
  lemma ReadMarkMore(text: string, more: string)
    requires ReadMark(text).Some? && ReadMark(text).value.1 != []
    ensures ReadMark(text + more) == Some((ReadMark(text).value.0, ReadMark(text).value.1 + more))
  {
    hide NatValue;
    assert (text + more)[1..] == text[1..] + more;
    if text[0] != '?' {
      var digits, rest := DigitsOf(text[1..]), ReadMark(text).value.1;
      DigitsEnd(text[1..]);
      assert text[1..] == digits + rest;
      Regroup(digits, rest, more);
      DigitsOfConcat(digits, rest + more);
      AfterPrefix(digits, rest + more);
      assert (text + more)[1] == text[1];
    }
  }

  lemma {:induction false} ReadColsMore(text: string, more: string)
    requires ReadCols(text).Some?
    ensures ReadCols(text + more) == Some((ReadCols(text).value.0, ReadCols(text).value.1 + more))
    decreases |text|
  {
    hide ReadMark;
    var (mark, rest) := ReadMark(text).value;
    ReadMarkMore(text, more);
    assert (rest + more)[1..] == rest[1..] + more;
    if rest[0] == ',' { ReadColsMore(rest[1..], more); }
  }

  lemma {:induction false} ReadTuplesMore(a: string, b: string)
    requires ReadTuples(a).Some? && ReadTuples(b).Some?
    ensures ReadTuples(a + ("," + b)) == Some(ReadTuples(a).value + ReadTuples(b).value)
    decreases |a|
  {
    hide ReadCols;
    var text := a + ("," + b);
    assert text[1..] == a[1..] + ("," + b);
    var (marks, rest) := ReadCols(a[1..]).value;
    ReadColsMore(a[1..], "," + b);
    if rest == [] {
      assert rest + ("," + b) == "," + b;
      AfterPrefix(",", b);
    } else {
      assert (rest + ("," + b))[1..] == rest[1..] + ("," + b);
      ReadTuplesMore(rest[1..], b);
      Regroup([marks], ReadTuples(rest[1..]).value, ReadTuples(b).value);
    }
  }

  lemma {:induction false} RepeatedIsRead(clause: string, n: nat)
    requires ReadValues(clause).Some? && n > 0
    ensures ReadValues(RepeatedList(clause, n)).Some?
    decreases n
  {
    if n > 1 {
      hide NoSpaces, ReadTuples;
      var front := RepeatedList(clause, n - 1);
      RepeatedIsRead(clause, n - 1);
      NoSpacesConcat(front + ", ", clause);
      NoSpacesConcat(front, ", ");
      SeparatorCompact(false);
      Regroup(NoSpaces(front), ",", NoSpaces(clause));
      ReadTuplesMore(NoSpaces(front), NoSpaces(clause));
    }
  }
}
