/** The tab-separated payload that batched inserts hand to LOAD DATA LOCAL INFILE, and its
    meaning under the server's default field and line handling (MySQL Reference Manual,
    "LOAD DATA Statement", "Field and Line Handling"). Text is a sequence of runes. */
module LoadData {
  import opened Seqs
  import opened Options
  import opened Decimal

  predicate IsFloatChar(c: char) { '0' <= c <= '9' || c in {'.', '-', '+', 'N', 'a', 'I', 'n', 'f'} }

  /** What strconv.FormatFloat writes: a decimal number, NaN, +Inf or -Inf. */
  type FloatText = s: string | forall i | 0 <= i < |s| :: IsFloatChar(s[i]) witness "0"

  /** A simple parameter value (executor.go:452-467); floats are given by their text. */
  datatype Param = Null | Bool(b: bool) | Int(n: int) | Float(x: FloatText) | Text(s: string) | Blob(bytes: string)

  // ---------------------------------------------------------------- writing

  /** The column value a parameter stands for. */
  function Value(p: Param): Option<string> {
    match p
    case Null => None
    case Bool(b) => Some(if b then "1" else "0")
    case Int(n) => Some(IntText(n))
    case Float(x) => Some(x)
    case Text(s) => Some(s)
    case Blob(s) => Some(s)
  }

  function EscapeRune(ch: char): string {
    match ch
    case '\\' => "\\\\"
    case '\t' => "\\t"
    case '\n' => "\\n"
    case '\r' => "\\r"
    case _ => [ch]
  }

  function Escape(s: string): string {
    if s == [] then [] else EscapeRune(s[0]) + Escape(s[1..])
  }

  lemma EscapeHead(s: string, i: nat)
    requires i < |s|
    ensures Escape(s[i..]) == EscapeRune(s[i]) + Escape(s[i + 1..])
  {
    assert s[i..][1..] == s[i + 1..];
  }

  method EscapeLoadDataString(s: string) returns (b: string)
    ensures b == Escape(s)
  {
    b := [];
    for i := 0 to |s|
      invariant b + Escape(s[i..]) == Escape(s)
    {
      var written: string;
      match s[i] {
        case '\\' => written := "\\\\";
        case '\t' => written := "\\t";
        case '\n' => written := "\\n";
        case '\r' => written := "\\r";
        case ch => written := [ch];
      }
      EscapeHead(s, i);
      Regroup(b, written, Escape(s[i + 1..]));
      b := b + written;
    }
    assert s[|s|..] == [];
  }

  /** formatLoadDataParam (executor.go:641-682). */
  function FormatParam(p: Param): string {
    match p
    case Null => "\\N"
    case Bool(b) => if b then "1" else "0"
    case Int(n) => IntText(n)
    case Float(x) => x
    case Text(s) => Escape(s)
    case Blob(s) => Escape(s)
  }

  function Fields(row: seq<Param>): string {
    if row == [] then []
    else if |row| == 1 then FormatParam(row[0])
    else FormatParam(row[0]) + "\t" + Fields(row[1..])
  }

  function Payload(rows: seq<seq<Param>>): string {
    if rows == [] then [] else Fields(rows[0]) + "\n" + Payload(rows[1..])
  }

  /** Field `i` as written: every field but the first is preceded by a tab. */
  function Written(row: seq<Param>, i: nat): string
    requires i < |row|
  {
    if i > 0 then "\t" + FormatParam(row[i]) else FormatParam(row[i])
  }

  function WrittenFrom(row: seq<Param>, i: nat): string
    requires i <= |row|
    decreases |row| - i
  {
    if i == |row| then [] else Written(row, i) + WrittenFrom(row, i + 1)
  }

  lemma {:induction false} WrittenIsFields(row: seq<Param>, i: nat)
    requires i < |row|
    ensures WrittenFrom(row, i) == if i > 0 then "\t" + Fields(row[i..]) else Fields(row[i..])
    decreases |row| - i
  {
    assert row[i..][0] == row[i];
    if i + 1 < |row| {
      WrittenIsFields(row, i + 1);
      assert row[i..][1..] == row[i + 1..];
      Regroup("\t", FormatParam(row[i]), "\t" + Fields(row[i + 1..]));
      Regroup(FormatParam(row[i]), "\t", Fields(row[i + 1..]));
    } else {
      assert WrittenFrom(row, i + 1) == [];
    }
  }

  /** The field loop for one row (executor.go:573-578). */
  method WriteRow(buf: string, row: seq<Param>) returns (r: string)
    ensures r == buf + Fields(row)
  {
    r := buf;
    for i := 0 to |row|
      invariant r + WrittenFrom(row, i) == buf + WrittenFrom(row, 0)
    {
      Regroup(r, Written(row, i), WrittenFrom(row, i + 1));
      if i > 0 {
        Regroup(r, "\t", FormatParam(row[i]));
        r := r + "\t";
      }
      r := r + FormatParam(row[i]);
    }
    assert r + WrittenFrom(row, |row|) == r;
    if row != [] {
      WrittenIsFields(row, 0);
      assert row[0..] == row;
    }
  }

  /** The payload loop of executeLoadDataInfileBatchedInsert (executor.go:571-580). */
  method BuildPayload(rows: seq<seq<Param>>) returns (buf: string)
    ensures buf == Payload(rows)
  {
    buf := [];
    for k := 0 to |rows|
      invariant buf + Payload(rows[k..]) == Payload(rows)
    {
      assert rows[k..][1..] == rows[k + 1..];
      Regroup(buf, Fields(rows[k]) + "\n", Payload(rows[k + 1..]));
      Regroup(buf, Fields(rows[k]), "\n");
      buf := WriteRow(buf, rows[k]);
      buf := buf + "\n";
    }
    assert rows[|rows|..] == [];
  }

  // ---------------------------------------------------------------- reading

  /** What the server makes of a backslash and the rune after it. */
  function Unescape(ch: char): char {
    match ch
    case '0' => '\0'
    case 'b' => '\U{08}'
    case 'n' => '\n'
    case 'r' => '\r'
    case 't' => '\t'
    case 'Z' => '\U{1A}'
    case _ => ch
  }

  /** The raw text of the first field of `text`, up to an unescaped tab or newline. */
  function RawEnd(text: string, i: nat): (end: nat)
    requires i <= |text|
    ensures i <= end <= |text|
    decreases |text| - i
  {
    if i == |text| || text[i] == '\t' || text[i] == '\n' then i
    else if text[i] == '\\' && i + 1 < |text| then RawEnd(text, i + 2)
    else RawEnd(text, i + 1)
  }

  function Decode(raw: string): string {
    if raw == [] then []
    else if raw[0] == '\\' && |raw| > 1 then [Unescape(raw[1])] + Decode(raw[2..])
    else [raw[0]] + Decode(raw[1..])
  }

  /** A field that is exactly `\N` is NULL. */
  function DecodeField(raw: string): Option<string> {
    if raw == "\\N" then None else Some(Decode(raw))
  }

  /** The rows of a payload; `row` holds the fields already read of the current one. */
  function ReadRows(row: seq<Option<string>>, text: string): seq<seq<Option<string>>>
    decreases |text|
  {
    var end := RawEnd(text, 0);
    var field := DecodeField(text[..end]);
    if end == |text| then
      if row == [] && text == [] then [] else [row + [field]]
    else if text[end] == '\t' then
      ReadRows(row + [field], text[end + 1..])
    else
      [row + [field]] + ReadRows([], text[end + 1..])
  }

  // ---------------------------------------------------------------- round trip

  /** No tab, newline or lone trailing backslash: the reader runs through the whole text. */
  predicate Solid(raw: string) {
    raw != [] ==>
      && raw[0] != '\t' && raw[0] != '\n'
      && if raw[0] == '\\' then |raw| > 1 && Solid(raw[2..]) else Solid(raw[1..])
  }

  lemma RuneSolid(ch: char, rest: string)
    requires Solid(rest)
    ensures Solid(EscapeRune(ch) + rest) && Decode(EscapeRune(ch) + rest) == [ch] + Decode(rest)
  {
    AfterPrefix(EscapeRune(ch), rest);
  }

  lemma {:induction false} EscapeSolid(s: string)
    ensures Solid(Escape(s)) && Decode(Escape(s)) == s
  {
    if s != [] {
      hide Solid, Decode;
      EscapeSolid(s[1..]);
      RuneSolid(s[0], Escape(s[1..]));
      assert s == [s[0]] + s[1..];
    } else {
      assert Solid([]) && Decode([]) == [];
    }
  }

  /** No string is written as `\N`, so NULL is never confused with one. */
  lemma EscapeIsNotNull(s: string)
    ensures Escape(s) != "\\N"
  {
    if s != [] {
      var e := EscapeRune(s[0]);
      assert Escape(s)[0] == e[0];
      if |e| == 2 { assert Escape(s)[1] == e[1]; }
    }
  }

  /** No tab, newline or carriage return of a string reaches the payload as it is. */
  lemma {:induction false} EscapeHasNoControls(s: string)
    ensures forall i | 0 <= i < |Escape(s)| :: Escape(s)[i] !in {'\t', '\n', '\r'}
  {
    if s != [] { EscapeHasNoControls(s[1..]); }
  }

  lemma {:induction false} PlainText(s: string)
    requires forall i | 0 <= i < |s| :: IsFloatChar(s[i])
    ensures Escape(s) == s
  {
    if s != [] {
      PlainText(s[1..]);
      assert s == [s[0]] + s[1..];
    }
  }

  /** Every formatted parameter is the escape of its value, or the NULL marker. */
  lemma FormatIsEscape(p: Param)
    ensures FormatParam(p) == match Value(p) case None => "\\N" case Some(v) => Escape(v)
  {
    if p.Bool? || p.Int? || p.Float? { PlainText(Value(p).value); }
  }

  lemma FieldRoundTrip(p: Param)
    ensures Solid(FormatParam(p)) && DecodeField(FormatParam(p)) == Value(p)
  {
    FormatIsEscape(p);
    if p.Null? {
      assert "\\N"[2..] == [];
    } else {
      EscapeSolid(Value(p).value);
      EscapeIsNotNull(Value(p).value);
    }
  }

  lemma {:induction false} RawEndSolid(before: string, raw: string, after: string)
    requires Solid(raw) && (after != [] ==> after[0] == '\t' || after[0] == '\n')
    ensures RawEnd(before + raw + after, |before|) == |before + raw|
    decreases |raw|
  {
    var text := before + raw + after;
    if raw != [] {
      var k := if raw[0] == '\\' then 2 else 1;
      assert text[|before|] == raw[0];
      assert before + raw[..k] + raw[k..] + after == text;
      RawEndSolid(before + raw[..k], raw[k..], after);
    }
  }

  /** The reader takes one formatted field off the front. */
  lemma FieldThen(p: Param, after: string)
    requires after != [] && (after[0] == '\t' || after[0] == '\n')
    ensures var text := FormatParam(p) + after; var end := RawEnd(text, 0);
            end == |FormatParam(p)| && text[..end] == FormatParam(p) && text[end] == after[0] && text[end + 1..] == after[1..]
    ensures DecodeField((FormatParam(p) + after)[..|FormatParam(p)|]) == Value(p)
  {
    hide FormatParam, DecodeField, RawEnd, Value, Solid;
    FieldRoundTrip(p);
    RawEndSolid([], FormatParam(p), after);
    assert [] + FormatParam(p) == FormatParam(p);
    AfterPrefix(FormatParam(p), after);
    SliceOfSlice(FormatParam(p) + after, |FormatParam(p)|, |FormatParam(p)| + |after|, 1, |after|);
  }

  function Values(row: seq<Param>): seq<Option<string>> {
    seq(|row|, i requires 0 <= i < |row| => Value(row[i]))
  }

  /** One field and its terminator come off the front of the text. */
  lemma ReadField(done: seq<Option<string>>, p: Param, term: char, rest: string)
    requires term == '\t' || term == '\n'
    ensures var row := done + [Value(p)];
            ReadRows(done, FormatParam(p) + ([term] + rest)) == if term == '\t' then ReadRows(row, rest) else [row] + ReadRows([], rest)
  {
    FieldThen(p, [term] + rest);
    assert ([term] + rest)[1..] == rest;
  }

  lemma {:induction false} ReadOneRow(done: seq<Option<string>>, row: seq<Param>, rest: string)
    requires row != []
    ensures ReadRows(done, Fields(row) + ("\n" + rest)) == [done + Values(row)] + ReadRows([], rest)
    decreases |row|
  {
    hide ReadRows, FormatParam, Value;
    if |row| == 1 {
      ReadField(done, row[0], '\n', rest);
      assert done + Values(row) == done + [Value(row[0])];
    } else {
      var tail := Fields(row[1..]) + ("\n" + rest);
      ReadField(done, row[0], '\t', tail);
      RegroupRow(FormatParam(row[0]), Fields(row[1..]), "\n" + rest);
      ReadOneRow(done + [Value(row[0])], row[1..], rest);
      assert done + [Value(row[0])] + Values(row[1..]) == done + Values(row);
    }
  }

  lemma RegroupRow(a: string, b: string, c: string)
    ensures a + "\t" + b + c == a + (['\t'] + (b + c))
  {
  }

  function AllValues(rows: seq<seq<Param>>): seq<seq<Option<string>>> {
    if rows == [] then [] else [Values(rows[0])] + AllValues(rows[1..])
  }

  predicate NoEmptyRow(rows: seq<seq<Param>>) {
    rows != [] ==> rows[0] != [] && NoEmptyRow(rows[1..])
  }

  lemma ReadEmptyRow(rest: string)
    ensures ReadRows([], "\n" + rest) == [[Some("")]] + ReadRows([], rest)
  {
    var text := "\n" + rest;
    assert RawEnd(text, 0) == 0 && text[..0] == [] && text[1..] == rest;
    assert [] + [DecodeField([])] == [Some("")];
  }

  /** LOAD DATA round trip: the server reads back exactly the rows that were written, for any
      number of rows, exactly when each row has at least one field. A row without fields is an
      empty line, which reads as one empty string. */
  lemma {:induction false} PayloadRoundTrip(rows: seq<seq<Param>>)
    ensures ReadRows([], Payload(rows)) == AllValues(rows) <==> NoEmptyRow(rows)
  {
    if rows != [] {
      var rest := Payload(rows[1..]);
      Regroup(Fields(rows[0]), "\n", rest);
      PayloadRoundTrip(rows[1..]);
      if rows[0] != [] {
        ReadOneRow([], rows[0], rest);
        assert [] + Values(rows[0]) == Values(rows[0]);
        assert ([Values(rows[0])] + ReadRows([], rest))[1..] == ReadRows([], rest);
        assert AllValues(rows)[1..] == AllValues(rows[1..]);
      } else {
        ReadEmptyRow(rest);
        assert [] + ("\n" + rest) == "\n" + rest;
        assert ([[Some("")]] + ReadRows([], rest))[0] == [Some("")];
        assert AllValues(rows)[0] == [];
      }
    }
  }
}
