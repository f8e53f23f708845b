/** Where statements end, told by the grammar of a query and not by a scanner: a query is a sequence of plain
    runes, backslash pairs and quoted strings, and possibly ends inside a string or behind a lone
    backslash. The cuts of SplitQueries are the semicolons among the plain runes. */
module QueryGrammar {
  import opened Seqs
  import opened SplitQueries

  /** A rune of a string other than its quote, or a backslash with the rune it escapes. */
  datatype Item = Rune(c: char) | Escaped(c: char)

  datatype Token = Plain(c: char) | Pair(c: char) | Quoted(q: char, items: seq<Item>)

  /** How a query ends: complete, or behind a backslash, or in a string that is not closed. */
  datatype Ending = Complete | Backslash | Unclosed(q: char, items: seq<Item>, backslash: bool)

  predicate QuoteMark(c: char) { c == '\'' || c == '"' || c == '`' }

  predicate ValidItems(q: char, items: seq<Item>) {
    forall i | 0 <= i < |items| :: items[i].Rune? ==> items[i].c != q && items[i].c != '\\'
  }

  predicate ValidToken(t: Token) {
    match t
    case Plain(c) => !QuoteMark(c) && c != '\\'
    case Pair(_) => true
    case Quoted(q, items) => QuoteMark(q) && ValidItems(q, items)
  }

  predicate ValidTokens(ts: seq<Token>) { forall i | 0 <= i < |ts| :: ValidToken(ts[i]) }

  predicate ValidEnding(e: Ending) { e.Unclosed? ==> QuoteMark(e.q) && ValidItems(e.q, e.items) }

  function ItemText(item: Item): string { match item case Rune(c) => [c] case Escaped(c) => ['\\', c] }

  function ItemsText(items: seq<Item>): string {
    if items == [] then [] else ItemText(items[0]) + ItemsText(items[1..])
  }

  function TokenText(t: Token): string {
    match t
    case Plain(c) => [c]
    case Pair(c) => ['\\', c]
    case Quoted(q, items) => [q] + (ItemsText(items) + [q])
  }

  function TokensText(ts: seq<Token>): string {
    if ts == [] then [] else TokenText(ts[0]) + TokensText(ts[1..])
  }

  function EndingText(e: Ending): string {
    match e
    case Complete => []
    case Backslash => ['\\']
    case Unclosed(q, items, backslash) => [q] + (ItemsText(items) + (if backslash then ['\\'] else []))
  }

  /** The positions of the plain semicolons of a token list that starts at `at`. */
  function Semicolons(ts: seq<Token>, at: nat): seq<nat> {
    if ts == [] then []
    else (if ts[0] == Plain(';') then [at] else []) + Semicolons(ts[1..], at + |TokenText(ts[0])|)
  }

  // ---------------------------------------------------------------- the scanner over the grammar

  lemma {:induction false} SeparatorsConcat(s: Scan, a: string, b: string, at: nat)
    ensures Separators(s, a + b, at) == Separators(s, a, at) + Separators(ScanAll(s, a), b, at + |a|)
    decreases |a|
  {
    if a == [] {
      assert a + b == b;
    } else {
      assert (a + b)[1..] == a[1..] + b;
      SeparatorsConcat(Advance(s, a[0]), a[1..], b, at + 1);
      Regroup(if Separates(s, a[0]) then [at] else [], Separators(Advance(s, a[0]), a[1..], at + 1),
              Separators(ScanAll(s, a), b, at + |a|));
    }
  }

  lemma OneRune(s: Scan, c: char, at: nat)
    ensures Separators(s, [c], at) == (if Separates(s, c) then [at] else []) && ScanAll(s, [c]) == Advance(s, c)
  {
    assert [c][1..] == [];
  }

  lemma TwoRunes(s: Scan, c: char, d: char, at: nat)
    ensures Separators(s, [c, d], at) == Separators(s, [c], at) + Separators(Advance(s, c), [d], at + 1)
    ensures ScanAll(s, [c, d]) == Advance(Advance(s, c), d)
  {
    assert [c, d][1..] == [d] && [d][1..] == [];
    OneRune(s, c, at);
    OneRune(Advance(s, c), d, at + 1);
  }

  function InString(q: char): Scan { Scan(Open(q), false) }

  /** An item of a string separates nothing and leaves the scanner in the string. */
  lemma ItemScanned(q: char, item: Item, at: nat)
    requires QuoteMark(q) && (item.Rune? ==> item.c != q && item.c != '\\')
    ensures Separators(InString(q), ItemText(item), at) == [] && ScanAll(InString(q), ItemText(item)) == InString(q)
  {
    match item
    case Rune(c) => OneRune(InString(q), c, at);
    case Escaped(c) =>
      TwoRunes(InString(q), '\\', c, at);
      OneRune(InString(q), '\\', at);
      OneRune(Scan(Open(q), true), c, at + 1);
  }

  lemma {:induction false} ScanConcat(s: Scan, a: string, b: string)
    ensures ScanAll(s, a + b) == ScanAll(ScanAll(s, a), b)
    decreases |a|
  {
    if a == [] {
      assert a + b == b;
    } else {
      assert (a + b)[1..] == a[1..] + b;
      ScanConcat(Advance(s, a[0]), a[1..], b);
    }
  }

  lemma {:induction false} ItemsScanned(q: char, items: seq<Item>, at: nat)
    requires QuoteMark(q) && ValidItems(q, items)
    ensures Separators(InString(q), ItemsText(items), at) == [] && ScanAll(InString(q), ItemsText(items)) == InString(q)
    decreases |items|
  {
    if items != [] {
      hide Separators, ScanAll;
      var head, rest := ItemText(items[0]), ItemsText(items[1..]);
      ItemScanned(q, items[0], at);
      ItemsScanned(q, items[1..], at + |head|);
      SeparatorsConcat(InString(q), head, rest, at);
      ScanConcat(InString(q), head, rest);
    }
  }

  /** Only the plain semicolon separates, and behind a token the scanner is as at the start. */
  lemma TokenScanned(t: Token, at: nat)
    requires ValidToken(t)
    ensures Separators(FRESH, TokenText(t), at) == (if t == Plain(';') then [at] else [])
    ensures ScanAll(FRESH, TokenText(t)) == FRESH
  {
    match t
    case Plain(c) => OneRune(FRESH, c, at);
    case Pair(c) =>
      TwoRunes(FRESH, '\\', c, at);
      OneRune(FRESH, '\\', at);
      OneRune(Scan(NoQuote, true), c, at + 1);
    case Quoted(q, items) =>
      hide Separators, ScanAll;
      var body := ItemsText(items);
      OneRune(FRESH, q, at);
      ItemsScanned(q, items, at + 1);
      OneRune(InString(q), q, at + 1 + |body|);
      SeparatorsConcat(FRESH, [q], body + [q], at);
      SeparatorsConcat(InString(q), body, [q], at + 1);
      ScanConcat(FRESH, [q], body + [q]);
      ScanConcat(InString(q), body, [q]);
  }

  lemma {:induction false} TokensScanned(ts: seq<Token>, at: nat)
    requires ValidTokens(ts)
    ensures Separators(FRESH, TokensText(ts), at) == Semicolons(ts, at) && ScanAll(FRESH, TokensText(ts)) == FRESH
    decreases |ts|
  {
    if ts != [] {
      hide Separators, ScanAll, TokenText, ValidToken;
      assert ValidToken(ts[0]);
      var head, rest := TokenText(ts[0]), TokensText(ts[1..]);
      TokenScanned(ts[0], at);
      TokensScanned(ts[1..], at + |head|);
      SeparatorsConcat(FRESH, head, rest, at);
      ScanConcat(FRESH, head, rest);
    }
  }

  /** Behind an unclosed quote nothing separates. */
  lemma EndingScanned(e: Ending, at: nat)
    requires ValidEnding(e)
    ensures Separators(FRESH, EndingText(e), at) == []
  {
    match e
    case Complete =>
    case Backslash => OneRune(FRESH, '\\', at);
    case Unclosed(q, items, backslash) =>
      hide Separators, ScanAll;
      var body, last := ItemsText(items), if backslash then ['\\'] else [];
      OneRune(FRESH, q, at);
      ItemsScanned(q, items, at + 1);
      SeparatorsConcat(FRESH, [q], body + last, at);
      SeparatorsConcat(InString(q), body, last, at + 1);
      OneRune(InString(q), '\\', at + 1 + |body|);
      NothingScanned(InString(q), at + 1 + |body|);
  }

  lemma NothingScanned(s: Scan, at: nat)
    ensures Separators(s, [], at) == []
  {
  }

  // ---------------------------------------------------------------- every query has this grammar

  /** A text behind an opening quote: the items of the string, and what follows its closing quote, if any. */
  lemma ItemsOf(q: char, text: string) returns (items: seq<Item>, backslash: bool, closed: bool, rest: string)
    requires QuoteMark(q)
    ensures ValidItems(q, items) && (closed ==> !backslash && |rest| < |text| && text == ItemsText(items) + ([q] + rest))
    ensures !closed ==> text == ItemsText(items) + (if backslash then ['\\'] else [])
    decreases |text|
  {
    if text == [] {
      items, backslash, closed, rest := [], false, false, [];
    } else if text == ['\\'] {
      items, backslash, closed, rest := [], true, false, [];
    } else if text[0] == q {
      items, backslash, closed, rest := [], false, true, text[1..];
      assert text == [q] + rest;
    } else {
      var item := if text[0] == '\\' then Escaped(text[1]) else Rune(text[0]);
      var k := |ItemText(item)|;
      var more;
      more, backslash, closed, rest := ItemsOf(q, text[k..]);
      items := [item] + more;
      assert items[1..] == more;
      assert text == ItemText(item) + text[k..];
      Regroup(ItemText(item), ItemsText(more), if closed then [q] + rest else if backslash then ['\\'] else []);
    }
  }

  /** Every text is made of tokens and an ending. */
  lemma TokensOf(text: string) returns (ts: seq<Token>, e: Ending)
    ensures ValidTokens(ts) && ValidEnding(e) && text == TokensText(ts) + EndingText(e)
    decreases |text|
  {
    if text == [] {
      ts, e := [], Complete;
    } else if text == ['\\'] {
      ts, e := [], Backslash;
    } else if QuoteMark(text[0]) {
      var q := text[0];
      var items, backslash, closed, rest := ItemsOf(q, text[1..]);
      assert text == [q] + text[1..];
      if closed {
        var more;
        more, e := TokensOf(rest);
        ts := [Quoted(q, items)] + more;
        QuotedFirst(q, items, rest, text, more, e);
      } else {
        ts, e := [], Unclosed(q, items, backslash);
        assert text == [] + EndingText(e);
      }
    } else {
      var t := if text[0] == '\\' then Pair(text[1]) else Plain(text[0]);
      var k := |TokenText(t)|;
      var more;
      more, e := TokensOf(text[k..]);
      ts := [t] + more;
      assert ts[1..] == more;
      assert text == TokenText(t) + text[k..];
      Regroup(TokenText(t), TokensText(more), EndingText(e));
    }
  }

  lemma QuotedFirst(q: char, items: seq<Item>, rest: string, text: string, more: seq<Token>, e: Ending)
    requires text == [q] + (ItemsText(items) + ([q] + rest)) && rest == TokensText(more) + EndingText(e)
    ensures text == TokensText([Quoted(q, items)] + more) + EndingText(e)
  {
    hide EndingText, ItemsText;
    var ts, body := [Quoted(q, items)] + more, ItemsText(items);
    assert ts[1..] == more;
    Regroup(body, [q], rest);
    Regroup([q], body + [q], rest);
    Regroup(TokenText(ts[0]), TokensText(more), EndingText(e));
  }

  // ---------------------------------------------------------------- the cuts

  /** The cuts of a query are exactly its plain semicolons: none in a string, none behind a backslash, none
      behind a quote that is not closed. */
  lemma CutsAreSemicolons(ts: seq<Token>, e: Ending)
    requires ValidTokens(ts) && ValidEnding(e)
    ensures Cuts(Segments([], FRESH, TokensText(ts) + EndingText(e)), 0) == Semicolons(ts, 0)
  {
    hide Separators, ScanAll, Segments, Cuts;
    var front, end := TokensText(ts), EndingText(e);
    CutsAreGlobal(front + end);
    SeparatorsConcat(FRESH, front, end, 0);
    TokensScanned(ts, 0);
    EndingScanned(e, |front|);
  }

  /** A statement that comes out has no plain semicolon, however it is made of tokens. */
  lemma PiecesHaveNoSemicolon(query: string, ts: seq<Token>, e: Ending)
    requires ValidTokens(ts) && ValidEnding(e) && TokensText(ts) + EndingText(e) in Split(query)
    ensures forall i | 0 <= i < |ts| :: ts[i] != Plain(';')
  {
    hide Separators, ScanAll;
    var p := TokensText(ts) + EndingText(e);
    PiecesAreStatements(query, p);
    NoSeparatorNone(FRESH, p, 0);
    SeparatorsConcat(FRESH, TokensText(ts), EndingText(e), 0);
    TokensScanned(ts, 0);
    NoSemicolons(ts, 0);
  }

  lemma {:induction false} NoSeparatorNone(s: Scan, text: string, at: nat)
    requires NoSeparator(s, text)
    ensures Separators(s, text, at) == []
    decreases |text|
  {
    if text != [] { NoSeparatorNone(Advance(s, text[0]), text[1..], at + 1); }
  }

  lemma {:induction false} NoSemicolons(ts: seq<Token>, at: nat)
    requires Semicolons(ts, at) == []
    ensures forall i | 0 <= i < |ts| :: ts[i] != Plain(';')
    decreases |ts|
  {
    if ts != [] {
      NoSemicolons(ts[1..], at + |TokenText(ts[0])|);
      forall i | 0 < i < |ts| ensures ts[i] != Plain(';') { assert ts[i] == ts[1..][i - 1]; }
    }
  }

  /** A query of several statements is cut into several, and a quote inside another kind of quotes closes
      nothing: `"it's; ok"` is one string. */
  lemma QuoteInQuotes()
    ensures Cuts(Segments([], FRESH, "\"it's; ok\""), 0) == []
  {
    hide Segments, Cuts, ItemsText;
    var items := [Rune('i'), Rune('t'), Rune('\''), Rune('s'), Rune(';'), Rune(' '), Rune('o'), Rune('k')];
    var t := Quoted('"', items);
    CutsAreSemicolons([t], Complete);
    assert [t][1..] == [];
    RunesText("it's; ok", items);
    assert TokensText([t]) + EndingText(Complete) == ['"'] + ("it's; ok" + ['"']);
    assert ['"'] + ("it's; ok" + ['"']) == "\"it's; ok\"";
  }

  lemma {:induction false} RunesText(s: string, items: seq<Item>)
    requires |items| == |s| && forall i | 0 <= i < |s| :: items[i] == Rune(s[i])
    ensures ItemsText(items) == s
  {
    if s != [] {
      RunesText(s[1..], items[1..]);
      assert s == [s[0]] + s[1..];
    }
  }
}
