/** Splitting a multi-statement query at the semicolons outside quotes. Queries are rune
    sequences. */
module SplitQueries {
  import opened Seqs

  /** Scanner state: the open quote, if any, and whether the previous rune was a backslash. */
  datatype Quote = NoQuote | Open(q: char)
  datatype Scan = Scan(quote: Quote, escaped: bool)

  const FRESH := Scan(NoQuote, false)

  predicate IsQuote(r: char) { r == '\'' || r == '"' || r == '`' }

  function Advance(s: Scan, r: char): Scan {
    if s.escaped then s.(escaped := false)
    else if r == '\\' then s.(escaped := true)
    else if IsQuote(r) then
      match s.quote
      case NoQuote => s.(quote := Open(r))
      case Open(q) => if r == q then s.(quote := NoQuote) else s
    else s
  }

  /** `r` ends a statement in state `s`. */
  predicate Separates(s: Scan, r: char) {
    !s.escaped && r == ';' && s.quote.NoQuote?
  }

  /** The segments of `rest`, untrimmed, when `current` is the part already scanned of the first. */
  function Segments(current: string, s: Scan, rest: string): (segs: seq<string>)
    ensures |segs| > 0
    decreases |rest|
  {
    if rest == [] then [current]
    else if Separates(s, rest[0]) then [current] + Segments([], FRESH, rest[1..])
    else Segments(current + [rest[0]], Advance(s, rest[0]), rest[1..])
  }

  /** unicode.IsSpace, used by strings.TrimSpace. */
  predicate IsSpace(r: char) {
    || r in {'\t', '\n', '\U{0B}', '\U{0C}', '\r', ' ', '\U{85}', '\U{A0}', '\U{1680}',
             '\U{2028}', '\U{2029}', '\U{202F}', '\U{205F}', '\U{3000}'}
    || '\U{2000}' <= r <= '\U{200A}'
  }

  function TrimLeft(s: string): string {
    if s != [] && IsSpace(s[0]) then TrimLeft(s[1..]) else s
  }

  function TrimRight(s: string): string {
    if s != [] && IsSpace(s[|s| - 1]) then TrimRight(s[..|s| - 1]) else s
  }

  function TrimSpace(s: string): string { TrimRight(TrimLeft(s)) }

  /** The trimmed segment, if it is not empty. */
  function Piece(seg: string): seq<string> { if TrimSpace(seg) != "" then [TrimSpace(seg)] else [] }

  function Pieces(segs: seq<string>): seq<string> {
    if segs == [] then [] else Piece(segs[0]) + Pieces(segs[1..])
  }

  function Split(query: string): seq<string> { Pieces(Segments([], FRESH, query)) }

  /** What is still to be collected when the scan is at position `i`. */
  function Remaining(current: string, s: Scan, query: string, i: nat): seq<string>
    requires i <= |query|
  {
    Pieces(Segments(current, s, query[i..]))
  }

  lemma RemainingStep(queries: seq<string>, current: string, s: Scan, query: string, i: nat)
    requires i < |query|
    ensures queries + Remaining(current, s, query, i) ==
            if Separates(s, query[i]) then queries + Piece(current) + Remaining([], FRESH, query, i + 1)
            else queries + Remaining(current + [query[i]], Advance(s, query[i]), query, i + 1)
  {
    hide Piece;
    assert query[i..][1..] == query[i + 1..];
    if Separates(s, query[i]) {
      var tail := Segments([], FRESH, query[i + 1..]);
      assert ([current] + tail)[1..] == tail;
      Regroup(queries, Piece(current), Pieces(tail));
    }
  }

  lemma RemainingAtEnd(queries: seq<string>, current: string, s: Scan, query: string)
    ensures queries + Remaining(current, s, query, |query|) == queries + Piece(current)
  {
    assert query[|query|..] == [];
    assert Pieces([current]) == Piece(current) + Pieces([]) == Piece(current);
  }

  method SplitQueries(query: string) returns (queries: seq<string>)
    ensures queries == Split(query)
  {
    hide Remaining, TrimSpace;
    queries := [];
    var current: string := [];
    var quote := NoQuote;
    var escaped := false;
    WholeRemains(query);
    for i := 0 to |query|
      invariant queries + Remaining(current, Scan(quote, escaped), query, i) == Split(query)
    {
      var r := query[i];
      RemainingStep(queries, current, Scan(quote, escaped), query, i);
      if escaped {
        current := current + [r];
        escaped := false;
        continue;
      }
      if r == '\\' {
        current := current + [r];
        escaped := true;
        continue;
      }
      if (r == '\'' || r == '"' || r == '`') && !escaped {
        if quote.NoQuote? {
          quote := Open(r);
        } else if r == quote.q {
          quote := NoQuote;
        }
      }
      if r == ';' && quote.NoQuote? {
        var q := TrimSpace(current);
        if q != "" {
          queries := queries + [q];
        } else {
          assert queries + [] == queries;
        }
        current := [];
        continue;
      }
      current := current + [r];
    }
    RemainingAtEnd(queries, current, Scan(quote, escaped), query);
    var q := TrimSpace(current);
    if q != "" {
      queries := queries + [q];
    } else {
      assert queries + [] == queries;
    }
  }

  lemma WholeRemains(query: string)
    ensures [] + Remaining([], FRESH, query, 0) == Split(query)
  {
    assert query[0..] == query;
  }

  // ---------------------------------------------------------------- nothing is lost

  function Join(segs: seq<string>): string {
    if segs == [] then [] else if |segs| == 1 then segs[0] else segs[0] + ";" + Join(segs[1..])
  }

  lemma {:induction false} JoinSegmentsFrom(current: string, s: Scan, rest: string)
    ensures Join(Segments(current, s, rest)) == current + rest
    decreases |rest|
  {
    if rest != [] {
      if Separates(s, rest[0]) {
        JoinSegmentsFrom([], FRESH, rest[1..]);
        assert (([current] + Segments([], FRESH, rest[1..]))[1..]) == Segments([], FRESH, rest[1..]);
        assert current + ";" + ([] + rest[1..]) == current + rest;
      } else {
        JoinSegmentsFrom(current + [rest[0]], Advance(s, rest[0]), rest[1..]);
        assert current + [rest[0]] + rest[1..] == current + rest;
      }
    }
  }

  /** The untrimmed segments joined by semicolons are the query. */
  lemma SegmentsRebuildQuery(query: string)
    ensures Join(Segments([], FRESH, query)) == query
  {
    JoinSegmentsFrom([], FRESH, query);
    assert [] + query == query;
  }

  /** The positions of the separators met by one scan of the whole text, never reset; the text starts
      at position `at`. */
  function Separators(s: Scan, text: string, at: nat): seq<nat>
    decreases |text|
  {
    if text == [] then []
    else (if Separates(s, text[0]) then [at] else []) + Separators(Advance(s, text[0]), text[1..], at + 1)
  }

  /** The positions between the segments, the first of which starts at `at`. */
  function Cuts(segs: seq<string>, at: nat): seq<nat> {
    if |segs| <= 1 then [] else [at + |segs[0]|] + Cuts(segs[1..], at + |segs[0]| + 1)
  }

  lemma {:induction false} CutsFrom(current: string, s: Scan, rest: string, at: nat)
    ensures Cuts(Segments(current, s, rest), at) == Separators(s, rest, at + |current|)
    decreases |rest|
  {
    if rest != [] {
      if Separates(s, rest[0]) {
        assert Advance(s, rest[0]) == FRESH;
        CutsFrom([], FRESH, rest[1..], at + |current| + 1);
        var tail := Segments([], FRESH, rest[1..]);
        assert ([current] + tail)[1..] == tail;
      } else {
        CutsFrom(current + [rest[0]], Advance(s, rest[0]), rest[1..], at);
      }
    }
  }

  /** Resetting the scanner at each separator cuts the query exactly where one continuous scan
      sees a separator. */
  lemma CutsAreGlobal(query: string)
    ensures Cuts(Segments([], FRESH, query), 0) == Separators(FRESH, query, 0)
  {
    CutsFrom([], FRESH, query, 0);
  }

  // ---------------------------------------------------------------- no separator inside a piece

  /** Scanning `text` from state `s` meets no separator. */
  predicate NoSeparator(s: Scan, text: string)
    decreases |text|
  {
    text != [] ==> !Separates(s, text[0]) && NoSeparator(Advance(s, text[0]), text[1..])
  }

  function ScanAll(s: Scan, text: string): Scan
    decreases |text|
  {
    if text == [] then s else ScanAll(Advance(s, text[0]), text[1..])
  }

  lemma {:induction false} NoSeparatorConcat(s: Scan, a: string, b: string)
    ensures NoSeparator(s, a + b) <==> NoSeparator(s, a) && NoSeparator(ScanAll(s, a), b)
    ensures ScanAll(s, a + b) == ScanAll(ScanAll(s, a), b)
    decreases |a|
  {
    if a == [] {
      assert a + b == b;
    } else {
      assert (a + b)[1..] == a[1..] + b;
      NoSeparatorConcat(Advance(s, a[0]), a[1..], b);
    }
  }

  lemma {:induction false} SegmentsHaveNoSeparator(current: string, s: Scan, rest: string)
    requires NoSeparator(FRESH, current) && ScanAll(FRESH, current) == s
    ensures forall seg | seg in Segments(current, s, rest) :: NoSeparator(FRESH, seg)
    decreases |rest|
  {
    if rest != [] {
      if Separates(s, rest[0]) {
        SegmentsHaveNoSeparator([], FRESH, rest[1..]);
      } else {
        NoSeparatorConcat(FRESH, current, [rest[0]]);
        SegmentsHaveNoSeparator(current + [rest[0]], Advance(s, rest[0]), rest[1..]);
      }
    }
  }

  lemma {:induction false} TrimLeftKeeps(seg: string)
    ensures NoSeparator(FRESH, seg) ==> NoSeparator(FRESH, TrimLeft(seg))
  {
    if seg != [] && IsSpace(seg[0]) {
      assert Advance(FRESH, seg[0]) == FRESH;
      TrimLeftKeeps(seg[1..]);
    }
  }

  lemma {:induction false} TrimRightKeeps(seg: string)
    ensures NoSeparator(FRESH, seg) ==> NoSeparator(FRESH, TrimRight(seg))
    decreases |seg|
  {
    if seg != [] && IsSpace(seg[|seg| - 1]) {
      var front := seg[..|seg| - 1];
      assert front + [seg[|seg| - 1]] == seg;
      NoSeparatorConcat(FRESH, front, [seg[|seg| - 1]]);
      TrimRightKeeps(front);
    }
  }

  predicate IsTrimmed(p: string) { p != [] && !IsSpace(p[0]) && !IsSpace(p[|p| - 1]) }

  lemma {:induction false} TrimLeftStarts(s: string)
    ensures TrimLeft(s) != [] ==> !IsSpace(TrimLeft(s)[0])
  {
    if s != [] && IsSpace(s[0]) { TrimLeftStarts(s[1..]); }
  }

  lemma {:induction false} TrimRightIsPrefix(s: string)
    ensures TrimRight(s) <= s && (TrimRight(s) != [] ==> !IsSpace(TrimRight(s)[|TrimRight(s)| - 1]))
    decreases |s|
  {
    if s != [] && IsSpace(s[|s| - 1]) { TrimRightIsPrefix(s[..|s| - 1]); }
  }

  lemma TrimSpaceTrims(s: string)
    requires TrimSpace(s) != []
    ensures IsTrimmed(TrimSpace(s))
  {
    TrimLeftStarts(s);
    TrimRightIsPrefix(TrimLeft(s));
  }

  predicate AllSpaces(s: string) { forall i | 0 <= i < |s| :: IsSpace(s[i]) }

  lemma {:induction false} TrimLeftParts(s: string) returns (a: string)
    ensures s == a + TrimLeft(s) && AllSpaces(a)
  {
    a := [];
    if s != [] && IsSpace(s[0]) {
      var more := TrimLeftParts(s[1..]);
      a := [s[0]] + more;
      assert s == [s[0]] + s[1..];
    }
  }

  lemma {:induction false} TrimRightParts(s: string) returns (b: string)
    ensures s == TrimRight(s) + b && AllSpaces(b)
    decreases |s|
  {
    b := [];
    if s != [] && IsSpace(s[|s| - 1]) {
      var more := TrimRightParts(s[..|s| - 1]);
      b := more + [s[|s| - 1]];
      assert s == s[..|s| - 1] + [s[|s| - 1]];
    }
  }

  /** Trimming drops white space at both ends and nothing else. */
  lemma TrimDropsOnlySpaces(s: string) returns (a: string, b: string)
    ensures s == a + (TrimSpace(s) + b) && AllSpaces(a) && AllSpaces(b)
    ensures TrimSpace(s) != [] ==> IsTrimmed(TrimSpace(s))
  {
    a := TrimLeftParts(s);
    b := TrimRightParts(TrimLeft(s));
    if TrimSpace(s) != [] { TrimSpaceTrims(s); }
  }

  lemma {:induction false} PiecesOf(segs: seq<string>, p: string)
    requires forall seg | seg in segs :: NoSeparator(FRESH, seg)
    requires p in Pieces(segs)
    ensures IsTrimmed(p) && NoSeparator(FRESH, p)
  {
    if p == TrimSpace(segs[0]) && p != [] {
      TrimSpaceTrims(segs[0]);
      assert segs[0] in segs;
      TrimLeftKeeps(segs[0]);
      TrimRightKeeps(TrimLeft(segs[0]));
    } else {
      PiecesOf(segs[1..], p);
    }
  }

  /** Every statement that comes out is trimmed, non-empty, and free of unquoted, unescaped
      semicolons. */
  lemma PiecesAreStatements(query: string, p: string)
    requires p in Split(query)
    ensures IsTrimmed(p) && NoSeparator(FRESH, p)
  {
    SegmentsHaveNoSeparator([], FRESH, query);
    PiecesOf(Segments([], FRESH, query), p);
  }

  // ---------------------------------------------------------------- fixpoint

  lemma {:induction false} OneSegment(current: string, s: Scan, rest: string)
    requires NoSeparator(s, rest)
    ensures Segments(current, s, rest) == [current + rest]
    decreases |rest|
  {
    if rest == [] {
      assert current + rest == current;
    } else {
      OneSegment(current + [rest[0]], Advance(s, rest[0]), rest[1..]);
      assert current + [rest[0]] + rest[1..] == current + rest;
    }
  }

  lemma TrimmedIsSelf(p: string)
    requires IsTrimmed(p)
    ensures TrimSpace(p) == p
  {
    assert TrimLeft(p) == p && TrimRight(p) == p;
  }

  /** Splitting is a fixpoint: a statement that came out splits into just itself. */
  lemma ResplitIsIdentity(query: string, p: string)
    requires p in Split(query)
    ensures Split(p) == [p]
  {
    hide Segments, TrimSpace, NoSeparator;
    PiecesAreStatements(query, p);
    OneSegment([], FRESH, p);
    assert [] + p == p;
    TrimmedIsSelf(p);
    assert Pieces([p]) == Piece(p) + Pieces([]) == [p];
  }

  // ---------------------------------------------------------------- nothing but white space is lost

  function NoSpaces(s: string): string {
    if s == [] then [] else (if IsSpace(s[0]) then [] else [s[0]]) + NoSpaces(s[1..])
  }

  lemma {:induction false} NoSpacesConcat(a: string, b: string)
    ensures NoSpaces(a + b) == NoSpaces(a) + NoSpaces(b)
  {
    if a == [] {
      assert a + b == b;
    } else {
      assert (a + b)[1..] == a[1..] + b;
      NoSpacesConcat(a[1..], b);
      Regroup(if IsSpace(a[0]) then [] else [a[0]], NoSpaces(a[1..]), NoSpaces(b));
    }
  }

  lemma {:induction false} TrimKeepsText(s: string)
    ensures NoSpaces(TrimSpace(s)) == NoSpaces(s)
  {
    LeftKeepsText(s);
    RightKeepsText(TrimLeft(s));
  }

  lemma {:induction false} LeftKeepsText(s: string)
    ensures NoSpaces(TrimLeft(s)) == NoSpaces(s)
  {
    if s != [] && IsSpace(s[0]) { LeftKeepsText(s[1..]); }
  }

  lemma {:induction false} RightKeepsText(s: string)
    ensures NoSpaces(TrimRight(s)) == NoSpaces(s)
    decreases |s|
  {
    if s != [] && IsSpace(s[|s| - 1]) {
      var k := |s| - 1;
      RightKeepsText(s[..k]);
      assert s == s[..k] + [s[k]];
      NoSpacesConcat(s[..k], [s[k]]);
      assert [s[k]][1..] == [];
      assert NoSpaces([s[k]]) == [];
    }
  }

  function Together(texts: seq<string>): string {
    if texts == [] then [] else texts[0] + Together(texts[1..])
  }

  lemma {:induction false} PiecesKeep(segs: seq<string>)
    ensures NoSpaces(Together(Pieces(segs))) == NoSpaces(Together(segs))
  {
    if segs != [] {
      hide NoSpaces, TrimSpace;
      var piece, rest := Piece(segs[0]), Pieces(segs[1..]);
      PiecesKeep(segs[1..]);
      NoSpacesConcat(segs[0], Together(segs[1..]));
      TrimKeepsText(segs[0]);
      NoSpacesConcat(TrimSpace(segs[0]), Together(rest));
      if piece == [] {
        NoSpacesOfNothing();
        assert piece + rest == rest;
      } else {
        assert (piece + rest)[1..] == rest;
      }
    }
  }

  lemma NoSpacesOfNothing()
    ensures NoSpaces("") == ""
  {
  }

  /** The statements that come out are the segments of the query, in order, but for white space. */
  lemma StatementsKeepEverything(query: string)
    ensures NoSpaces(Together(Split(query))) == NoSpaces(Together(Segments([], FRESH, query)))
  {
    PiecesKeep(Segments([], FRESH, query));
  }
}
