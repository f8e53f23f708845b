/** The text tests by which the executor picks a strategy. SQL text is ASCII here: upper-casing
    keeps lengths. */
module SqlText {
  import opened Seqs
  import opened SplitQueries

  function UpperChar(c: char): char { if 'a' <= c <= 'z' then c - 'a' + 'A' else c }

  function Upper(s: string): (u: string)
    ensures |u| == |s|
  {
    seq(|s|, i requires 0 <= i < |s| => UpperChar(s[i]))
  }

  predicate OccursAt(s: string, w: string, i: nat) { i + |w| <= |s| && s[i..i + |w|] == w }

  /** strings.Index from position `i` on: the first occurrence, if any. */
  function IndexFrom(s: string, w: string, i: nat): (r: int)
    ensures r == -1 || (r >= i && OccursAt(s, w, r))
    ensures r == -1 ==> forall j: nat | i <= j :: !OccursAt(s, w, j)
    ensures r >= 0 ==> forall j: nat | i <= j < r :: !OccursAt(s, w, j)
    decreases |s| - i
  {
    if i + |w| > |s| then -1 else if OccursAt(s, w, i) then i else IndexFrom(s, w, i + 1)
  }

  function Index(s: string, w: string): int { IndexFrom(s, w, 0) }

  predicate Contains(s: string, w: string) { Index(s, w) >= 0 }

  function Count(s: string, c: char): nat {
    if s == [] then 0 else (if s[0] == c then 1 else 0) + Count(s[1..], c)
  }

  /** Leading comments and surrounding white space are dropped (executor.go:333-346). */
  function SkipComments(q: string): string
    decreases |q|
  {
    TrimNotLonger(q);
    var t := TrimSpace(q);
    if "/*" <= t && Index(t, "*/") >= 0 then SkipComments(t[Index(t, "*/") + 2..]) else t
  }

  lemma {:induction false} TrimLeftIsSuffix(s: string) returns (k: nat)
    ensures k <= |s| && TrimLeft(s) == s[k..]
  {
    k := 0;
    if s != [] && IsSpace(s[0]) {
      var j := TrimLeftIsSuffix(s[1..]);
      k := j + 1;
    }
  }

  lemma TrimNotLonger(s: string)
    ensures |TrimSpace(s)| <= |s|
  {
    var k := TrimLeftIsSuffix(s);
    TrimRightIsPrefix(TrimLeft(s));
  }

  predicate IsBatchableInsert(query: string) {
    var q := SkipComments(query);
    var upper := Upper(q);
    |q| > 12 && "INSERT" <= upper && Contains(upper, " VALUES") && (q[|q| - 1] == ')' || q[|q| - 1] == ' ')
  }

  predicate IsBatchableDelete(query: string) {
    var q := SkipComments(query);
    var upper := Upper(q);
    && "DELETE FROM " <= upper
    && Contains(upper, " WHERE ")
    && var clause := q[Index(upper, " WHERE ") + 7..];
       Count(clause, '=') == 1 && Count(clause, '?') == 1
  }

  /** The position after VALUES in a query, or -1 (executor.go:709-715). */
  function ValuesIndex(query: string): (i: int)
    ensures i == -1 || 6 <= i <= |query|
  {
    var pos := Index(Upper(query), "VALUES");
    if pos == -1 then -1 else pos + 6
  }

  /** The position of WHERE in a query, or -1 (executor.go:192). */
  function WhereIndex(query: string): (i: int)
    ensures i == -1 || 0 <= i <= |query| - 7
  {
    Index(Upper(query), " WHERE ")
  }

  function BeforeEquals(s: string): (r: string)
    ensures r <= s
    ensures forall i | 0 <= i < |r| :: r[i] != '='
    ensures |r| < |s| ==> s[|r|] == '='
  {
    if s == [] || s[0] == '=' then [] else [s[0]] + BeforeEquals(s[1..])
  }

  /** The key column that the executor takes out of a DELETE (executor.go:193-194). */
  function KeyColumn(query: string): string
    requires WhereIndex(query) >= 0
  {
    TrimSpace(BeforeEquals(query[WhereIndex(query) + 7..]))
  }

  /** A clause repeated, with separators (executor.go:743-749). */
  function RepeatedList(clause: string, n: nat): string {
    if n == 0 then [] else if n == 1 then clause else RepeatedList(clause, n - 1) + ", " + clause
  }

  function RepeatedText(base: string, clause: string, n: nat): string { base + " " + RepeatedList(clause, n) }

  method BuildRepeated(base: string, clause: string, n: nat) returns (text: string)
    ensures text == RepeatedText(base, clause, n)
  {
    text := base + " ";
    ghost var front := text;
    for i := 0 to n
      invariant text == front + RepeatedList(clause, i)
    {
      ghost var before := text;
      if i > 0 {
        text := text + ", ";
      }
      text := text + clause;
      assert text == front + RepeatedList(clause, i + 1) by {
        if i > 0 { assert before + ", " + clause == front + (RepeatedList(clause, i) + ", " + clause); }
      }
    }
  }

  // ---------------------------------------------------------------- first occurrences

  lemma IndexIs(s: string, w: string, k: nat)
    requires OccursAt(s, w, k) && forall j: nat | j < k :: !OccursAt(s, w, j)
    ensures Index(s, w) == k
  {
  }

  /** The first occurrence stays the first whatever follows it. */
  lemma IndexKept(s: string, t: string, w: string)
    requires Index(s, w) >= 0
    requires Index(s, w) + |w| <= |t| && t[..Index(s, w) + |w|] == s[..Index(s, w) + |w|]
    ensures Index(t, w) == Index(s, w)
  {
    hide IndexFrom;
    var k := Index(s, w);
    forall j: nat | j <= k ensures OccursAt(t, w, j) == OccursAt(s, w, j) {
      SliceOfSlice(s, 0, k + |w|, j, j + |w|);
      SliceOfSlice(t, 0, k + |w|, j, j + |w|);
    }
    IndexIs(t, w, k);
  }

  lemma UpperPrefix(s: string, k: nat)
    requires k <= |s|
    ensures Upper(s)[..k] == Upper(s[..k])
  {
  }

  /** A text with the same start up to the end of the word found has the same index. */
  lemma UpperIndexKept(s: string, t: string, w: string)
    requires Index(Upper(s), w) >= 0
    requires var k := Index(Upper(s), w) + |w|; k <= |s| && k <= |t| && Upper(t[..k]) == Upper(s[..k])
    ensures Index(Upper(t), w) == Index(Upper(s), w)
  {
    hide IndexFrom;
    var k := Index(Upper(s), w) + |w|;
    UpperPrefix(s, k);
    UpperPrefix(t, k);
    IndexKept(Upper(s), Upper(t), w);
  }

  /** What the executor writes behind VALUES is behind VALUES. */
  lemma ValuesIndexKept(query: string, rest: string)
    requires ValuesIndex(query) >= 0
    ensures ValuesIndex(query[..ValuesIndex(query)] + rest) == ValuesIndex(query)
  {
    hide IndexFrom, Upper;
    var i := ValuesIndex(query);
    AfterPrefix(query[..i], rest);
    UpperIndexKept(query, query[..i] + rest, "VALUES");
  }

  lemma UpperConcat(a: string, b: string)
    ensures Upper(a + b) == Upper(a) + Upper(b)
  {
  }

  /** What the executor writes behind WHERE is behind WHERE. */
  lemma WhereIndexKept(query: string, rest: string)
    requires WhereIndex(query) >= 0
    ensures WhereIndex(query[..WhereIndex(query)] + " WHERE " + rest) == WhereIndex(query)
  {
    hide IndexFrom;
    var w := WhereIndex(query);
    var base := query[..w];
    var t := base + " WHERE " + rest;
    assert t[..w + 7] == base + " WHERE ";
    assert query[..w + 7] == base + query[w..w + 7];
    UpperConcat(base, " WHERE ");
    UpperConcat(base, query[w..w + 7]);
    assert Upper(query[w..w + 7]) == Upper(query)[w..w + 7];
    UpperIndexKept(query, t, " WHERE ");
  }

  // ---------------------------------------------------------------- the fallback is not reached

  lemma TrimIsStretch(q: string) returns (k: nat, l: nat)
    ensures k <= l <= |q| && TrimSpace(q) == q[k..l]
  {
    k := TrimLeftIsSuffix(q);
    TrimRightIsPrefix(TrimLeft(q));
    l := k + |TrimSpace(q)|;
    SliceOfSlice(q, k, |q|, 0, l - k);
    assert q[k..|q|] == q[k..];
  }

  /** What is left after skipping comments is a stretch of the query. */
  lemma {:induction false} SkipCommentsIsStretch(q: string) returns (a: nat, b: nat)
    ensures a <= b <= |q| && SkipComments(q) == q[a..b]
    decreases |q|
  {
    hide IndexFrom, TrimSpace;
    TrimNotLonger(q);
    a, b := TrimIsStretch(q);
    var t := TrimSpace(q);
    if "/*" <= t && Index(t, "*/") >= 0 {
      var from := Index(t, "*/") + 2;
      var c, d := SkipCommentsIsStretch(t[from..]);
      assert t[from..] == t[from..|t|];
      SliceOfSlice(t, from, |t|, c, d);
      SliceOfSlice(q, a, b, from + c, from + d);
      a, b := a + from + c, a + from + d;
    }
  }

  lemma {:induction false} TrimLeftSkips(a: string, x: string)
    requires AllSpaces(a) && (x == [] || !IsSpace(x[0]))
    ensures TrimLeft(a + x) == x
  {
    if a == [] {
      assert a + x == x;
    } else {
      assert (a + x)[1..] == a[1..] + x;
      TrimLeftSkips(a[1..], x);
    }
  }

  lemma {:induction false} TrimRightSkips(x: string, b: string)
    requires AllSpaces(b) && (x == [] || !IsSpace(x[|x| - 1]))
    ensures TrimRight(x + b) == x
    decreases |b|
  {
    if b == [] {
      assert x + b == x;
    } else {
      var k := |b| - 1;
      assert (x + b)[..|x + b| - 1] == x + b[..k];
      TrimRightSkips(x, b[..k]);
    }
  }

  /** What is left after trimming is the one core between white space. */
  lemma TrimUnique(a: string, c: string, b: string)
    requires AllSpaces(a) && AllSpaces(b) && (c == [] || IsTrimmed(c))
    ensures TrimSpace(a + (c + b)) == c
  {
    if c == [] {
      assert a + (c + b) == (a + b) + [];
      TrimLeftSkips(a + b, []);
    } else {
      TrimLeftSkips(a, c + b);
      TrimRightSkips(c, b);
    }
  }

  /** Trimming the end first changes nothing. */
  lemma TrimTwice(s: string)
    ensures TrimSpace(TrimRight(s)) == TrimSpace(s)
  {
    var b' := TrimRightParts(s);
    var a, b := TrimDropsOnlySpaces(TrimRight(s));
    var c := TrimSpace(TrimRight(s));
    assert s == a + (c + (b + b'));
    TrimUnique(a, c, b + b');
  }

  lemma {:induction false} TrimRightBehind(front: string, s: string)
    requires front != [] && !IsSpace(front[|front| - 1])
    ensures TrimRight(front + s) == front + TrimRight(s)
    decreases |s|
  {
    if s == [] {
      assert front + s == front;
    } else if IsSpace(s[|s| - 1]) {
      assert (front + s)[..|front + s| - 1] == front + s[..|s| - 1];
      TrimRightBehind(front, s[..|s| - 1]);
    }
  }

  // A leading comment, which ends at the first star and slash of the query behind one another, is skipped.
  lemma CommentIsSkipped(comment: string, rest: string)
    requires "/*" <= comment && |comment| >= 3 && Index(comment, "*/") == |comment| - 2
    ensures SkipComments(comment + rest) == SkipComments(rest)
  {
    hide IndexFrom;
    var q := comment + rest;
    var k := |comment| - 2;
    assert comment[k..k + 2] == "*/";
    assert comment[|comment| - 1] == '/';
    TrimRightBehind(comment, rest);
    assert TrimLeft(q) == q;
    var t := comment + TrimRight(rest);
    AfterPrefix(comment, TrimRight(rest));
    IndexKept(comment, t, "*/");
    TrimTwice(rest);
    SkipSame(TrimRight(rest), rest);
  }

  lemma SkipSame(a: string, b: string)
    requires TrimSpace(a) == TrimSpace(b)
    ensures SkipComments(a) == SkipComments(b)
  {
  }

  lemma {:induction false} SkipCommentsTrims(q: string)
    ensures SkipComments(q) != [] ==> IsTrimmed(SkipComments(q))
    decreases |q|
  {
    hide IndexFrom;
    TrimNotLonger(q);
    var t := TrimSpace(q);
    if "/*" <= t && Index(t, "*/") >= 0 {
      SkipCommentsTrims(t[Index(t, "*/") + 2..]);
    } else if t != [] {
      TrimSpaceTrims(q);
    }
  }

  /** A batchable INSERT ends with a parenthesis: the space that the test also allows has been trimmed. */
  lemma BatchableInsertEndsInParenthesis(query: string)
    requires IsBatchableInsert(query)
    ensures SkipComments(query)[|SkipComments(query)| - 1] == ')'
  {
    hide SkipComments;
    SkipCommentsTrims(query);
  }

  /** A query of this form is dispatched as a batchable INSERT if and only if it ends so. */
  lemma PlainInsertIff(rest: string)
    requires rest != [] && !IsSpace(rest[|rest| - 1])
    ensures IsBatchableInsert("INSERT INTO T VALUES" + rest) <==> rest[|rest| - 1] == ')'
  {
    hide IndexFrom, SkipComments;
    var head := "INSERT INTO T VALUES";
    var q := head + rest;
    assert q[|q| - 1] == rest[|rest| - 1] && q[0] == 'I';
    NotSkipped(q);
    UpperConcat(head, rest);
    HeadOfInsert();
    assert OccursAt(Upper(q), " VALUES", 13) by { assert Upper(q)[13..20] == Upper(head)[13..20]; }
    assert Upper(q)[..6] == Upper(head)[..6];
  }

  lemma HeadOfInsert()
    ensures Upper("INSERT INTO T VALUES") == "INSERT INTO T VALUES"
    ensures |"INSERT INTO T VALUES"| == 20 && "INSERT INTO T VALUES"[..6] == "INSERT" && "INSERT INTO T VALUES"[13..20] == " VALUES"
  {
  }

  lemma NotSkipped(q: string)
    requires IsTrimmed(q) && q[0] != '/'
    ensures SkipComments(q) == q
  {
    assert TrimLeft(q) == q && TrimRight(q) == q;
  }

  /** An occurrence in a stretch is an occurrence in the whole text. */
  lemma OccursWithin(s: string, a: nat, b: nat, w: string, i: nat)
    requires a <= b <= |s| && OccursAt(s[a..b], w, i)
    ensures OccursAt(s, w, a + i)
  {
    SliceOfSlice(s, a, b, i, i + |w|);
  }

  lemma UpperStretch(s: string, a: nat, b: nat)
    requires a <= b <= |s|
    ensures Upper(s[a..b]) == Upper(s)[a..b]
  {
  }

  /** What the tests find behind leading comments occurs in the query. */
  lemma FoundInQuery(query: string, w: string)
    requires Contains(Upper(SkipComments(query)), w)
    ensures Contains(Upper(query), w)
  {
    hide SkipComments, IndexFrom;
    var a, b := SkipCommentsIsStretch(query);
    UpperStretch(query, a, b);
    OccursWithin(Upper(query), a, b, w, Index(Upper(query[a..b]), w));
    assert OccursAt(Upper(query), w, a + Index(Upper(query[a..b]), w));
  }

  /** A query that is dispatched as a batchable INSERT has a VALUES clause, so the executor's
      one-by-one fallback is never reached from there. */
  lemma BatchableInsertHasValues(query: string)
    requires IsBatchableInsert(query)
    ensures ValuesIndex(query) >= 0
  {
    hide SkipComments, IndexFrom;
    FoundInQuery(query, " VALUES");
    var i := Index(Upper(query), " VALUES");
    SliceOfSlice(Upper(query), i, i + 7, 1, 7);
    assert OccursAt(Upper(query), "VALUES", i + 1);
  }

  /** A query that is dispatched as a batchable DELETE has a WHERE clause where the executor looks. */
  lemma BatchableDeleteHasWhere(query: string)
    requires IsBatchableDelete(query)
    ensures WhereIndex(query) >= 0
  {
    hide SkipComments, IndexFrom;
    FoundInQuery(query, " WHERE ");
  }
}
