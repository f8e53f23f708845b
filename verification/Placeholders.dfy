/** The placeholder text and the argument list of a multi-row INSERT, and the placeholder
    count that the PostgreSQL front end reads off a query. */
module Placeholders {
  import opened Seqs
  import opened Decimal

  /** The largest value of a Go `int`; strconv.Atoi fails beyond it. */
  const MAX_INT: nat := 0x7FFF_FFFF_FFFF_FFFF

  // ---------------------------------------------------------------- scanning for $n

  predicate StartsPlaceholder(text: string) {
    |text| >= 2 && text[0] == '$' && IsDigit(text[1])
  }

  /** containsPostgresPlaceholder (executor.go:855-862). */
  predicate HasPlaceholder(text: string) {
    text != [] && (StartsPlaceholder(text) || HasPlaceholder(text[1..]))
  }

  method ContainsPostgresPlaceholder(query: string) returns (found: bool)
    ensures found == HasPlaceholder(query)
  {
    var i := 0;
    while i < |query| - 1
      invariant 0 <= i <= |query|
      invariant HasPlaceholder(query[i..]) == HasPlaceholder(query)
    {
      assert query[i..][1..] == query[i + 1..];
      if query[i] == '$' && '0' <= query[i + 1] <= '9' {
        return true;
      }
      i := i + 1;
    }
    if i < |query| { assert query[i..][1..] == []; }
    found := false;
  }

  /** The numbers of the `$n` placeholders of `text`, in order. */
  function Numbers(text: string): seq<nat> {
    if text == [] then []
    else if StartsPlaceholder(text) then [NatValue(DigitsOf(text[1..]))] + Numbers(text[1..])
    else Numbers(text[1..])
  }

  function Largest(ns: seq<nat>): nat {
    if ns == [] then 0
    else if ns[0] <= MAX_INT && ns[0] > Largest(ns[1..]) then ns[0]
    else Largest(ns[1..])
  }

  lemma {:induction false} LargestSnoc(ns: seq<nat>, n: nat)
    ensures Largest(ns + [n]) == if n <= MAX_INT && n > Largest(ns) then n else Largest(ns)
  {
    if ns == [] {
      assert ns + [n] == [n];
    } else {
      assert (ns + [n])[1..] == ns[1..] + [n];
      LargestSnoc(ns[1..], n);
    }
  }

  /** The digit loop: `j` moves past the digits at `i`. */
  method SkipDigits(query: string, i: nat) returns (j: nat)
    requires i <= |query|
    ensures i <= j <= |query| && query[i..j] == DigitsOf(query[i..])
  {
    j := i;
    while j < |query| && '0' <= query[j] <= '9'
      invariant i <= j <= |query| && AllDigits(query[i..j])
    {
      assert query[i..j + 1] == query[i..j] + [query[j]];
      j := j + 1;
    }
    assert query[i..] == query[i..j] + query[j..];
    DigitsOfConcat(query[i..j], query[j..]);
  }

  method CountPostgresParams(query: string) returns (maxParam: nat)
    ensures maxParam == Largest(Numbers(query))
  {
    maxParam := 0;
    ghost var seen: seq<nat> := [];
    var i := 0;
    while i < |query| - 1
      invariant 0 <= i <= |query|
      invariant seen + Numbers(query[i..]) == Numbers(query) && maxParam == Largest(seen)
    {
      assert query[i..][1..] == query[i + 1..];
      if query[i] == '$' && '0' <= query[i + 1] <= '9' {
        var j := SkipDigits(query, i + 1);
        var num := NatValue(query[i + 1..j]);
        LargestSnoc(seen, num);
        Regroup(seen, [num], Numbers(query[i + 1..]));
        seen := seen + [num];
        if num <= MAX_INT && num > maxParam {  // beyond MAX_INT, Atoi fails and the number is skipped
          maxParam := num;
        }
      }
      i := i + 1;
    }
    assert Numbers(query[i..]) == [] by {
      if i < |query| { assert query[i..][1..] == []; }
    }
    assert seen + [] == seen;
  }

  // ---------------------------------------------------------------- generating the text

  function Placeholder(isPostgres: bool, k: nat): string {
    if isPostgres then "$" + NatText(k) else "?"
  }

  /** Columns `c .. p` of a row whose first placeholder has number `k`. */
  function ColsText(isPostgres: bool, k: nat, c: nat, p: nat): string
    requires c <= p
    decreases p - c
  {
    if c == p then []
    else (if c > 0 then "," else "") + (Placeholder(isPostgres, k + c) + ColsText(isPostgres, k, c + 1, p))
  }

  function RowText(isPostgres: bool, k: nat, p: nat): string {
    "(" + (ColsText(isPostgres, k, 0, p) + ")")
  }

  /** Rows `r .. n` of `p` placeholders each; the first placeholder of row `r` has number `k`. */
  function RowsText(isPostgres: bool, k: nat, r: nat, n: nat, p: nat): string
    requires r <= n
    decreases n - r
  {
    if r == n then []
    else (if r > 0 then ", " else "") + (RowText(isPostgres, k, p) + RowsText(isPostgres, k + p, r + 1, n, p))
  }

  function MultiRowText(base: string, isPostgres: bool, n: nat, p: nat): string {
    base + (" " + RowsText(isPostgres, 1, 0, n, p))
  }

  function Concat<T>(rows: seq<seq<T>>): seq<T> {
    if rows == [] then [] else rows[0] + Concat(rows[1..])
  }

  lemma {:induction false} ConcatSnoc<T>(rows: seq<seq<T>>, row: seq<T>)
    ensures Concat(rows + [row]) == Concat(rows) + row
  {
    if rows == [] {
      assert rows + [row] == [row];
      assert Concat([row]) == row + Concat([][..]);
    } else {
      assert (rows + [row])[1..] == rows[1..] + [row];
      ConcatSnoc(rows[1..], row);
    }
  }

  /** The column loop (executor.go:800-811); `next` is the running parameter index. */
  method BuildRow(text: string, isPostgres: bool, paramIndex: nat, numParams: nat) returns (r: string, next: nat)
    ensures r == text + ColsText(isPostgres, paramIndex, 0, numParams)
    ensures next == if isPostgres then paramIndex + numParams else paramIndex
  {
    r, next := text, paramIndex;
    for i := 0 to numParams
      invariant r + ColsText(isPostgres, paramIndex, i, numParams) == text + ColsText(isPostgres, paramIndex, 0, numParams)
      invariant next == if isPostgres then paramIndex + i else paramIndex
    {
      var comma := if i > 0 then "," else "";
      var written := Placeholder(isPostgres, paramIndex + i);
      var rest := ColsText(isPostgres, paramIndex, i + 1, numParams);
      Regroup(r, comma, written + rest);
      Regroup(r + comma, written, rest);
      if i > 0 {
        r := r + ",";
      } else {
        assert r + comma == r;
      }
      if isPostgres {
        r := r + ("$" + NatText(next));
        next := next + 1;
      } else {
        r := r + "?";
      }
    }
    assert r + ColsText(isPostgres, paramIndex, numParams, numParams) == r;
  }

  /** The text and argument loop of executeTrueBatchedInsertMultiRow (executor.go:777-817). */
  method BuildMultiRow<T>(base: string, isPostgres: bool, numParams: nat, params: seq<seq<T>>)
    returns (batchQuery: string, allParams: seq<T>)
    ensures batchQuery == MultiRowText(base, isPostgres, |params|, numParams)
    ensures allParams == Concat(params)
  {
    allParams := [];
    batchQuery := base + " ";
    var paramIndex := 1;
    ghost var k: nat := 1;
    Regroup(base, " ", RowsText(isPostgres, 1, 0, |params|, numParams));
    for reqIdx := 0 to |params|
      invariant isPostgres ==> paramIndex == k
      invariant batchQuery + RowsText(isPostgres, k, reqIdx, |params|, numParams) == MultiRowText(base, isPostgres, |params|, numParams)
      invariant allParams == Concat(params[..reqIdx])
    {
      var rest := RowsText(isPostgres, k + numParams, reqIdx + 1, |params|, numParams);
      var sep := if reqIdx > 0 then ", " else "";
      var cols := ColsText(isPostgres, k, 0, numParams);
      Regroup(batchQuery, sep, RowText(isPostgres, k, numParams) + rest);
      Regroup(batchQuery + sep, RowText(isPostgres, k, numParams), rest);
      Regroup(batchQuery + sep, "(", cols + ")");
      Regroup(batchQuery + sep + "(", cols, ")");
      if reqIdx > 0 {
        batchQuery := batchQuery + ", ";
      } else {
        assert batchQuery + sep == batchQuery;
      }
      batchQuery := batchQuery + "(";
      if !isPostgres { QuestionCols(paramIndex, k, 0, numParams); }
      batchQuery, paramIndex := BuildRow(batchQuery, isPostgres, paramIndex, numParams);
      batchQuery := batchQuery + ")";
      k := k + numParams;
      assert params[..reqIdx + 1] == params[..reqIdx] + [params[reqIdx]];
      ConcatSnoc(params[..reqIdx], params[reqIdx]);
      allParams := allParams + params[reqIdx];
    }
    assert batchQuery + RowsText(isPostgres, k, |params|, |params|, numParams) == batchQuery;
    assert params[..|params|] == params;
  }

  /** Question marks carry no number. */
  lemma {:induction false} QuestionCols(k: nat, l: nat, c: nat, p: nat)
    requires c <= p
    ensures ColsText(false, k, c, p) == ColsText(false, l, c, p)
    decreases p - c
  {
    if c < p { QuestionCols(k, l, c + 1, p); }
  }

  // ---------------------------------------------------------------- text and arguments agree

  function Upto(k: nat, m: nat): (ns: seq<nat>)
    ensures |ns| == m && forall i | 0 <= i < m :: ns[i] == k + i
  {
    seq(m, i requires 0 <= i < m => k + i)
  }

  lemma {:induction false} NumbersPast(a: string, b: string)
    requires !HasPlaceholder(a) && (a != [] && a[|a| - 1] == '$' ==> b == [] || !IsDigit(b[0]))
    ensures Numbers(a + b) == Numbers(b)
  {
    if a == [] {
      assert a + b == b;
    } else {
      assert (a + b)[1..] == a[1..] + b;
      NumbersPast(a[1..], b);
    }
  }

  lemma {:induction false} NoDollar(a: string)
    requires forall i | 0 <= i < |a| :: a[i] != '$'
    ensures !HasPlaceholder(a)
  {
    if a != [] { NoDollar(a[1..]); }
  }

  lemma NumbersPastPlain(a: string, b: string)
    requires forall i | 0 <= i < |a| :: a[i] != '$'
    ensures Numbers(a + b) == Numbers(b)
  {
    NoDollar(a);
    NumbersPast(a, b);
  }

  lemma OneNumber(k: nat, rest: string)
    requires rest != [] && !IsDigit(rest[0])
    ensures Numbers(Placeholder(true, k) + rest) == [k] + Numbers(rest)
  {
    hide NatText, NatValue;
    var digits := NatText(k);
    var text := Placeholder(true, k) + rest;
    Regroup("$", digits, rest);
    AfterPrefix("$", digits + rest);
    assert text[1] == (digits + rest)[0] == digits[0];
    DigitsOfConcat(digits, rest);
    NatTextValue(k);
    NumbersPastPlain(digits, rest);
  }

  lemma ColsHead(k: nat, c: nat, p: nat, rest: string)
    requires c < p
    ensures ColsText(true, k, c, p) + rest == (if c > 0 then "," else "") + (Placeholder(true, k + c) + (ColsText(true, k, c + 1, p) + rest))
  {
    var comma := if c > 0 then "," else "";
    Regroup(comma, Placeholder(true, k + c) + ColsText(true, k, c + 1, p), rest);
    Regroup(Placeholder(true, k + c), ColsText(true, k, c + 1, p), rest);
  }

  lemma ColsStart(k: nat, c: nat, p: nat, rest: string)
    requires c <= p && rest != [] && !IsDigit(rest[0])
    ensures ColsText(true, k, c, p) + rest != [] && !IsDigit((ColsText(true, k, c, p) + rest)[0])
  {
    if c == p {
      assert ColsText(true, k, c, p) + rest == rest;
    } else {
      ColsHead(k, c, p, rest);
    }
  }

  lemma {:induction false} ColsNumbers(k: nat, c: nat, p: nat, rest: string)
    requires c <= p && rest != [] && !IsDigit(rest[0])
    ensures Numbers(ColsText(true, k, c, p) + rest) == Upto(k + c, p - c) + Numbers(rest)
    decreases p - c
  {
    if c == p {
      assert ColsText(true, k, c, p) + rest == rest;
    } else {
      var tail := ColsText(true, k, c + 1, p) + rest;
      ColsHead(k, c, p, rest);
      ColsStart(k, c + 1, p, rest);
      ColsNumbers(k, c + 1, p, rest);
      NumbersPastPlain(if c > 0 then "," else "", Placeholder(true, k + c) + tail);
      OneNumber(k + c, tail);
      UptoHead(k + c, p - c, Numbers(rest));
    }
  }

  lemma UptoHead(k: nat, m: nat, rest: seq<nat>)
    requires m > 0
    ensures [k] + (Upto(k + 1, m - 1) + rest) == Upto(k, m) + rest
  {
  }

  lemma RowNumbers(k: nat, p: nat, rest: string)
    ensures Numbers(RowText(true, k, p) + rest) == Upto(k, p) + Numbers(rest)
  {
    ColsNumbers(k, 0, p, ")" + rest);
    Regroup("(", ColsText(true, k, 0, p) + ")", rest);
    Regroup(ColsText(true, k, 0, p), ")", rest);
    NumbersPastPlain("(", ColsText(true, k, 0, p) + (")" + rest));
    NumbersPastPlain(")", rest);
  }

  lemma UptoConcat(k: nat, p: nat, m: nat)
    requires m > 0
    ensures Upto(k, p) + Upto(k + p, (m - 1) * p) == Upto(k, m * p)
  {
    assert m * p == p + (m - 1) * p;
  }

  lemma NoNumbers()
    ensures Numbers([]) == []
  {
  }

  lemma {:induction false} RowsNumbers(k: nat, r: nat, n: nat, p: nat)
    requires r <= n
    ensures Numbers(RowsText(true, k, r, n, p)) == Upto(k, (n - r) * p)
    decreases n - r
  {
    hide Numbers, RowText;
    if r == n {
      NoNumbers();
      assert (n - r) * p == 0;
    } else {
      var rest := RowsText(true, k + p, r + 1, n, p);
      var sep := if r > 0 then ", " else "";
      RowsNumbers(k + p, r + 1, n, p);
      RowNumbers(k, p, rest);
      NumbersPastPlain(sep, RowText(true, k, p) + rest);
      UptoConcat(k, p, n - r);
    }
  }

  lemma {:induction false} LargestUpto(k: nat, m: nat)
    requires k > 0 && k + m <= MAX_INT + 1
    ensures Largest(Upto(k, m)) == if m == 0 then 0 else k + m - 1
    decreases m
  {
    if m > 0 {
      assert Upto(k, m)[1..] == Upto(k + 1, m - 1);
      LargestUpto(k + 1, m - 1);
    }
  }

  /** The generated PostgreSQL text numbers its placeholders 1, 2, ... row by row, so its
      count is the number of arguments. */
  lemma PlaceholdersMatchArguments<T>(base: string, p: nat, params: seq<seq<T>>)
    requires !HasPlaceholder(base) && |params| * p <= MAX_INT
    requires forall r | 0 <= r < |params| :: |params[r]| == p
    ensures Numbers(MultiRowText(base, true, |params|, p)) == Upto(1, |params| * p)
    ensures Largest(Numbers(MultiRowText(base, true, |params|, p))) == |params| * p == |Concat(params)|
  {
    var n := |params|;
    NumbersPast(base, " " + RowsText(true, 1, 0, n, p));
    NumbersPastPlain(" ", RowsText(true, 1, 0, n, p));
    RowsNumbers(1, 0, n, p);
    LargestUpto(1, n * p);
    ConcatLength(params, p);
  }

  lemma {:induction false} ConcatLength<T>(rows: seq<seq<T>>, p: nat)
    requires forall r | 0 <= r < |rows| :: |rows[r]| == p
    ensures |Concat(rows)| == |rows| * p
  {
    if rows != [] { ConcatLength(rows[1..], p); }
  }

  /** The argument with number `r * p + c + 1` is parameter `c` of request `r`. */
  lemma {:induction false} ArgumentOfPlaceholder<T>(rows: seq<seq<T>>, p: nat, r: nat, c: nat)
    requires forall i | 0 <= i < |rows| :: |rows[i]| == p
    requires r < |rows| && c < p
    ensures 0 <= r * p + c < |Concat(rows)| && Concat(rows)[r * p + c] == rows[r][c]
    decreases r
  {
    if r > 0 {
      ArgumentOfPlaceholder(rows[1..], p, r - 1, c);
      assert r * p + c == p + ((r - 1) * p + c);
    }
    ConcatLength(rows, p);
    assert rows[0] + Concat(rows[1..]) == Concat(rows);
  }
}
