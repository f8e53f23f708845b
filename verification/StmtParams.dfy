/** Decoding the parameters of COM_STMT_EXECUTE (MySQL Client/Server Protocol, page "COM_STMT_EXECUTE").
    `data` is the packet after its command byte. */
module StmtParams {
  import opened Seqs
  import opened Options
  import opened Bytes
  import opened MySqlWire

  const TINY: byte := 0x01
  const SHORT: byte := 0x02
  const LONG: byte := 0x03
  const LONGLONG: byte := 0x08
  const VAR_STRING: byte := 0xFD
  const STRING: byte := 0xFE

  const TWO63: int := 0x8000_0000_0000_0000
  const TWO64: int := 0x1_0000_0000_0000_0000

  /** The Go values that come out: nil, int64, uint64 or string. */
  datatype Value = Null | Signed(v: int) | Unsigned(u: nat) | Text(s: seq<byte>)

  // ---------------------------------------------------------------- the decoder

  /** decodeLengthEncodedInt (mariadb.go:1072-1098): the value and the bytes read, 0 for failure. */
  function DecodeLenEnc(data: seq<byte>): (r: (nat, nat))
    ensures r.1 <= |data|
  {
    if data == [] then (0, 0)
    else match data[0]
         case 0xFB => (0, 1)
         case 0xFC => if |data| < 3 then (0, 0) else (FromLittleEndian(data[1..3]), 3)
         case 0xFD => if |data| < 4 then (0, 0) else (FromLittleEndian(data[1..4]), 4)
         case 0xFE => if |data| < 9 then (0, 0) else (FromLittleEndian(data[1..9]), 9)
         case _ => (data[0], 1)
  }

  datatype Step = Got(value: Value, pos: nat) | Refused | Panicked

  /** Reinterpreting `n` bytes as a signed integer. */
  function AsSigned(v: nat, n: nat): int { if 2 * v < Pow256(n) then v else v - Pow256(n) }

  function DecodeInt(data: seq<byte>, pos: nat, n: nat, unsigned: bool): (r: Step)
    requires pos <= |data|
    ensures r.Got? ==> r.pos == pos + n <= |data|
  {
    if pos + n > |data| then Refused
    else
      var v := FromLittleEndian(data[pos..pos + n]);
      Got(if unsigned then Unsigned(v) else Signed(AsSigned(v, n)), pos + n)
  }

  function ToInt64(u: nat): int { if u < TWO63 then u else u - TWO64 }

  /** Go's 64-bit addition. */
  function Wrap64(x: int): int { (x + TWO63) % TWO64 - TWO63 }

  function DecodeText(data: seq<byte>, pos: nat): (r: Step)
    requires pos <= |data|
    ensures r.Got? ==> pos <= r.pos <= |data|
  {
    var (strLen, n) := DecodeLenEnc(data[pos..]);
    if n == 0 then Refused
    else
      var start := pos + n;
      var end := Wrap64(start + ToInt64(strLen));
      if end > |data| then Refused
      else if end < start then Panicked  // slice bounds out of range
      else Got(Text(data[start..end]), end)
  }

  /** decodeParamValue (mariadb.go:1004-1069). */
  function DecodeValue(data: seq<byte>, pos: nat, fieldType: byte, unsigned: bool): (r: Step)
    requires pos <= |data|
    ensures r.Got? ==> pos <= r.pos <= |data|
  {
    if fieldType == TINY then DecodeInt(data, pos, 1, unsigned)
    else if fieldType == SHORT then DecodeInt(data, pos, 2, unsigned)
    else if fieldType == LONG then DecodeInt(data, pos, 4, unsigned)
    else if fieldType == LONGLONG then DecodeInt(data, pos, 8, unsigned)
    else if fieldType == STRING || fieldType == VAR_STRING then DecodeText(data, pos)
    else Refused
  }

  /** Bit `k` of a byte: b & (1 << k) != 0. */
  predicate Bit(b: nat, k: nat) { if k == 0 then b % 2 == 1 else Bit(b / 2, k - 1) }

  datatype Outcome = Decoded(values: seq<Value>) | Failed | Crashed

  function Prepend(v: Value, o: Outcome): Outcome {
    match o case Decoded(vs) => Decoded([v] + vs) case _ => o
  }

  /** Parameters `i .. n`, whose values start at `pos`. `types` is None if the packet has none. */
  function DecodeFrom(data: seq<byte>, n: nat, bitmap: seq<byte>, types: Option<seq<byte>>, i: nat, pos: nat): Outcome
    requires i <= n && pos <= |data| && |bitmap| == (n + 7) / 8 && (types.Some? ==> |types.value| == 2 * n)
    decreases n - i
  {
    if i == n then Decoded([])
    else if Bit(bitmap[i / 8], i % 8) then Prepend(Null, DecodeFrom(data, n, bitmap, types, i + 1, pos))
    else if types.None? then Failed
    else match DecodeValue(data, pos, types.value[2 * i], types.value[2 * i + 1] == 0x80)
         case Refused => Failed
         case Panicked => Crashed
         case Got(v, next) => Prepend(v, DecodeFrom(data, n, bitmap, types, i + 1, next))
  }

  /** decodeStmtParams (mariadb.go:931-1001) for a query with `n` placeholders. */
  function Decode(data: seq<byte>, n: nat): Outcome {
    if |data| < 10 then Failed
    else if n == 0 then Decoded([])
    else
      var bitmapLen := (n + 7) / 8;
      if |data| < 10 + bitmapLen then Failed
      else
        var bitmap := data[9..9 + bitmapLen];
        var pos := 9 + bitmapLen + 1;
        if data[9 + bitmapLen] != 1 then DecodeFrom(data, n, bitmap, None, 0, pos)
        else if pos + 2 * n > |data| then Failed
        else DecodeFrom(data, n, bitmap, Some(data[pos..pos + 2 * n]), 0, pos + 2 * n)
  }

  function PrependAll(vs: seq<Value>, o: Outcome): Outcome {
    match o case Decoded(ws) => Decoded(vs + ws) case _ => o
  }

  lemma PrependSnoc(vs: seq<Value>, v: Value, o: Outcome)
    ensures PrependAll(vs + [v], o) == PrependAll(vs, Prepend(v, o))
  {
    if o.Decoded? { assert vs + [v] + o.values == vs + ([v] + o.values); }
  }

  method DecodeStmtParams(data: seq<byte>, numParams: nat) returns (outcome: Outcome)
    ensures outcome == Decode(data, numParams)
  {
    if |data| < 10 { return Failed; }
    if numParams == 0 { return Decoded([]); }
    var bitmapLen := (numParams + 7) / 8;
    if |data| < 10 + bitmapLen { return Failed; }
    var bitmap := data[9..9 + bitmapLen];
    var pos := 9 + bitmapLen;
    var newParamsBound := data[pos];
    pos := pos + 1;
    var types: Option<seq<byte>> := None;
    if newParamsBound == 1 {
      if pos + 2 * numParams > |data| { return Failed; }
      types := Some(data[pos..pos + 2 * numParams]);
      pos := pos + 2 * numParams;
    }
    outcome := DecodeLoop(data, numParams, bitmap, types, pos);
  }

  /** The value loop (mariadb.go:970-1000). */
  method DecodeLoop(data: seq<byte>, n: nat, bitmap: seq<byte>, types: Option<seq<byte>>, start: nat) returns (outcome: Outcome)
    requires start <= |data| && |bitmap| == (n + 7) / 8 && (types.Some? ==> |types.value| == 2 * n)
    ensures outcome == DecodeFrom(data, n, bitmap, types, 0, start)
  {
    hide DecodeValue, Bit;
    var params: seq<Value> := [];
    var pos: nat := start;
    var i: nat := 0;
    while i < n
      invariant 0 <= i <= n && pos <= |data|
      invariant DecodeFrom(data, n, bitmap, types, 0, start) == PrependAll(params, DecodeFrom(data, n, bitmap, types, i, pos))
    {
      if Bit(bitmap[i / 8], i % 8) {
        PrependSnoc(params, Null, DecodeFrom(data, n, bitmap, types, i + 1, pos));
        params := params + [Null];
        i := i + 1;
        continue;
      }
      if types.None? { return Failed; }
      match DecodeValue(data, pos, types.value[2 * i], types.value[2 * i + 1] == 0x80) {
        case Refused => return Failed;
        case Panicked => return Crashed;
        case Got(v, next) =>
          PrependSnoc(params, v, DecodeFrom(data, n, bitmap, types, i + 1, next));
          params := params + [v];
          pos := next;
      }
      i := i + 1;
    }
    assert params + [] == params;
    return Decoded(params);
  }

  // ---------------------------------------------------------------- the client's encoding

  /** A parameter as the client binds it. A NULL carries whatever type its slot has. */
  datatype Param =
    | NullParam(fieldType: byte, flag: byte)
    | IntParam(width: nat, unsigned: bool, v: int)
    | TextParam(fieldType: byte, s: seq<byte>)

  ghost predicate ValidParam(p: Param) {
    match p
    case NullParam(_, _) => true
    case IntParam(w, unsigned, v) =>
      && w in {1, 2, 4, 8}
      && if unsigned then 0 <= v < Pow256(w) else -(Pow256(w) as int) <= 2 * v < Pow256(w)
    case TextParam(t, s) => t in {STRING, VAR_STRING} && |s| < Pow256(8)
  }

  function TypeCode(width: nat): byte { match width case 1 => TINY case 2 => SHORT case 4 => LONG case _ => LONGLONG }

  function TypeBytes(p: Param): (bs: seq<byte>)
    ensures |bs| == 2
  {
    match p
    case NullParam(t, f) => [t, f]
    case IntParam(w, unsigned, _) => [TypeCode(w), if unsigned then 0x80 else 0x00]
    case TextParam(t, _) => [t, 0x00]
  }

  function ValueBytes(p: Param): seq<byte>
    requires ValidParam(p)
  {
    match p
    case NullParam(_, _) => []
    case IntParam(w, _, v) => LittleEndian(if v < 0 then v + Pow256(w) else v, w)
    case TextParam(_, s) => LenEncInt(|s|) + s
  }

  function Meaning(p: Param): Value {
    match p
    case NullParam(_, _) => Null
    case IntParam(_, unsigned, v) => if unsigned && v >= 0 then Unsigned(v) else Signed(v)
    case TextParam(_, s) => Text(s)
  }

  function Meanings(ps: seq<Param>): seq<Value> {
    if ps == [] then [] else [Meaning(ps[0])] + Meanings(ps[1..])
  }

  ghost predicate ValidParams(ps: seq<Param>) { forall i | 0 <= i < |ps| :: ValidParam(ps[i]) }

  function AllValues(ps: seq<Param>): seq<byte>
    requires ValidParams(ps)
  {
    if ps == [] then [] else ValueBytes(ps[0]) + AllValues(ps[1..])
  }

  function AllTypes(ps: seq<Param>): (bs: seq<byte>)
    ensures |bs| == 2 * |ps|
  {
    if ps == [] then [] else TypeBytes(ps[0]) + AllTypes(ps[1..])
  }

  function ByteOf(bits: seq<bool>): nat {
    if bits == [] then 0 else (if bits[0] then 1 else 0) + 2 * ByteOf(bits[1..])
  }

  lemma {:induction false} ByteOfBit(bits: seq<bool>, k: nat)
    requires k < |bits|
    ensures Bit(ByteOf(bits), k) == bits[k]
    decreases k
  {
    if k > 0 { ByteOfBit(bits[1..], k - 1); }
  }

  /** The NULL flags of parameters 8b .. 8b + 8. */
  function NullBits(ps: seq<Param>, b: nat): (bits: seq<bool>)
    ensures |bits| == 8
  {
    seq(8, k requires 0 <= k < 8 => 8 * b + k < |ps| && ps[8 * b + k].NullParam?)
  }

  lemma {:induction false} ByteOfBound(bits: seq<bool>, n: nat, m: nat)
    requires |bits| == n && m >= 1 && Doubled(1, n) == m
    ensures ByteOf(bits) < m
    decreases n
  {
    if n > 0 {
      DoubledHalf(n);
      ByteOfBound(bits[1..], n - 1, Doubled(1, n - 1));
    }
  }

  function Doubled(x: nat, n: nat): nat
    decreases n
  {
    if n == 0 then x else Doubled(2 * x, n - 1)
  }

  lemma {:induction false} DoubledTwice(x: nat, n: nat)
    ensures Doubled(2 * x, n) == 2 * Doubled(x, n)
    decreases n
  {
    if n > 0 { DoubledTwice(2 * x, n - 1); }
  }

  lemma DoubledHalf(n: nat)
    requires n > 0
    ensures Doubled(1, n) == 2 * Doubled(1, n - 1) && Doubled(1, n - 1) >= 1
  {
    DoubledTwice(1, n - 1);
    DoubledPositive(1, n - 1);
  }

  lemma {:induction false} DoubledPositive(x: nat, n: nat)
    ensures Doubled(x, n) >= x
    decreases n
  {
    if n > 0 { DoubledPositive(2 * x, n - 1); }
  }

  function NullByte(ps: seq<Param>, b: nat): byte {
    assert Doubled(1, 8) == 256 by {
      assert Doubled(1, 8) == Doubled(2, 7) == Doubled(4, 6) == Doubled(8, 5) == Doubled(16, 4);
      assert Doubled(16, 4) == Doubled(32, 3) == Doubled(64, 2) == Doubled(128, 1) == 256;
    }
    ByteOfBound(NullBits(ps, b), 8, 256);
    ByteOf(NullBits(ps, b))
  }

  function NullBitmap(ps: seq<Param>): (bs: seq<byte>)
    ensures |bs| == (|ps| + 7) / 8
  {
    seq((|ps| + 7) / 8, b requires 0 <= b < (|ps| + 7) / 8 => NullByte(ps, b))
  }

  lemma BitmapBit(ps: seq<Param>, i: nat)
    requires i < |ps|
    ensures i / 8 < (|ps| + 7) / 8 && Bit(NullBitmap(ps)[i / 8], i % 8) == ps[i].NullParam?
  {
    ByteOfBit(NullBits(ps, i / 8), i % 8);
    assert 8 * (i / 8) + i % 8 == i;
  }

  /** The packet: statement id, flags and iteration count, and for statements with parameters the
      NULL bitmap, the new-params flag, the types and the values. */
  function Encode(header: seq<byte>, ps: seq<Param>): seq<byte>
    requires |header| == 9 && ValidParams(ps)
  {
    if ps == [] then header else header + (NullBitmap(ps) + ([1] + (AllTypes(ps) + AllValues(ps))))
  }

  // ---------------------------------------------------------------- decoding inverts encoding

  lemma {:induction false} TypesAt(ps: seq<Param>, i: nat)
    requires i < |ps|
    ensures AllTypes(ps)[2 * i] == TypeBytes(ps[i])[0] && AllTypes(ps)[2 * i + 1] == TypeBytes(ps[i])[1]
    decreases i
  {
    if i > 0 { TypesAt(ps[1..], i - 1); }
  }

  lemma IntRoundTrip(data: seq<byte>, pos: nat, p: Param, rest: seq<byte>)
    requires p.IntParam? && ValidParam(p) && pos <= |data| && data[pos..] == ValueBytes(p) + rest
    ensures DecodeInt(data, pos, p.width, p.unsigned) == Got(Meaning(p), pos + |ValueBytes(p)|)
  {
    hide LittleEndian, FromLittleEndian, Pow256;
    var w := p.width;
    var u := if p.v < 0 then p.v + Pow256(w) else p.v;
    LittleEndianRoundTrip(u, w);
    assert data[pos..pos + w] == data[pos..][..w] == LittleEndian(u, w);
  }

  lemma LenEncRoundTrip(v: nat, rest: seq<byte>)
    requires v < Pow256(8)
    ensures DecodeLenEnc(LenEncInt(v) + rest) == (v, |LenEncInt(v)|)
  {
    assert Pow256(1) == 256 && Pow256(2) == 0x1_0000 && Pow256(3) == 0x100_0000;
    var data := LenEncInt(v) + rest;
    var n := |LenEncInt(v)|;
    if n > 1 {
      LittleEndianRoundTrip(v, n - 1);
      assert data[1..n] == LittleEndian(v, n - 1);
    }
  }

  lemma TextRoundTrip(data: seq<byte>, pos: nat, p: Param, rest: seq<byte>)
    requires p.TextParam? && ValidParam(p) && pos <= |data| < TWO63 && data[pos..] == ValueBytes(p) + rest
    ensures DecodeText(data, pos) == Got(Meaning(p), pos + |ValueBytes(p)|)
  {
    hide DecodeLenEnc, LenEncInt, Wrap64;
    var length, s := LenEncInt(|p.s|), p.s;
    Regroup(length, s, rest);
    LenEncRoundTrip(|s|, s + rest);
    SliceAfter(data, pos, length, s, rest);
    NoWrap(pos + |length| + |s|);
  }

  lemma SliceAfter(data: seq<byte>, pos: nat, a: seq<byte>, b: seq<byte>, rest: seq<byte>)
    requires pos <= |data| && data[pos..] == a + b + rest
    ensures pos + |a| + |b| <= |data| && data[pos + |a|..pos + |a| + |b|] == b
  {
    assert data[pos + |a|..pos + |a| + |b|] == data[pos..][|a|..|a| + |b|];
  }

  lemma NoWrap(x: int)
    requires -TWO63 <= x < TWO63
    ensures Wrap64(x) == x
  {
  }

  lemma ValueRoundTrip(data: seq<byte>, pos: nat, p: Param, rest: seq<byte>)
    requires ValidParam(p) && !p.NullParam? && pos <= |data| < TWO63 && data[pos..] == ValueBytes(p) + rest
    ensures DecodeValue(data, pos, TypeBytes(p)[0], TypeBytes(p)[1] == 0x80) == Got(Meaning(p), pos + |ValueBytes(p)|)
    ensures data[pos + |ValueBytes(p)|..] == rest
  {
    assert data[pos + |ValueBytes(p)|..] == data[pos..][|ValueBytes(p)|..];
    match p
    case IntParam(_, _, _) => IntRoundTrip(data, pos, p, rest);
    case TextParam(_, _) => TextRoundTrip(data, pos, p, rest);
  }

  lemma {:induction false} DecodeFromInverts(data: seq<byte>, ps: seq<Param>, i: nat, pos: nat)
    requires ValidParams(ps) && i <= |ps| && pos <= |data| < TWO63 && data[pos..] == AllValues(ps[i..])
    ensures DecodeFrom(data, |ps|, NullBitmap(ps), Some(AllTypes(ps)), i, pos) == Decoded(Meanings(ps[i..]))
    decreases |ps| - i
  {
    hide DecodeValue, Bit, NullBitmap, ValueBytes, TypeBytes, AllTypes, AllValues, Meanings, ValidParam;
    if i == |ps| {
      NothingLeft(ps);
    } else {
      Unfolded(ps, i);
      BitmapBit(ps, i);
      if ps[i].NullParam? {
        NullHasNoBytes(ps[i]);
        assert [] + AllValues(ps[i + 1..]) == AllValues(ps[i + 1..]);
        DecodeFromInverts(data, ps, i + 1, pos);
      } else {
        TypesAt(ps, i);
        ValueRoundTrip(data, pos, ps[i], AllValues(ps[i + 1..]));
        DecodeFromInverts(data, ps, i + 1, pos + |ValueBytes(ps[i])|);
      }
    }
  }

  lemma NothingLeft(ps: seq<Param>)
    requires ValidParams(ps)
    ensures AllValues(ps[|ps|..]) == [] && Meanings(ps[|ps|..]) == []
  {
  }

  lemma Unfolded(ps: seq<Param>, i: nat)
    requires ValidParams(ps) && i < |ps|
    ensures AllValues(ps[i..]) == ValueBytes(ps[i]) + AllValues(ps[i + 1..])
    ensures Meanings(ps[i..]) == [Meaning(ps[i])] + Meanings(ps[i + 1..])
  {
    assert ps[i..][1..] == ps[i + 1..];
  }

  lemma NullHasNoBytes(p: Param)
    requires ValidParam(p) && p.NullParam?
    ensures ValueBytes(p) == [] && Meaning(p) == Null
  {
  }

  lemma PacketParts(header: seq<byte>, bitmap: seq<byte>, types: seq<byte>, values: seq<byte>)
    ensures var data := header + (bitmap + ([1] + (types + values)));
            var k := |header| + |bitmap|;
            && data[|header|..k] == bitmap && data[k] == 1
            && data[k + 1..k + 1 + |types|] == types && data[k + 1 + |types|..] == values
  {
  }

  lemma DecodeParts(header: seq<byte>, bitmap: seq<byte>, types: seq<byte>, values: seq<byte>, n: nat)
    requires |header| == 9 && n > 0 && |bitmap| == (n + 7) / 8 && |types| == 2 * n
    ensures var data := header + (bitmap + ([1] + (types + values)));
            Decode(data, n) == DecodeFrom(data, n, bitmap, Some(types), 0, 10 + |bitmap| + |types|)
  {
    hide DecodeFrom;
    PacketParts(header, bitmap, types, values);
  }

  lemma NonEmptyInverts(header: seq<byte>, ps: seq<Param>, bitmap: seq<byte>, types: seq<byte>, values: seq<byte>)
    requires |header| == 9 && ps != [] && ValidParams(ps)
    requires bitmap == NullBitmap(ps) && types == AllTypes(ps) && values == AllValues(ps)
    requires 9 + |bitmap| + 1 + |types| + |values| < TWO63
    ensures Decode(header + (bitmap + ([1] + (types + values))), |ps|) == Decoded(Meanings(ps))
  {
    hide NullBitmap, AllTypes, AllValues, Meanings, DecodeFrom, ValidParams, Decode;
    var data := header + (bitmap + ([1] + (types + values)));
    DecodeParts(header, bitmap, types, values, |ps|);
    PacketParts(header, bitmap, types, values);
    assert ps[0..] == ps;
    DecodeFromInverts(data, ps, 0, 10 + |bitmap| + |types|);
  }

  /** Decoding inverts the protocol encoding for every non-empty list of NULLs, signed and unsigned
      1-, 2-, 4- and 8-byte integers and strings. A statement without parameters is refused: its
      packet ends after nine bytes. */
  lemma DecodeInvertsEncode(header: seq<byte>, ps: seq<Param>)
    requires |header| == 9 && ValidParams(ps) && |Encode(header, ps)| < TWO63
    ensures Decode(Encode(header, ps), |ps|) == if ps == [] then Failed else Decoded(Meanings(ps))
  {
    if ps != [] {
      NonEmptyInverts(header, ps, NullBitmap(ps), AllTypes(ps), AllValues(ps));
    }
  }

  // ---------------------------------------------------------------- what a success means

  /** The width of an integer type of the protocol, 0 for other types. */
  function IntWidth(fieldType: byte): nat {
    match fieldType case 0x01 => 1 case 0x02 => 2 case 0x03 => 4 case 0x08 => 8 case _ => 0
  }

  predicate IsTextType(fieldType: byte) { fieldType == 0xFD || fieldType == 0xFE }

  /** A length prefix for `n`, canonical or not: one byte, or a marker and two, three or eight bytes. The NULL
      marker 0xFB counts as length 0. */
  predicate LengthPrefix(bs: seq<byte>, n: nat) {
    || (|bs| == 1 && bs[0] !in {0xFB, 0xFC, 0xFD, 0xFE} && bs[0] == n)
    || (bs == [0xFB] && n == 0)
    || (|bs| == 3 && bs == [0xFC] + LittleEndian(n, 2) && n < Pow256(2))
    || (|bs| == 4 && bs == [0xFD] + LittleEndian(n, 3) && n < Pow256(3))
    || (|bs| == 9 && bs == [0xFE] + LittleEndian(n, 8) && n < Pow256(8))
  }

  /** The bytes from `pos` to `next` are `v` in the protocol's encoding of the type. */
  ghost predicate Encodes(data: seq<byte>, pos: nat, next: nat, fieldType: byte, unsigned: bool, v: Value) {
    && pos <= next <= |data|
    && if IntWidth(fieldType) > 0 then
         var w := IntWidth(fieldType);
         && next == pos + w
         && if unsigned then v.Unsigned? && v.u < Pow256(w) && data[pos..next] == LittleEndian(v.u, w)
            else v.Signed? && -(Pow256(w) as int) <= 2 * v.v < Pow256(w) &&
                 data[pos..next] == LittleEndian(if v.v < 0 then v.v + Pow256(w) else v.v, w)
       else
         && IsTextType(fieldType) && v.Text?
         && TextStands(data, pos, next, v.s)
  }

  /** A length prefix for the string, and the string. */
  ghost predicate TextStands(data: seq<byte>, pos: nat, next: nat, s: seq<byte>)
    requires pos <= next <= |data|
  {
    exists k: nat :: pos <= k <= next && data[k..next] == s && LengthPrefix(data[pos..k], |s|)
  }

  lemma IntMeans(data: seq<byte>, pos: nat, w: nat, unsigned: bool, v: Value, next: nat)
    requires pos <= |data| && w in {1, 2, 4, 8}
    ensures DecodeInt(data, pos, w, unsigned) == Got(v, next) <==>
            && next == pos + w <= |data|
            && if unsigned then v.Unsigned? && v.u < Pow256(w) && data[pos..next] == LittleEndian(v.u, w)
               else v.Signed? && -(Pow256(w) as int) <= 2 * v.v < Pow256(w) &&
                    data[pos..next] == LittleEndian(if v.v < 0 then v.v + Pow256(w) else v.v, w)
  {
    hide Pow256, LittleEndian, FromLittleEndian;
    if pos + w <= |data| {
      var bs := data[pos..pos + w];
      FromLittleEndianBound(bs);
      ToLittleEndian(bs);
      if unsigned && v.Unsigned? && v.u < Pow256(w) { LittleEndianRoundTrip(v.u, w); }
      if !unsigned && v.Signed? && -(Pow256(w) as int) <= 2 * v.v < Pow256(w) {
        LittleEndianRoundTrip(if v.v < 0 then v.v + Pow256(w) else v.v, w);
      }
    }
  }

  lemma FromPrefix(bs: seq<byte>, n: nat)
    requires n < Pow256(|bs|)
    ensures bs == LittleEndian(n, |bs|) <==> FromLittleEndian(bs) == n
  {
    ToLittleEndian(bs);
    LittleEndianRoundTrip(n, |bs|);
  }

  /** The decoder reads a length exactly where a prefix for it stands. */
  lemma LenEncMeans(data: seq<byte>, k: nat, n: nat)
    requires k <= |data| && k > 0
    ensures DecodeLenEnc(data) == (n, k) <==> LengthPrefix(data[..k], n)
  {
    hide LittleEndian, FromLittleEndian, Pow256;
    var bs := data[..k];
    assert bs[0] == data[0];
    if k > 1 {
      assert bs == [bs[0]] + bs[1..] && bs[1..] == data[1..k];
      FromLittleEndianBound(bs[1..]);
      if n < Pow256(k - 1) { FromPrefix(bs[1..], n); }
      forall m: byte ensures bs == [m] + LittleEndian(n, k - 1) <==> bs[0] == m && bs[1..] == LittleEndian(n, k - 1) {
        AfterPrefix([m], LittleEndian(n, k - 1));
      }
    }
  }

  lemma TextMeans(data: seq<byte>, pos: nat, v: Value, next: nat)
    requires pos <= |data| < TWO63
    ensures DecodeText(data, pos) == Got(v, next) <==>
            && pos <= next <= |data| && v.Text?
            && TextStands(data, pos, next, v.s)
  {
    hide DecodeLenEnc, LengthPrefix, Wrap64;
    var (n, k) := DecodeLenEnc(data[pos..]);
    PanicsIff(data, pos);
    if k > 0 { PrefixAt(data, pos, pos + k, n); }
    if DecodeText(data, pos) == Got(v, next) {
      NoWrapBack(pos + k, n, next);
      assert data[pos + k..next] == v.s && LengthPrefix(data[pos..pos + k], |v.s|);
    }
    if pos <= next <= |data| && v.Text? && TextStands(data, pos, next, v.s) {
      var m: nat :| pos <= m <= next && data[m..next] == v.s && LengthPrefix(data[pos..m], |v.s|);
      PrefixNotEmpty(data[pos..m], |v.s|);
      PrefixAt(data, pos, m, |v.s|);
      NoWrap(m + |v.s|);
    }
  }

  lemma PrefixNotEmpty(bs: seq<byte>, n: nat)
    requires LengthPrefix(bs, n)
    ensures bs != []
  {
  }

  lemma PrefixAt(data: seq<byte>, pos: nat, m: nat, n: nat)
    requires pos < m <= |data|
    ensures DecodeLenEnc(data[pos..]) == (n, m - pos) <==> LengthPrefix(data[pos..m], n)
  {
    hide DecodeLenEnc, LengthPrefix;
    LenEncMeans(data[pos..], m - pos, n);
    assert data[pos..][..m - pos] == data[pos..m];
  }

  /** An end within the buffer is the start plus the length: nothing wrapped. */
  lemma NoWrapBack(start: nat, n: nat, end: nat)
    requires start + n < TWO63 && end == Wrap64(start + ToInt64(n))
    ensures end == start + n
  {
    NoWrap(start + n);
  }

  /** A value is decoded exactly where it stands in the protocol's encoding of its type; other types have
      none. */
  lemma ValueMeans(data: seq<byte>, pos: nat, fieldType: byte, unsigned: bool, v: Value, next: nat)
    requires pos <= |data| < TWO63
    ensures DecodeValue(data, pos, fieldType, unsigned) == Got(v, next) <==> Encodes(data, pos, next, fieldType, unsigned, v)
  {
    hide DecodeInt, DecodeText, LittleEndian, LengthPrefix, Pow256;
    if IntWidth(fieldType) > 0 {
      IntMeans(data, pos, IntWidth(fieldType), unsigned, v, next);
    } else if IsTextType(fieldType) {
      TextMeans(data, pos, v, next);
    }
  }

  lemma OtherTypeRefused(data: seq<byte>, pos: nat, fieldType: byte, unsigned: bool)
    requires pos <= |data| && IntWidth(fieldType) == 0 && !IsTextType(fieldType)
    ensures DecodeValue(data, pos, fieldType, unsigned) == Refused
  {
  }

  /** `vs` is what parameters `i .. n` say: NULL exactly where the bitmap says so, and elsewhere the values
      that stand one behind the other from `pos` on, in the encodings of their types. */
  ghost predicate Says(data: seq<byte>, n: nat, bitmap: seq<byte>, types: Option<seq<byte>>, i: nat, pos: nat, vs: seq<Value>)
    requires i <= n && pos <= |data| && |bitmap| == (n + 7) / 8 && (types.Some? ==> |types.value| == 2 * n)
    decreases n - i
  {
    if i == n then vs == []
    else if vs == [] then false
    else if Bit(bitmap[i / 8], i % 8) then vs[0] == Null && Says(data, n, bitmap, types, i + 1, pos, vs[1..])
    else if types.None? then false
    else
      var t, u := types.value[2 * i], types.value[2 * i + 1] == 0x80;
      exists next: nat :: next <= |data| && Encodes(data, pos, next, t, u, vs[0]) && Says(data, n, bitmap, types, i + 1, next, vs[1..])
  }

  lemma {:induction false} LoopMeans(data: seq<byte>, n: nat, bitmap: seq<byte>, types: Option<seq<byte>>, i: nat, pos: nat, vs: seq<Value>)
    requires i <= n && pos <= |data| < TWO63 && |bitmap| == (n + 7) / 8 && (types.Some? ==> |types.value| == 2 * n)
    ensures DecodeFrom(data, n, bitmap, types, i, pos) == Decoded(vs) <==> Says(data, n, bitmap, types, i, pos, vs)
    decreases n - i
  {
    hide DecodeValue, Bit, Encodes;
    if i < n && vs != [] {
      var rest := vs[1..];
      assert vs == [vs[0]] + rest;
      if Bit(bitmap[i / 8], i % 8) {
        LoopMeans(data, n, bitmap, types, i + 1, pos, rest);
        PrependMeans(Null, DecodeFrom(data, n, bitmap, types, i + 1, pos), vs);
      } else if types.Some? {
        var t, u := types.value[2 * i], types.value[2 * i + 1] == 0x80;
        var step := DecodeValue(data, pos, t, u);
        if step.Got? {
          ValueMeans(data, pos, t, u, step.value, step.pos);
          LoopMeans(data, n, bitmap, types, i + 1, step.pos, rest);
          PrependMeans(step.value, DecodeFrom(data, n, bitmap, types, i + 1, step.pos), vs);
        }
        forall next: nat | Encodes(data, pos, next, t, u, vs[0]) ensures step == Got(vs[0], next) {
          ValueMeans(data, pos, t, u, vs[0], next);
        }
      }
    } else if i < n {
      NeverEmpty(data, n, bitmap, types, i, pos);
    }
  }

  lemma PrependMeans(v: Value, o: Outcome, vs: seq<Value>)
    requires vs != []
    ensures Prepend(v, o) == Decoded(vs) <==> vs[0] == v && o == Decoded(vs[1..])
  {
    if o.Decoded? { assert ([v] + o.values)[1..] == o.values; }
    assert vs == [vs[0]] + vs[1..];
  }

  lemma NeverEmpty(data: seq<byte>, n: nat, bitmap: seq<byte>, types: Option<seq<byte>>, i: nat, pos: nat)
    requires i < n && pos <= |data| && |bitmap| == (n + 7) / 8 && (types.Some? ==> |types.value| == 2 * n)
    ensures DecodeFrom(data, n, bitmap, types, i, pos) != Decoded([])
  {
    hide DecodeValue, Bit;
  }

  /** Decoding a packet for `n` parameters gives `vs` exactly when the packet has its bitmap, has its types or
      says that it has none, and says `vs`. */
  lemma DecodeMeans(data: seq<byte>, n: nat, vs: seq<Value>)
    requires n > 0 && |data| < TWO63
    ensures var k := 9 + (n + 7) / 8;
            Decode(data, n) == Decoded(vs) <==>
            && k < |data|
            && if data[k] != 1 then Says(data, n, data[9..k], None, 0, k + 1, vs)
               else k + 1 + 2 * n <= |data| && Says(data, n, data[9..k], Some(data[k + 1..k + 1 + 2 * n]), 0, k + 1 + 2 * n, vs)
  {
    hide DecodeFrom, Says;
    var k := 9 + (n + 7) / 8;
    if k < |data| {
      if data[k] != 1 {
        LoopMeans(data, n, data[9..k], None, 0, k + 1, vs);
      } else if k + 1 + 2 * n <= |data| {
        LoopMeans(data, n, data[9..k], Some(data[k + 1..k + 1 + 2 * n]), 0, k + 1 + 2 * n, vs);
      }
    }
  }

  /** So a success has as many values as parameters, NULL exactly at the set bits, and a known type at every
      other: any other type, or missing types, and the packet is not decoded. */
  lemma {:induction false} SaysEach(data: seq<byte>, n: nat, bitmap: seq<byte>, types: Option<seq<byte>>, i: nat, pos: nat, vs: seq<Value>, j: nat)
    requires i <= j < n && pos <= |data| && |bitmap| == (n + 7) / 8 && (types.Some? ==> |types.value| == 2 * n)
    requires Says(data, n, bitmap, types, i, pos, vs)
    ensures |vs| == n - i && (vs[j - i] == Null <==> Bit(bitmap[j / 8], j % 8))
    ensures !Bit(bitmap[j / 8], j % 8) ==> types.Some? && (IntWidth(types.value[2 * j]) > 0 || IsTextType(types.value[2 * j]))
    decreases n - i
  {
    hide Bit, LittleEndian, LengthPrefix, Pow256;
    if Bit(bitmap[i / 8], i % 8) {
      if i < j { SaysEach(data, n, bitmap, types, i + 1, pos, vs[1..], j); } else { SaysLength(data, n, bitmap, types, i + 1, pos, vs[1..]); }
    } else {
      var t, u := types.value[2 * i], types.value[2 * i + 1] == 0x80;
      var next: nat :| next <= |data| && Encodes(data, pos, next, t, u, vs[0]) && Says(data, n, bitmap, types, i + 1, next, vs[1..]);
      if i < j { SaysEach(data, n, bitmap, types, i + 1, next, vs[1..], j); } else { SaysLength(data, n, bitmap, types, i + 1, next, vs[1..]); }
    }
  }

  lemma {:induction false} SaysLength(data: seq<byte>, n: nat, bitmap: seq<byte>, types: Option<seq<byte>>, i: nat, pos: nat, vs: seq<Value>)
    requires i <= n && pos <= |data| && |bitmap| == (n + 7) / 8 && (types.Some? ==> |types.value| == 2 * n)
    requires Says(data, n, bitmap, types, i, pos, vs)
    ensures |vs| == n - i
    decreases n - i
  {
    hide Bit, Encodes;
    if i < n {
      if Bit(bitmap[i / 8], i % 8) {
        SaysLength(data, n, bitmap, types, i + 1, pos, vs[1..]);
      } else {
        var t, u := types.value[2 * i], types.value[2 * i + 1] == 0x80;
        var next: nat :| next <= |data| && Encodes(data, pos, next, t, u, vs[0]) && Says(data, n, bitmap, types, i + 1, next, vs[1..]);
        SaysLength(data, n, bitmap, types, i + 1, next, vs[1..]);
      }
    }
  }

  /** What a packet that is decoded looks like. */
  lemma DecodedIsTyped(data: seq<byte>, n: nat, j: nat, vs: seq<Value>)
    requires j < n && |data| < TWO63 && Decode(data, n) == Decoded(vs)
    ensures var k := 9 + (n + 7) / 8;
            && k < |data| && |vs| == n && (vs[j] == Null <==> Bit(data[9..k][j / 8], j % 8))
            && (vs[j] != Null ==> HasTypes(data, n) && (IntWidth(data[k + 1 + 2 * j]) > 0 || IsTextType(data[k + 1 + 2 * j])))
  {
    hide Says, Decode, Bit;
    var k := 9 + (n + 7) / 8;
    DecodeMeans(data, n, vs);
    if data[k] != 1 {
      SaysEach(data, n, data[9..k], None, 0, k + 1, vs, j);
    } else {
      SaysEach(data, n, data[9..k], Some(data[k + 1..k + 1 + 2 * n]), 0, k + 1 + 2 * n, vs, j);
    }
  }

  // ---------------------------------------------------------------- the cursor

  /** A string value makes the decoder panic exactly when its length prefix carries the cursor past
      2^63 - 1; otherwise the cursor stays within the buffer (see DecodeValue). */
  lemma PanicsIff(data: seq<byte>, pos: nat)
    requires pos <= |data| < TWO63
    ensures DecodeText(data, pos).Panicked? <==> Overflows(data, pos)
  {
    var (strLen, n) := DecodeLenEnc(data[pos..]);
    LenEncBound(data[pos..]);
    var start := pos + n;
    if strLen >= TWO63 {
      NoWrap(start + ToInt64(strLen));
    } else if start + strLen < TWO63 {
      NoWrap(start + strLen);
    } else {
      assert Wrap64(start + strLen) == start + strLen - TWO64;
    }
  }

  /** The length prefix at `pos` carries the cursor past 2^63 - 1. */
  predicate Overflows(data: seq<byte>, pos: nat)
    requires pos <= |data|
  {
    var (strLen, n) := DecodeLenEnc(data[pos..]);
    n > 0 && pos + n + strLen >= TWO63
  }

  /** Where the value of parameter `j` starts, if parameters `i .. j` decode. */
  function StartOf(data: seq<byte>, n: nat, bitmap: seq<byte>, types: seq<byte>, i: nat, pos: nat, j: nat): (r: Option<nat>)
    requires i <= j < n && pos <= |data| && |bitmap| == (n + 7) / 8 && |types| == 2 * n
    ensures r.Some? ==> pos <= r.value <= |data|
    decreases j - i
  {
    if i == j then Some(pos)
    else if Bit(bitmap[i / 8], i % 8) then StartOf(data, n, bitmap, types, i + 1, pos, j)
    else match DecodeValue(data, pos, types[2 * i], types[2 * i + 1] == 0x80)
         case Got(_, next) => StartOf(data, n, bitmap, types, i + 1, next, j)
         case _ => None
  }

  /** Parameter `j` is reached, is a string, and its length prefix overflows the cursor. */
  predicate OverflowsAt(data: seq<byte>, n: nat, bitmap: seq<byte>, types: seq<byte>, i: nat, pos: nat, j: nat)
    requires i <= j < n && pos <= |data| && |bitmap| == (n + 7) / 8 && |types| == 2 * n
  {
    && !Bit(bitmap[j / 8], j % 8) && (types[2 * j] == STRING || types[2 * j] == VAR_STRING)
    && StartOf(data, n, bitmap, types, i, pos, j).Some?
    && Overflows(data, StartOf(data, n, bitmap, types, i, pos, j).value)
  }

  ghost predicate SomeOverflow(data: seq<byte>, n: nat, bitmap: seq<byte>, types: seq<byte>, i: nat, pos: nat)
    requires i <= n && pos <= |data| && |bitmap| == (n + 7) / 8 && |types| == 2 * n
  {
    exists j: nat :: i <= j < n && OverflowsAt(data, n, bitmap, types, i, pos, j)
  }

  lemma ValuePanicsIff(data: seq<byte>, pos: nat, fieldType: byte, unsigned: bool)
    requires pos <= |data| < TWO63
    ensures DecodeValue(data, pos, fieldType, unsigned).Panicked? <==>
            (fieldType == STRING || fieldType == VAR_STRING) && Overflows(data, pos)
  {
    hide DecodeText, DecodeLenEnc;
    PanicsIff(data, pos);
  }

  lemma {:induction false} LoopCrashesIff(data: seq<byte>, n: nat, bitmap: seq<byte>, types: seq<byte>, i: nat, pos: nat)
    requires i <= n && pos <= |data| < TWO63 && |bitmap| == (n + 7) / 8 && |types| == 2 * n
    ensures DecodeFrom(data, n, bitmap, Some(types), i, pos).Crashed? <==>
            SomeOverflow(data, n, bitmap, types, i, pos)
    decreases n - i
  {
    hide DecodeValue, Bit, Overflows;
    if i < n {
      if Bit(bitmap[i / 8], i % 8) {
        LoopCrashesIff(data, n, bitmap, types, i + 1, pos);
        LaterOverflow(data, n, bitmap, types, i, pos, pos);
      } else {
        ValuePanicsIff(data, pos, types[2 * i], types[2 * i + 1] == 0x80);
        match DecodeValue(data, pos, types[2 * i], types[2 * i + 1] == 0x80)
        case Got(_, next) =>
          LoopCrashesIff(data, n, bitmap, types, i + 1, next);
          LaterOverflow(data, n, bitmap, types, i, pos, next);
        case Refused =>
        case Panicked => assert OverflowsAt(data, n, bitmap, types, i, pos, i);
      }
    }
  }

  /** If parameter `i` does not overflow and the next one starts at `next`, an overflow is a later one. */
  lemma LaterOverflow(data: seq<byte>, n: nat, bitmap: seq<byte>, types: seq<byte>, i: nat, pos: nat, next: nat)
    requires i < n && pos <= |data| && next <= |data| && |bitmap| == (n + 7) / 8 && |types| == 2 * n
    requires !OverflowsAt(data, n, bitmap, types, i, pos, i)
    requires forall j: nat | i < j < n ::
               StartOf(data, n, bitmap, types, i, pos, j) == StartOf(data, n, bitmap, types, i + 1, next, j)
    ensures SomeOverflow(data, n, bitmap, types, i, pos) <==> SomeOverflow(data, n, bitmap, types, i + 1, next)
  {
    hide StartOf, Bit, Overflows;
    if SomeOverflow(data, n, bitmap, types, i, pos) {
      var j: nat :| i <= j < n && OverflowsAt(data, n, bitmap, types, i, pos, j);
      assert j != i;
      assert OverflowsAt(data, n, bitmap, types, i + 1, next, j);
    }
    var k := i + 1;
    if SomeOverflow(data, n, bitmap, types, k, next) {
      var j: nat :| k <= j < n && OverflowsAt(data, n, bitmap, types, k, next, j);
      assert OverflowsAt(data, n, bitmap, types, i, pos, j);
    }
  }

  /** The packet has its bitmap, says that types follow, and has them. */
  predicate HasTypes(data: seq<byte>, n: nat) {
    var k := 9 + (n + 7) / 8;
    n > 0 && k + 1 + 2 * n <= |data| && data[k] == 1
  }

  /** Decoding a packet panics exactly when the packet has its types and some string parameter that
      the decoder reaches overflows the cursor. */
  lemma DecodeCrashesIff(data: seq<byte>, n: nat)
    requires |data| < TWO63
    ensures Decode(data, n).Crashed? <==>
            && HasTypes(data, n)
            && var k := 9 + (n + 7) / 8;
               SomeOverflow(data, n, data[9..k], data[k + 1..k + 1 + 2 * n], 0, k + 1 + 2 * n)
  {
    hide DecodeFrom, SomeOverflow;
    var k := 9 + (n + 7) / 8;
    if HasTypes(data, n) {
      LoopCrashesIff(data, n, data[9..k], data[k + 1..k + 1 + 2 * n], 0, k + 1 + 2 * n);
    } else if n > 0 && k < |data| && data[k] != 1 {
      UntypedNeverCrashes(data, n, data[9..k], 0, k + 1);
    }
  }

  /** A packet with one string parameter whose length prefix is 2^64 - 1. */
  function HugeLength(header: seq<byte>): seq<byte> {
    header + ([0] + ([1] + ([STRING, 0] + ([0xFE] + EIGHT_FF))))
  }

  const EIGHT_FF: seq<byte> := [0xFF, 0xFF, 0xFF, 0xFF, 0xFF, 0xFF, 0xFF, 0xFF]

  lemma HugeLengthCrashes(header: seq<byte>)
    requires |header| == 9
    ensures Decode(HugeLength(header), 1) == Crashed
  {
    hide DecodeText, Bit;
    var data := HugeLength(header);
    assert data[9] == 0 && data[10] == 1 && data[11] == STRING && data[12] == 0 && |data| == 22;
    assert data[9..10] == [0] && data[11..13] == [STRING, 0] && data[13..] == [0xFE] + EIGHT_FF;
    NotNull();
    HugeLengthRead();
    PanicsIff(data, 13);
    assert DecodeFrom(data, 1, [0], Some([STRING, 0]), 0, 13) == Crashed;
  }

  lemma NotNull()
    ensures !Bit(0, 0)
  {
  }

  lemma HugeLengthRead()
    ensures DecodeLenEnc([0xFE] + EIGHT_FF) == (0xFFFF_FFFF_FFFF_FFFF, 9)
  {
    hide FromLittleEndian, Pow256, Ones;
    AfterPrefix([0xFE], EIGHT_FF);
    assert ([0xFE] + EIGHT_FF)[1..9] == EIGHT_FF;
    AllOnes(8);
    EightOnes();
    EightBytes();
  }

  lemma EightOnes()
    ensures Ones(8) == EIGHT_FF
  {
    assert Ones(2) == [0xFF] + Ones(1) == [0xFF, 0xFF];
    assert Ones(4) == [0xFF] + Ones(3) == [0xFF, 0xFF, 0xFF, 0xFF];
    assert Ones(6) == [0xFF] + Ones(5) == [0xFF, 0xFF, 0xFF, 0xFF, 0xFF, 0xFF];
  }

  lemma EightBytes()
    ensures Pow256(8) == TWO64
  {
    assert Pow256(1) == 256 && Pow256(2) == 0x1_0000 && Pow256(3) == 0x100_0000 && Pow256(4) == 0x1_0000_0000;
    assert Pow256(5) == 0x100_0000_0000 && Pow256(6) == 0x1_0000_0000_0000 && Pow256(7) == 0x100_0000_0000_0000;
  }

  function Ones(n: nat): seq<byte> { if n == 0 then [] else [0xFF] + Ones(n - 1) }

  lemma {:induction false} AllOnes(n: nat)
    ensures FromLittleEndian(Ones(n)) == Pow256(n) - 1
  {
    if n > 0 { AllOnes(n - 1); }
  }

  lemma {:induction false} UntypedNeverCrashes(data: seq<byte>, n: nat, bitmap: seq<byte>, i: nat, pos: nat)
    requires i <= n && pos <= |data| && |bitmap| == (n + 7) / 8
    ensures !DecodeFrom(data, n, bitmap, None, i, pos).Crashed?
    decreases n - i
  {
    if i < n { UntypedNeverCrashes(data, n, bitmap, i + 1, pos); }
  }

  /** For a query without placeholders, a packet of ten bytes or more has no values to decode. */
  lemma NoParameters(data: seq<byte>)
    ensures Decode(data, 0) == if |data| >= 10 then Decoded([]) else Failed
  {
  }

  // ---------------------------------------------------------------- what is refused

  lemma {:induction false} ReachedFails(data: seq<byte>, n: nat, bitmap: seq<byte>, types: seq<byte>, i: nat, pos: nat, j: nat)
    requires i <= j < n && pos <= |data| && |bitmap| == (n + 7) / 8 && |types| == 2 * n
    requires StartOf(data, n, bitmap, types, i, pos, j).Some? && !Bit(bitmap[j / 8], j % 8)
    requires IntWidth(types[2 * j]) == 0 && !IsTextType(types[2 * j])
    ensures DecodeFrom(data, n, bitmap, Some(types), i, pos) == Failed
    decreases j - i
  {
    hide DecodeValue, Bit;
    if i == j {
      OtherTypeRefused(data, pos, types[2 * i], types[2 * i + 1] == 0x80);
    } else if Bit(bitmap[i / 8], i % 8) {
      ReachedFails(data, n, bitmap, types, i + 1, pos, j);
    } else {
      match DecodeValue(data, pos, types[2 * i], types[2 * i + 1] == 0x80)
      case Got(_, next) => ReachedFails(data, n, bitmap, types, i + 1, next, j);
    }
  }

  /** A parameter that is not NULL and has another type than the six is refused where the decoder reaches it. */
  lemma OtherTypeFails(data: seq<byte>, n: nat, j: nat)
    requires j < n && HasTypes(data, n)
    requires var k := 9 + (n + 7) / 8;
             && StartOf(data, n, data[9..k], data[k + 1..k + 1 + 2 * n], 0, k + 1 + 2 * n, j).Some?
             && !Bit(data[9..k][j / 8], j % 8) && IntWidth(data[k + 1 + 2 * j]) == 0 && !IsTextType(data[k + 1 + 2 * j])
    ensures Decode(data, n) == Failed
  {
    hide DecodeFrom, StartOf, Bit;
    var k := 9 + (n + 7) / 8;
    ReachedFails(data, n, data[9..k], data[k + 1..k + 1 + 2 * n], 0, k + 1 + 2 * n, j);
  }

  /** Without types, a packet with a parameter that is not NULL is refused. */
  lemma UntypedFails(data: seq<byte>, n: nat, j: nat)
    requires j < n && |data| < TWO63
    requires var k := 9 + (n + 7) / 8; k < |data| && data[k] != 1 && !Bit(data[9..k][j / 8], j % 8)
    ensures Decode(data, n) == Failed
  {
    hide Says, Bit, DecodeFrom;
    var k := 9 + (n + 7) / 8;
    UntypedNeverCrashes(data, n, data[9..k], 0, k + 1);
    if Decode(data, n).Decoded? {
      var vs := Decode(data, n).values;
      DecodeMeans(data, n, vs);
      SaysEach(data, n, data[9..k], None, 0, k + 1, vs, j);
    }
  }

  lemma LenEncBound(data: seq<byte>)
    ensures DecodeLenEnc(data).0 < TWO64
  {
    assert Pow256(1) == 256 && Pow256(2) == 0x1_0000 && Pow256(3) == 0x100_0000 && Pow256(4) == 0x1_0000_0000;
    assert Pow256(5) == 0x100_0000_0000 && Pow256(6) == 0x1_0000_0000_0000 && Pow256(7) == 0x100_0000_0000_0000 && Pow256(8) == TWO64;
    var n := DecodeLenEnc(data).1;
    if n > 1 { FromLittleEndianBound(data[1..n]); }
  }
}
