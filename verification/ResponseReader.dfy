/** Where the proxy stops reading a backend's response. The text reader serves COM_QUERY, the
    binary reader COM_STMT_EXECUTE; both scan packets until they believe the response is
    complete (MySQL Client/Server Protocol, pages "Text Resultset", "Binary Resultset" and
    "COM_QUERY Response"; EOF packets are in use). */
module ResponseReader {
  import opened Seqs
  import opened Options
  import opened Bytes
  import opened MySqlWire

  // ---------------------------------------------------------------- the readers

  datatype Verdict = Stop | Go(eofCount: nat) | Crash

  function AfterStatus(low: byte): Verdict { if MoreResults(low) then Go(0) else Stop }

  /** What a reader does after one packet. `first` says that it is the first one read. */
  function Judge(binary: bool, first: bool, eofCount: nat, packet: seq<byte>): Verdict {
    if packet == [] then Go(eofCount)
    else match packet[0]
         case 0x00 =>
           if (if binary then eofCount == 1 else eofCount != 0) then Go(eofCount)
           else (match OkStatus(packet)
                 case Panics => Crash
                 case Missing => Stop
                 case At(offset) => AfterStatus(packet[offset]))
         case 0xFF => Stop
         case 0xFB => if binary && first then Stop else Go(eofCount)
         case 0xFE =>
           if |packet| >= 9 then Go(eofCount)
           else if eofCount + 1 < 2 then Go(eofCount + 1)
           else if |packet| >= 5 then AfterStatus(packet[3]) else Stop
         case _ => Go(eofCount)
  }

  /** `Complete(k)`: the reader stops after `k` bytes. `Exhausted`: it waits for more. */
  datatype Outcome = Complete(k: nat) | Exhausted | Panicked

  /** How far the reader goes, from position `pos` of the stream on. */
  function ReadFrom(binary: bool, first: bool, eofCount: nat, stream: seq<byte>, pos: nat): (o: Outcome)
    requires pos <= |stream|
    ensures o.Complete? ==> pos + 4 <= o.k <= |stream|
    decreases |stream| - pos
  {
    if pos + 4 > |stream| then Exhausted
    else
      var n := FromLittleEndian(stream[pos..pos + 3]);
      if pos + 4 + n > |stream| then Exhausted
      else match Judge(binary, first, eofCount, stream[pos + 4..pos + 4 + n])
           case Stop => Complete(pos + 4 + n)
           case Crash => Panicked
           case Go(e) => ReadFrom(binary, false, e, stream, pos + 4 + n)
  }

  lemma SliceAt(s: seq<byte>, pos: nat, a: nat, b: nat)
    requires a <= b && pos + b <= |s|
    ensures s[pos..][a..b] == s[pos + a..pos + b] && s[pos..][b..] == s[pos + b..]
  {
  }

  /** The header rewritten from its own length and number is the header. */
  lemma Rebuilt(s: seq<byte>, pos: nat, length: nat)
    requires pos + 4 + length <= |s| && length == FromLittleEndian(s[pos..pos + 3])
    ensures s[..pos] + (LittleEndian(length, 3) + [s[pos + 3]] + s[pos + 4..pos + 4 + length]) == s[..pos + 4 + length]
  {
    ToLittleEndian(s[pos..pos + 3]);
  }

  /** execBackendQuery and execBackendResponse after the command is sent (mariadb.go:1451-1511,
      mariadb.go:1208-1273). The response is rebuilt from the packets read. */
  method ReadResponse(binary: bool, stream: seq<byte>) returns (outcome: Outcome, response: seq<byte>)
    ensures outcome == ReadFrom(binary, true, 0, stream, 0)
    ensures outcome.Complete? ==> response == stream[..outcome.k]
  {
    hide Judge, FromLittleEndian, LittleEndian;
    response := [];
    var pos, eofCount, packetCount := 0, 0, 0;
    while true
      invariant 0 <= pos <= |stream| && response == stream[..pos] && packetCount >= 0
      invariant ReadFrom(binary, true, 0, stream, 0) == ReadFrom(binary, packetCount == 0, eofCount, stream, pos)
      decreases |stream| - pos
    {
      if pos + 4 > |stream| {
        return Exhausted, response;
      }
      var length := FromLittleEndian(stream[pos..pos + 3]);
      var number := stream[pos + 3];
      if pos + 4 + length > |stream| {
        return Exhausted, response;
      }
      var packet := stream[pos + 4..pos + 4 + length];
      Rebuilt(stream, pos, length);
      packetCount := packetCount + 1;
      response := response + (LittleEndian(length, 3) + [number] + packet);
      var verdict := Judge(binary, packetCount == 1, eofCount, packet);
      pos := pos + 4 + length;
      match verdict {
        case Stop => return Complete(pos), response;
        case Crash => return Panicked, response;
        case Go(e) => eofCount := e;
      }
    }
  }

  // ---------------------------------------------------------------- well-formed responses

  /** A value of a text row: NULL is the byte 0xFB, a string has its length in front. */
  function TextField(f: Option<seq<byte>>): (bs: seq<byte>)
    requires f.Some? ==> |f.value| < Pow256(8)
    ensures bs != [] && bs[0] != 0xFF && (bs[0] == 0xFE ==> |bs| >= 9)
  {
    match f case None => [0xFB] case Some(s) => LenEncInt(|s|) + s
  }

  function TextFields(row: seq<Option<seq<byte>>>): (bs: seq<byte>)
    requires forall i | 0 <= i < |row| :: row[i].Some? ==> |row[i].value| < Pow256(8)
    ensures row != [] ==> bs != [] && bs[0] != 0xFF && (bs[0] == 0xFE ==> |bs| >= 9)
  {
    if row == [] then [] else TextField(row[0]) + TextFields(row[1..])
  }

  datatype Row = TextRow(fields: seq<Option<seq<byte>>>) | BinaryRow(data: seq<byte>)

  ghost predicate ValidRow(binary: bool, row: Row) {
    match row
    case TextRow(fields) => !binary && fields != [] && forall i | 0 <= i < |fields| :: fields[i].Some? ==> |fields[i].value| < Pow256(8)
    case BinaryRow(_) => binary
  }

  function RowPayload(ghost binary: bool, row: Row): seq<byte>
    requires ValidRow(binary, row)
  {
    match row case TextRow(fields) => TextFields(fields) case BinaryRow(data) => [0x00] + data
  }

  datatype Ending = EofEnding(eof: Eof) | ErrEnding(err: seq<byte>)

  /** One reply of a response. A column definition starts with the catalog name "def". */
  datatype Reply =
    | OkReply(ok: Ok)
    | ErrReply(err: seq<byte>)
    | RowsReply(columnCount: nat, columns: seq<seq<byte>>, middle: Eof, rows: seq<Row>, ending: Ending)
    | InfileReply(file: seq<byte>)

  ghost predicate ValidReply(binary: bool, r: Reply) {
    match r
    case OkReply(ok) => ValidOk(ok)
    case ErrReply(_) => true
    case RowsReply(count, _, _, rows, _) => 0 < count < Pow256(8) && forall i | 0 <= i < |rows| :: ValidRow(binary, rows[i])
    case InfileReply(_) => true
  }

  predicate SaysMore(r: Reply) {
    match r
    case OkReply(ok) => MoreResults(ok.statusLow)
    case RowsReply(_, _, _, _, EofEnding(eof)) => MoreResults(eof.statusLow)
    case _ => false
  }

  function EndingPayload(e: Ending): seq<byte> {
    match e case EofEnding(eof) => EofPayload(eof) case ErrEnding(err) => [0xFF] + err
  }

  function ColumnPayloads(columns: seq<seq<byte>>): seq<seq<byte>> {
    if columns == [] then [] else [[3] + columns[0]] + ColumnPayloads(columns[1..])
  }

  function RowPayloads(ghost binary: bool, rows: seq<Row>): seq<seq<byte>>
    requires forall i | 0 <= i < |rows| :: ValidRow(binary, rows[i])
  {
    if rows == [] then [] else [RowPayload(binary, rows[0])] + RowPayloads(binary, rows[1..])
  }

  function ReplyPayloads(ghost binary: bool, r: Reply): seq<seq<byte>>
    requires ValidReply(binary, r)
  {
    match r
    case OkReply(ok) => [OkPayload(ok)]
    case ErrReply(err) => [[0xFF] + err]
    case RowsReply(count, columns, middle, rows, ending) =>
      [LenEncInt(count)] + (ColumnPayloads(columns) + ([EofPayload(middle)] + (RowPayloads(binary, rows) + [EndingPayload(ending)])))
    case InfileReply(file) => [[0xFB] + file]
  }

  /** Replies chained by the more-results flag; LOCAL INFILE only on its own. */
  ghost predicate ValidResponse(binary: bool, response: seq<Reply>) {
    && response != []
    && ValidReply(binary, response[0])
    && if |response| == 1 then !SaysMore(response[0]) else SaysMore(response[0]) && ValidChain(binary, response[1..])
  }

  ghost predicate ValidChain(binary: bool, response: seq<Reply>) {
    && response != []
    && ValidReply(binary, response[0]) && !response[0].InfileReply?
    && if |response| == 1 then !SaysMore(response[0]) else SaysMore(response[0]) && ValidChain(binary, response[1..])
  }

  function ResponsePayloads(ghost binary: bool, response: seq<Reply>): seq<seq<byte>>
    requires forall i | 0 <= i < |response| :: ValidReply(binary, response[i])
  {
    if response == [] then [] else ReplyPayloads(binary, response[0]) + ResponsePayloads(binary, response[1..])
  }

  // ---------------------------------------------------------------- packet by packet

  /** The reader's decisions over a list of payloads: `Stops` at the last one, or `Runs` on. */
  datatype Course = Stops | StopsEarly | Runs(eofCount: nat) | Breaks

  function Follow(binary: bool, first: bool, eofCount: nat, payloads: seq<seq<byte>>): Course
    decreases |payloads|
  {
    if payloads == [] then Runs(eofCount)
    else match Judge(binary, first, eofCount, payloads[0])
         case Stop => if |payloads| == 1 then Stops else StopsEarly
         case Crash => Breaks
         case Go(e) => Follow(binary, false, e, payloads[1..])
  }

  lemma {:induction false} FollowConcat(binary: bool, first: bool, eofCount: nat, a: seq<seq<byte>>, b: seq<seq<byte>>)
    requires Follow(binary, first, eofCount, a).Runs?
    ensures Follow(binary, first, eofCount, a + b) ==
            Follow(binary, first && a == [], Follow(binary, first, eofCount, a).eofCount, b)
    decreases |a|
  {
    if a == [] {
      assert a + b == b;
    } else {
      assert (a + b)[1..] == a[1..] + b;
      FollowConcat(binary, false, Judge(binary, first, eofCount, a[0]).eofCount, a[1..], b);
    }
  }

  lemma {:induction false} FollowColumns(binary: bool, columns: seq<seq<byte>>)
    ensures Follow(binary, false, 0, ColumnPayloads(columns)) == Runs(0)
  {
    if columns != [] { FollowColumns(binary, columns[1..]); }
  }

  lemma {:induction false} FollowRows(binary: bool, rows: seq<Row>)
    requires forall i | 0 <= i < |rows| :: ValidRow(binary, rows[i])
    ensures Follow(binary, false, 1, RowPayloads(binary, rows)) == Runs(1)
  {
    if rows != [] {
      assert ValidRow(binary, rows[0]);
      assert Judge(binary, false, 1, RowPayload(binary, rows[0])) == Go(1);
      FollowRows(binary, rows[1..]);
    }
  }

  lemma FollowTable(binary: bool, first: bool, r: Reply)
    requires ValidReply(binary, r) && r.RowsReply?
    ensures Follow(binary, first, 0, ReplyPayloads(binary, r)) == if SaysMore(r) then Runs(0) else Stops
  {
    var last := [EndingPayload(r.ending)];
    var rows := RowPayloads(binary, r.rows);
    var middle := [EofPayload(r.middle)];
    FollowRows(binary, r.rows);
    FollowConcat(binary, false, 1, rows, last);
    assert last[1..] == [];
    assert Follow(binary, false, 0, middle) == Runs(1) by { assert middle[1..] == []; }
    FollowConcat(binary, false, 0, middle, rows + last);
    FollowColumns(binary, r.columns);
    FollowConcat(binary, false, 0, ColumnPayloads(r.columns), middle + (rows + last));
    var head := [LenEncInt(r.columnCount)];
    assert Follow(binary, first, 0, head) == Runs(0) by { assert head[1..] == []; }
    FollowConcat(binary, first, 0, head, ColumnPayloads(r.columns) + (middle + (rows + last)));
  }

  lemma FollowReply(binary: bool, first: bool, r: Reply)
    requires ValidReply(binary, r) && (r.InfileReply? ==> binary && first)
    ensures Follow(binary, first, 0, ReplyPayloads(binary, r)) == if SaysMore(r) then Runs(0) else Stops
  {
    match r
    case OkReply(ok) =>
      OkStatusFound(ok);
      assert ReplyPayloads(binary, r)[1..] == [];
    case ErrReply(_) =>
    case InfileReply(_) =>
    case RowsReply(_, _, _, _, _) => FollowTable(binary, first, r);
  }

  lemma {:induction false} FollowChain(binary: bool, response: seq<Reply>)
    requires ValidChain(binary, response)
    ensures forall i | 0 <= i < |response| :: ValidReply(binary, response[i])
    ensures Follow(binary, false, 0, ResponsePayloads(binary, response)) == Stops
    decreases |response|
  {
    FollowReply(binary, false, response[0]);
    var head := ReplyPayloads(binary, response[0]);
    if |response| == 1 {
      assert head + ResponsePayloads(binary, response[1..]) == head;
    } else {
      FollowChain(binary, response[1..]);
      FollowConcat(binary, false, 0, head, ResponsePayloads(binary, response[1..]));
    }
  }

  lemma FollowResponse(binary: bool, response: seq<Reply>)
    requires ValidResponse(binary, response) && (response[0].InfileReply? ==> binary)
    ensures forall i | 0 <= i < |response| :: ValidReply(binary, response[i])
    ensures Follow(binary, true, 0, ResponsePayloads(binary, response)) == Stops
  {
    FollowReply(binary, true, response[0]);
    var head := ReplyPayloads(binary, response[0]);
    assert head != [];
    if |response| == 1 {
      assert head + ResponsePayloads(binary, response[1..]) == head;
    } else {
      FollowChain(binary, response[1..]);
      FollowConcat(binary, true, 0, head, ResponsePayloads(binary, response[1..]));
    }
  }

  // ---------------------------------------------------------------- byte by byte

  /** The packet at the front of the rest of a stream. */
  lemma PacketAt(stream: seq<byte>, pos: nat, p: Packet, rest: seq<byte>)
    requires pos <= |stream| && stream[pos..] == Frame(p) + rest && |p.payload| < MAX_PAYLOAD
    ensures var n := |p.payload|;
            && pos + 4 + n <= |stream| && FromLittleEndian(stream[pos..pos + 3]) == n
            && stream[pos + 4..pos + 4 + n] == p.payload && stream[pos + 4 + n..] == rest
  {
    FrameFront(p, rest);
    SliceAt(stream, pos, 0, 3);
    SliceAt(stream, pos, 4, 4 + |p.payload|);
  }

  lemma {:induction false} ReadFollows(binary: bool, first: bool, eofCount: nat, stream: seq<byte>, pos: nat, ps: seq<Packet>, rest: seq<byte>)
    requires pos <= |stream| && stream[pos..] == Frames(ps) + rest
    requires Fits(ps) && Follow(binary, first, eofCount, Payloads(ps)) == Stops
    ensures ReadFrom(binary, first, eofCount, stream, pos) == Complete(pos + |Frames(ps)|)
    decreases |ps|
  {
    hide Judge, FromLittleEndian, Frame;
    Regroup(Frame(ps[0]), Frames(ps[1..]), rest);
    PacketAt(stream, pos, ps[0], Frames(ps[1..]) + rest);
    assert Payloads(ps)[1..] == Payloads(ps[1..]);
    match Judge(binary, first, eofCount, ps[0].payload)
    case Stop => assert ps[1..] == [];
    case Go(e) => ReadFollows(binary, false, e, stream, pos + |Frame(ps[0])|, ps[1..], rest);
  }

  /** The readers stop exactly at the end of every well-formed response, neither short nor
      past, whatever the backend has already sent after it. */
  lemma StopsAtResponseEnd(binary: bool, response: seq<Reply>, ps: seq<Packet>, rest: seq<byte>)
    requires ValidResponse(binary, response) && (response[0].InfileReply? ==> binary)
    requires forall i | 0 <= i < |response| :: ValidReply(binary, response[i])
    requires Payloads(ps) == ResponsePayloads(binary, response) && Fits(ps)
    ensures ReadFrom(binary, true, 0, Frames(ps) + rest, 0) == Complete(|Frames(ps)|)
  {
    FollowResponse(binary, response);
    var stream := Frames(ps) + rest;
    assert stream[0..] == stream;
    ReadFollows(binary, true, 0, stream, 0, ps, rest);
  }

  /** A LOCAL INFILE request is the exception of the text reader: it reads on, so with nothing more
      from the backend it waits, and otherwise it never stops right after the request. */
  lemma TextReaderMissesInfile(p: Packet, rest: seq<byte>)
    requires p.payload != [] && p.payload[0] == 0xFB && |p.payload| < MAX_PAYLOAD
    ensures ReadFrom(false, true, 0, Frame(p) + rest, 0) != Complete(|Frame(p)|)
    ensures rest == [] ==> ReadFrom(false, true, 0, Frame(p) + rest, 0) == Exhausted
  {
    var stream := Frame(p) + rest;
    assert stream[0..] == stream;
    PacketAt(stream, 0, p, rest);
    assert Judge(false, true, 0, p.payload) == Go(0);
  }
}
