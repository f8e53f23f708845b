/** Forwarding a backend response, possibly the cached one, to the client: packets are renumbered
    and, when another statement's response follows, the final OK or EOF is marked. */
module ForwardResponse {
  import opened Seqs
  import opened Options
  import opened Bytes
  import opened MySqlWire
  import opened ResponseReader

  // ---------------------------------------------------------------- packet by packet

  function NumberAfter(s0: byte, j: nat): byte { ((s0 + j) % 256) as byte }

  /** Packet `j` of the response gets number s0 + j + 1 mod 256. */
  function Renumbered(ps: seq<Packet>, s0: byte): (qs: seq<Packet>)
    ensures |qs| == |ps| && forall j | 0 <= j < |ps| :: qs[j] == Packet(NumberAfter(s0, j + 1), ps[j].payload)
  {
    seq(|ps|, j requires 0 <= j < |ps| => Packet(NumberAfter(s0, j + 1), ps[j].payload))
  }

  /** The final packet does not make the status lookup read past its end. */
  predicate Readable(payload: seq<byte>) {
    payload != [] && payload[0] == 0x00 ==> !OkStatus(payload).Panics?
  }

  /** The position of the status flags of an OK or EOF payload, if there is one. */
  function StatusAt(payload: seq<byte>): (at: Option<nat>)
    ensures at.Some? ==> at.value < |payload|
  {
    if payload == [] then None
    else match payload[0]
         case 0x00 => (match OkStatus(payload) case At(offset) => Some(offset) case _ => None)
         case 0xFE => if |payload| >= 5 then Some(3) else None
         case _ => None
  }

  function Marked(payload: seq<byte>): (q: seq<byte>)
    ensures |q| == |payload|
  {
    match StatusAt(payload)
    case None => payload
    case Some(at) => payload[at := WithMoreResults(payload[at])]
  }

  function MarkLast(ps: seq<Packet>): (qs: seq<Packet>)
    ensures |qs| == |ps|
  {
    if ps == [] then [] else ps[..|ps| - 1] + [Packet(ps[|ps| - 1].number, Marked(ps[|ps| - 1].payload))]
  }

  function Forwarded(ps: seq<Packet>, s0: byte, moreResults: bool): seq<Packet> {
    if moreResults then MarkLast(Renumbered(ps, s0)) else Renumbered(ps, s0)
  }

  /** Same packets, consecutive numbers, and only the more-results bit of the final OK or EOF may
      change. */
  lemma ForwardedPackets(ps: seq<Packet>, s0: byte, moreResults: bool, j: nat)
    requires j < |ps|
    ensures var qs := Forwarded(ps, s0, moreResults);
            && |qs| == |ps| && qs[j].number == (s0 + j + 1) % 256 && |qs[j].payload| == |ps[j].payload|
            && (!moreResults || j < |ps| - 1 ==> qs[j].payload == ps[j].payload)
            && forall i | 0 <= i < |ps[j].payload| :: qs[j].payload[i] != ps[j].payload[i] ==>
                 && StatusAt(ps[j].payload) == Some(i) && !MoreResults(ps[j].payload[i])
                 && qs[j].payload[i] == ps[j].payload[i] + 8
  {
  }

  /** The packets that go out for the statements of one query, numbered on from one response to the
      next; all but the last response are marked. */
  function Outgoing(backend: seq<seq<Packet>>, s0: byte): seq<Packet> {
    if backend == [] then []
    else Forwarded(backend[0], s0, |backend| > 1) + Outgoing(backend[1..], NumberAfter(s0, |backend[0]|))
  }

  // ---------------------------------------------------------------- byte by byte

  lemma {:induction false} FramesConcat(a: seq<Packet>, b: seq<Packet>)
    ensures Frames(a + b) == Frames(a) + Frames(b)
  {
    if a == [] {
      assert a + b == b;
    } else {
      assert (a + b)[1..] == a[1..] + b;
      FramesConcat(a[1..], b);
      Regroup(Frame(a[0]), Frames(a[1..]), Frames(b));
    }
  }

  lemma OneFrame(p: Packet)
    ensures Frames([p]) == Frame(p)
  {
    assert [p][1..] == [];
  }

  /** Writing byte 3 of a frame renumbers it. */
  lemma RenumberFrame(a: seq<byte>, p: Packet, b: seq<byte>, x: byte)
    ensures (a + Frame(p) + b)[|a| + 3 := x] == a + Frame(p.(number := x)) + b
  {
    assert Frame(p)[3 := x] == Frame(p.(number := x));
  }

  /** Writing byte 4 + i of a frame changes byte i of its payload. */
  lemma PatchFrame(a: seq<byte>, p: Packet, i: nat, x: byte)
    requires i < |p.payload|
    ensures (a + Frame(p))[|a| + 4 + i := x] == a + Frame(p.(payload := p.payload[i := x]))
  {
    assert Frame(p)[4 + i := x] == Frame(p.(payload := p.payload[i := x]));
  }

  /** The packets before `j` renumbered, the others as they came. */
  function Partly(ps: seq<Packet>, s0: byte, j: nat): seq<Packet>
    requires j <= |ps|
  {
    Renumbered(ps[..j], s0) + ps[j..]
  }

  lemma {:induction false} SameLengths(a: seq<Packet>, b: seq<Packet>)
    requires |a| == |b| && forall i | 0 <= i < |a| :: |a[i].payload| == |b[i].payload|
    ensures |Frames(a)| == |Frames(b)|
  {
    if a != [] { SameLengths(a[1..], b[1..]); }
  }

  /** One turn of the renumbering loop on the flat buffer. */
  lemma RenumberOne(ps: seq<Packet>, s0: byte, j: nat, pos: nat)
    requires j < |ps| && Fits(ps) && pos == |Frames(ps[..j])|
    ensures var bs := Frames(Partly(ps, s0, j)); var n := |ps[j].payload|;
            && pos + 4 + n <= |bs| && FromLittleEndian(bs[pos..pos + 3]) == n
            && bs[pos + 3 := NumberAfter(s0, j + 1)] == Frames(Partly(ps, s0, j + 1))
            && pos + 4 + n == |Frames(ps[..j + 1])|
  {
    var done := Renumbered(ps[..j], s0);
    var p, q := ps[j], Packet(NumberAfter(s0, j + 1), ps[j].payload);
    var a, b := Frames(done), Frames(ps[j + 1..]);
    SameLengths(done, ps[..j]);
    assert Partly(ps, s0, j) == done + ([p] + ps[j + 1..]);
    assert Partly(ps, s0, j + 1) == done + ([q] + ps[j + 1..]);
    FramesOfThree(done, p, ps[j + 1..]);
    FramesOfThree(done, q, ps[j + 1..]);
    RenumberFrame(a, p, b, q.number);
    FrameFront(p, b);
    Regroup(a, Frame(p), b);
    assert (a + (Frame(p) + b))[pos..pos + 3] == (Frame(p) + b)[..3];
    assert ps[..j + 1] == ps[..j] + [p];
    FramesConcat(ps[..j], [p]);
    OneFrame(p);
  }

  lemma FramesOfThree(a: seq<Packet>, p: Packet, b: seq<Packet>)
    ensures Frames(a + ([p] + b)) == Frames(a) + Frame(p) + Frames(b)
  {
    FramesConcat(a, [p] + b);
    assert ([p] + b)[1..] == b;
    Regroup(Frames(a), Frame(p), Frames(b));
  }

  /** Setting the flag on the flat buffer marks the last packet. */
  lemma MarkFlat(qs: seq<Packet>)
    requires qs != []
    ensures var last := qs[|qs| - 1]; var pos := |Frames(qs[..|qs| - 1])|; var bs := Frames(qs);
            && |bs| == pos + 4 + |last.payload| && bs[pos + 4..] == last.payload
            && (match StatusAt(last.payload)
                case None => Frames(MarkLast(qs)) == bs
                case Some(at) => Frames(MarkLast(qs)) == bs[pos + 4 + at := WithMoreResults(last.payload[at])])
  {
    var k := |qs| - 1;
    var last := qs[k];
    assert qs == qs[..k] + [last];
    FramesConcat(qs[..k], [last]);
    OneFrame(last);
    match StatusAt(last.payload)
    case None => assert MarkLast(qs) == qs;
    case Some(at) =>
      var marked := Packet(last.number, Marked(last.payload));
      assert MarkLast(qs) == qs[..k] + [marked];
      FramesConcat(qs[..k], [marked]);
      OneFrame(marked);
      PatchFrame(Frames(qs[..k]), last, at, WithMoreResults(last.payload[at]));
  }

  lemma LoopStart(ps: seq<Packet>, s0: byte)
    ensures Frames(Partly(ps, s0, 0)) == Frames(ps) && |Frames(ps[..0])| == 0 && NumberAfter(s0, 0) == s0
    ensures Frames(ps[..|ps|]) == Frames(ps)
  {
    assert Partly(ps, s0, 0) == ps && ps[..0] == [] && ps[..|ps|] == ps;
  }

  lemma NumberNext(s0: byte, j: nat)
    ensures NumberAfter(NumberAfter(s0, j), 1) == NumberAfter(s0, j + 1)
  {
  }

  class ClientConn {
    var sequence: byte
    /** Everything written to the client so far. */
    var written: seq<byte>

    constructor (sequence: byte)
      ensures this.sequence == sequence && written == []
    {
      this.sequence, this.written := sequence, [];
    }

    /** forwardBackendResponse (mariadb.go:1515-1570) on a buffer that holds the packets `ps`. The input
        may be the cached value: it is only read. */
    method ForwardBackendResponse(response: array<byte>, moreResults: bool, ghost ps: seq<Packet>)
      requires response[..] == Frames(ps) && Fits(ps)
      requires moreResults && ps != [] ==> Readable(ps[|ps| - 1].payload)
      modifies this
      ensures written == old(written) + Frames(Forwarded(ps, old(sequence), moreResults))
      ensures sequence == NumberAfter(old(sequence), |ps|)
      ensures response[..] == old(response[..])
    {
      hide Frames, Frame, Partly, Renumbered, MarkLast, NumberAfter, FromLittleEndian, Readable;
      var respCopy := new byte[response.Length];
      Copy(response, respCopy);
      var pos, lastPacketPos := 0, 0;
      ghost var s0 := sequence;
      ghost var j := 0;
      LoopStart(ps, s0);
      while pos < respCopy.Length
        invariant 0 <= j <= |ps| && respCopy[..] == Frames(Partly(ps, s0, j)) && response[..] == Frames(ps)
        invariant pos == |Frames(ps[..j])| && sequence == NumberAfter(s0, j) && written == old(written)
        invariant lastPacketPos == if j == 0 then 0 else |Frames(ps[..j - 1])|
        invariant respCopy.Length == |Frames(ps)|
        decreases |ps| - j
      {
        RenumberOne(ps, s0, j, pos);
        NumberNext(s0, j);
        if pos + 4 > respCopy.Length {
          break;
        }
        var length := FromLittleEndian(respCopy[pos..pos + 3]);
        sequence := NumberAfter(sequence, 1);
        ghost var before := respCopy[..];
        assert before[pos..pos + 3] == respCopy[pos..pos + 3];
        respCopy[pos + 3] := sequence;
        assert respCopy[..] == before[pos + 3 := sequence];
        lastPacketPos := pos;
        pos := pos + 4 + length;
        j := j + 1;
      }
      AllRenumbered(ps, s0, j, pos);
      if moreResults && lastPacketPos < respCopy.Length {
        SetMoreResults(respCopy, lastPacketPos, Renumbered(ps, s0));
      }
      written := written + respCopy[..];
    }

    /** writeOKWithInfo and writeOKWithRowsAndID (mariadb.go:1576-1590, mariadb.go:1797-1811): the proxy's
        own answer. `ok` is the packet with the connection's status. */
    method WriteOk(ok: Ok, moreResults: bool)
      requires ValidOk(ok)
      modifies this
      ensures written == old(written) + Frames(Forwarded([Packet(0, OkPayload(ok))], old(sequence), moreResults))
      ensures sequence == NumberAfter(old(sequence), 1)
    {
      hide Frames, OkPayload, Marked, NumberAfter, WithMoreResults;
      sequence := NumberAfter(sequence, 1);
      var flagged := if moreResults then ok.(statusLow := WithMoreResults(ok.statusLow)) else ok;
      var packet := OkPayload(flagged);
      MarkedOk(ok);
      OwnPacket(old(sequence), OkPayload(ok), moreResults, packet);
      written := written + (LittleEndian(|packet|, 3) + [sequence] + packet);
    }

    /** writeError (mariadb.go:1592-1602), with which a failed batched write is answered; an error packet has
        no flag, so what follows does not matter. `err` is the packet behind its first byte. */
    method WriteError(err: seq<byte>, ghost moreResults: bool)
      modifies this
      ensures written == old(written) + Frames(Forwarded([Packet(0, [0xFF] + err)], old(sequence), moreResults))
      ensures sequence == NumberAfter(old(sequence), 1)
    {
      hide Frames, Marked, NumberAfter;
      sequence := NumberAfter(sequence, 1);
      var packet := [0xFF] + err;
      UnmarkedErr(err);
      OwnPacket(old(sequence), packet, moreResults, packet);
      written := written + (LittleEndian(|packet|, 3) + [sequence] + packet);
    }

    /** handleQuery's loop (mariadb.go:600-614) over the answers to its statements: a response of the
        backend or of the cache, or the proxy's own OK or error. */
    method ForwardQuery(answers: seq<Answer>, ghost backend: seq<seq<Packet>>)
      requires |backend| == |answers|
      requires forall i | 0 <= i < |answers| :: Holds(answers[i], backend[i]) && Fits(backend[i])
      requires forall i | 0 <= i < |answers| - 1 :: backend[i] != [] ==> Readable(backend[i][|backend[i]| - 1].payload)
      modifies this
      ensures written == old(written) + Frames(Outgoing(backend, old(sequence)))
    {
      hide Frames, Fits, Readable, Forwarded, NumberAfter, OkPayload;
      ghost var total := written + Frames(Outgoing(backend, sequence));
      assert backend[0..] == backend;
      for i := 0 to |answers|
        invariant forall j | 0 <= j < |answers| :: Holds(answers[j], backend[j])
        invariant written + Frames(Outgoing(backend[i..], sequence)) == total
      {
        OutgoingNext(backend, i, sequence, written);
        assert Holds(answers[i], backend[i]);
        match answers[i] {
          case Relayed(response) => ForwardBackendResponse(response, i < |answers| - 1, backend[i]);
          case Own(ok) => WriteOk(ok, i < |answers| - 1);
          case OwnErr(err) => WriteError(err, i < |answers| - 1);
        }
      }
      NothingOutgoing(sequence, written);
      assert backend[|answers|..] == [];
    }
  }

  /** How a statement is answered. */
  datatype Answer = Relayed(response: array<byte>) | Own(ok: Ok) | OwnErr(err: seq<byte>)

  ghost predicate Holds(answer: Answer, ps: seq<Packet>)
    reads if answer.Relayed? then {answer.response} else {}
  {
    match answer
    case Relayed(response) => response[..] == Frames(ps)
    case Own(ok) => ValidOk(ok) && ps == [Packet(0, OkPayload(ok))]
    case OwnErr(err) => ps == [Packet(0, [0xFF] + err)]
  }

  lemma OwnPacket(s0: byte, payload: seq<byte>, moreResults: bool, packet: seq<byte>)
    requires packet == if moreResults then Marked(payload) else payload
    ensures Frames(Forwarded([Packet(0, payload)], s0, moreResults)) ==
            LittleEndian(|packet|, 3) + [NumberAfter(s0, 1)] + packet
  {
    hide Marked, LittleEndian;
    var p := Packet(NumberAfter(s0, 1), packet);
    assert Renumbered([Packet(0, payload)], s0) == [Packet(NumberAfter(s0, 1), payload)];
    assert Forwarded([Packet(0, payload)], s0, moreResults) == [p];
    OneFrame(p);
  }

  lemma OutgoingNext(backend: seq<seq<Packet>>, i: nat, s0: byte, written: seq<byte>)
    requires i < |backend|
    ensures written + Frames(Outgoing(backend[i..], s0)) ==
            (written + Frames(Forwarded(backend[i], s0, i < |backend| - 1)))
            + Frames(Outgoing(backend[i + 1..], NumberAfter(s0, |backend[i]|)))
  {
    var a := Forwarded(backend[i], s0, i < |backend| - 1);
    var b := Outgoing(backend[i + 1..], NumberAfter(s0, |backend[i]|));
    assert backend[i..][1..] == backend[i + 1..];
    FramesConcat(a, b);
    Regroup(written, Frames(a), Frames(b));
  }

  lemma NothingOutgoing(s0: byte, written: seq<byte>)
    ensures written + Frames(Outgoing([], s0)) == written
  {
  }

  method Copy(from: array<byte>, to: array<byte>)
    requires to.Length == from.Length && to != from
    modifies to
    ensures to[..] == from[..] && from[..] == old(from[..])
  {
    for i := 0 to from.Length
      invariant to[..i] == from[..i] && from[..] == old(from[..])
    {
      to[i] := from[i];
    }
  }

  lemma AllRenumbered(ps: seq<Packet>, s0: byte, j: nat, pos: nat)
    requires j <= |ps| && pos == |Frames(ps[..j])| && pos >= |Frames(ps)|
    ensures j == |ps| && Partly(ps, s0, j) == Renumbered(ps, s0)
    ensures ps == [] ==> Frames(ps) == [] && MarkLast(Renumbered(ps, s0)) == Renumbered(ps, s0)
    ensures ps != [] ==> |Frames(ps[..|ps| - 1])| < |Frames(ps)|
    ensures ps != [] ==> |Frames(Renumbered(ps, s0)[..|ps| - 1])| == |Frames(ps[..|ps| - 1])|
    ensures ps != [] && Readable(ps[|ps| - 1].payload) ==> Readable(Renumbered(ps, s0)[|ps| - 1].payload)
  {
    assert ps == ps[..j] + ps[j..];
    FramesConcat(ps[..j], ps[j..]);
    assert ps[..|ps|] == ps;
    if ps != [] {
      assert ps == ps[..|ps| - 1] + [ps[|ps| - 1]];
      FramesConcat(ps[..|ps| - 1], [ps[|ps| - 1]]);
      OneFrame(ps[|ps| - 1]);
      SameLengths(Renumbered(ps, s0)[..|ps| - 1], ps[..|ps| - 1]);
    }
  }

  /** The flag-setting branch (mariadb.go:1541-1566) on the last packet of the buffer. */
  method SetMoreResults(buf: array<byte>, pos: nat, ghost qs: seq<Packet>)
    requires qs != [] && buf[..] == Frames(qs) && pos == |Frames(qs[..|qs| - 1])|
    requires Readable(qs[|qs| - 1].payload)
    modifies buf
    ensures buf[..] == Frames(MarkLast(qs))
  {
    hide Frames, MarkLast, OkStatus, WithMoreResults;
    MarkFlat(qs);
    ghost var last := qs[|qs| - 1];
    assert buf[..][pos + 4..] == buf[pos + 4..];
    if buf.Length - pos > 4 {
      var header := buf[pos + 4];
      var payload := buf[pos + 4..];
      assert payload == last.payload;
      if header == 0x00 {
        match OkStatus(payload) {
          case At(offset) =>
            SetByte(buf, pos + 4 + offset, WithMoreResults(payload[offset]));
          case _ =>
        }
      } else if header == 0xFE {
        if buf.Length - pos >= 9 {
          SetByte(buf, pos + 4 + 3, WithMoreResults(payload[3]));
        }
      }
    }
  }

  method SetByte(buf: array<byte>, i: nat, x: byte)
    requires i < buf.Length
    modifies buf
    ensures buf[..] == old(buf[..])[i := x]
  {
    buf[i] := x;
  }

  // ---------------------------------------------------------------- several statements, one response

  /** The reply with its more-results flag set. */
  function MarkedReply(r: Reply): Reply {
    match r
    case OkReply(ok) => OkReply(ok.(statusLow := WithMoreResults(ok.statusLow)))
    case RowsReply(n, cols, middle, rows, EofEnding(eof)) =>
      RowsReply(n, cols, middle, rows, EofEnding(eof.(statusLow := WithMoreResults(eof.statusLow))))
    case _ => r
  }

  predicate EndsInError(r: Reply) {
    r.ErrReply? || (r.RowsReply? && r.ending.ErrEnding?)
  }

  function LastPayload(binary: bool, r: Reply): seq<byte>
    requires ValidReply(binary, r)
  {
    var bs := ReplyPayloads(binary, r);
    assert bs != [];
    bs[|bs| - 1]
  }

  lemma MarkedOk(o: Ok)
    requires ValidOk(o)
    ensures Marked(OkPayload(o)) == OkPayload(o.(statusLow := WithMoreResults(o.statusLow)))
  {
    var front := [0] + LenEncInt(o.affected) + LenEncInt(o.insertId);
    var x := WithMoreResults(o.statusLow);
    OkStatusFound(o);
    OkSplit(o);
    OkSplit(o.(statusLow := x));
    assert (front + ([o.statusLow, o.statusHigh] + o.rest))[|front| := x] == front + ([x, o.statusHigh] + o.rest);
  }

  lemma OkSplit(o: Ok)
    requires ValidOk(o)
    ensures OkPayload(o) == ([0] + LenEncInt(o.affected) + LenEncInt(o.insertId)) + ([o.statusLow, o.statusHigh] + o.rest)
  {
  }

  lemma MarkedIsValid(binary: bool, r: Reply)
    requires ValidReply(binary, r) && !r.InfileReply?
    ensures ValidReply(binary, MarkedReply(r)) && SaysMore(MarkedReply(r)) == !EndsInError(r)
    ensures !MarkedReply(r).InfileReply?
  {
  }

  lemma MarkedEof(e: Eof)
    ensures Marked(EofPayload(e)) == EofPayload(e.(statusLow := WithMoreResults(e.statusLow)))
  {
  }

  lemma UnmarkedErr(err: seq<byte>)
    ensures Marked([0xFF] + err) == [0xFF] + err
  {
    assert ([0xFF] + err)[0] == 0xFF;
  }

  /** Marking the last payload of a reply is marking the reply; a reply that ends in an error has
      no flag to set. */
  lemma MarkingAReply(binary: bool, r: Reply)
    requires ValidReply(binary, r) && !r.InfileReply?
    ensures ValidReply(binary, MarkedReply(r)) && SaysMore(MarkedReply(r)) == !EndsInError(r)
    ensures !MarkedReply(r).InfileReply?
    ensures LastPayload(binary, MarkedReply(r)) == Marked(LastPayload(binary, r))
  {
    hide Marked, WithMoreResults, SaysMore;
    MarkedIsValid(binary, r);
    match r
    case OkReply(ok) => MarkedOk(ok);
    case RowsReply(_, _, _, _, EofEnding(eof)) => MarkedEof(eof);
    case RowsReply(_, _, _, _, ErrEnding(err)) => UnmarkedErr(err);
    case ErrReply(err) => UnmarkedErr(err);
  }

  function MarkedResponse(response: seq<Reply>): seq<Reply>
    requires response != []
  {
    response[..|response| - 1] + [MarkedReply(response[|response| - 1])]
  }

  /** Two statements of one query: the first response, marked, followed by the second is one
      well-formed response for the client, exactly if the first does not end in an error. */
  lemma {:induction false} ResponsesChain(binary: bool, first: seq<Reply>, second: seq<Reply>)
    requires ValidChain(binary, first) && ValidChain(binary, second)
    ensures ValidChain(binary, MarkedResponse(first) + second) <==> !EndsInError(first[|first| - 1])
    decreases |first|
  {
    hide ValidReply, SaysMore, MarkedReply, EndsInError, LastPayload, ReplyPayloads, Marked;
    var r := first[0];
    var whole := MarkedResponse(first) + second;
    MarkingAReply(binary, r);
    if |first| == 1 {
      assert whole == [MarkedReply(r)] + second;
      assert whole[1..] == second;
    } else {
      assert whole[1..] == MarkedResponse(first[1..]) + second;
      ResponsesChain(binary, first[1..], second);
    }
  }

  lemma MarkedReplyPayloads(binary: bool, r: Reply)
    requires ValidReply(binary, r) && ValidReply(binary, MarkedReply(r)) && !r.InfileReply?
    ensures var bs := ReplyPayloads(binary, r);
            bs != [] && ReplyPayloads(binary, MarkedReply(r)) == bs[..|bs| - 1] + [Marked(bs[|bs| - 1])]
  {
    hide Marked, OkPayload, EofPayload;
    MarkingAReply(binary, r);
    var bs, cs := ReplyPayloads(binary, r), ReplyPayloads(binary, MarkedReply(r));
    assert |bs| == |cs| && bs != [];
    assert cs[..|cs| - 1] == bs[..|bs| - 1];
    assert cs == cs[..|cs| - 1] + [cs[|cs| - 1]];
  }

  ghost predicate AllValid(binary: bool, response: seq<Reply>) {
    forall i | 0 <= i < |response| :: ValidReply(binary, response[i])
  }

  lemma {:induction false} PayloadsConcat(binary: bool, a: seq<Reply>, b: seq<Reply>)
    requires AllValid(binary, a) && AllValid(binary, b)
    ensures AllValid(binary, a + b)
    ensures ResponsePayloads(binary, a + b) == ResponsePayloads(binary, a) + ResponsePayloads(binary, b)
  {
    if a == [] {
      assert a + b == b;
    } else {
      assert (a + b)[1..] == a[1..] + b;
      PayloadsConcat(binary, a[1..], b);
      assert ReplyPayloads(binary, a[0]) + (ResponsePayloads(binary, a[1..]) + ResponsePayloads(binary, b))
          == ReplyPayloads(binary, a[0]) + ResponsePayloads(binary, a[1..]) + ResponsePayloads(binary, b);
    }
  }

  lemma OneReply(binary: bool, r: Reply)
    requires ValidReply(binary, r)
    ensures ResponsePayloads(binary, [r]) == ReplyPayloads(binary, r)
  {
    assert [r][1..] == [];
  }

  /** Forwarding with the flag turns the packets of a response into those of the marked response. */
  lemma ForwardedIsMarkedResponse(binary: bool, response: seq<Reply>, ps: seq<Packet>, s0: byte)
    requires response != [] && AllValid(binary, response) && !response[|response| - 1].InfileReply?
    requires Payloads(ps) == ResponsePayloads(binary, response)
    ensures AllValid(binary, MarkedResponse(response))
    ensures Payloads(Forwarded(ps, s0, true)) == ResponsePayloads(binary, MarkedResponse(response))
  {
    hide ValidReply, ReplyPayloads, Marked, MarkedReply, ResponsePayloads, Forwarded;
    var k := |response| - 1;
    var r := response[k];
    var front := ResponsePayloads(binary, response[..k]);
    MarkingAReply(binary, r);
    MarkedReplyPayloads(binary, r);
    var bs := ReplyPayloads(binary, r);
    assert response == response[..k] + [r];
    PayloadsConcat(binary, response[..k], [r]);
    OneReply(binary, r);
    PayloadsConcat(binary, response[..k], [MarkedReply(r)]);
    OneReply(binary, MarkedReply(r));
    ForwardedPayloads(ps, s0);
    LastOfConcat(front, bs);
  }

  lemma ForwardedPayloads(ps: seq<Packet>, s0: byte)
    requires ps != []
    ensures var bs := Payloads(ps);
            Payloads(Forwarded(ps, s0, true)) == bs[..|bs| - 1] + [Marked(bs[|bs| - 1])]
  {
    hide Marked;
  }

  lemma LastOfConcat(front: seq<seq<byte>>, bs: seq<seq<byte>>)
    requires bs != []
    ensures var all := front + bs;
            all[..|all| - 1] + [Marked(all[|all| - 1])] == front + (bs[..|bs| - 1] + [Marked(bs[|bs| - 1])])
  {
    hide Marked;
    var all := front + bs;
    assert all[|all| - 1] == bs[|bs| - 1];
    assert all[..|all| - 1] == front + bs[..|bs| - 1];
  }

  lemma PlainForward(ps: seq<Packet>, s0: byte)
    ensures Payloads(Forwarded(ps, s0, false)) == Payloads(ps)
  {
  }

  // ---------------------------------------------------------------- a whole query

  ghost predicate AllChains(binary: bool, responses: seq<seq<Reply>>) {
    forall i | 0 <= i < |responses| :: ValidChain(binary, responses[i]) && AllValid(binary, responses[i])
  }

  /** The responses of a query's statements as handleQuery forwards them (mariadb.go:600-614): all but
      the last are marked. */
  ghost function Combined(binary: bool, responses: seq<seq<Reply>>): seq<Reply>
    requires responses != [] && AllChains(binary, responses)
  {
    if |responses| == 1 then responses[0] else MarkedResponse(responses[0]) + Combined(binary, responses[1..])
  }

  lemma {:induction false} ChainSuffix(binary: bool, a: seq<Reply>, b: seq<Reply>)
    requires b != [] && ValidChain(binary, a + b)
    ensures ValidChain(binary, b)
  {
    if a == [] {
      assert a + b == b;
    } else {
      assert (a + b)[1..] == a[1..] + b;
      ChainSuffix(binary, a[1..], b);
    }
  }

  ghost predicate OnlyLastFails(binary: bool, responses: seq<seq<Reply>>)
    requires AllChains(binary, responses)
  {
    forall i | 0 <= i < |responses| - 1 :: responses[i] != [] && !EndsInError(responses[i][|responses[i]| - 1])
  }

  lemma {:induction false} CombinedNotEmpty(binary: bool, responses: seq<seq<Reply>>)
    requires responses != [] && AllChains(binary, responses)
    ensures Combined(binary, responses) != []
  {
    assert responses[0] != [];
  }

  /** What the client receives for a query is one well-formed response exactly if no statement but
      the last ends in an error. */
  lemma {:induction false} CombinedIsResponseIff(binary: bool, responses: seq<seq<Reply>>)
    requires responses != [] && AllChains(binary, responses)
    ensures ValidChain(binary, Combined(binary, responses)) <==> OnlyLastFails(binary, responses)
    decreases |responses|
  {
    hide ValidReply, MarkedResponse, EndsInError;
    if |responses| > 1 {
      var first, rest := responses[0], responses[1..];
      CombinedIsResponseIff(binary, rest);
      CombinedNotEmpty(binary, rest);
      TailFails(binary, responses);
      if ValidChain(binary, Combined(binary, rest)) {
        ResponsesChain(binary, first, Combined(binary, rest));
      } else if ValidChain(binary, Combined(binary, responses)) {
        ChainSuffix(binary, MarkedResponse(first), Combined(binary, rest));
      }
    }
  }

  lemma TailFails(binary: bool, responses: seq<seq<Reply>>)
    requires |responses| > 1 && AllChains(binary, responses)
    ensures responses[0] != [] && AllChains(binary, responses[1..])
    ensures OnlyLastFails(binary, responses) <==>
            !EndsInError(responses[0][|responses[0]| - 1]) && OnlyLastFails(binary, responses[1..])
  {
    hide ValidReply, EndsInError;
    var rest := responses[1..];
    if OnlyLastFails(binary, responses) {
      forall i | 0 <= i < |rest| - 1 ensures rest[i] != [] && !EndsInError(rest[i][|rest[i]| - 1]) {
        assert rest[i] == responses[i + 1];
      }
    }
  }

  /** A failed statement followed by a successful one: two well-formed responses that are not one. */
  lemma ErrorThenOk(err: seq<byte>, ok: Ok)
    requires ValidOk(ok) && !MoreResults(ok.statusLow)
    ensures var responses := [[ErrReply(err)], [OkReply(ok)]];
            AllChains(false, responses) && !ValidChain(false, Combined(false, responses))
  {
    var responses := [[ErrReply(err)], [OkReply(ok)]];
    assert [ErrReply(err)][1..] == [] && [OkReply(ok)][1..] == [];
    CombinedIsResponseIff(false, responses);
    assert EndsInError(responses[0][|responses[0]| - 1]);
  }

  /** The packets of each backend response carry the payloads of that response. */
  ghost predicate Carries(binary: bool, backend: seq<seq<Packet>>, responses: seq<seq<Reply>>)
    requires AllChains(binary, responses)
  {
    && |backend| == |responses|
    && forall i | 0 <= i < |backend| :: Payloads(backend[i]) == ResponsePayloads(binary, responses[i]) && Fits(backend[i])
  }

  lemma {:induction false} OutgoingCarriesCombined(binary: bool, responses: seq<seq<Reply>>, backend: seq<seq<Packet>>, s0: byte)
    requires responses != [] && AllChains(binary, responses) && Carries(binary, backend, responses)
    ensures AllValid(binary, Combined(binary, responses)) && Fits(Outgoing(backend, s0))
    ensures Payloads(Outgoing(backend, s0)) == ResponsePayloads(binary, Combined(binary, responses))
    decreases |responses|
  {
    hide ValidReply, ResponsePayloads, MarkedResponse, ValidChain, Forwarded;
    if |responses| == 1 {
      PlainForward(backend[0], s0);
      StillFits(backend[0], s0, false);
      assert backend[1..] == [];
      assert Outgoing(backend, s0) == Forwarded(backend[0], s0, false);
    } else {
      var s1 := NumberAfter(s0, |backend[0]|);
      LastIsNotInfile(binary, responses[0]);
      ForwardedIsMarkedResponse(binary, responses[0], backend[0], s0);
      StillFits(backend[0], s0, true);
      OutgoingCarriesCombined(binary, responses[1..], backend[1..], s1);
      PayloadsConcat(binary, MarkedResponse(responses[0]), Combined(binary, responses[1..]));
      PacketsConcat(Forwarded(backend[0], s0, true), Outgoing(backend[1..], s1));
    }
  }

  lemma PacketsConcat(a: seq<Packet>, b: seq<Packet>)
    ensures Payloads(a + b) == Payloads(a) + Payloads(b)
    ensures Fits(a) && Fits(b) ==> Fits(a + b)
  {
  }

  /** End to end: for a query of any number of statements of which none but the last ends in an
      error, the client's reader finds exactly the end of what was forwarded. */
  lemma QueryIsOneResponse(responses: seq<seq<Reply>>, backend: seq<seq<Packet>>, s0: byte, rest: seq<byte>)
    requires responses != [] && AllChains(false, responses) && Carries(false, backend, responses)
    requires OnlyLastFails(false, responses)
    ensures var sent := Frames(Outgoing(backend, s0));
            ReadFrom(false, true, 0, sent + rest, 0) == Complete(|sent|)
  {
    hide ValidReply, ResponsePayloads, ReadFrom, Outgoing, Combined, EndsInError;
    CombinedIsResponseIff(false, responses);
    OutgoingCarriesCombined(false, responses, backend, s0);
    ChainIsResponse(false, Combined(false, responses));
    StopsAtResponseEnd(false, Combined(false, responses), Outgoing(backend, s0), rest);
  }

  lemma {:induction false} LastIsNotInfile(binary: bool, response: seq<Reply>)
    requires ValidChain(binary, response)
    ensures response != [] && !response[|response| - 1].InfileReply?
    decreases |response|
  {
    if |response| > 1 { LastIsNotInfile(binary, response[1..]); }
  }

  lemma StillFits(ps: seq<Packet>, s0: byte, moreResults: bool)
    requires Fits(ps)
    ensures Fits(Forwarded(ps, s0, moreResults))
  {
    forall j: nat | j < |ps| ensures |Forwarded(ps, s0, moreResults)[j].payload| == |ps[j].payload| {
      ForwardedPackets(ps, s0, moreResults, j);
    }
  }

  lemma ChainIsResponse(binary: bool, response: seq<Reply>)
    requires ValidChain(binary, response)
    ensures ValidResponse(binary, response) && !response[0].InfileReply?
  {
  }
}
