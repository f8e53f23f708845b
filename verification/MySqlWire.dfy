/** MySQL packets: framing, length-encoded integers, and the status flags of OK and EOF
    packets (MySQL Client/Server Protocol, pages "MySQL Packets", "Protocol::LengthEncodedInteger",
    "OK_Packet" and "EOF_Packet"). */
module MySqlWire {
  import opened Options
  import opened Seqs
  import opened Bytes

  /** Payloads that fit one packet. */
  const MAX_PAYLOAD: nat := 0xFF_FFFF

  datatype Packet = Packet(number: byte, payload: seq<byte>)

  function Frame(p: Packet): (bs: seq<byte>)
    ensures |bs| == 4 + |p.payload|
  {
    LittleEndian(|p.payload|, 3) + [p.number] + p.payload
  }

  function Frames(ps: seq<Packet>): seq<byte> {
    if ps == [] then [] else Frame(ps[0]) + Frames(ps[1..])
  }

  predicate Fits(ps: seq<Packet>) { forall i | 0 <= i < |ps| :: |ps[i].payload| < MAX_PAYLOAD }

  function Payloads(ps: seq<Packet>): (bs: seq<seq<byte>>)
    ensures |bs| == |ps| && forall i | 0 <= i < |ps| :: bs[i] == ps[i].payload
  {
    seq(|ps|, i requires 0 <= i < |ps| => ps[i].payload)
  }

  /** The header and payload at the front of a buffer that starts with a frame. */
  lemma FrameFront(p: Packet, rest: seq<byte>)
    requires |p.payload| < MAX_PAYLOAD
    ensures var bs := Frame(p) + rest; var n := |p.payload|;
            && |bs| >= 4 + n && FromLittleEndian(bs[..3]) == n && bs[3] == p.number
            && bs[4..4 + n] == p.payload && bs[..4 + n] == Frame(p) && bs[4 + n..] == rest
  {
    var bs := Frame(p) + rest;
    assert Pow256(3) == MAX_PAYLOAD + 1 by { assert Pow256(1) == 256 && Pow256(2) == 65536; }
    LittleEndianRoundTrip(|p.payload|, 3);
    assert bs[..3] == LittleEndian(|p.payload|, 3);
  }

  // ---------------------------------------------------------------- length-encoded integers

  function LenEncInt(v: nat): (bs: seq<byte>)
    requires v < Pow256(8)
    ensures bs != [] && (v < 251 ==> bs == [v]) && (v >= 251 ==> bs[0] in {0xFC, 0xFD, 0xFE})
    ensures bs[0] == 0xFE ==> |bs| == 9
  {
    if v < 251 then [v]
    else if v < 0x1_0000 then [0xFC] + LittleEndian(v, 2)
    else if v < 0x100_0000 then [0xFD] + LittleEndian(v, 3)
    else [0xFE] + LittleEndian(v, 8)
  }

  /** How many bytes mysql.ReadLengthEncodedInteger reports to have read, or None where it
      would index past the end. An empty slice counts as one byte. */
  function LenEncSize(bs: seq<byte>): Option<nat> {
    var size := if bs == [] then 1 else match bs[0] case 0xFC => 3 case 0xFD => 4 case 0xFE => 9 case _ => 1;
    if bs != [] && |bs| < size then None else Some(size)
  }

  lemma LenEncSizeOf(v: nat, rest: seq<byte>)
    requires v < Pow256(8)
    ensures LenEncSize(LenEncInt(v) + rest) == Some(|LenEncInt(v)|)
  {
    assert (LenEncInt(v) + rest)[0] == LenEncInt(v)[0];
  }

  // ---------------------------------------------------------------- status flags

  /** Bit 0x0008 of the status flags, which sits in their low byte. */
  predicate MoreResults(low: byte) { (low / 8) % 2 == 1 }

  function WithMoreResults(low: byte): (r: byte)
    ensures MoreResults(r)
  {
    if MoreResults(low) then low else low + 8
  }

  /** Setting the flag changes no other flag. */
  lemma OnlyMoreResultsChanges(low: byte)
    ensures WithMoreResults(low) % 8 == low % 8 && WithMoreResults(low) / 16 == low / 16
  {
  }

  datatype Status = Panics | Missing | At(offset: nat)

  /** Where the code finds the status flags of an OK payload (mariadb.go:1473-1479). */
  function OkStatus(payload: seq<byte>): (s: Status)
    ensures s.At? ==> s.offset + 2 <= |payload|
  {
    if |payload| < 1 then Missing
    else match LenEncSize(payload[1..])
         case None => Panics
         case Some(n1) =>
           if 1 + n1 > |payload| then Panics
           else match LenEncSize(payload[1 + n1..])
                case None => Panics
                case Some(n2) => if |payload| >= 1 + n1 + n2 + 2 then At(1 + n1 + n2) else Missing
  }

  /** An OK packet of the protocol. */
  datatype Ok = Ok(affected: nat, insertId: nat, statusLow: byte, statusHigh: byte, rest: seq<byte>)

  ghost predicate ValidOk(o: Ok) { o.affected < Pow256(8) && o.insertId < Pow256(8) }

  function OkPayload(o: Ok): seq<byte>
    requires ValidOk(o)
  {
    [0] + (LenEncInt(o.affected) + (LenEncInt(o.insertId) + ([o.statusLow, o.statusHigh] + o.rest)))
  }

  lemma OkStatusFound(o: Ok)
    requires ValidOk(o)
    ensures OkStatus(OkPayload(o)) == At(1 + |LenEncInt(o.affected)| + |LenEncInt(o.insertId)|)
    ensures OkPayload(o)[0] == 0 && OkPayload(o)[OkStatus(OkPayload(o)).offset] == o.statusLow
  {
    hide LenEncInt, LenEncSize;
    var a, b, c := LenEncInt(o.affected), LenEncInt(o.insertId), [o.statusLow, o.statusHigh] + o.rest;
    LenEncSizeOf(o.affected, b + c);
    LenEncSizeOf(o.insertId, c);
    AfterTwo([0], a, b + c);
    AfterPrefix([0] + a + b, c);
    assert OkPayload(o) == [0] + a + b + c;
  }

  /** An EOF packet of the protocol. */
  datatype Eof = Eof(warnLow: byte, warnHigh: byte, statusLow: byte, statusHigh: byte)

  function EofPayload(e: Eof): seq<byte> { [0xFE, e.warnLow, e.warnHigh, e.statusLow, e.statusHigh] }
}
