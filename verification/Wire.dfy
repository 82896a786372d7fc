/** Datagram layout: sizes, packet kinds, and the printing and parsing of the
    reliable-delivery datagrams (part, last part, ack, done). */
module Wire {

  type Byte = x: int | 0 <= x < 256
  type Bytes = seq<Byte>
  type U16 = x: int | 0 <= x < 0x1_0000
  type U32 = x: int | 0 <= x < 0x1_0000_0000

  /** An opaque 16-byte UUID. */
  type PacketId = s: Bytes | |s| == ID_LEN witness [0, 0, 0, 0, 0, 0, 0, 0, 0, 0, 0, 0, 0, 0, 0, 0]

  const U16_MAX: nat := 0xFFFF
  const U32_LIMIT: nat := 0x1_0000_0000

  const KIND_LEN: nat := 1
  const ID_LEN: nat := 16
  const SEQ_LEN: nat := 4
  const PACKET_BUFFER_SIZE: nat := 512
  const HEADER_LEN: nat := KIND_LEN + ID_LEN + SEQ_LEN
  /** How much payload a part datagram can hold: 491 bytes. */
  const PART_PAYLOAD: nat := 491

  /** Where the payload of part `i` starts. */
  function Offset(i: int): int {
    491 * i
  }

  lemma PayloadFillsTheDatagram()
    ensures HEADER_LEN + PART_PAYLOAD == PACKET_BUFFER_SIZE
  {
  }

  datatype Option<+T> = None | Some(value: T)

  datatype PacketKind = Version | Ping | Part | LastPart | Ack | Done | FirstUpdate

  function KindByte(kind: PacketKind): Byte {
    match kind
    case Version => 0
    case Ping => 1
    case Part => 2
    case LastPart => 3
    case Ack => 4
    case Done => 5
    case FirstUpdate => 6
  }

  function KindOf(b: Byte): (kind: Option<PacketKind>)
    ensures kind.Some? ==> KindByte(kind.value) == b
    ensures kind.None? <==> 6 < b
  {
    match b
    case 0 => Some(Version)
    case 1 => Some(Ping)
    case 2 => Some(Part)
    case 3 => Some(LastPart)
    case 4 => Some(Ack)
    case 5 => Some(Done)
    case 6 => Some(FirstUpdate)
    case _ => None
  }

  /** Little-endian bytes of a sequence index. */
  function ToLe(n: U32): (bs: Bytes)
    ensures |bs| == SEQ_LEN
  {
    [n % 256, n / 256 % 256, n / 0x1_0000 % 256, n / 0x100_0000]
  }

  function FromLe(bs: Bytes): U32
    requires |bs| == SEQ_LEN
  {
    var b0: int, b1: int, b2: int, b3: int := bs[0], bs[1], bs[2], bs[3];
    b0 + 256 * b1 + 0x1_0000 * b2 + 0x100_0000 * b3
  }

  lemma LeRoundTrip(n: U32)
    ensures FromLe(ToLe(n)) == n
  {
    assert n / 0x1_0000 == n / 256 / 256;
    assert n / 0x100_0000 == n / 256 / 256 / 256;
  }

  lemma LeOfBytes(bs: Bytes)
    requires |bs| == SEQ_LEN
    ensures ToLe(FromLe(bs)) == bs
  {
    var b0: int, b1: int, b2: int, b3: int := bs[0], bs[1], bs[2], bs[3];
    var n := b0 + 256 * b1 + 0x1_0000 * b2 + 0x100_0000 * b3;
    assert n / 256 == b1 + 256 * b2 + 0x1_0000 * b3;
    assert n / 0x1_0000 == n / 256 / 256 == b2 + 256 * b3;
    assert n / 0x100_0000 == n / 0x1_0000 / 256 == b3;
  }

  function PartKind(last: bool): PacketKind {
    if last then LastPart else Part
  }

  function PrintPart(last: bool, id: PacketId, index: U32, payload: Bytes): Bytes {
    [KindByte(PartKind(last))] + id + ToLe(index) + payload
  }

  function PrintAck(id: PacketId, index: U32): Bytes {
    [KindByte(Ack)] + id + ToLe(index)
  }

  function PrintDone(id: PacketId): Bytes {
    [KindByte(Done)] + id
  }

  /** `buf.get(lo..hi)`: out of range is `None`. */
  function Get(buf: Bytes, lo: nat, hi: nat): Option<Bytes>
    requires lo <= hi
  {
    if hi <= |buf| then Some(buf[lo..hi]) else None
  }

  /** What the receiving buffer makes of a datagram. */
  datatype ReceiveView =
    | PartView(last: bool, id: PacketId, index: U32, payload: Bytes)
    | DoneView(doneId: PacketId)
    | ReceiveUnhandled
    | ReceiveMalformed

  /** What the sending buffer makes of a datagram. */
  datatype SendView =
    | AckView(id: PacketId, index: U32)
    | SendUnhandled
    | SendMalformed

  function ViewForReceiver(buf: Bytes): ReceiveView
    requires buf != []
  {
    match KindOf(buf[0])
    case Some(Part) | Some(LastPart) =>
      (match Get(buf, KIND_LEN + ID_LEN, HEADER_LEN)
       case None => ReceiveMalformed
       case Some(index) =>
         PartView(KindOf(buf[0]) == Some(LastPart), buf[KIND_LEN..KIND_LEN + ID_LEN], FromLe(index), buf[HEADER_LEN..]))
    case Some(Done) =>
      (match Get(buf, KIND_LEN, KIND_LEN + ID_LEN)
       case None => ReceiveMalformed
       case Some(id) => DoneView(id))
    case _ => ReceiveUnhandled
  }

  function ViewForSender(buf: Bytes): SendView
    requires buf != []
  {
    if KindOf(buf[0]) == Some(Ack) then
      match Get(buf, KIND_LEN, KIND_LEN + ID_LEN)
      case None => SendMalformed
      case Some(id) =>
        match Get(buf, KIND_LEN + ID_LEN, HEADER_LEN)
        case None => SendMalformed
        case Some(index) => AckView(id, FromLe(index))
    else
      SendUnhandled
  }

  // ----- The bytes on the wire -----

  /** A sequence index at bytes 17 to 20, the least significant byte first. */
  ghost predicate IndexAt17(d: Bytes, index: nat) {
    && 21 <= |d|
    && d[17] == index % 256 && d[18] == index / 256 % 256
    && d[19] == index / 65536 % 256 && d[20] == index / 16777216 % 256
  }

  /** A part is its kind, 2 or 3 for the last one, the id, the index and the payload. */
  lemma PartBytes(last: bool, id: PacketId, index: U32, payload: Bytes)
    ensures var d := PrintPart(last, id, index, payload);
            && |d| == 21 + |payload| && d[0] == (if last then 3 else 2)
            && d[1..17] == id && IndexAt17(d, index) && d[21..] == payload
  {
  }

  /** An ack is kind 4, the id and the index. */
  lemma AckBytes(id: PacketId, index: U32)
    ensures var d := PrintAck(id, index);
            |d| == 21 && d[0] == 4 && d[1..17] == id && IndexAt17(d, index)
  {
  }

  /** A done is kind 5 and the id. */
  lemma DoneBytes(id: PacketId)
    ensures var d := PrintDone(id);
            |d| == 17 && d[0] == 5 && d[1..17] == id
  {
  }

  /** The number that four bytes stand for, the least significant one first. */
  function Number(b0: int, b1: int, b2: int, b3: int): int {
    b0 + 256 * b1 + 65536 * b2 + 16777216 * b3
  }

  /** Whatever is read as a part or as an ack, its index is the number at bytes 17 to 20. */
  lemma ReadsLittleEndian(buf: Bytes)
    requires buf != []
    ensures ViewForReceiver(buf).PartView? ==>
              21 <= |buf| && ViewForReceiver(buf).index == Number(buf[17], buf[18], buf[19], buf[20])
    ensures ViewForSender(buf).AckView? ==>
              21 <= |buf| && ViewForSender(buf).index == Number(buf[17], buf[18], buf[19], buf[20])
  {
  }

  /** Every printed datagram is read back as what was printed, by exactly one side. */
  lemma PartRoundTrip(last: bool, id: PacketId, index: U32, payload: Bytes)
    ensures var d := PrintPart(last, id, index, payload);
            d != [] && ViewForReceiver(d) == PartView(last, id, index, payload) && ViewForSender(d) == SendUnhandled
  {
    var d := PrintPart(last, id, index, payload);
    LeRoundTrip(index);
    assert d[KIND_LEN..KIND_LEN + ID_LEN] == id;
    assert d[KIND_LEN + ID_LEN..HEADER_LEN] == ToLe(index);
    assert d[HEADER_LEN..] == payload;
  }

  lemma AckRoundTrip(id: PacketId, index: U32)
    ensures var d := PrintAck(id, index);
            d != [] && ViewForSender(d) == AckView(id, index) && ViewForReceiver(d) == ReceiveUnhandled
  {
    var d := PrintAck(id, index);
    LeRoundTrip(index);
    assert d[KIND_LEN..KIND_LEN + ID_LEN] == id;
    assert d[KIND_LEN + ID_LEN..HEADER_LEN] == ToLe(index);
  }

  lemma DoneRoundTrip(id: PacketId)
    ensures var d := PrintDone(id);
            d != [] && ViewForReceiver(d) == DoneView(id) && ViewForSender(d) == SendUnhandled
  {
    var d := PrintDone(id);
    assert d[KIND_LEN..KIND_LEN + ID_LEN] == id;
  }

  /** Arbitrary bytes at the receiving side: a part is read exactly from a printed part, a
      done from anything that starts with a printed one, and malformed means the right
      kind but too short. */
  lemma ReceiverReadsExactly(buf: Bytes)
    requires buf != []
    ensures forall last, id, index, payload ::
              ViewForReceiver(buf) == PartView(last, id, index, payload) <==> buf == PrintPart(last, id, index, payload)
    ensures forall id :: ViewForReceiver(buf) == DoneView(id) <==> PrintDone(id) <= buf
    ensures ViewForReceiver(buf) == ReceiveMalformed <==>
            (buf[0] in {2, 3} && |buf| < HEADER_LEN) || (buf[0] == 5 && |buf| < KIND_LEN + ID_LEN)
  {
    if HEADER_LEN <= |buf| {
      LeOfBytes(buf[KIND_LEN + ID_LEN..HEADER_LEN]);
      assert buf[..HEADER_LEN] == [buf[0]] + buf[KIND_LEN..KIND_LEN + ID_LEN] + buf[KIND_LEN + ID_LEN..HEADER_LEN];
      assert buf == buf[..HEADER_LEN] + buf[HEADER_LEN..];
    }
    forall last, id, index, payload
      ensures ViewForReceiver(buf) == PartView(last, id, index, payload) <==> buf == PrintPart(last, id, index, payload)
    {
      PartRoundTrip(last, id, index, payload);
    }
    forall id
      ensures ViewForReceiver(buf) == DoneView(id) <==> PrintDone(id) <= buf
    {
      if PrintDone(id) <= buf {
        assert buf[0] == PrintDone(id)[0];
        assert buf[KIND_LEN..KIND_LEN + ID_LEN] == PrintDone(id)[KIND_LEN..KIND_LEN + ID_LEN] == id;
      }
    }
  }

  /** Arbitrary bytes at the sending side. */
  lemma SenderReadsExactly(buf: Bytes)
    requires buf != []
    ensures forall id, index :: ViewForSender(buf) == AckView(id, index) <==> PrintAck(id, index) <= buf
    ensures ViewForSender(buf) == SendMalformed <==> buf[0] == 4 && |buf| < HEADER_LEN
  {
    if HEADER_LEN <= |buf| {
      LeOfBytes(buf[KIND_LEN + ID_LEN..HEADER_LEN]);
      assert buf[..HEADER_LEN] == [buf[0]] + buf[KIND_LEN..KIND_LEN + ID_LEN] + buf[KIND_LEN + ID_LEN..HEADER_LEN];
    }
    forall id, index
      ensures ViewForSender(buf) == AckView(id, index) <==> PrintAck(id, index) <= buf
    {
      if PrintAck(id, index) <= buf {
        AckRoundTrip(id, index);
        var ack := PrintAck(id, index);
        assert buf[0] == ack[0];
        assert buf[KIND_LEN..KIND_LEN + ID_LEN] == ack[KIND_LEN..KIND_LEN + ID_LEN];
        assert buf[KIND_LEN + ID_LEN..HEADER_LEN] == ack[KIND_LEN + ID_LEN..HEADER_LEN];
      }
    }
  }

  /** No datagram is claimed by both sides, and the kinds that neither claims are known. */
  lemma ClaimedByOneSide(buf: Bytes)
    requires buf != []
    ensures ViewForReceiver(buf) == ReceiveUnhandled || ViewForSender(buf) == SendUnhandled
    ensures ViewForReceiver(buf) == ReceiveUnhandled && ViewForSender(buf) == SendUnhandled <==>
            KindOf(buf[0]) in {None, Some(Version), Some(Ping), Some(FirstUpdate)}
  {
  }
}
