/** What every step of the protocol keeps, whatever the lookup of acks: every datagram in
    the network is genuine, both parties hold consistent state, and every payload that
    completes is the stream that was sent. */
module ProtocolBase {
  import opened Wire
  import opened Chunking
  import opened Sockets
  import opened SendSpec
  import opened SendRefinement
  import opened ReceiveSpec
  import opened ReassemblyLaws
  import opened BufferSpec
  import opened Counting
  import opened Protocol

  type Streams = map<PacketId, Bytes>

  /** Index `i` is a chunk of the stream under `id`. */
  ghost predicate IsChunk(streams: Streams, id: PacketId, i: nat) {
    id in streams && i < Count(streams[id]) <= U32_LIMIT
  }

  /** The datagram is a chunk of a stream, the ack of a chunk that was sent, or a done. */
  ghost predicate Genuine(streams: Streams, net: set<Bytes>, d: Bytes) {
    d != [] &&
    match ViewForReceiver(d)
    case PartView(last, id, index, payload) => IsChunk(streams, id, index) && d == Datagram(id, streams[id], index)
    case DoneView(id) => id in streams && d == PrintDone(id)
    case ReceiveMalformed => false
    case ReceiveUnhandled =>
      match ViewForSender(d)
      case AckView(id, index) =>
        IsChunk(streams, id, index) && d == PrintAck(id, index) && Datagram(id, streams[id], index) in net
      case _ => false
  }

  /** The chunks that an entry of the receiver has. */
  function Got(entry: PacketIn): set<nat> {
    match entry.packet
    case None => {0}
    case Some(reassembly) => reassembly.Received()
  }

  ghost predicate EntryOk(entry: PacketIn, stream: Bytes) {
    if Count(stream) == 1 then entry.packet.None?
    else entry.packet.Some? && Consistent(entry.packet.value, Chunks(stream))
  }

  ghost predicate OutOk(o: Out, id: PacketId, stream: Bytes, net: set<Bytes>) {
    && Count(stream) <= U32_LIMIT
    && Window(o.queue, Datagrams(id, stream))
    && PrintDone(id) !in net
    && (forall i: nat :: i < Count(stream) && Datagram(id, stream, i) in net ==> i < o.queue.Loaded())
  }

  ghost predicate IsCompleted(w: World, id: PacketId) {
    exists k :: 0 <= k < |w.completed| && w.completed[k].id == id
  }

  ghost predicate StreamsOk(w: World) {
    forall id :: id in w.streams ==> Count(w.streams[id]) <= U32_LIMIT
  }

  ghost predicate AllGenuine(streams: Streams, net: set<Bytes>) {
    forall d :: d in net ==> Genuine(streams, net, d)
  }

  ghost predicate SenderOk(w: World) {
    forall id :: id in w.outgoing ==> id in w.streams && OutOk(w.outgoing[id], id, w.streams[id], w.net)
  }

  ghost predicate ReceiverOk(w: World) {
    forall id :: id in w.incoming ==>
      && id in w.streams && EntryOk(w.incoming[id], w.streams[id])
      && (Got(w.incoming[id]) == Below(Count(w.streams[id])) ==> IsCompleted(w, id))
  }

  ghost predicate CompletionsOk(w: World) {
    forall k :: 0 <= k < |w.completed| ==>
      w.completed[k].id in w.streams && w.completed[k].payload == w.streams[w.completed[k].id]
  }

  ghost predicate Base(w: World) {
    StreamsOk(w) && AllGenuine(w.streams, w.net) && SenderOk(w) && ReceiverOk(w) && CompletionsOk(w)
  }

  // ----- Datagrams -----

  lemma PartIsGenuine(streams: Streams, net: set<Bytes>, id: PacketId, i: nat)
    requires IsChunk(streams, id, i)
    ensures Genuine(streams, net, Datagram(id, streams[id], i))
    ensures forall other :: Datagram(id, streams[id], i) != PrintDone(other)
    ensures forall other, index: U32 :: Datagram(id, streams[id], i) != PrintAck(other, index)
  {
    hide PrintPart, PrintDone, PrintAck;
    PartRoundTrip(i == Count(streams[id]) - 1, id, i, Piece(streams[id], i));
    forall other
      ensures Datagram(id, streams[id], i) != PrintDone(other)
    {
      DoneRoundTrip(other);
    }
    forall other, index: U32
      ensures Datagram(id, streams[id], i) != PrintAck(other, index)
    {
      AckRoundTrip(other, index);
    }
  }

  /** Datagrams of different packets or places differ. */
  lemma DatagramsDiffer(streams: Streams, id: PacketId, i: nat, id': PacketId, i': nat)
    requires IsChunk(streams, id, i) && IsChunk(streams, id', i')
    requires Datagram(id, streams[id], i) == Datagram(id', streams[id'], i')
    ensures id == id' && i == i'
  {
    PartRoundTrip(i == Count(streams[id]) - 1, id, i, Piece(streams[id], i));
    PartRoundTrip(i' == Count(streams[id']) - 1, id', i', Piece(streams[id'], i'));
  }

  ghost predicate Extends(streams: Streams, streams': Streams) {
    forall id :: id in streams ==> id in streams' && streams'[id] == streams[id]
  }

  /** More streams keep what is genuine. */
  lemma GenuineStays(streams: Streams, streams': Streams, net: set<Bytes>)
    requires AllGenuine(streams, net) && Extends(streams, streams')
    ensures AllGenuine(streams', net)
  {
    hide Datagram, PrintAck, PrintDone;
  }

  /** The datagrams are from the first `loaded` of a list. */
  ghost predicate Carries(sent: seq<Bytes>, ds: seq<Bytes>, loaded: nat) {
    forall d :: d in sent ==> exists i: nat :: i < loaded && i < |ds| && d == ds[i]
  }

  /** What sending parts of one packet puts into the network. */
  lemma AddParts(streams: Streams, net: set<Bytes>, id: PacketId, sent: seq<Bytes>, loaded: nat)
    requires AllGenuine(streams, net) && id in streams && Count(streams[id]) <= U32_LIMIT
    requires Carries(sent, Datagrams(id, streams[id]), loaded)
    ensures var net' := net + SetOf(sent);
            && AllGenuine(streams, net')
            && (forall other :: PrintDone(other) in net' ==> PrintDone(other) in net)
            && (forall other, i: U32 :: PrintAck(other, i) in net' ==> PrintAck(other, i) in net)
            && (forall other, i: nat :: IsChunk(streams, other, i) && Datagram(other, streams[other], i) in net' ==>
                  Datagram(other, streams[other], i) in net || (other == id && i < loaded))
  {
    hide PrintDone, PrintAck, Datagram;
    var net' := net + SetOf(sent);
    forall d | d in sent
      ensures Genuine(streams, net', d)
      ensures forall other :: d != PrintDone(other)
      ensures forall other, i: U32 :: d != PrintAck(other, i)
      ensures forall other, i: nat :: IsChunk(streams, other, i) && d == Datagram(other, streams[other], i) ==>
                other == id && i < loaded
    {
      var k: nat :| k < loaded && k < Count(streams[id]) && d == Datagrams(id, streams[id])[k];
      PartIsGenuine(streams, net', id, k);
      forall other, i: nat | IsChunk(streams, other, i) && d == Datagram(other, streams[other], i)
        ensures other == id && i < loaded
      {
        DatagramsDiffer(streams, id, k, other, i);
      }
    }
  }

  /** What an ack puts into the network. */
  lemma AddAck(streams: Streams, net: set<Bytes>, id: PacketId, index: nat)
    requires AllGenuine(streams, net) && IsChunk(streams, id, index)
    requires Datagram(id, streams[id], index) in net
    ensures var net' := net + {PrintAck(id, index)};
            && AllGenuine(streams, net')
            && (forall other :: PrintDone(other) in net' ==> PrintDone(other) in net)
            && (forall other, i: U32 :: PrintAck(other, i) in net' ==>
                  PrintAck(other, i) in net || (other == id && i == index))
            && (forall other, i: nat :: IsChunk(streams, other, i) && Datagram(other, streams[other], i) in net' ==>
                  Datagram(other, streams[other], i) in net)
  {
    hide PrintDone, PrintAck, Datagram;
    var net' := net + {PrintAck(id, index)};
    AckRoundTrip(id, index);
    forall other
      ensures PrintDone(other) != PrintAck(id, index)
    {
      DoneRoundTrip(other);
    }
    forall other, i: U32 | PrintAck(other, i) == PrintAck(id, index)
      ensures other == id && i == index
    {
      AckRoundTrip(other, i);
    }
    forall other, i: nat | IsChunk(streams, other, i)
      ensures Datagram(other, streams[other], i) != PrintAck(id, index)
    {
      PartIsGenuine(streams, net', other, i);
    }
  }

  /** What a done puts into the network. */
  lemma AddDone(streams: Streams, net: set<Bytes>, id: PacketId)
    requires AllGenuine(streams, net) && id in streams
    ensures var net' := net + {PrintDone(id)};
            && AllGenuine(streams, net')
            && (forall other :: PrintDone(other) in net' ==> PrintDone(other) in net || other == id)
            && (forall other, i: U32 :: PrintAck(other, i) in net' ==> PrintAck(other, i) in net)
            && (forall other, i: nat :: IsChunk(streams, other, i) && Datagram(other, streams[other], i) in net' ==>
                  Datagram(other, streams[other], i) in net)
  {
    hide PrintDone, PrintAck, Datagram;
    var net' := net + {PrintDone(id)};
    DoneRoundTrip(id);
    forall other | PrintDone(other) == PrintDone(id)
      ensures other == id
    {
      DoneRoundTrip(other);
    }
    forall other, i: U32
      ensures PrintAck(other, i) != PrintDone(id)
    {
      AckRoundTrip(other, i);
    }
    forall other, i: nat | IsChunk(streams, other, i)
      ensures Datagram(other, streams[other], i) != PrintDone(id)
    {
      PartIsGenuine(streams, net', other, i);
    }
  }

  // ----- Arrival of a genuine part -----

  function GotSoFar(incoming: Incoming, id: PacketId): set<nat> {
    if id in incoming then Got(incoming[id]) else {}
  }

  /** What a genuine part leads to, given the outcome that is expected of it. */
  ghost predicate PartHandled(incoming: Incoming, id: PacketId, stream: Bytes, index: U32, outcome: SendResult,
                              expected: ReceivedPacket, incoming': Incoming, result: PartResult, sent: seq<Bytes>)
  {
    && (expected == Panicked ==> result == PartOk(Panicked) && sent == [])
    && (expected != Panicked ==>
          && result == (if outcome == Failed then PartIoError else PartOk(expected))
          && sent == (if outcome == Sent then [PrintAck(id, index)] else [])
          && id in incoming' && incoming' - {id} == incoming - {id}
          && EntryOk(incoming'[id], stream)
          && Got(incoming'[id]) == GotSoFar(incoming, id) + {index})
  }

  /** The outcome of a genuine part is decided by the set of chunks received so far; only
      the entry of its id changes, and a mismatch never occurs. */
  lemma PartFollowsSet(guard: Guard, incoming: Incoming, id: PacketId, stream: Bytes, index: nat, now: int,
                       outcome: SendResult)
    requires index < Count(stream) <= U32_LIMIT
    requires id in incoming ==> EntryOk(incoming[id], stream)
    ensures var (incoming', result, sent) :=
              ReceivePart(guard, incoming, index == Count(stream) - 1, id, index, Piece(stream, index), now, outcome);
            var expected := Expected(guard, GotSoFar(incoming, id), Count(stream), stream, index);
            PartHandled(incoming, id, stream, index, outcome, expected, incoming', result, sent)
  {
    if Count(stream) == 1 {
      SinglePartFollowsSet(guard, incoming, id, stream, now, outcome);
    } else {
      ManyPartsFollowSet(guard, incoming, id, stream, index, now, outcome);
    }
  }

  lemma SinglePartFollowsSet(guard: Guard, incoming: Incoming, id: PacketId, stream: Bytes, now: int,
                             outcome: SendResult)
    requires Count(stream) == 1
    requires id in incoming ==> EntryOk(incoming[id], stream)
    ensures var (incoming', result, sent) := ReceivePart(guard, incoming, true, id, 0, Piece(stream, 0), now, outcome);
            var expected := Expected(guard, GotSoFar(incoming, id), 1, stream, 0);
            PartHandled(incoming, id, stream, 0, outcome, expected, incoming', result, sent)
  {
    hide Receive, Consistent, BlockComplete, Join, Chunks, Expected;
    SingleChunk(guard, stream);
  }

  lemma ManyPartsFollowSet(guard: Guard, incoming: Incoming, id: PacketId, stream: Bytes, index: nat, now: int,
                           outcome: SendResult)
    requires index < Count(stream) <= U32_LIMIT && Count(stream) != 1
    requires id in incoming ==> EntryOk(incoming[id], stream)
    ensures var (incoming', result, sent) :=
              ReceivePart(guard, incoming, index == Count(stream) - 1, id, index, Piece(stream, index), now, outcome);
            var expected := Expected(guard, GotSoFar(incoming, id), Count(stream), stream, index);
            PartHandled(incoming, id, stream, index, outcome, expected, incoming', result, sent)
  {
    hide Receive, Consistent, Join, Chunks, Expected, Reassembly.Received;
    ChunksJoin(stream);
    ChunkIsPiece(stream, index);
    EmptyIsConsistent(Chunks(stream));
    var reassembly := if id in incoming then incoming[id].packet.value else EMPTY_REASSEMBLY;
    ArrivalFollowsSet(guard, reassembly, Chunks(stream), index);
  }

  lemma ChunkIsPiece(stream: Bytes, i: nat)
    requires i < Count(stream)
    ensures Chunks(stream)[i] == Piece(stream, i)
  {
  }

  lemma SingleChunk(guard: Guard, stream: Bytes)
    requires Count(stream) == 1
    ensures Piece(stream, 0) == stream
    ensures Expected(guard, {}, 1, stream, 0) == Reassembled(stream)
    ensures Expected(guard, {0}, 1, stream, 0) == Duplicate
  {
    hide BlockComplete;
    assert {} + {0} == Below(1);
    FewChunksNoBlock({0}, 1, RoundDown(0));
  }

  /** When an entry counts as last heard of: every part of a packet of several chunks
      refreshes it, a repeated single chunk does not. */
  lemma PartRefreshesEntry(guard: Guard, incoming: Incoming, id: PacketId, stream: Bytes, index: nat, now: int,
                           outcome: SendResult, later: int, timeout: nat)
    requires index < Count(stream) <= U32_LIMIT && now <= later
    requires id in incoming ==> EntryOk(incoming[id], stream)
    ensures var incoming' :=
              ReceivePart(guard, incoming, index == Count(stream) - 1, id, index, Piece(stream, index), now, outcome).0;
            var heard := if Count(stream) == 1 && id in incoming then incoming[id].lastReceive else now;
            && id in incoming' && incoming'[id].lastReceive == heard
            && (id in TimeoutIncoming(incoming', later, timeout) <==> Max(0, later - heard) < timeout)
  {
    hide Receive, Consistent;
  }
}
