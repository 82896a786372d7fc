/** What the buffers of a connection make of arbitrary datagrams, genuine or not. */
module Handling {
  import opened Wire
  import opened Serialize
  import opened Sockets
  import opened SendSpec
  import opened ReceiveSpec
  import opened BufferSpec

  /** A part does not fit what is known of its id exactly if one of them says that the
      packet is a single chunk and the other says that it is not. It is then neither acked
      nor stored; only one for a packet known as a single chunk counts as hearing of it.
      No part changes the entry of another id. */
  lemma MismatchExactly(guard: Guard, incoming: Incoming, last: bool, id: PacketId, index: U32, payload: Bytes,
                        now: int, outcome: SendResult)
    ensures var (incoming', result, sent) := ReceivePart(guard, incoming, last, id, index, payload, now, outcome);
            var single := last && index == 0;
            && incoming' - {id} == incoming - {id}
            && (result == PartMismatch <==> id in incoming && (single <==> incoming[id].packet.Some?))
            && (result == PartMismatch ==>
                  && sent == [] && id in incoming' && incoming'[id].packet == incoming[id].packet
                  && incoming'[id].lastReceive == if single then incoming[id].lastReceive else now)
  {
    hide ReceiveSpec.Receive;
  }

  /** Any part that fits is acked if the socket takes the ack, and reported as an error
      exactly if the socket fails. */
  lemma AnsweredExactly(guard: Guard, incoming: Incoming, last: bool, id: PacketId, index: U32, payload: Bytes,
                        now: int, outcome: SendResult)
    ensures var (_, result, sent) := ReceivePart(guard, incoming, last, id, index, payload, now, outcome);
            result != PartMismatch && result != PartOk(Panicked) ==>
              && sent == (if outcome == Sent then [PrintAck(id, index)] else [])
              && (result == PartIoError <==> outcome == Failed)
  {
    hide ReceiveSpec.Receive;
  }

  /** A datagram that starts with a printed done forgets its id and nothing else, and is
      reported as known exactly if the id was. */
  lemma DoneIsReported(guard: Guard, incoming: Incoming, buf: Bytes, id: PacketId, now: int, outcome: SendResult)
    requires PrintDone(id) <= buf && buf != []
    ensures HandleIncoming(guard, incoming, buf, now, outcome) ==
            (incoming - {id}, Some(HandledDone(id in incoming)), [])
  {
    hide BufferSpec.ReceivePart, PrintDone;
    ReceiverReadsExactly(buf);
    assert ViewForReceiver(buf) == DoneView(id);
  }

  /** A printed part is received as such. */
  lemma PartIsReceived(guard: Guard, incoming: Incoming, last: bool, id: PacketId, index: U32, payload: Bytes,
                       now: int, outcome: SendResult)
    ensures var buf := PrintPart(last, id, index, payload);
            var (received, result, sent) := ReceivePart(guard, incoming, last, id, index, payload, now, outcome);
            buf != [] &&
            HandleIncoming(guard, incoming, buf, now, outcome) == (received, Some(HandledPart(result)), sent)
  {
    hide BufferSpec.ReceivePart, PrintPart;
    PartRoundTrip(last, id, index, payload);
  }

  /** A datagram that starts with a printed ack is for the packet of its id alone; an ack of
      an unknown id is reported and changes nothing. */
  lemma AckIsHandled(ix: Indexing, outgoing: Outgoing, buf: Bytes, id: PacketId, index: U32)
    requires PrintAck(id, index) <= buf && buf != []
    ensures var (outgoing', handling) := HandleOutgoing(ix, outgoing, buf);
            && outgoing' - {id} == outgoing - {id}
            && (id !in outgoing ==> outgoing' == outgoing && handling == Some(InvalidAckId))
            && (id in outgoing ==>
                  && id in outgoing' && outgoing'[id] == AckOut(ix, outgoing[id], index).0
                  && handling == Some(HandledAck(AckOut(ix, outgoing[id], index).1)))
  {
    hide AckOut, PrintAck;
    SenderReadsExactly(buf);
    assert ViewForSender(buf) == AckView(id, index);
  }

  /** What is of a kind that a buffer handles but too short for it is reported as malformed
      and changes nothing; what is of any other kind is left to the other buffer. */
  lemma ShortOrForeign(guard: Guard, ix: Indexing, incoming: Incoming, outgoing: Outgoing, buf: Bytes, now: int,
                       outcome: SendResult)
    requires buf != []
    ensures (buf[0] in {2, 3} && |buf| < 21) || (buf[0] == 5 && |buf| < 17) ==>
              HandleIncoming(guard, incoming, buf, now, outcome) == (incoming, Some(Malformed), [])
    ensures buf[0] !in {2, 3, 5} ==> HandleIncoming(guard, incoming, buf, now, outcome) == (incoming, None, [])
    ensures buf[0] == 4 && |buf| < 21 ==> HandleOutgoing(ix, outgoing, buf) == (outgoing, Some(Malformed))
    ensures buf[0] != 4 ==> HandleOutgoing(ix, outgoing, buf) == (outgoing, None)
  {
    hide BufferSpec.ReceivePart, AckOutgoing;
    ReceiverReadsExactly(buf);
    SenderReadsExactly(buf);
  }

  /** A new packet is stored under its id unless the socket failed; nothing else changes. */
  lemma StoredUnlessFailed(outgoing: Outgoing, id: PacketId, packet: SerializedPacket, batchSize: NonZeroBatchSize,
                           now: int, outcomes: Outcomes, from: nat)
    ensures var (outgoing', ok, sent) := StartOutgoing(outgoing, id, packet, batchSize, now, outcomes, from);
            var (o, started) := StartOut(packet, batchSize, now, outcomes, from);
            && sent == started && (ok <==> o.Some?)
            && (ok ==> id in outgoing' && outgoing'[id] == o.value && outgoing' - {id} == outgoing - {id})
            && (!ok ==> outgoing' == outgoing)
  {
    hide StartOut;
  }
}
