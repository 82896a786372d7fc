/** The buffers of one connection as they update their maps, proved against `BufferSpec`.

    The maps hold the packets by value: a packet is taken out, changed through its own
    methods, and put back. */
module Buffers {
  import opened Wire
  import opened Chunking
  import opened Serialize
  import opened Sockets
  import opened SendSpec
  import opened Send
  import opened ReceiveSpec
  import opened Receive
  import opened BufferSpec
  import opened Counting

  class ReceivePacketBuffer {
    const guard: Guard
    var packets: Incoming

    constructor (guard: Guard)
      ensures this.guard == guard && packets == map[]
    {
      this.guard := guard;
      packets := map[];
    }

    /** Reassembles the given part and acks it. */
    method ReceivePart(last: bool, id: PacketId, index: U32, payload: Bytes, now: int, socket: Socket)
        returns (result: PartResult)
      modifies this, socket
      ensures var (incoming, expected, sent) :=
                BufferSpec.ReceivePart(guard, old(packets), last, id, index, payload, now,
                                       socket.outcomes(old(socket.calls)));
              packets == incoming && result == expected && socket.log == old(socket.log) + sent
    {
      hide ReceiveSpec.Receive;
      if last && index == 0 {
        if id !in packets {
          packets := packets[id := PacketIn(now, None)];
          result := Ack(id, index, Reassembled(payload), socket);
        } else if packets[id].packet == None {
          result := Ack(id, index, Duplicate, socket);
        } else {
          result := PartMismatch;
        }
      } else {
        var entry := if id in packets then packets[id].(lastReceive := now) else PacketIn(now, Some(EMPTY_REASSEMBLY));
        packets := packets[id := entry];
        if entry.packet == None {
          return PartMismatch;
        }
        var reassembly := new ReassembledPacket.Stored(guard, entry.packet.value);
        var received := reassembly.Receive(last, index, payload);
        packets := packets[id := entry.(packet := Some(reassembly.Value()))];
        if received == Panicked {
          return PartOk(Panicked);
        }
        result := Ack(id, index, received, socket);
      }
    }

    static method Ack(id: PacketId, index: U32, received: ReceivedPacket, socket: Socket) returns (result: PartResult)
      modifies socket
      ensures var (expected, sent) := AckPart(id, index, socket.outcomes(old(socket.calls)), received);
              result == expected && socket.log == old(socket.log) + sent
    {
      var sent := socket.Send(PrintAck(id, index));
      return if sent == Failed then PartIoError else PartOk(received);
    }

    /** Forgets the packet and tells whether it was known. */
    method Done(id: PacketId) returns (known: bool)
      modifies this
      ensures packets == ForgetIncoming(old(packets), id) && known == (id in old(packets))
    {
      known := id in packets;
      packets := packets - {id};
    }

    method Handle(buf: Bytes, now: int, socket: Socket) returns (handling: Option<Handling>)
      requires buf != []
      modifies this, socket
      ensures var (incoming, expected, sent) :=
                HandleIncoming(guard, old(packets), buf, now, socket.outcomes(old(socket.calls)));
              packets == incoming && handling == expected && socket.log == old(socket.log) + sent
    {
      hide BufferSpec.ReceivePart;
      match ViewForReceiver(buf)
      case PartView(last, id, index, payload) =>
        var result := ReceivePart(last, id, index, payload, now, socket);
        return Some(HandledPart(result));
      case DoneView(id) =>
        var known := Done(id);
        return Some(HandledDone(known));
      case ReceiveMalformed => return Some(Malformed);
      case ReceiveUnhandled => return None;
    }

    method TimeoutPackets(now: int, timeout: nat)
      modifies this
      ensures packets == TimeoutIncoming(old(packets), now, timeout)
    {
      packets := map id | id in packets && Max(0, now - packets[id].lastReceive) < timeout :: packets[id];
    }
  }

  class SendPacketBuffer {
    const indexing: Indexing
    var batchSize: NonZeroBatchSize
    var packets: Outgoing

    constructor (indexing: Indexing, initialBatchSize: NonZeroBatchSize)
      ensures this.indexing == indexing && batchSize == initialBatchSize && packets == map[]
    {
      this.indexing := indexing;
      batchSize := initialBatchSize;
      packets := map[];
    }

    method Ack(id: PacketId, index: nat) returns (handling: Handling)
      modifies this
      ensures (packets, handling) == AckOutgoing(indexing, old(packets), id, index)
      ensures batchSize == old(batchSize)
    {
      hide AckOut;
      if id !in packets {
        return InvalidAckId;
      }
      var packetOut := new PacketOut.Stored(indexing, packets[id]);
      var result := packetOut.Ack(index);
      packets := packets[id := packetOut.Value()];
      return HandledAck(result);
    }

    method Handle(buf: Bytes) returns (handling: Option<Handling>)
      requires buf != []
      modifies this
      ensures (packets, handling) == HandleOutgoing(indexing, old(packets), buf)
      ensures batchSize == old(batchSize)
    {
      hide AckOutgoing;
      match ViewForSender(buf)
      case AckView(id, index) =>
        var result := Ack(id, index);
        return Some(result);
      case SendMalformed => return Some(Malformed);
      case SendUnhandled => return None;
    }

    /** Serializes a packet and sends its first batch. */
    method Send(id: PacketId, writes: seq<Bytes>, threshold: nat, now: int, socket: Socket) returns (ok: bool)
      requires Count(Join(writes)) <= U32_LIMIT
      modifies this, socket
      ensures var (outgoing, expected, sent) :=
                StartOutgoing(old(packets), id, Serialized(id, threshold, Join(writes)), old(batchSize), now,
                              socket.outcomes, old(socket.calls));
              packets == outgoing && ok == expected && socket.log == old(socket.log) + sent
      ensures batchSize == old(batchSize)
    {
      hide StartOut, Serialized;
      var packet := SerializePacket(id, threshold, writes);
      var packetOut := PacketOut.Start(indexing, packet, socket, batchSize, now);
      if packetOut == None {
        return false;
      }
      packets := packets[id := packetOut.value];
      return true;
    }

    /** Resends one packet, and drops it once its `Done` went out. */
    method ResendOne(id: PacketId, now: int, resendDelay: nat, socket: Socket) returns (failed: bool)
      requires id in packets
      modifies this`packets, socket
      ensures var (o, result, sent) :=
                SendSpec.SendPending(old(packets)[id], id, now, resendDelay, socket.outcomes, old(socket.calls));
              && packets == (if result == Finished then old(packets) - {id} else old(packets)[id := o])
              && failed == (result == SendError)
              && socket.log == old(socket.log) + sent
      ensures socket.calls ==
              old(socket.calls) +
              PendingAttempts(old(packets)[id], now, resendDelay, socket.outcomes, old(socket.calls))
    {
      hide SendSpec.SendPending, PendingAttempts;
      var packetOut := new PacketOut.Stored(indexing, packets[id]);
      var result := packetOut.SendPending(id, now, resendDelay, socket);
      packets := if result == Finished then packets - {id} else packets[id := packetOut.Value()];
      failed := result == SendError;
    }

    /** One pass over all packets, in the order of their ids. */
    method SendPending(order: seq<PacketId>, now: int, resendDelay: nat, socket: Socket) returns (ok: bool)
      requires Distinct(order) && SetOf(order) == packets.Keys
      modifies this, socket
      ensures Sweepable(old(packets), order)
      ensures var before := Sweep(old(packets), 0, 0, false, old(socket.calls), []);
              var after := SweepAll(before, order, now, resendDelay, socket.outcomes);
              && packets == after.outgoing && ok == !after.failed
              && batchSize == AverageBatchSize(after, old(batchSize))
              && socket.log == old(socket.log) + after.sent
    {
      hide SendSpec.SendPending, PendingAttempts, SweepAll, Distinct;
      assert Sweepable(packets, order) by {
        assert forall id :: id in order ==> id in SetOf(order);
      }
      assert order[0..] == order;
      ghost var state := Sweep(packets, 0, 0, false, socket.calls, []);
      ghost var goal := SweepAll(state, order, now, resendDelay, socket.outcomes);
      var total, count, failed := 0, 0, false;
      for i := 0 to |order|
        invariant state.outgoing == packets && state.calls == socket.calls
        invariant (state.total, state.count, state.failed) == (total, count, failed)
        invariant socket.log == old(socket.log) + state.sent
        invariant batchSize == old(batchSize)
        invariant Sweepable(packets, order[i..])
        invariant SweepAll(state, order[i..], now, resendDelay, socket.outcomes) == goal
      {
        var id := order[i];
        assert order[i..][0] == id && order[i..][1..] == order[i + 1..];
        SweepUnrolls(state, order[i..], now, resendDelay, socket.outcomes);
        state := SweepOne(state, id, now, resendDelay, socket.outcomes);
        total := total + packets[id].batchSize;
        count := count + 1;
        if !failed {
          failed := ResendOne(id, now, resendDelay, socket);
        }
      }
      SweepOfNone(state, order[|order|..], now, resendDelay, socket.outcomes);
      if count != 0 {
        batchSize := NonZero(Min(total / count, U16_MAX));
      }
      return !failed;
    }

    method TimeoutPackets(maxMissedAcks: nat)
      modifies this`packets
      ensures packets == TimeoutOutgoing(old(packets), maxMissedAcks)
    {
      packets := map id | id in packets && packets[id].missedAcks <= maxMissedAcks :: packets[id];
    }
  }

  class PacketBuffers {
    const sendBuffer: SendPacketBuffer
    const receiveBuffer: ReceivePacketBuffer

    constructor (indexing: Indexing, guard: Guard, initialBatchSize: NonZeroBatchSize)
      ensures sendBuffer.packets == map[] && receiveBuffer.packets == map[]
      ensures sendBuffer.indexing == indexing && sendBuffer.batchSize == initialBatchSize
      ensures receiveBuffer.guard == guard
      ensures fresh(sendBuffer) && fresh(receiveBuffer)
    {
      sendBuffer := new SendPacketBuffer(indexing, initialBatchSize);
      receiveBuffer := new ReceivePacketBuffer(guard);
    }

    /** A datagram is claimed by at most one of the two buffers, and the other one is left
        as it was; what neither claims is reported. */
    method Handle(buf: Bytes, now: int, socket: Socket) returns (handling: Handling)
      modifies sendBuffer, receiveBuffer, socket
      ensures buf == [] ==> handling == EmptyDatagram &&
                            sendBuffer.packets == old(sendBuffer.packets) &&
                            receiveBuffer.packets == old(receiveBuffer.packets)
      ensures buf != [] ==>
                var (incoming, received, sent) :=
                  HandleIncoming(receiveBuffer.guard, old(receiveBuffer.packets), buf, now,
                                 socket.outcomes(old(socket.calls)));
                var (outgoing, acked) := HandleOutgoing(sendBuffer.indexing, old(sendBuffer.packets), buf);
                && receiveBuffer.packets == incoming && sendBuffer.packets == outgoing
                && socket.log == old(socket.log) + sent
                && handling == (if received.Some? then received.value
                                else if acked.Some? then acked.value else UnexpectedKind(buf[0]))
                && (received == None || acked == None)
      ensures forall id :: PrintDone(id) <= buf ==>
                && handling == HandledDone(id in old(receiveBuffer.packets))
                && receiveBuffer.packets == old(receiveBuffer.packets) - {id}
                && sendBuffer.packets == old(sendBuffer.packets) && socket.log == old(socket.log)
    {
      if buf == [] {
        return EmptyDatagram;
      }
      hide AckOutgoing, BufferSpec.ReceivePart, PrintDone, ViewForReceiver, ViewForSender;
      ClaimedByOneSide(buf);
      ReceiverReadsExactly(buf);
      var received := receiveBuffer.Handle(buf, now, socket);
      if received.Some? {
        return received.value;
      }
      var acked := sendBuffer.Handle(buf);
      if acked.Some? {
        return acked.value;
      }
      return UnexpectedKind(buf[0]);
    }

    /** The regular update: packets that went unanswered for too long are dropped first,
        then the rest is resent. */
    method Update(order: seq<PacketId>, now: int, resendDelay: nat, maxMissedAcks: Option<nat>,
                  receiveTimeout: Option<nat>, socket: Socket) returns (ok: bool)
      requires var kept := KeptOutgoing(sendBuffer.packets, maxMissedAcks);
               Distinct(order) && SetOf(order) == kept.Keys
      modifies sendBuffer, receiveBuffer, socket
      ensures receiveBuffer.packets == KeptIncoming(old(receiveBuffer.packets), now, receiveTimeout)
      ensures var kept := KeptOutgoing(old(sendBuffer.packets), maxMissedAcks);
              && Sweepable(kept, order)
              && var before := Sweep(kept, 0, 0, false, old(socket.calls), []);
              && var after := SweepAll(before, order, now, resendDelay, socket.outcomes);
              && sendBuffer.packets == after.outgoing && ok == !after.failed
              && sendBuffer.batchSize == AverageBatchSize(after, old(sendBuffer.batchSize))
              && socket.log == old(socket.log) + after.sent
    {
      hide SweepAll, Distinct;
      if maxMissedAcks.Some? {
        sendBuffer.TimeoutPackets(maxMissedAcks.value);
      }
      if receiveTimeout.Some? {
        receiveBuffer.TimeoutPackets(now, receiveTimeout.value);
      }
      ok := sendBuffer.SendPending(order, now, resendDelay, socket);
    }
  }
}
