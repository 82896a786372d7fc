/** The sending side of one packet as it updates its fields, proved against `SendSpec`. */
module Send {
  import opened Wire
  import opened Chunking
  import opened Serialize
  import opened Sockets
  import opened SendSpec

  class PacketQueue {
    const indexing: Indexing
    var packets: seq<Slot>
    var firstUnacked: nat
    var rx: Option<seq<Bytes>>

    function Value(): Queue
      reads this
    {
      Queue(packets, firstUnacked, rx)
    }

    constructor (indexing: Indexing, packet: SerializedPacket)
      ensures this.indexing == indexing && Value() == NewQueue(packet)
    {
      this.indexing := indexing;
      this.firstUnacked := 0;
      match packet {
        case InMemory(buffers) =>
          this.packets := Slots(buffers);
          this.rx := None;
        case Channel(incoming) =>
          this.packets := [];
          this.rx := Some(incoming);
      }
    }

    /** The queue as it was stored. */
    constructor Stored(indexing: Indexing, value: Queue)
      ensures this.indexing == indexing && Value() == value
    {
      this.indexing := indexing;
      this.packets := value.packets;
      this.firstUnacked := value.first;
      this.rx := value.rx;
    }

    /** The next batch, after pulling what it lacks from the channel. */
    method PullUnacked(count: nat) returns (batch: seq<Bytes>)
      modifies this
      ensures Value() == Fill(old(Value()), count)
      ensures batch == Batch(old(Value()), count)
    {
      if rx.Some? {
        var existing := Min(count, |Unacked(packets)|);
        ghost var before, incoming := packets, rx.value;
        ghost var pulled := 0;
        while existing < count && rx.value != []
          invariant rx.Some? && firstUnacked == old(firstUnacked)
          invariant pulled <= |incoming| && rx.value == incoming[pulled..]
          invariant packets == before + Slots(incoming[..pulled])
          invariant existing == Min(count, |Unacked(before)|) + pulled <= count
          decreases |rx.value|
        {
          assert Slots(incoming[..pulled + 1]) == Slots(incoming[..pulled]) + [Slot(false, incoming[pulled])];
          packets := packets + [Slot(false, rx.value[0])];
          rx := Some(rx.value[1..]);
          existing := existing + 1;
          pulled := pulled + 1;
        }
        assert incoming[..pulled] == Take(incoming, count - Min(count, |Unacked(before)|));
      }
      batch := Take(Unacked(packets), count);
    }

    /** Sends up to `batchSize` unacked packets, until one is not accepted. */
    method SendUnacked(batchSize: NonZeroBatchSize, socket: Socket) returns (result: BatchResult)
      modifies this, socket
      ensures Value() == Fill(old(Value()), batchSize)
      ensures var batch := Batch(old(Value()), batchSize);
              && result == SendBatch(batch, socket.outcomes, old(socket.calls))
              && socket.log == old(socket.log) + batch[..Accepted(socket.outcomes, old(socket.calls), |batch|)]
              && socket.calls == old(socket.calls) + Attempts(socket.outcomes, old(socket.calls), |batch|)
    {
      hide Fill, Batch;
      var batch := PullUnacked(batchSize);
      var count := 0;
      while count < |batch|
        invariant count <= |batch|
        invariant Value() == Fill(old(Value()), batchSize)
        invariant socket.calls == old(socket.calls) + count
        invariant forall j :: old(socket.calls) <= j < socket.calls ==> socket.outcomes(j).Sent?
        invariant socket.log == old(socket.log) + batch[..count]
      {
        AcceptedExtends(socket.outcomes, old(socket.calls), count, |batch|);
        var sent := socket.Send(batch[count]);
        if sent == Failed {
          return BatchFailed;
        }
        if sent == WouldBlock {
          return BatchSent(count, false);
        }
        count := count + 1;
      }
      AcceptedAll(socket.outcomes, old(socket.calls), |batch|);
      return BatchSent(count, true);
    }

    /** Marks the packet and drops the acked front. */
    method Ack(index: nat) returns (result: AckResult)
      modifies this
      ensures (Value(), result) == AckQueue(indexing, old(Value()), index)
    {
      var position := index;
      if indexing == Documented {
        if index < firstUnacked {
          return Acked(true);
        }
        position := index - firstUnacked;
      }
      if |packets| <= position {
        return AckedBeforeSent;
      }
      if packets[position].acked {
        return Acked(true);
      }
      packets := packets[position := packets[position].(acked := true)];
      var drained := FirstUnacked(packets);
      packets := packets[drained..];
      firstUnacked := firstUnacked + drained;
      return Acked(false);
    }
  }

  class PacketOut {
    const packetQueue: PacketQueue
    var lastSend: Option<int>
    var missedAcks: nat
    var batchSize: NonZeroBatchSize
    var lastBatchSize: BatchSize
    var lastBatchAcks: BatchSize

    function Value(): Out
      reads this, packetQueue
    {
      Out(packetQueue.Value(), lastSend, missedAcks, batchSize, lastBatchSize, lastBatchAcks)
    }

    constructor Stored(indexing: Indexing, value: Out)
      ensures Value() == value && packetQueue.indexing == indexing && fresh(packetQueue)
    {
      this.packetQueue := new PacketQueue.Stored(indexing, value.queue);
      this.lastSend := value.lastSend;
      this.missedAcks := value.missedAcks;
      this.batchSize := value.batchSize;
      this.lastBatchSize := value.lastBatchSize;
      this.lastBatchAcks := value.lastBatchAcks;
    }

    /** Sends the first batch. */
    static method Start(indexing: Indexing, packet: SerializedPacket, socket: Socket,
                        initialBatchSize: NonZeroBatchSize, now: int)
        returns (packetOut: Option<Out>)
      modifies socket
      ensures var (expected, sent) := StartOut(packet, initialBatchSize, now, socket.outcomes, old(socket.calls));
              packetOut == expected && socket.log == old(socket.log) + sent
    {
      var queue := new PacketQueue(indexing, packet);
      var result := queue.SendUnacked(initialBatchSize, socket);
      if result == BatchFailed {
        return None;
      }
      var lastSend := if result.complete then Some(now) else None;
      return Some(Out(queue.Value(), lastSend, 0, initialBatchSize, result.count, 0));
    }

    method Ack(index: nat) returns (result: AckResult)
      modifies this, packetQueue
      ensures (Value(), result) == AckOut(packetQueue.indexing, old(Value()), index)
    {
      missedAcks := 0;
      result := packetQueue.Ack(index);
      if result == Acked(false) {
        lastBatchAcks := Min(lastBatchAcks + 1, U16_MAX);
      }
    }

    /** Resends what is not acked, or sends `Done` if nothing is left or the packet was canceled. */
    method SendPending(id: PacketId, now: int, resendDelay: nat, socket: Socket) returns (result: PendingResult)
      modifies this, packetQueue, socket
      ensures var (value, expected, sent) :=
                SendSpec.SendPending(old(Value()), id, now, resendDelay, socket.outcomes, old(socket.calls));
              Value() == value && result == expected && socket.log == old(socket.log) + sent
      ensures socket.calls ==
              old(socket.calls) + PendingAttempts(old(Value()), now, resendDelay, socket.outcomes, old(socket.calls))
    {
      hide Fill, Batch;
      if lastSend == None {
        result := Done(id, socket);
        return;
      }
      if Max(0, now - lastSend.value) < resendDelay {
        return Kept;
      }
      batchSize := Balance(batchSize, lastBatchAcks, lastBatchSize);
      var sent := packetQueue.SendUnacked(batchSize, socket);
      if sent == BatchFailed {
        return SendError;
      }
      if sent == BatchSent(0, true) {
        result := Done(id, socket);
        return;
      }
      missedAcks := missedAcks + SaturatingSub(lastBatchSize, lastBatchAcks);
      lastBatchSize := sent.count;
      lastBatchAcks := 0;
      lastSend := Some(now);
      return Kept;
    }

    static method Done(id: PacketId, socket: Socket) returns (result: PendingResult)
      modifies socket
      ensures socket.calls == old(socket.calls) + 1
      ensures forall o :: var (value, expected, sent) := SendDone(o, id, socket.outcomes(old(socket.calls)));
                          value == o && result == expected && socket.log == old(socket.log) + sent
    {
      var sent := socket.Send(PrintDone(id));
      match sent
      case Sent => return Finished;
      case WouldBlock => return Kept;
      case Failed => return SendError;
    }

    method Cancel()
      modifies this
      ensures Value() == CancelOut(old(Value()))
    {
      lastSend := None;
    }
  }
}
