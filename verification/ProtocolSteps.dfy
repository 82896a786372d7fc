/** Every action keeps what `ProtocolBase` states. */
module ProtocolSteps {
  import opened Wire
  import opened Chunking
  import opened Serialize
  import opened Sockets
  import opened SendSpec
  import opened SendRefinement
  import opened ReceiveSpec
  import opened ReassemblyLaws
  import opened BufferSpec
  import opened Counting
  import opened Protocol
  import opened ProtocolBase

  // ----- The sender's operations -----

  lemma BatchCarries(q: Queue, ds: seq<Bytes>, count: nat, k: nat)
    requires Window(q, ds) && k <= |Batch(q, count)|
    ensures Window(Fill(q, count), ds) && Fill(q, count).AckedSet() == q.AckedSet()
    ensures q.Loaded() <= Fill(q, count).Loaded()
    ensures Carries(Batch(q, count)[..k], ds, Fill(q, count).Loaded())
  {
    hide Fill, Batch, Window;
    FillKeepsWindow(q, ds, count);
    BatchIsLowestOpen(q, ds, count);
    var indices := BatchIndices(q, |ds|, count);
    forall d | d in Batch(q, count)[..k]
      ensures exists i: nat :: i < Fill(q, count).Loaded() && i < |ds| && d == ds[i]
    {
      var j :| 0 <= j < k && d == Batch(q, count)[..k][j];
      assert d == ds[indices[j]];
    }
  }

  lemma StartFacts(packet: SerializedPacket, batchSize: NonZeroBatchSize, now: int, outcomes: Outcomes)
    ensures var (o, sent) := StartOut(packet, batchSize, now, outcomes, 0);
            var ds := packet.Content();
            && Carries(sent, ds, |ds|)
            && (o.Some? ==>
                  Window(o.value.queue, ds) && o.value.queue.AckedSet() == {}
                  && Carries(sent, ds, o.value.queue.Loaded()))
  {
    hide Fill, Batch, Window;
    NewQueueIsWindow(packet);
    var q := NewQueue(packet);
    BatchCarries(q, packet.Content(), batchSize, Accepted(outcomes, 0, |Batch(q, batchSize)|));
  }

  lemma PendingFacts(o: Out, id: PacketId, ds: seq<Bytes>, now: int, delay: nat, outcomes: Outcomes)
    requires Window(o.queue, ds)
    ensures var (o', result, sent) := SendPending(o, id, now, delay, outcomes, 0);
            && Window(o'.queue, ds) && o'.queue.AckedSet() == o.queue.AckedSet()
            && o.queue.Loaded() <= o'.queue.Loaded()
            && (o'.lastSend == None <==> o.lastSend == None)
            && (result != Finished ==> Carries(sent, ds, o'.queue.Loaded()))
            && (result == Finished ==>
                  sent == [PrintDone(id)]
                  && (o.lastSend == None || forall i: nat :: i < |ds| ==> i in o.queue.AckedSet()))
  {
    hide Fill, Batch, Window;
    var size := Balance(o.batchSize, o.lastBatchAcks, o.lastBatchSize);
    BatchCarries(o.queue, ds, size, Accepted(outcomes, 0, |Batch(o.queue, size)|));
    EmptyBatchMeansAllAcked(o.queue, ds, size);
  }

  lemma AckFacts(ix: Indexing, o: Out, ds: seq<Bytes>, index: nat)
    requires Window(o.queue, ds)
    ensures var o' := AckOut(ix, o, index).0;
            Window(o'.queue, ds) && o'.queue.Loaded() == o.queue.Loaded() && o'.lastSend == o.lastSend
  {
    hide Window;
    DocumentedAckIsExact(o.queue, ds, index);
    AsBuiltAckIsShifted(o.queue, ds, index);
  }

  /** Nothing in the network mentions an id that was never used. */
  lemma FreshId(w: World, id: PacketId)
    requires Base(w) && id !in w.streams
    ensures PrintDone(id) !in w.net
    ensures forall i: U32 :: PrintAck(id, i) !in w.net
    ensures forall last, i: U32, payload :: PrintPart(last, id, i, payload) !in w.net
    ensures id !in w.outgoing && id !in w.incoming
  {
    hide PrintDone, PrintAck, PrintPart, SenderOk, ReceiverOk;
    DoneRoundTrip(id);
    forall i: U32
      ensures PrintAck(id, i) !in w.net
    {
      AckRoundTrip(id, i);
    }
    forall last, i: U32, payload
      ensures PrintPart(last, id, i, payload) !in w.net
    {
      PartRoundTrip(last, id, i, payload);
    }
    assert id !in w.outgoing by { UnknownIdIsNowhere(w, id); }
    assert id !in w.incoming by { UnknownIdIsNowhere(w, id); }
  }

  lemma UnknownIdIsNowhere(w: World, id: PacketId)
    requires Base(w) && id !in w.streams
    ensures id !in w.outgoing && id !in w.incoming
  {
  }

  // ----- Steps -----

  lemma SendKeepsBase(w: World, a: Action)
    requires Base(w) && a.Send? && a.id !in w.streams && Count(a.stream) <= U32_LIMIT
    ensures Base(ApplySend(w, a))
  {
    hide PrintDone, PrintAck, PrintPart, Datagrams, StartOut, Serialized, Genuine, Window, EntryOk, Got;
    var w' := ApplySend(w, a);
    var packet := Serialized(a.id, a.threshold, a.stream);
    var (o, sent) := StartOut(packet, a.batchSize, a.now, a.outcomes, 0);
    FreshId(w, a.id);
    StartFacts(packet, a.batchSize, a.now, a.outcomes);
    GenuineStays(w.streams, w'.streams, w.net);
    AddParts(w'.streams, w.net, a.id, sent, if o.Some? then o.value.queue.Loaded() else Count(a.stream));
    CompletedStays(w, w');
  }

  /** Completions stay completions. */
  lemma CompletedStays(w: World, w': World)
    requires w.completed <= w'.completed
    ensures forall id :: IsCompleted(w, id) ==> IsCompleted(w', id)
  {
    forall id | IsCompleted(w, id)
      ensures IsCompleted(w', id)
    {
      var k :| 0 <= k < |w.completed| && w.completed[k].id == id;
      assert w'.completed[k] == w.completed[k];
    }
  }

  lemma ResendKeepsBase(w: World, a: Action)
    requires Base(w) && a.Resend? && a.id in w.outgoing
    ensures Base(ApplyResend(w, a))
  {
    hide PrintDone, PrintAck, PrintPart, Datagrams, SendSpec.SendPending, Genuine, Window, EntryOk, Got;
    var w' := ApplyResend(w, a);
    var ds := Datagrams(a.id, w.streams[a.id]);
    var (o, result, sent) := SendPending(w.outgoing[a.id], a.id, a.now, a.delay, a.outcomes, 0);
    PendingFacts(w.outgoing[a.id], a.id, ds, a.now, a.delay, a.outcomes);
    if result == Finished {
      AddDone(w.streams, w.net, a.id);
      assert SetOf(sent) == {PrintDone(a.id)};
    } else {
      AddParts(w.streams, w.net, a.id, sent, o.queue.Loaded());
    }
    CompletedStays(w, w');
  }

  lemma PartKeepsBase(guard: Guard, w: World, last: bool, id: PacketId, index: U32, payload: Bytes, now: int,
                      outcome: SendResult)
    requires Base(w) && IsChunk(w.streams, id, index)
    requires last == (index == Count(w.streams[id]) - 1) && payload == Piece(w.streams[id], index)
    requires Datagram(id, w.streams[id], index) in w.net
    ensures Base(ApplyPart(guard, w, last, id, index, payload, now, outcome))
  {
    hide PrintDone, PrintAck, PrintPart, BufferSpec.ReceivePart, EntryOk, Got, Expected, Below,
         StreamsOk, SenderOk, CompletionsOk, ReceiverOk, AllGenuine;
    var stream := w.streams[id];
    var w' := ApplyPart(guard, w, last, id, index, payload, now, outcome);
    EntriesAreOk(w, id);
    PartFollowsSet(guard, w.incoming, id, stream, index, now, outcome);
    PartFollowsSet(guard, w.incoming, id, stream, index, now, WouldBlock);
    var (incoming', result, sent) := ReceivePart(guard, w.incoming, last, id, index, payload, now, outcome);
    if result == PartOk(Panicked) {
      SenderSubsetKeepsBase(w, w');
    } else {
      AddAck(w.streams, w.net, id, index);
      assert sent == [PrintAck(id, index)] ==> SetOf(sent) == {PrintAck(id, index)};
      assert sent == [] ==> w.net + SetOf(sent) == w.net;
      CompletedStays(w, w');
      if w'.completed != w.completed {
        assert w'.completed[|w.completed|].id == id;
      }
      CompletesAtTheEnd(guard, w, w', id, index);
      SenderUnaffected(w, w');
      WholeIsExpected(guard, GotSoFar(w.incoming, id), Count(stream), stream, index);
      CompletionAdded(w, w', id);
      SameStreamsOk(w, w');
    }
  }

  lemma EntriesAreOk(w: World, id: PacketId)
    requires Base(w) && id in w.streams
    ensures id in w.incoming ==> EntryOk(w.incoming[id], w.streams[id])
  {
  }

  lemma SameStreamsOk(w: World, w': World)
    requires StreamsOk(w) && w'.streams == w.streams
    ensures StreamsOk(w')
  {
  }

  lemma WholeIsExpected(guard: Guard, got: set<nat>, n: nat, whole: Bytes, index: nat)
    ensures var expected := Expected(guard, got, n, whole, index);
            expected.Reassembled? ==> expected.payload == whole
  {
  }

  lemma CompletionAdded(w: World, w': World, id: PacketId)
    requires CompletionsOk(w) && w'.streams == w.streams && id in w.streams
    requires w'.completed == w.completed ||
             exists handedOver :: w'.completed == w.completed + [Completion(id, w.streams[id], handedOver)]
    ensures CompletionsOk(w')
  {
  }

  lemma SenderUnaffected(w: World, w': World)
    requires SenderOk(w) && w'.streams == w.streams && w'.outgoing == w.outgoing
    requires forall other :: PrintDone(other) in w'.net ==> PrintDone(other) in w.net
    requires forall other, i: nat :: IsChunk(w.streams, other, i) && Datagram(other, w.streams[other], i) in w'.net ==>
               Datagram(other, w.streams[other], i) in w.net
    ensures SenderOk(w')
  {
    hide PrintDone, Window, Datagrams, Datagram;
  }

  /** The receiver after a part, entry by entry. */
  lemma CompletesAtTheEnd(guard: Guard, w: World, w': World, id: PacketId, index: nat)
    requires ReceiverOk(w) && id in w.streams && w'.streams == w.streams
    requires id in w'.incoming && w'.incoming - {id} == w.incoming - {id}
    requires EntryOk(w'.incoming[id], w.streams[id])
    requires Got(w'.incoming[id]) == GotSoFar(w.incoming, id) + {index}
    requires forall other :: IsCompleted(w, other) ==> IsCompleted(w', other)
    requires Expected(guard, GotSoFar(w.incoming, id), Count(w.streams[id]), w.streams[id], index).Reassembled? ==>
               IsCompleted(w', id)
    requires Expected(guard, GotSoFar(w.incoming, id), Count(w.streams[id]), w.streams[id], index) != Panicked
    ensures ReceiverOk(w')
  {
    hide EntryOk, Got, Expected, IsCompleted;
    forall other | other in w'.incoming
      ensures other in w'.streams && EntryOk(w'.incoming[other], w'.streams[other])
      ensures Got(w'.incoming[other]) == Below(Count(w'.streams[other])) ==> IsCompleted(w', other)
    {
      if other == id {
        if Got(w'.incoming[id]) == Below(Count(w.streams[id])) {
          FullMeansReassembled(guard, GotSoFar(w.incoming, id), Count(w.streams[id]), w.streams[id], index);
        }
        if index in GotSoFar(w.incoming, id) {
          assert Got(w'.incoming[id]) == GotSoFar(w.incoming, id);
        }
      } else {
        assert other in w'.incoming - {id};
        assert other in w.incoming && w.incoming[other] == w'.incoming[other];
      }
    }
  }

  lemma FullMeansReassembled(guard: Guard, got: set<nat>, n: nat, stream: Bytes, index: nat)
    requires Expected(guard, got, n, stream, index) != Panicked
    requires got + {index} == Below(n)
    ensures index in got || Expected(guard, got, n, stream, index).Reassembled?
  {
  }

  lemma DoneKeepsBase(w: World, id: PacketId, forgotten: seq<set<PacketId>>)
    requires Base(w)
    ensures Base(w.(incoming := ForgetIncoming(w.incoming, id), forgotten := forgotten))
  {
    hide OutOk, EntryOk, Got, Genuine;
    CompletedStays(w, w.(incoming := ForgetIncoming(w.incoming, id), forgotten := forgotten));
  }

  /** A genuine part, ack or done, as its reader sees it. */
  lemma GenuinePartView(streams: Streams, net: set<Bytes>, d: Bytes)
    requires Genuine(streams, net, d) && ViewForReceiver(d).PartView?
    ensures var PartView(last, id, index, payload) := ViewForReceiver(d);
            && IsChunk(streams, id, index) && d == Datagram(id, streams[id], index)
            && last == (index == Count(streams[id]) - 1) && payload == Piece(streams[id], index)
  {
    var PartView(last, id, index, payload) := ViewForReceiver(d);
    PartRoundTrip(index == Count(streams[id]) - 1, id, index, Piece(streams[id], index));
  }

  lemma PartIsKnown(w: World, d: Bytes)
    requires Base(w) && d in w.net && d != [] && ViewForReceiver(d).PartView?
    ensures var PartView(last, id, index, payload) := ViewForReceiver(d);
            && IsChunk(w.streams, id, index)
            && last == (index == Count(w.streams[id]) - 1) && payload == Piece(w.streams[id], index)
            && d == Datagram(id, w.streams[id], index)
            && (id in w.incoming ==> EntryOk(w.incoming[id], w.streams[id]))
  {
    assert Genuine(w.streams, w.net, d);
    GenuinePartView(w.streams, w.net, d);
  }

  /** What the arrival of a genuine part changes. */
  lemma PartEffect(guard: Guard, w: World, last: bool, id: PacketId, index: U32, payload: Bytes, now: int,
                   outcome: SendResult)
    requires IsChunk(w.streams, id, index) && (id in w.incoming ==> EntryOk(w.incoming[id], w.streams[id]))
    requires last == (index == Count(w.streams[id]) - 1) && payload == Piece(w.streams[id], index)
    ensures var stream, w' := w.streams[id], ApplyPart(guard, w, last, id, index, payload, now, outcome);
            var expected := Expected(guard, GotSoFar(w.incoming, id), Count(stream), stream, index);
            var added := if expected.Reassembled? then [Completion(id, stream, outcome != Failed)] else [];
            && w'.completed == w.completed + added
            && (expected == Panicked ==> w' == w.(crashed := true))
            && (expected != Panicked ==>
                  && w' == w.(incoming := w'.incoming, net := w'.net, completed := w'.completed)
                  && w'.net == w.net + (if outcome == Sent then {PrintAck(id, index)} else {})
                  && id in w'.incoming && w'.incoming - {id} == w.incoming - {id}
                  && Got(w'.incoming[id]) == GotSoFar(w.incoming, id) + {index})
  {
    hide BufferSpec.ReceivePart, EntryOk, Got, BlockComplete, Below, PrintAck;
    PartFollowsSet(guard, w.incoming, id, w.streams[id], index, now, outcome);
    PartFollowsSet(guard, w.incoming, id, w.streams[id], index, now, WouldBlock);
    assert SetOf([PrintAck(id, index)]) == {PrintAck(id, index)};
    assert w.completed + [] == w.completed;
  }

  lemma ToReceiverKeepsBase(guard: Guard, w: World, a: Action)
    requires Base(w) && a.ToReceiver? && a.datagram in w.net && a.datagram != []
    ensures Base(ApplyToReceiver(guard, w, a))
  {
    hide ViewForReceiver, SenderOk, ReceiverOk, CompletionsOk, ApplyPart;
    match ViewForReceiver(a.datagram)
    case PartView(last, id, index, payload) =>
      GenuinePartView(w.streams, w.net, a.datagram);
      PartKeepsBase(guard, w, last, id, index, payload, a.now, a.outcome);
    case DoneView(id) =>
      DoneKeepsBase(w, id, if id in w.incoming then w.forgotten + [{id}] else w.forgotten);
    case _ =>
  }

  lemma ToSenderKeepsBase(ix: Indexing, w: World, d: Bytes)
    requires Base(w) && d in w.net && d != []
    ensures Base(w.(outgoing := HandleOutgoing(ix, w.outgoing, d).0))
  {
    hide ViewForSender, AckOut, Window, EntryOk, Got, Genuine, Datagrams, PrintPart, PrintDone;
    var w' := w.(outgoing := HandleOutgoing(ix, w.outgoing, d).0);
    CompletedStays(w, w');
    if ViewForSender(d).AckView? && ViewForSender(d).id in w.outgoing {
      var id := ViewForSender(d).id;
      AckFacts(ix, w.outgoing[id], Datagrams(id, w.streams[id]), ViewForSender(d).index);
    }
  }

  /** What the other actions do to the sender: packets stay, go, or are canceled. */
  lemma SenderSubsetKeepsBase(w: World, w': World)
    requires Base(w) && w'.streams == w.streams && w'.net == w.net && w'.completed == w.completed
    requires forall id :: id in w'.outgoing ==> id in w.outgoing && w'.outgoing[id].queue == w.outgoing[id].queue
    requires forall id :: id in w'.incoming ==> id in w.incoming && w'.incoming[id] == w.incoming[id]
    ensures Base(w')
  {
    hide Window, EntryOk, Got, Genuine, Datagrams, PrintPart, PrintDone;
    CompletedStays(w, w');
  }

  lemma StepKeepsBase(v: Variant, w: World, a: Action)
    requires Base(w)
    ensures Base(Apply(v, w, a))
  {
    hide Base, ApplySend, ApplyResend, ApplyToReceiver, HandleOutgoing;
    match a
    case Send(id, stream, _, _, _, _) =>
      if id !in w.streams && Count(stream) <= U32_LIMIT {
        SendKeepsBase(w, a);
      }
    case Resend(id, _, _, _) =>
      if id in w.outgoing {
        ResendKeepsBase(w, a);
      }
    case ToReceiver(datagram, _, _) =>
      if datagram in w.net && datagram != [] {
        ToReceiverKeepsBase(v.guard, w, a);
      }
    case ToSender(datagram) =>
      if datagram in w.net && datagram != [] {
        ToSenderKeepsBase(v.ix, w, datagram);
      }
    case _ => SenderSubsetKeepsBase(w, Apply(v, w, a));
  }

  lemma StartIsBase()
    ensures Base(START)
  {
  }

  lemma {:induction false} RunKeepsBase(v: Variant, w: World, actions: seq<Action>)
    requires Base(w)
    ensures Base(Run(v, w, actions))
    decreases |actions|
  {
    hide Base, Apply;
    if actions != [] {
      StepKeepsBase(v, w, actions[0]);
      RunKeepsBase(v, Apply(v, w, actions[0]), actions[1..]);
    }
  }

  /** End-to-end integrity: in every run, whatever is lost, duplicated, reordered, canceled,
      timed out or created again, and whichever lookup of acks is used, every payload that
      completes under an id is exactly the stream that was serialized under it. */
  lemma Integrity(v: Variant, actions: seq<Action>)
    ensures var w := Run(v, START, actions);
            forall c :: c in w.completed ==> c.id in w.streams && c.payload == w.streams[c.id]
  {
    hide Run;
    StartIsBase();
    RunKeepsBase(v, START, actions);
  }
}
