/** The built lookup of acks, over whole runs: exactly which promises of the protocol it
    keeps, with the runs that break the others. */
module AsBuiltAcks {
  import opened Wire
  import opened Chunking
  import opened Serialize
  import opened Sockets
  import opened SendSpec
  import opened SendRefinement
  import opened ReceiveSpec
  import opened ReassemblyLaws
  import opened BufferSpec
  import opened Counting
  import opened Protocol
  import opened ProtocolBase
  import opened ProtocolSteps
  import opened ProtocolSafety

  const ALL_SENT: Outcomes := _ => Sent

  /** The sender after `k` copies of the ack of chunk 0, as built: each copy has acked the
      next chunk, and nothing else was sent. */
  ghost predicate AfterAcks(w: World, id: PacketId, stream: Bytes, k: nat) {
    && Count(stream) <= U32_LIMIT && k <= Count(stream) && !w.crashed
    && id in w.outgoing
    && w.outgoing[id].queue == Queue(Slots(Datagrams(id, stream))[k..], k, None)
    && w.outgoing[id].lastSend == Some(0)
    && PrintAck(id, 0) in w.net
    && w.streams == map[id := stream] && w.tainted == {}
    && (1 < Count(stream) ==> w.completed == [] && Datagram(id, stream, 1) !in w.net)
    && (1 < Count(stream) ==> id in w.incoming && Got(w.incoming[id]) == {0})
  }

  /** One more copy. */
  lemma AckOnceMore(v: Variant, w: World, id: PacketId, stream: Bytes, k: nat)
    requires v.ix == AsBuilt && AfterAcks(w, id, stream, k) && k < Count(stream)
    ensures AfterAcks(Apply(v, w, ToSender(PrintAck(id, 0))), id, stream, k + 1)
  {
    hide PrintAck, Got, Datagrams;
    AckRoundTrip(id, 0);
    var slots := Slots(Datagrams(id, stream));
    var marked := slots[k..][0 := slots[k].(acked := true)];
    assert !slots[k].acked && (k + 1 < |slots| ==> !marked[1].acked);
    assert FirstUnacked(marked) == 1 by {
      assert marked[1..] == slots[k + 1..];
      assert k + 1 < |slots| ==> !marked[1..][0].acked;
    }
    assert marked[1..] == slots[k + 1..];
  }

  function Copies(a: Action, n: nat): seq<Action> {
    if n == 0 then [] else [a] + Copies(a, n - 1)
  }

  lemma {:induction false} AckManyTimes(v: Variant, w: World, id: PacketId, stream: Bytes, k: nat, n: nat)
    requires v.ix == AsBuilt && AfterAcks(w, id, stream, k) && k + n <= Count(stream)
    ensures AfterAcks(Run(v, w, Copies(ToSender(PrintAck(id, 0)), n)), id, stream, k + n)
    decreases n
  {
    hide AfterAcks, Apply, PrintAck;
    if n != 0 {
      var a := ToSender(PrintAck(id, 0));
      assert Copies(a, n)[1..] == Copies(a, n - 1);
      AckOnceMore(v, w, id, stream, k);
      AckManyTimes(v, Apply(v, w, a), id, stream, k + 1, n - 1);
    }
  }

  /** A packet is sent, its first chunk arrives, and the ack of it is on the network. */
  function Opening(id: PacketId, stream: Bytes): seq<Action>
    requires Count(stream) <= U32_LIMIT
  {
    [Send(id, stream, Count(stream), 1, 0, ALL_SENT), ToReceiver(Datagram(id, stream, 0), 0, Sent)]
  }

  lemma OpeningRuns(v: Variant, id: PacketId, stream: Bytes)
    requires Count(stream) <= U32_LIMIT
    ensures AfterAcks(Run(v, START, Opening(id, stream)), id, stream, 0)
  {
    hide Expected, BufferSpec.ReceivePart, Got, PrintAck, PrintPart, EntryOk;
    var send, arrive := Opening(id, stream)[0], Opening(id, stream)[1];
    var w1 := Apply(v, START, send);
    FirstSend(v, id, stream);
    var w2 := Apply(v, w1, arrive);
    PartRoundTrip(0 == Count(stream) - 1, id, 0, Piece(stream, 0));
    PartFollowsSet(v.guard, map[], id, stream, 0, 0, Sent);
    PartFollowsSet(v.guard, map[], id, stream, 0, 0, WouldBlock);
    FirstChunkIsPending(v.guard, stream);
    assert Opening(id, stream)[1..] == [arrive];
    assert Run(v, w1, [arrive]) == w2;
    assert Slots(Datagrams(id, stream))[0..] == Slots(Datagrams(id, stream));
    assert {} + {0} == {0};
    assert SetOf([PrintAck(id, 0)]) == {PrintAck(id, 0)};
    if 1 < Count(stream) {
      SecondIsNew(w2.streams, id);
    }
  }

  lemma SecondIsNew(streams: Streams, id: PacketId)
    requires IsChunk(streams, id, 1)
    ensures Datagram(id, streams[id], 1) !in {Datagram(id, streams[id], 0), PrintAck(id, 0)}
  {
    hide PrintPart, PrintAck;
    PartIsGenuine(streams, {}, id, 1);
    if Datagram(id, streams[id], 1) == Datagram(id, streams[id], 0) {
      DatagramsDiffer(streams, id, 1, id, 0);
    }
  }

  lemma FirstSend(v: Variant, id: PacketId, stream: Bytes)
    requires Count(stream) <= U32_LIMIT
    ensures var w := Apply(v, START, Send(id, stream, Count(stream), 1, 0, ALL_SENT));
            && id in w.outgoing
            && w.outgoing[id].queue == Queue(Slots(Datagrams(id, stream)), 0, None)
            && w.outgoing[id].lastSend == Some(0)
            && w.net == {Datagram(id, stream, 0)}
            && w.streams == map[id := stream] && w.tainted == {} && w.completed == []
            && w.incoming == map[] && !w.crashed
  {
    hide PrintPart;
    var ds := Datagrams(id, stream);
    var q := NewQueue(InMemory(ds));
    assert Unacked(Slots(ds)) == [ds[0]] + Unacked(Slots(ds)[1..]);
    assert Batch(q, 1) == [ds[0]];
    assert Accepted(ALL_SENT, 0, 1) == 1;
    assert [ds[0]][..1] == [ds[0]];
    assert SetOf([ds[0]]) == {ds[0]};
  }

  lemma FirstChunkIsPending(guard: Guard, stream: Bytes)
    requires Count(stream) <= U32_LIMIT
    ensures Expected(guard, {}, Count(stream), stream, 0) != Panicked
    ensures 1 < Count(stream) ==> Expected(guard, {}, Count(stream), stream, 0) == Pending
  {
    hide BlockComplete;
    assert 1 < Count(stream) ==> 1 in Below(Count(stream)) && 1 !in {} + {0};
    assert Count(stream) == 1 ==> {} + {0} == Below(1);
  }

  /** As built, as many copies of the ack of the first chunk as there are chunks make the
      sender declare a packet done of which the receiver has just that chunk. */
  lemma DoneTooEarly(v: Variant, id: PacketId, stream: Bytes) returns (actions: seq<Action>)
    requires v.ix == AsBuilt && 1 < Count(stream) <= U32_LIMIT
    ensures var w := Run(v, START, actions);
            && w.streams == map[id := stream] && w.tainted == {} && PrintDone(id) in w.net
            && id in w.incoming && Got(w.incoming[id]) == {0} && !IsCompleted(w, id)
  {
    hide Got, PrintAck, PrintDone, Run;
    var n := Count(stream);
    var acks := Copies(ToSender(PrintAck(id, 0)), n);
    var resend := Resend(id, 0, 0, ALL_SENT);
    OpeningRuns(v, id, stream);
    var w0 := Run(v, START, Opening(id, stream));
    AckManyTimes(v, w0, id, stream, 0, n);
    var w1 := Run(v, w0, acks);
    RunConcat(v, START, Opening(id, stream), acks);
    RunConcat(v, START, Opening(id, stream) + acks, [resend]);
    actions := Opening(id, stream) + acks + [resend];
    assert Slots(Datagrams(id, stream))[n..] == [];
    LastResend(v, w1, id, stream, resend);
  }

  lemma LastResend(v: Variant, w: World, id: PacketId, stream: Bytes, resend: Action)
    requires AfterAcks(w, id, stream, Count(stream)) && resend == Resend(id, 0, 0, ALL_SENT)
    requires Slots(Datagrams(id, stream))[Count(stream)..] == []
    ensures var w' := Run(v, w, [resend]);
            && PrintDone(id) in w'.net && w'.streams == w.streams && w'.tainted == w.tainted
            && w'.incoming == w.incoming && w'.completed == w.completed
  {
    hide PrintDone, PrintAck, Got, Datagrams;
    var o := w.outgoing[id];
    assert Batch(o.queue, Balance(o.batchSize, o.lastBatchAcks, o.lastBatchSize)) == [];
    assert [PrintDone(id)][0] == PrintDone(id);
    assert Run(v, w, [resend]) == Apply(v, w, resend);
  }

  /** `Done` is sound for a stream in every run. */
  ghost predicate DoneAlwaysSound(v: Variant, stream: Bytes) {
    forall actions, id ::
      var w := Run(v, START, actions);
      id in w.streams && w.streams[id] == stream && id !in w.tainted && PrintDone(id) in w.net ==> IsCompleted(w, id)
  }

  /** Exactly when `Done` is sound: always with the documented offset, and as built for
      packets that fit a single chunk of 491 bytes. */
  lemma DoneSoundExactly(v: Variant, stream: Bytes)
    requires Count(stream) <= U32_LIMIT
    ensures DoneAlwaysSound(v, stream) <==> v.ix == Documented || |stream| <= 491
  {
    hide Run, IsCompleted, PrintDone, Got;
    if v.ix == Documented || |stream| <= PART_PAYLOAD {
      assert LookupExact(v.ix, Count(stream));
      forall actions, id |
        var w := Run(v, START, actions);
        id in w.streams && w.streams[id] == stream && id !in w.tainted && PrintDone(id) in w.net
        ensures IsCompleted(Run(v, START, actions), id)
      {
        DoneSoundness(v, actions, id);
      }
    } else {
      var id: PacketId := seq(16, _ => 0);
      var actions := DoneTooEarly(v, id, stream);
      var w := Run(v, START, actions);
      assert id in w.streams && w.streams[id] == stream;
    }
  }

  /** Every chunk that the sender of a stream holds as acked is there, in every run. */
  ghost predicate AcksAlwaysSound(v: Variant, stream: Bytes) {
    forall actions, id, i: nat ::
      var w := Run(v, START, actions);
      && id in w.outgoing && id !in w.tainted && id in w.streams && w.streams[id] == stream
      && i in w.outgoing[id].queue.AckedSet() ==>
        id in w.incoming && i in Got(w.incoming[id])
  }

  /** As built, two copies of the ack of chunk 0 make the sender hold chunk 1 as acked. */
  lemma AckOfUnseen(v: Variant, id: PacketId, stream: Bytes) returns (actions: seq<Action>)
    requires v.ix == AsBuilt && 1 < Count(stream) <= U32_LIMIT
    ensures var w := Run(v, START, actions);
            && id in w.outgoing && w.streams == map[id := stream] && w.tainted == {}
            && 1 in w.outgoing[id].queue.AckedSet()
            && id in w.incoming && Got(w.incoming[id]) == {0}
  {
    hide Got, PrintAck, Run;
    var acks := Copies(ToSender(PrintAck(id, 0)), 2);
    OpeningRuns(v, id, stream);
    AckManyTimes(v, Run(v, START, Opening(id, stream)), id, stream, 0, 2);
    RunConcat(v, START, Opening(id, stream), acks);
    actions := Opening(id, stream) + acks;
    var q := Run(v, START, actions).outgoing[id].queue;
    assert q.CountsAsAcked(1) && 1 < q.Loaded();
  }

  /** Exactly when acks are sound: always with the documented offset, and as built for
      packets that fit a single chunk of 491 bytes. */
  lemma AckSoundExactly(v: Variant, stream: Bytes)
    requires Count(stream) <= U32_LIMIT
    ensures AcksAlwaysSound(v, stream) <==> v.ix == Documented || |stream| <= 491
  {
    hide Run, Got, PrintAck, Queue.AckedSet;
    if v.ix == Documented || |stream| <= PART_PAYLOAD {
      assert LookupExact(v.ix, Count(stream));
      forall actions, id, i: nat |
        var w := Run(v, START, actions);
        && id in w.outgoing && id !in w.tainted && id in w.streams && w.streams[id] == stream
        && i in w.outgoing[id].queue.AckedSet()
        ensures var w := Run(v, START, actions);
                id in w.incoming && i in Got(w.incoming[id])
      {
        AckSoundness(v, actions, id, i);
      }
    } else {
      var id: PacketId := seq(16, _ => 0);
      var actions := AckOfUnseen(v, id, stream);
      var w := Run(v, START, actions);
      assert id in w.streams && w.streams[id] == stream && 1 !in Got(w.incoming[id]);
    }
  }

  /** The sender can be made to report an ack of something it never sent. */
  ghost predicate CanReportUnsent(v: Variant, stream: Bytes) {
    exists actions, d ::
      var w := Run(v, START, actions);
      && d in w.net && d != [] && ViewForSender(d).AckView?
      && ViewForSender(d).id in w.streams && w.streams[ViewForSender(d).id] == stream
      && HandleOutgoing(v.ix, w.outgoing, d).1 == Some(HandledAck(AckedBeforeSent))
  }

  /** With the documented offset `SeqIndexAckedBeforeSent` is unreachable. */
  lemma NeverAckedBeforeSent(v: Variant, actions: seq<Action>, d: Bytes)
    requires v.ix == Documented && d in Run(v, START, actions).net && d != []
    ensures HandleOutgoing(v.ix, Run(v, START, actions).outgoing, d).1 !=
            Some(HandledAck(AckedBeforeSent))
  {
    hide Run, ViewForSender, Window, Datagrams, AckQueue;
    StartIsBase();
    RunKeepsBase(v, START, actions);
    var w := Run(v, START, actions);
    if ViewForSender(d).AckView? && ViewForSender(d).id in w.outgoing {
      var AckView(id, index) := ViewForSender(d);
      AckIsGenuine(w, d);
      assert OutOk(w.outgoing[id], id, w.streams[id], w.net);
      DocumentedAckIsExact(w.outgoing[id].queue, Datagrams(id, w.streams[id]), index);
    }
  }

  /** As built it is reachable for every packet: by one ack of its only chunk too many, or
      by as many copies of an ack as there are chunks. */
  lemma UnsentReportedExactly(v: Variant, stream: Bytes)
    requires Count(stream) <= U32_LIMIT
    ensures CanReportUnsent(v, stream) <==> v.ix == AsBuilt
  {
    hide Run, PrintAck, Got, Opening;
    if v.ix == AsBuilt {
      var id: PacketId := seq(16, _ => 0);
      var acks := Copies(ToSender(PrintAck(id, 0)), Count(stream));
      OpeningRuns(v, id, stream);
      AckManyTimes(v, Run(v, START, Opening(id, stream)), id, stream, 0, Count(stream));
      RunConcat(v, START, Opening(id, stream), acks);
      AckRoundTrip(id, 0);
      var w := Run(v, START, Opening(id, stream) + acks);
      assert Slots(Datagrams(id, stream))[Count(stream)..] == [];
      assert HandleOutgoing(v.ix, w.outgoing, PrintAck(id, 0)).1 == Some(HandledAck(AckedBeforeSent));
      assert CanReportUnsent(v, stream);
    } else {
      forall actions, d | d in Run(v, START, actions).net && d != []
        ensures HandleOutgoing(v.ix, Run(v, START, actions).outgoing, d).1 != Some(HandledAck(AckedBeforeSent))
      {
        NeverAckedBeforeSent(v, actions, d);
      }
    }
  }
}
