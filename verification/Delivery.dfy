/** The safety results are not empty: in every variant, every packet can be delivered in
    full and forgotten by its sender, with nothing but sends, arrivals and resends,
    whatever the threshold and the first batch size. */
module Delivery {
  import opened Wire
  import opened Chunking
  import opened Serialize
  import opened Sockets
  import opened SendSpec
  import opened SendRefinement
  import opened ReceiveSpec
  import opened ReassemblyLaws
  import opened BufferSpec
  import opened Counting
  import opened Protocol
  import opened ProtocolBase
  import opened ProtocolSteps
  import opened AsBuiltAcks

  /** The ack that makes the sender hold chunk `k` as acked when exactly the chunks before
      it are: its own with the offset, as built always that of chunk 0. */
  function AckFor(ix: Indexing, k: nat): nat {
    if ix == Documented then k else 0
  }

  /** The first `k` chunks have arrived, and the next one is on the network. */
  ghost predicate Arriving(w: World, id: PacketId, stream: Bytes, k: nat) {
    && k < Count(stream) <= U32_LIMIT && Base(w) && !w.crashed
    && w.streams == map[id := stream] && w.tainted == {} && w.completed == []
    && Datagram(id, stream, k) in w.net
    && GotSoFar(w.incoming, id) == Below(k)
  }

  /** And the first `k` chunks are acked. */
  ghost predicate Halfway(w: World, id: PacketId, stream: Bytes, k: nat) {
    && Arriving(w, id, stream, k)
    && id in w.outgoing && w.outgoing[id].lastSend.Some? && w.outgoing[id].queue.AckedSet() == Below(k)
    && (0 < k ==> PrintAck(id, 0) in w.net)
  }

  /** The packet completed once, and the sender is done with it. */
  ghost predicate Ended(w: World, id: PacketId, stream: Bytes, handedOver: bool) {
    && w.completed == [Completion(id, stream, handedOver)]
    && w.streams == map[id := stream]
    && PrintDone(id) in w.net && id !in w.outgoing && w.tainted == {}
  }

  /** Everything before an index is acked, and the index itself is not. */
  ghost predicate IsLowestOpen(acked: set<nat>, a: nat) {
    a !in acked && forall i: nat :: i < a ==> i in acked
  }

  /** A batch begins with the lowest datagram that is not acked. */
  lemma LowestIsFirst(q: Queue, ds: seq<Bytes>, a: nat, size: NonZeroBatchSize)
    requires Window(q, ds) && IsLowestOpen(q.AckedSet(), a) && a < |ds|
    ensures Batch(q, size) != [] && Batch(q, size)[0] == ds[a]
  {
    hide Fill, Batch, Window, Queue.AckedSet;
    BatchIsLowestOpen(q, ds, size);
    OpenSkipsAcked(q.AckedSet(), 0, a);
    OpenSplits(q.AckedSet(), 0, a, |ds|);
    assert Open(q.AckedSet(), a, |ds|)[0] == a;
  }

  /** A due resend that nothing blocks puts the lowest missing datagram on the network, or
      finishes the packet. */
  lemma ResendLowest(o: Out, id: PacketId, ds: seq<Bytes>, a: nat)
    requires Window(o.queue, ds) && IsLowestOpen(o.queue.AckedSet(), a) && a <= |ds| && o.lastSend.Some?
    ensures var (o', result, sent) := SendPending(o, id, 0, 0, ALL_SENT, 0);
            && o'.lastSend.Some? && o'.queue.AckedSet() == o.queue.AckedSet()
            && (a < |ds| ==> result == Kept && ds[a] in sent)
            && (a == |ds| ==> result == Finished && sent == [PrintDone(id)])
  {
    hide Fill, Batch, Window, Queue.AckedSet;
    var size := Balance(o.batchSize, o.lastBatchAcks, o.lastBatchSize);
    PendingFacts(o, id, ds, 0, 0, ALL_SENT);
    AcceptedAll(ALL_SENT, 0, |Batch(o.queue, size)|);
    if a < |ds| {
      LowestIsFirst(o.queue, ds, a, size);
    } else {
      EmptyBatchMeansAllAcked(o.queue, ds, size);
    }
  }

  lemma FirstSendIsHalfway(v: Variant, id: PacketId, stream: Bytes, threshold: nat, b: NonZeroBatchSize)
    requires Count(stream) <= U32_LIMIT
    ensures Halfway(Apply(v, START, Send(id, stream, threshold, b, 0, ALL_SENT)), id, stream, 0)
  {
    hide Fill, Batch, Window, Base, Queue.AckedSet, Datagram, Serialized;
    var a := Send(id, stream, threshold, b, 0, ALL_SENT);
    var packet := Serialized(id, threshold, stream);
    var q := NewQueue(packet);
    StartIsBase();
    StepKeepsBase(v, START, a);
    NewQueueIsWindow(packet);
    assert q.AckedSet() == Below(0);
    LowestIsFirst(q, packet.Content(), 0, b);
    AcceptedAll(ALL_SENT, 0, |Batch(q, b)|);
    StartFacts(packet, b, 0, ALL_SENT);
    assert Batch(q, b)[..|Batch(q, b)|] == Batch(q, b);
    assert Batch(q, b)[0] in Batch(q, b);
    assert packet.Content()[0] == Datagram(id, stream, 0);
  }

  /** Chunk `k` arrives: it completes the packet exactly if it is the last one, and then
      the payload is handed over unless the ack failed. */
  lemma ChunkArrives(v: Variant, w: World, id: PacketId, stream: Bytes, k: nat, outcome: SendResult)
    requires Arriving(w, id, stream, k) && (k + 1 < Count(stream) || Count(stream) < U32_LIMIT)
    ensures var w' := Apply(v, w, ToReceiver(Datagram(id, stream, k), 0, outcome));
            && Base(w') && !w'.crashed && w'.outgoing == w.outgoing && w'.streams == w.streams && w'.tainted == {}
            && w'.net == w.net + (if outcome == Sent then {PrintAck(id, k)} else {})
            && w'.completed == (if k + 1 == Count(stream) then [Completion(id, stream, outcome != Failed)] else [])
            && GotSoFar(w'.incoming, id) == Below(k + 1)
  {
    hide Base, PrintPart, PrintAck, PrintDone, ApplyPart, Got, EntryOk, Expected, Queue.AckedSet, Below;
    var a := ToReceiver(Datagram(id, stream, k), 0, outcome);
    StepKeepsBase(v, w, a);
    PartRoundTrip(k == Count(stream) - 1, id, k, Piece(stream, k));
    EntriesAreOk(w, id);
    PartEffect(v.guard, w, k == Count(stream) - 1, id, k, Piece(stream, k), 0, outcome);
    NextInOrder(v.guard, stream, k);
  }

  lemma NextInOrder(guard: Guard, stream: Bytes, k: nat)
    requires k < Count(stream) <= U32_LIMIT
    ensures Below(k) + {k} == Below(k + 1)
    ensures Expected(guard, Below(k), Count(stream), stream, k) ==
            if k + 1 < Count(stream) then Pending
            else if Count(stream) < U32_LIMIT then Reassembled(stream)
            else Panicked
  {
    hide BlockComplete;
    assert Below(k) + {k} == Below(k + 1);
    assert k + 1 < Count(stream) ==> k + 1 in Below(Count(stream)) && k + 1 !in Below(k + 1);
  }

  /** An ack arrives that acks chunk `k`. */
  lemma AckArrives(v: Variant, w: World, id: PacketId, stream: Bytes, k: nat)
    requires Base(w) && w.streams == map[id := stream] && k < Count(stream) <= U32_LIMIT
    requires id in w.outgoing && w.outgoing[id].lastSend.Some? && w.outgoing[id].queue.AckedSet() == Below(k)
    requires Datagram(id, stream, k) in w.net && PrintAck(id, AckFor(v.ix, k)) in w.net
    ensures var w' := Apply(v, w, ToSender(PrintAck(id, AckFor(v.ix, k))));
            && Base(w') && w' == w.(outgoing := w'.outgoing)
            && id in w'.outgoing && w'.outgoing[id].lastSend.Some? && w'.outgoing[id].queue.AckedSet() == Below(k + 1)
  {
    hide Base, Queue.AckedSet, PrintAck, Datagram, AckOut, Below, ViewForSender;
    var index := AckFor(v.ix, k);
    StepKeepsBase(v, w, ToSender(PrintAck(id, index)));
    AckRoundTrip(id, index);
    SentIsLoaded(w, id, stream, k);
    AckLowest(v.ix, w.outgoing[id], Datagrams(id, stream), k);
    assert HandleOutgoing(v.ix, w.outgoing, PrintAck(id, index)).0 ==
           w.outgoing[id := AckOut(v.ix, w.outgoing[id], index).0];
  }

  lemma SentIsLoaded(w: World, id: PacketId, stream: Bytes, k: nat)
    requires Base(w) && id in w.streams && w.streams[id] == stream && k < Count(stream) <= U32_LIMIT
    requires id in w.outgoing && Datagram(id, stream, k) in w.net
    ensures Window(w.outgoing[id].queue, Datagrams(id, stream)) && k < w.outgoing[id].queue.Loaded()
  {
    hide Window, Datagrams, Datagram, AllGenuine, ReceiverOk;
    assert OutOk(w.outgoing[id], id, stream, w.net);
  }

  /** The front of the deque is the lowest index that is not acked. */
  lemma FrontIsLowest(q: Queue, ds: seq<Bytes>, k: nat)
    requires Window(q, ds) && q.AckedSet() == Below(k) && k < q.Loaded()
    ensures q.first == k && 0 < |q.packets|
  {
    assert q.packets != [] ==> !q.CountsAsAcked(q.first);
    assert k !in q.AckedSet() && (q.first < k ==> q.first in q.AckedSet());
    assert k < q.first ==> q.CountsAsAcked(k);
  }

  lemma AckLowest(ix: Indexing, o: Out, ds: seq<Bytes>, k: nat)
    requires Window(o.queue, ds) && o.queue.AckedSet() == Below(k) && k < o.queue.Loaded()
    ensures var o' := AckOut(ix, o, AckFor(ix, k)).0;
            o'.queue.AckedSet() == Below(k + 1) && o'.lastSend == o.lastSend
  {
    hide Window, Queue.AckedSet, AckQueue;
    FrontIsLowest(o.queue, ds, k);
    DocumentedAckIsExact(o.queue, ds, k);
    AsBuiltAckIsShifted(o.queue, ds, 0);
    assert Below(k) + {k} == Below(k + 1);
  }

  lemma ResendFollows(v: Variant, w: World, id: PacketId, stream: Bytes, k: nat)
    requires Base(w) && w.streams == map[id := stream] && k <= Count(stream) <= U32_LIMIT
    requires id in w.outgoing && w.outgoing[id].lastSend.Some? && w.outgoing[id].queue.AckedSet() == Below(k)
    ensures var w' := Apply(v, w, Action.Resend(id, 0, 0, ALL_SENT));
            && Base(w') && w' == w.(outgoing := w'.outgoing, net := w'.net) && w.net <= w'.net
            && (k < Count(stream) ==>
                  && id in w'.outgoing && w'.outgoing[id].lastSend.Some? && w'.outgoing[id].queue.AckedSet() == Below(k)
                  && Datagram(id, stream, k) in w'.net)
            && (k == Count(stream) ==> id !in w'.outgoing && PrintDone(id) in w'.net)
  {
    hide Queue.AckedSet, PrintDone, PrintPart, Window, SendSpec.SendPending;
    StepKeepsBase(v, w, Action.Resend(id, 0, 0, ALL_SENT));
    assert OutOk(w.outgoing[id], id, stream, w.net);
    ResendLowest(w.outgoing[id], id, Datagrams(id, stream), k);
    assert [PrintDone(id)][0] == PrintDone(id);
  }

  lemma RunCons(v: Variant, w: World, first: Action, rest: seq<Action>)
    ensures Run(v, w, [first] + rest) == Run(v, Apply(v, w, first), rest)
  {
    hide Apply;
    assert ([first] + rest)[1..] == rest;
  }

  /** The ack of chunk `k`, and the resend that follows it. */
  function Answer(ix: Indexing, id: PacketId, k: nat): seq<Action>
    requires k < U32_LIMIT
  {
    [ToSender(PrintAck(id, AckFor(ix, k)))] + [Action.Resend(id, 0, 0, ALL_SENT)]
  }

  /** Chunk `k` has arrived, and an ack that acks it is on the network. */
  ghost predicate Answerable(v: Variant, w: World, id: PacketId, stream: Bytes, k: nat) {
    && k < Count(stream) <= U32_LIMIT && Base(w) && !w.crashed
    && w.streams == map[id := stream] && w.tainted == {}
    && id in w.outgoing && w.outgoing[id].lastSend.Some? && w.outgoing[id].queue.AckedSet() == Below(k)
    && Datagram(id, stream, k) in w.net && PrintAck(id, AckFor(v.ix, k)) in w.net
  }

  lemma AnswerRuns(v: Variant, w: World, id: PacketId, stream: Bytes, k: nat)
    requires Answerable(v, w, id, stream, k)
    ensures var w' := Run(v, w, Answer(v.ix, id, k));
            && Base(w') && w' == w.(outgoing := w'.outgoing, net := w'.net) && w.net <= w'.net
            && (k + 1 < Count(stream) ==>
                  && id in w'.outgoing && w'.outgoing[id].lastSend.Some?
                  && w'.outgoing[id].queue.AckedSet() == Below(k + 1)
                  && Datagram(id, stream, k + 1) in w'.net)
            && (k + 1 == Count(stream) ==> id !in w'.outgoing && PrintDone(id) in w'.net)
  {
    hide Base, Apply, Run, Queue.AckedSet, PrintAck, PrintDone, Datagram, Below;
    var ack, resend := ToSender(PrintAck(id, AckFor(v.ix, k))), Action.Resend(id, 0, 0, ALL_SENT);
    AckArrives(v, w, id, stream, k);
    ResendFollows(v, Apply(v, w, ack), id, stream, k + 1);
    RunCons(v, w, ack, [resend]);
    assert [resend] == [resend] + [];
    RunCons(v, Apply(v, w, ack), resend, []);
    RunOfNone(v, Apply(v, Apply(v, w, ack), resend));
  }

  lemma RunOfNone(v: Variant, w: World)
    ensures Run(v, w, []) == w
  {
  }

  function RoundOf(ix: Indexing, id: PacketId, stream: Bytes, k: nat): seq<Action>
    requires k < Count(stream) <= U32_LIMIT
  {
    [ToReceiver(Datagram(id, stream, k), 0, Sent)] + Answer(ix, id, k)
  }

  lemma RoundAdvances(v: Variant, w: World, id: PacketId, stream: Bytes, k: nat)
    requires Halfway(w, id, stream, k) && (k + 1 < Count(stream) || Count(stream) < U32_LIMIT)
    ensures var w' := Run(v, w, RoundOf(v.ix, id, stream, k));
            if k + 1 < Count(stream) then Halfway(w', id, stream, k + 1) else Ended(w', id, stream, true)
  {
    hide Base, Apply, Run, Queue.AckedSet, PrintAck, PrintDone, Datagram, Got, Below, Answer;
    var arrive := ToReceiver(Datagram(id, stream, k), 0, Sent);
    ChunkArrives(v, w, id, stream, k, Sent);
    AnswerRuns(v, Apply(v, w, arrive), id, stream, k);
    RunCons(v, w, arrive, Answer(v.ix, id, k));
  }

  /** Rounds lead from chunk `k` to chunk `m`. */
  lemma {:induction false} RoundsAdvance(v: Variant, w: World, id: PacketId, stream: Bytes, k: nat, m: nat)
      returns (actions: seq<Action>)
    requires Halfway(w, id, stream, k) && k <= m < Count(stream)
    ensures Halfway(Run(v, w, actions), id, stream, m)
    decreases m - k
  {
    hide Halfway, Run, RoundOf;
    if k == m {
      actions := [];
      RunOfNone(v, w);
    } else {
      HalfwayIsWithin(w, id, stream, k);
      var round := RoundOf(v.ix, id, stream, k);
      RoundAdvances(v, w, id, stream, k);
      var rest := RoundsAdvance(v, Run(v, w, round), id, stream, k + 1, m);
      RunConcat(v, w, round, rest);
      actions := round + rest;
    }
  }

  lemma HalfwayIsWithin(w: World, id: PacketId, stream: Bytes, k: nat)
    requires Halfway(w, id, stream, k)
    ensures k < Count(stream) <= U32_LIMIT
  {
  }

  /** A send, and rounds up to the last chunk. */
  lemma ReachLastChunk(v: Variant, id: PacketId, stream: Bytes, threshold: nat, b: NonZeroBatchSize)
      returns (actions: seq<Action>)
    requires Count(stream) <= U32_LIMIT
    ensures actions != [] && actions[0] == Send(id, stream, threshold, b, 0, ALL_SENT)
    ensures Halfway(Run(v, START, actions), id, stream, Count(stream) - 1)
  {
    hide Halfway, Run, Apply;
    var first := Send(id, stream, threshold, b, 0, ALL_SENT);
    FirstSendIsHalfway(v, id, stream, threshold, b);
    var rest := RoundsAdvance(v, Apply(v, START, first), id, stream, 0, Count(stream) - 1);
    RunCons(v, START, first, rest);
    actions := [first] + rest;
  }

  /** Every packet of fewer than 2^32 chunks can be delivered, with either lookup: as built
      by one copy of the ack of chunk 0 for each chunk. */
  lemma EveryPacketCanBeDelivered(v: Variant, id: PacketId, stream: Bytes, threshold: nat, b: NonZeroBatchSize)
    requires Count(stream) < U32_LIMIT
    ensures exists actions ::
              && actions != [] && actions[0] == Send(id, stream, threshold, b, 0, ALL_SENT)
              && Ended(Run(v, START, actions), id, stream, true)
  {
    hide Halfway, Ended, Run, RoundOf;
    var actions := ReachLastChunk(v, id, stream, threshold, b);
    var last := RoundOf(v.ix, id, stream, Count(stream) - 1);
    RoundAdvances(v, Run(v, START, actions), id, stream, Count(stream) - 1);
    RunConcat(v, START, actions, last);
    assert (actions + last)[0] == actions[0];
  }
}
