/** Whether what happened so far can keep a packet from being delivered: exactly when, from
    every reachable world, some continuation completes it and ends with its `Done`. */
module Progress {
  import opened Wire
  import opened Chunking
  import opened Serialize
  import opened Sockets
  import opened SendSpec
  import opened SendRefinement
  import opened ReceiveSpec
  import opened ReassemblyLaws
  import opened BufferSpec
  import opened Counting
  import opened Protocol
  import opened ProtocolBase
  import opened ProtocolSteps
  import opened ProtocolSafety
  import opened AsBuiltAcks
  import opened Delivery
  import opened LostPayloads
  import opened Panics

  /** A packet that is neither done, nor canceled, nor timed out by the receiver. */
  ghost predicate Underway(v: Variant, w: World, id: PacketId, stream: Bytes) {
    && Base(w) && Sound(v.ix, w) && !w.crashed
    && id in w.outgoing && id in w.streams && w.streams[id] == stream && id !in w.tainted
  }

  /** It has completed and is done, and it was not canceled or timed out by the receiver. */
  ghost predicate Concluded(w: World, id: PacketId) {
    !w.crashed && id !in w.tainted && PrintDone(id) in w.net && IsCompleted(w, id)
  }

  ghost predicate CanFinish(v: Variant, w: World, id: PacketId) {
    exists more :: Concluded(Run(v, w, more), id)
  }

  // ----- The lowest missing chunk makes it -----

  lemma SenderIsAlive(v: Variant, w: World, id: PacketId, stream: Bytes)
    requires Underway(v, w, id, stream)
    ensures w.outgoing[id].lastSend.Some?
    ensures Count(stream) <= U32_LIMIT && Window(w.outgoing[id].queue, Datagrams(id, stream))
    ensures forall i: nat :: i in w.outgoing[id].queue.AckedSet() ==> i < Count(stream)
  {
    hide PrintDone, PrintAck, Window, Datagrams, Got;
    assert OutOk(w.outgoing[id], id, stream, w.net);
    forall i: nat | i in w.outgoing[id].queue.AckedSet()
      ensures i < Count(stream)
    {
      AckedIsBelow(w.outgoing[id].queue, Datagrams(id, stream), i);
    }
  }

  lemma StepKeepsUnderway(v: Variant, w: World, a: Action)
    requires Base(w) && Sound(v.ix, w)
    ensures Base(Apply(v, w, a)) && Sound(v.ix, Apply(v, w, a))
  {
    hide Base, Sound, Apply;
    StepKeepsBase(v, w, a);
    StepKeepsSound(v, w, a);
  }

  lemma LowestIsResent(v: Variant, w: World, id: PacketId, stream: Bytes, k: nat)
    requires Underway(v, w, id, stream) && k <= Count(stream)
    requires IsLowestOpen(w.outgoing[id].queue.AckedSet(), k)
    ensures var w' := Apply(v, w, Resend(id, 0, 0, ALL_SENT));
            && Base(w') && Sound(v.ix, w') && w' == w.(outgoing := w'.outgoing, net := w'.net)
            && (k < Count(stream) ==>
                  && id in w'.outgoing && w'.outgoing[id].queue.AckedSet() == w.outgoing[id].queue.AckedSet()
                  && Datagram(id, stream, k) in w'.net)
            && (k == Count(stream) ==> PrintDone(id) in w'.net)
  {
    hide Base, Sound, Queue.AckedSet, PrintDone, PrintPart, Window, SendSpec.SendPending;
    StepKeepsUnderway(v, w, Resend(id, 0, 0, ALL_SENT));
    SenderIsAlive(v, w, id, stream);
    ResendLowest(w.outgoing[id], id, Datagrams(id, stream), k);
    assert [PrintDone(id)][0] == PrintDone(id);
  }

  lemma ChunkIsAnswered(v: Variant, w: World, id: PacketId, stream: Bytes, k: nat)
    requires Underway(v, w, id, stream) && k < Count(stream) && Datagram(id, stream, k) in w.net
    requires !Panicking(v.guard, Count(stream))
    ensures var w' := Apply(v, w, ToReceiver(Datagram(id, stream, k), 0, Sent));
            && Underway(v, w', id, stream) && w'.outgoing == w.outgoing
            && Datagram(id, stream, k) in w'.net && PrintAck(id, k) in w'.net
  {
    hide Base, Sound, PrintPart, PrintAck, ApplyPart, Got, EntryOk, Expected, GotSoFar, Panicking;
    SenderIsAlive(v, w, id, stream);
    StepKeepsUnderway(v, w, ToReceiver(Datagram(id, stream, k), 0, Sent));
    PartRoundTrip(k == Count(stream) - 1, id, k, Piece(stream, k));
    EntriesAreOk(w, id);
    GotIsWithin(w, id);
    OthersDoNotPanic(v.guard, GotSoFar(w.incoming, id), Count(stream), stream, k);
    PartEffect(v.guard, w, k == Count(stream) - 1, id, k, Piece(stream, k), 0, Sent);
  }

  lemma AckIsTaken(v: Variant, w: World, id: PacketId, stream: Bytes, k: nat)
    requires Underway(v, w, id, stream) && k < Count(stream) && LookupExact(v.ix, Count(stream))
    requires Datagram(id, stream, k) in w.net && PrintAck(id, k) in w.net
    requires k !in w.outgoing[id].queue.AckedSet() && k < U32_LIMIT
    ensures var w' := Apply(v, w, ToSender(PrintAck(id, k)));
            && Underway(v, w', id, stream)
            && w'.outgoing[id].queue.AckedSet() == w.outgoing[id].queue.AckedSet() + {k}
  {
    hide Base, Sound, PrintAck, Datagram, ViewForSender, Window, Queue.AckedSet, AckQueue;
    StepKeepsUnderway(v, w, ToSender(PrintAck(id, k)));
    AckRoundTrip(id, k);
    SenderIsAlive(v, w, id, stream);
    var q, ds := w.outgoing[id].queue, Datagrams(id, stream);
    SentChunkIsLoaded(w, id, stream, k);
    LookupsAgree(v.ix, q, ds, k);
    DocumentedAckIsExact(q, ds, k);
  }

  lemma SentChunkIsLoaded(w: World, id: PacketId, stream: Bytes, k: nat)
    requires Base(w) && id in w.streams && w.streams[id] == stream && k < Count(stream)
    requires id in w.outgoing && Datagram(id, stream, k) in w.net
    ensures k < w.outgoing[id].queue.Loaded()
  {
    hide Window, Datagrams, Datagram, AllGenuine, ReceiverOk;
    assert OutOk(w.outgoing[id], id, stream, w.net);
  }

  /** The lowest missing chunk is resent, arrives and is acked. */
  lemma LowestIsAcked(v: Variant, w: World, id: PacketId, stream: Bytes, k: nat) returns (actions: seq<Action>)
    requires Underway(v, w, id, stream) && k < Count(stream)
    requires IsLowestOpen(w.outgoing[id].queue.AckedSet(), k)
    requires LookupExact(v.ix, Count(stream)) && !Panicking(v.guard, Count(stream))
    ensures var w' := Run(v, w, actions);
            && Underway(v, w', id, stream)
            && w'.outgoing[id].queue.AckedSet() == w.outgoing[id].queue.AckedSet() + {k}
  {
    hide Base, Sound, Apply, Run, Queue.AckedSet, PrintAck, Datagram, LookupExact, Panicking;
    SenderIsAlive(v, w, id, stream);
    var resend := Resend(id, 0, 0, ALL_SENT);
    var arrive := ToReceiver(Datagram(id, stream, k), 0, Sent);
    var ack := ToSender(PrintAck(id, k));
    var w1 := Apply(v, w, resend);
    var w2 := Apply(v, w1, arrive);
    LowestIsResent(v, w, id, stream, k);
    ChunkIsAnswered(v, w1, id, stream, k);
    AckIsTaken(v, w2, id, stream, k);
    RunOnce(v, w2, ack);
    RunCons(v, w1, arrive, [ack]);
    RunCons(v, w, resend, [arrive] + [ack]);
    actions := [resend] + ([arrive] + [ack]);
  }

  /** The lowest index that is not acked, or `n`. */
  ghost function LowestOpenIndex(acked: set<nat>, from: nat, n: nat): (k: nat)
    requires from <= n && n !in acked && forall i: nat :: i < from ==> i in acked
    ensures k <= n && IsLowestOpen(acked, k)
    decreases n - from
  {
    if from !in acked then from else LowestOpenIndex(acked, from + 1, n)
  }

  lemma DoneIsCompleted(v: Variant, w: World, id: PacketId)
    requires Sound(v.ix, w) && id in w.streams && LookupExact(v.ix, Count(w.streams[id]))
    requires PrintDone(id) in w.net && id !in w.tainted
    ensures IsCompleted(w, id)
  {
    hide PrintDone, PrintAck, Got, LookupExact, IsCompleted;
  }

  /** One missing chunk after the other, and then `Done`. */
  lemma {:induction false} ReachDone(v: Variant, w: World, id: PacketId, stream: Bytes) returns (actions: seq<Action>)
    requires Underway(v, w, id, stream)
    requires LookupExact(v.ix, Count(stream)) && !Panicking(v.guard, Count(stream))
    ensures Concluded(Run(v, w, actions), id)
    decreases |Below(Count(stream)) - w.outgoing[id].queue.AckedSet()|
  {
    hide Base, Sound, Apply, Run, Queue.AckedSet, PrintDone, LookupExact, Panicking, IsCompleted, Below;
    SenderIsAlive(v, w, id, stream);
    var n, acked := Count(stream), w.outgoing[id].queue.AckedSet();
    var k := LowestOpenIndex(acked, 0, n);
    if k < n {
      var first := LowestIsAcked(v, w, id, stream, k);
      FewerOpen(acked, k, n);
      var rest := ReachDone(v, Run(v, w, first), id, stream);
      RunConcat(v, w, first, rest);
      actions := first + rest;
    } else {
      var resend := Resend(id, 0, 0, ALL_SENT);
      LowestIsResent(v, w, id, stream, n);
      DoneIsCompleted(v, Apply(v, w, resend), id);
      RunOnce(v, w, resend);
      actions := [resend];
    }
  }

  lemma FewerOpen(acked: set<nat>, k: nat, n: nat)
    requires k < n && k !in acked
    ensures |Below(n) - (acked + {k})| < |Below(n) - acked|
  {
    assert Below(n) - acked == (Below(n) - (acked + {k})) + {k};
  }

  // ----- As built, a chunk may never be sent again -----

  /** The sender holds everything as acked, but chunk 1 was never sent. */
  ghost predicate Unheard(w: World, id: PacketId, stream: Bytes) {
    && id in w.streams && w.streams[id] == stream && 1 < Count(stream) <= U32_LIMIT
    && Datagram(id, stream, 1) !in w.net && 1 !in GotSoFar(w.incoming, id) && !IsCompleted(w, id)
    && (id in w.outgoing ==> AllAcked(w.outgoing[id].queue, Count(stream)))
  }

  ghost predicate AllAcked(q: Queue, n: nat) {
    forall i: nat :: i < n ==> i in q.AckedSet()
  }

  /** What leaves `Unheard` as it is. */
  lemma QuietKeepsUnheard(w: World, w': World, id: PacketId, stream: Bytes)
    requires Unheard(w, id, stream)
    requires id in w'.streams && w'.streams[id] == stream
    requires Datagram(id, stream, 1) in w'.net ==> Datagram(id, stream, 1) in w.net
    requires GotSoFar(w'.incoming, id) <= GotSoFar(w.incoming, id)
    requires w'.completed == w.completed
    requires id in w'.outgoing ==>
               id in w.outgoing && w.outgoing[id].queue.AckedSet() <= w'.outgoing[id].queue.AckedSet()
    ensures Unheard(w', id, stream)
  {
    hide Datagram, GotSoFar, Queue.AckedSet;
  }

  lemma AcksGrow(ix: Indexing, o: Out, ds: seq<Bytes>, index: nat)
    requires Window(o.queue, ds)
    ensures o.queue.AckedSet() <= AckOut(ix, o, index).0.queue.AckedSet()
  {
    hide Window, Queue.AckedSet, AckQueue;
    DocumentedAckIsExact(o.queue, ds, index);
    AsBuiltAckIsShifted(o.queue, ds, index);
  }

  /** A packet that is all acked sends nothing but `Done`. */
  lemma AllAckedSendsDone(o: Out, id: PacketId, ds: seq<Bytes>, now: int, delay: nat, outcomes: Outcomes)
    requires Window(o.queue, ds) && AllAcked(o.queue, |ds|)
    ensures var (o', result, sent) := SendPending(o, id, now, delay, outcomes, 0);
            && o'.queue.AckedSet() == o.queue.AckedSet()
            && (forall d :: d in sent ==> d == PrintDone(id))
  {
    hide Fill, Batch, Window, Queue.AckedSet, PrintDone;
    PendingFacts(o, id, ds, now, delay, outcomes);
    EmptyBatchMeansAllAcked(o.queue, ds, Balance(o.batchSize, o.lastBatchAcks, o.lastBatchSize));
  }

  lemma SendKeepsUnheard(w: World, a: Action, id: PacketId, stream: Bytes)
    requires Base(w) && Unheard(w, id, stream) && a.Send? && a.id !in w.streams && Count(a.stream) <= U32_LIMIT
    ensures Unheard(ApplySend(w, a), id, stream)
  {
    hide PrintDone, PrintAck, PrintPart, Datagrams, StartOut, Serialized, Genuine, Window, EntryOk, Got, SenderOk,
         ReceiverOk, Unheard, Queue.AckedSet, GotSoFar;
    var w' := ApplySend(w, a);
    var packet := Serialized(a.id, a.threshold, a.stream);
    var (o, sent) := StartOut(packet, a.batchSize, a.now, a.outcomes, 0);
    assert id != a.id && IsChunk(w.streams, id, 1) && w.streams[id] == stream by { UnheardHas(w, id, stream); }
    StartFacts(packet, a.batchSize, a.now, a.outcomes);
    GenuineStays(w.streams, w'.streams, w.net);
    AddParts(w'.streams, w.net, a.id, sent, Count(a.stream));
    assert IsChunk(w'.streams, id, 1);
    QuietKeepsUnheard(w, w', id, stream);
  }

  lemma UnheardHas(w: World, id: PacketId, stream: Bytes)
    requires Unheard(w, id, stream)
    ensures IsChunk(w.streams, id, 1) && w.streams[id] == stream
    ensures id in w.outgoing ==> AllAcked(w.outgoing[id].queue, Count(stream))
  {
  }

  lemma ResendKeepsUnheard(w: World, a: Action, id: PacketId, stream: Bytes)
    requires Base(w) && Unheard(w, id, stream) && a.Resend? && a.id in w.outgoing
    ensures Unheard(ApplyResend(w, a), id, stream)
  {
    hide PrintDone, PrintAck, PrintPart, Datagrams, SendSpec.SendPending, Genuine, Window, EntryOk, Got, ReceiverOk,
         Unheard, Queue.AckedSet, GotSoFar, AllAcked;
    var w' := ApplyResend(w, a);
    var ds := Datagrams(a.id, w.streams[a.id]);
    var (o, result, sent) := SendPending(w.outgoing[a.id], a.id, a.now, a.delay, a.outcomes, 0);
    UnheardHas(w, id, stream);
    PendingFacts(w.outgoing[a.id], a.id, ds, a.now, a.delay, a.outcomes);
    PartIsGenuine(w.streams, w.net, id, 1);
    if a.id == id {
      AllAckedSendsDone(w.outgoing[id], id, ds, a.now, a.delay, a.outcomes);
    } else if result != Finished {
      AddParts(w.streams, w.net, a.id, sent, o.queue.Loaded());
    }
    QuietKeepsUnheard(w, w', id, stream);
  }

  lemma PartKeepsUnheard(guard: Guard, w: World, d: Bytes, now: int, outcome: SendResult, id: PacketId, stream: Bytes)
    requires Base(w) && Unheard(w, id, stream) && d in w.net && d != [] && ViewForReceiver(d).PartView?
    ensures var PartView(last, from, index, payload) := ViewForReceiver(d);
            Unheard(ApplyPart(guard, w, last, from, index, payload, now, outcome), id, stream)
  {
    hide Base, ViewForReceiver, ApplyPart, Got, Expected, EntryOk, PrintAck, PrintPart, Below;
    var PartView(last, from, index, payload) := ViewForReceiver(d);
    var w' := ApplyPart(guard, w, last, from, index, payload, now, outcome);
    PartIsKnown(w, d);
    PartEffect(guard, w, last, from, index, payload, now, outcome);
    PartIsGenuine(w.streams, w.net, id, 1);
    if from == id {
      MissingOneIsPending(guard, GotSoFar(w.incoming, id), Count(stream), stream, index);
      assert w'.completed == w.completed;
      StillUnheard(w, w', id, stream);
    } else {
      hide GotSoFar;
      OtherKeepsGot(w.incoming, w'.incoming, from, id);
      OtherCompletes(w, w', id);
      StillUnheard(w, w', id, stream);
    }
  }

  lemma OtherKeepsGot(incoming: Incoming, incoming': Incoming, from: PacketId, id: PacketId)
    requires incoming' - {from} == incoming - {from} && from != id
    ensures GotSoFar(incoming', id) == GotSoFar(incoming, id)
  {
    hide Got;
    assert id in incoming' <==> id in incoming' - {from};
    assert id in incoming <==> id in incoming - {from};
  }

  lemma StillUnheard(w: World, w': World, id: PacketId, stream: Bytes)
    requires Unheard(w, id, stream) && w'.streams == w.streams && w'.outgoing == w.outgoing
    requires Datagram(id, stream, 1) !in w'.net && 1 !in GotSoFar(w'.incoming, id)
    requires !IsCompleted(w, id) ==> !IsCompleted(w', id)
    ensures Unheard(w', id, stream)
  {
    hide GotSoFar, IsCompleted, AllAcked, PrintPart;
  }

  lemma MissingOneIsPending(guard: Guard, got: set<nat>, n: nat, whole: Bytes, index: nat)
    requires 1 < n && 1 !in got && index != 1
    ensures !Expected(guard, got, n, whole, index).Reassembled? && 1 !in got + {index}
  {
    assert 1 in Below(n) && 1 !in got + {index};
  }

  lemma OtherCompletes(w: World, w': World, id: PacketId)
    requires !IsCompleted(w, id)
    requires w'.completed == w.completed ||
             exists c: Completion :: c.id != id && w'.completed == w.completed + [c]
    ensures !IsCompleted(w', id)
  {
  }

  lemma StepKeepsUnheard(v: Variant, w: World, a: Action, id: PacketId, stream: Bytes)
    requires Base(w) && Unheard(w, id, stream)
    ensures Unheard(Apply(v, w, a), id, stream)
  {
    hide ApplySend, ApplyResend, ApplyPart, AckOut, ViewForReceiver, ViewForSender, PrintPart, Queue.AckedSet, Window,
         Got, EntryOk, Genuine;
    match a
    case Send(other, sent, _, _, _, _) =>
      if other !in w.streams && Count(sent) <= U32_LIMIT {
        SendKeepsUnheard(w, a, id, stream);
      }
    case Resend(other, _, _, _) =>
      if other in w.outgoing {
        ResendKeepsUnheard(w, a, id, stream);
      }
    case ToReceiver(datagram, now, outcome) =>
      if datagram in w.net && datagram != [] && !w.crashed && ViewForReceiver(datagram).PartView? {
        PartKeepsUnheard(v.guard, w, datagram, now, outcome, id, stream);
      }
    case ToSender(datagram) =>
      if datagram in w.net && datagram != [] && ViewForSender(datagram).AckView? && id in w.outgoing {
        AcksGrow(v.ix, w.outgoing[id], Datagrams(id, stream), ViewForSender(datagram).index);
      }
    case _ =>
  }

  lemma {:induction false} RunKeepsUnheard(v: Variant, w: World, actions: seq<Action>, id: PacketId, stream: Bytes)
    requires Base(w) && Unheard(w, id, stream)
    ensures Unheard(Run(v, w, actions), id, stream)
    decreases |actions|
  {
    hide Base, Apply, Unheard;
    if actions != [] {
      StepKeepsBase(v, w, actions[0]);
      StepKeepsUnheard(v, w, actions[0], id, stream);
      RunKeepsUnheard(v, Apply(v, w, actions[0]), actions[1..], id, stream);
    }
  }

  /** As built, copies of the ack of chunk 0 make the sender hold everything as acked while
      chunk 1 was never sent. */
  lemma ReachUnheard(v: Variant, id: PacketId, stream: Bytes) returns (actions: seq<Action>)
    requires v.ix == AsBuilt && 1 < Count(stream) < U32_LIMIT
    ensures var w := Run(v, START, actions);
            Unheard(w, id, stream) && !w.crashed && id in w.outgoing && w.tainted == {}
  {
    hide Got, PrintAck, PrintPart, Run, Slots;
    var acks := Copies(ToSender(PrintAck(id, 0)), Count(stream));
    OpeningRuns(v, id, stream);
    AckManyTimes(v, Run(v, START, Opening(id, stream)), id, stream, 0, Count(stream));
    RunConcat(v, START, Opening(id, stream), acks);
    actions := Opening(id, stream) + acks;
    var w := Run(v, START, actions);
    var q := w.outgoing[id].queue;
    forall i: nat | i < Count(stream)
      ensures i in q.AckedSet()
    {
      assert q.CountsAsAcked(i);
    }
  }

  // ----- Without a guard, an ack may never be sent again -----

  /** The first block is there, but the ack of chunk 0 was lost: the chunk would panic. */
  ghost predicate Mute(w: World, id: PacketId, stream: Bytes) {
    && id in w.streams && w.streams[id] == stream && DRAIN_STEP <= Count(stream)
    && (id !in w.tainted ==>
          && PrintAck(id, 0) !in w.net && PrintDone(id) !in w.net
          && BlockComplete(GotSoFar(w.incoming, id), 0))
  }

  lemma QuietKeepsMute(w: World, w': World, id: PacketId, stream: Bytes)
    requires Mute(w, id, stream) && id in w'.streams && w'.streams[id] == stream && w.tainted <= w'.tainted
    requires id !in w'.tainted ==>
               && (PrintAck(id, 0) in w'.net ==> PrintAck(id, 0) in w.net)
               && (PrintDone(id) in w'.net ==> PrintDone(id) in w.net)
               && GotSoFar(w.incoming, id) <= GotSoFar(w'.incoming, id)
    ensures Mute(w', id, stream)
  {
    hide PrintAck, PrintDone, GotSoFar;
  }

  lemma SendKeepsMute(w: World, a: Action, id: PacketId, stream: Bytes)
    requires Base(w) && Mute(w, id, stream) && a.Send? && a.id !in w.streams && Count(a.stream) <= U32_LIMIT
    ensures Mute(ApplySend(w, a), id, stream)
  {
    hide PrintDone, PrintAck, PrintPart, Datagrams, StartOut, Serialized, Genuine, Window, EntryOk, Got, SenderOk,
         ReceiverOk, GotSoFar, BlockComplete;
    var w' := ApplySend(w, a);
    var packet := Serialized(a.id, a.threshold, a.stream);
    var (o, sent) := StartOut(packet, a.batchSize, a.now, a.outcomes, 0);
    StartFacts(packet, a.batchSize, a.now, a.outcomes);
    GenuineStays(w.streams, w'.streams, w.net);
    AddParts(w'.streams, w.net, a.id, sent, Count(a.stream));
    QuietKeepsMute(w, w', id, stream);
  }

  /** `Done` would need the ack of chunk 0. */
  lemma ResendKeepsMute(w: World, a: Action, id: PacketId, stream: Bytes)
    requires Base(w) && Sound(Documented, w) && Mute(w, id, stream) && a.Resend? && a.id in w.outgoing
    ensures Mute(ApplyResend(w, a), id, stream)
  {
    hide PrintDone, PrintAck, PrintPart, Datagrams, SendSpec.SendPending, Genuine, Window, EntryOk, Got, ReceiverOk,
         GotSoFar, BlockComplete, Queue.AckedSet;
    var w' := ApplyResend(w, a);
    var ds := Datagrams(a.id, w.streams[a.id]);
    var (o, result, sent) := SendPending(w.outgoing[a.id], a.id, a.now, a.delay, a.outcomes, 0);
    PendingFacts(w.outgoing[a.id], a.id, ds, a.now, a.delay, a.outcomes);
    if result == Finished {
      AddDone(w.streams, w.net, a.id);
      assert SetOf(sent) == {PrintDone(a.id)};
      if a.id == id && id !in w.tainted {
        AckedMeansAckSent(w, id);
      }
    } else {
      AddParts(w.streams, w.net, a.id, sent, o.queue.Loaded());
    }
    QuietKeepsMute(w, w', id, stream);
  }

  lemma AckedMeansAckSent(w: World, id: PacketId)
    requires Sound(Documented, w) && id in w.outgoing && id in w.streams
    ensures 0 in w.outgoing[id].queue.AckedSet() ==> PrintAck(id, 0) in w.net
    ensures w.outgoing[id].lastSend == None ==> id in w.tainted
  {
    hide PrintAck, Queue.AckedSet;
  }

  lemma FirstBlockPanics(got: set<nat>, n: nat, whole: Bytes, index: nat)
    requires BlockComplete(got, 0)
    ensures index < DRAIN_STEP ==> Expected(Unguarded, got, n, whole, index) == Panicked
  {
    if index < DRAIN_STEP {
      assert index in Below(0 + DRAIN_STEP) && RoundDown(index) == 0;
    }
  }

  lemma PartKeepsMute(w: World, d: Bytes, now: int, outcome: SendResult, id: PacketId, stream: Bytes)
    requires Base(w) && Mute(w, id, stream) && d in w.net && d != [] && ViewForReceiver(d).PartView?
    ensures var PartView(last, from, index, payload) := ViewForReceiver(d);
            Mute(ApplyPart(Unguarded, w, last, from, index, payload, now, outcome), id, stream)
  {
    hide Base, ViewForReceiver, ApplyPart, Got, Expected, EntryOk, PrintAck, PrintDone, PrintPart, BlockComplete;
    var PartView(last, from, index, payload) := ViewForReceiver(d);
    var w' := ApplyPart(Unguarded, w, last, from, index, payload, now, outcome);
    PartIsKnown(w, d);
    PartEffect(Unguarded, w, last, from, index, payload, now, outcome);
    AckRoundTrip(from, index);
    AckRoundTrip(id, 0);
    DoneRoundTrip(id);
    if from == id {
      if id !in w.tainted {
        FirstBlockPanics(GotSoFar(w.incoming, id), Count(stream), stream, index);
      }
    } else {
      assert id in w'.incoming <==> id in w'.incoming - {from};
      assert id in w.incoming <==> id in w.incoming - {from};
    }
    QuietKeepsMute(w, w', id, stream);
  }

  lemma StepKeepsMute(w: World, a: Action, id: PacketId, stream: Bytes)
    requires Base(w) && Sound(Documented, w) && Mute(w, id, stream)
    ensures Mute(Apply(Variant(Documented, Unguarded), w, a), id, stream)
  {
    hide Base, Sound, ApplySend, ApplyResend, ApplyPart, HandleOutgoing, ViewForReceiver, PrintAck, PrintDone, Got,
         BlockComplete, Mute;
    var w' := Apply(Variant(Documented, Unguarded), w, a);
    MuteHas(w, id, stream);
    match a
    case Send(other, sent, _, _, _, _) =>
      if other !in w.streams && Count(sent) <= U32_LIMIT {
        SendKeepsMute(w, a, id, stream);
      }
    case Resend(other, _, _, _) =>
      if other in w.outgoing {
        ResendKeepsMute(w, a, id, stream);
      }
    case ToReceiver(datagram, now, outcome) =>
      if datagram in w.net && datagram != [] && !w.crashed && ViewForReceiver(datagram).PartView? {
        PartKeepsMute(w, datagram, now, outcome, id, stream);
      } else if datagram in w.net && datagram != [] && !w.crashed && ViewForReceiver(datagram).DoneView? {
        assert Genuine(w.streams, w.net, datagram) by { NetIsGenuine(w, datagram); }
        QuietKeepsMute(w, w', id, stream);
      }
    case _ => QuietKeepsMute(w, w', id, stream);
  }

  lemma MuteHas(w: World, id: PacketId, stream: Bytes)
    requires Mute(w, id, stream)
    ensures id in w.streams && w.streams[id] == stream
    ensures id !in w.tainted ==> PrintDone(id) !in w.net
  {
  }

  lemma NetIsGenuine(w: World, d: Bytes)
    requires Base(w) && d in w.net
    ensures Genuine(w.streams, w.net, d)
  {
  }

  lemma {:induction false} RunKeepsMute(w: World, actions: seq<Action>, id: PacketId, stream: Bytes)
    requires Base(w) && Sound(Documented, w) && Mute(w, id, stream)
    ensures Mute(Run(Variant(Documented, Unguarded), w, actions), id, stream)
    decreases |actions|
  {
    hide Base, Sound, Apply, Mute;
    if actions != [] {
      var v := Variant(Documented, Unguarded);
      StepKeepsBase(v, w, actions[0]);
      StepKeepsSound(v, w, actions[0]);
      StepKeepsMute(w, actions[0], id, stream);
      RunKeepsMute(Apply(v, w, actions[0]), actions[1..], id, stream);
    }
  }

  // ----- Exactly when every packet can be finished -----

  /** From every reachable world in which the receiver is up and a packet of this stream is
      neither done, nor canceled, nor timed out by the receiver, some continuation completes
      it and ends with its `Done`, again without a panic, a cancel or a timeout of it. */
  ghost predicate AlwaysFinishable(v: Variant, stream: Bytes) {
    forall actions, id ::
      var w := Run(v, START, actions);
      && !w.crashed && id in w.outgoing && id in w.streams && w.streams[id] == stream && id !in w.tainted ==>
        CanFinish(v, w, id)
  }

  lemma UnheardRefutes(v: Variant, stream: Bytes)
    requires v.ix == AsBuilt && 1 < Count(stream) < U32_LIMIT
    ensures !AlwaysFinishable(v, stream)
  {
    hide Run, PrintDone, Base;
    var id: PacketId := seq(16, _ => 0);
    var actions := ReachUnheard(v, id, stream);
    var w := Run(v, START, actions);
    StartIsBase();
    RunKeepsBase(v, START, actions);
    forall more
      ensures !Concluded(Run(v, w, more), id)
    {
      RunKeepsUnheard(v, w, more, id, stream);
    }
  }

  lemma MuteRefutes(stream: Bytes)
    requires DRAIN_STEP <= Count(stream) < U32_LIMIT
    ensures !AlwaysFinishable(Variant(Documented, Unguarded), stream)
  {
    hide Run, PrintDone, PrintAck, Base, Sound, GotSoFar, Below;
    var v := Variant(Documented, Unguarded);
    var id: PacketId := seq(16, _ => 0);
    var actions := SilentRun(v, id, stream, DRAIN_STEP);
    var w := Run(v, START, actions);
    ReachableIsSound(v, actions);
    assert PrintDone(id) !in w.net by { NotDoneYet(w, id); }
    assert Mute(w, id, stream);
    forall more
      ensures !Concluded(Run(v, w, more), id)
    {
      RunKeepsMute(w, more, id, stream);
    }
  }

  lemma NotDoneYet(w: World, id: PacketId)
    requires Base(w) && id in w.outgoing
    ensures PrintDone(id) !in w.net
  {
    hide PrintDone, Window;
    assert OutOk(w.outgoing[id], id, w.streams[id], w.net);
  }

  /** A packet of 2^32 chunks never completes. */
  lemma FullLengthRefutes(v: Variant, stream: Bytes)
    requires Count(stream) == U32_LIMIT
    ensures !AlwaysFinishable(v, stream)
  {
    hide Run, PrintDone, Base, IsCompleted, GotSoFar;
    var id: PacketId := seq(16, _ => 0);
    var actions := ReachLastChunk(v, id, stream, 0, 1);
    var w := Run(v, START, actions);
    forall more
      ensures !Concluded(Run(v, w, more), id)
    {
      RunConcat(v, START, actions, more);
      StreamsStayThrough(v, w, more);
      FullLengthNeverCompletes(v, actions + more, id);
    }
  }

  lemma {:induction false} StreamsStayThrough(v: Variant, w: World, actions: seq<Action>)
    ensures Extends(w.streams, Run(v, w, actions).streams)
    decreases |actions|
  {
    hide Apply;
    if actions != [] {
      StreamsStay(v, w, actions[0]);
      StreamsStayThrough(v, Apply(v, w, actions[0]), actions[1..]);
    }
  }

  /** Exactly which packets can always be finished: with the documented offset and a guard
      all below 2^32 chunks; without the guard those of fewer than 256 chunks, since one
      lost ack of a complete block leaves only a panic; as built those of a single chunk. */
  lemma FinishableExactly(v: Variant, stream: Bytes)
    requires Count(stream) <= U32_LIMIT
    ensures AlwaysFinishable(v, stream) <==>
            && (v.ix == Documented || |stream| <= 491)
            && Count(stream) < (if v.guard == Guarded then 0x1_0000_0000 else 256)
  {
    hide Run, Base, Sound;
    assert Count(stream) <= 1 <==> |stream| <= PART_PAYLOAD;
    if LookupExact(v.ix, Count(stream)) && !Panicking(v.guard, Count(stream)) {
      forall actions, id |
        var w := Run(v, START, actions);
        !w.crashed && id in w.outgoing && id in w.streams && w.streams[id] == stream && id !in w.tainted
        ensures CanFinish(v, Run(v, START, actions), id)
      {
        ReachableIsSound(v, actions);
        var more := ReachDone(v, Run(v, START, actions), id, stream);
      }
    } else if Count(stream) == U32_LIMIT {
      FullLengthRefutes(v, stream);
    } else if !LookupExact(v.ix, Count(stream)) {
      UnheardRefutes(v, stream);
    } else if v.ix == Documented {
      MuteRefutes(stream);
    }
  }
}
