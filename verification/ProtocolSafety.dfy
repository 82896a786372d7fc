/** What acks and dones mean, in every run where the lookup of acks is exact: the receiver
    has what the sender holds as acked, and `Done` follows the whole packet. */
module ProtocolSafety {
  import opened Wire
  import opened Chunking
  import opened Serialize
  import opened Sockets
  import opened SendSpec
  import opened SendRefinement
  import opened ReceiveSpec
  import opened ReassemblyLaws
  import opened BufferSpec
  import opened Counting
  import opened Protocol
  import opened ProtocolBase
  import opened ProtocolSteps

  /** The sender holds a chunk as acked only if its ack was sent. */
  ghost predicate AckedWereAcked(ix: Indexing, w: World) {
    forall id, i: U32 ::
      id in w.outgoing && id in w.streams && LookupExact(ix, Count(w.streams[id]))
      && i in w.outgoing[id].queue.AckedSet() ==>
        PrintAck(id, i) in w.net
  }

  /** The receiver has what it acked, until it may forget. */
  ghost predicate AcksTrue(w: World) {
    forall id, i: U32 ::
      PrintAck(id, i) in w.net && id !in w.tainted && PrintDone(id) !in w.net ==>
        id in w.incoming && i in Got(w.incoming[id])
  }

  ghost predicate DonesTrue(ix: Indexing, w: World) {
    forall id ::
      && id in w.streams && PrintDone(id) in w.net && id !in w.tainted
      && LookupExact(ix, Count(w.streams[id])) ==>
        IsCompleted(w, id)
  }

  ghost predicate CancelsKnown(w: World) {
    forall id :: id in w.outgoing && w.outgoing[id].lastSend == None ==> id in w.tainted
  }

  ghost predicate Sound(ix: Indexing, w: World) {
    AckedWereAcked(ix, w) && AcksTrue(w) && DonesTrue(ix, w) && CancelsKnown(w)
  }

  lemma GotIsBelow(entry: PacketIn, stream: Bytes)
    requires EntryOk(entry, stream)
    ensures Got(entry) <= Below(Count(stream))
  {
  }

  lemma SendKeepsSound(ix: Indexing, w: World, a: Action)
    requires Base(w) && Sound(ix, w) && a.Send? && a.id !in w.streams && Count(a.stream) <= U32_LIMIT
    ensures Sound(ix, ApplySend(w, a))
  {
    hide PrintDone, PrintAck, PrintPart, Datagrams, StartOut, Serialized, Genuine, Window, EntryOk, Got, SenderOk,
         ReceiverOk;
    var w' := ApplySend(w, a);
    var packet := Serialized(a.id, a.threshold, a.stream);
    var (o, sent) := StartOut(packet, a.batchSize, a.now, a.outcomes, 0);
    FreshId(w, a.id);
    StartFacts(packet, a.batchSize, a.now, a.outcomes);
    GenuineStays(w.streams, w'.streams, w.net);
    AddParts(w'.streams, w.net, a.id, sent, Count(a.stream));
  }

  /** `Done` is sent for a packet that was not canceled only when the receiver has it all. */
  lemma DoneIsEarned(ix: Indexing, w: World, id: PacketId)
    requires Base(w) && Sound(ix, w) && id in w.outgoing
    requires LookupExact(ix, Count(w.streams[id])) && id !in w.tainted
    requires forall i: nat :: i < Count(w.streams[id]) ==> i in w.outgoing[id].queue.AckedSet()
    ensures IsCompleted(w, id)
  {
    hide PrintDone, PrintAck, Genuine, Window, EntryOk, Got;
    var n := Count(w.streams[id]);
    assert PrintAck(id, 0) in w.net;
    forall i: nat | i < n
      ensures id in w.incoming && i in Got(w.incoming[id])
    {
      assert PrintAck(id, i) in w.net;
    }
    GotIsBelow(w.incoming[id], w.streams[id]);
    assert Got(w.incoming[id]) == Below(n);
  }

  lemma ResendKeepsSound(ix: Indexing, w: World, a: Action)
    requires Base(w) && Sound(ix, w) && a.Resend? && a.id in w.outgoing
    ensures Sound(ix, ApplyResend(w, a))
  {
    hide PrintDone, PrintAck, PrintPart, Datagrams, SendSpec.SendPending, Genuine, Window, EntryOk, Got, ReceiverOk;
    var w' := ApplyResend(w, a);
    var ds := Datagrams(a.id, w.streams[a.id]);
    var (o, result, sent) := SendPending(w.outgoing[a.id], a.id, a.now, a.delay, a.outcomes, 0);
    PendingFacts(w.outgoing[a.id], a.id, ds, a.now, a.delay, a.outcomes);
    CompletedStays(w, w');
    if result == Finished {
      AddDone(w.streams, w.net, a.id);
      assert SetOf(sent) == {PrintDone(a.id)};
      if LookupExact(ix, Count(w.streams[a.id])) && a.id !in w.tainted {
        DoneIsEarned(ix, w, a.id);
      }
    } else {
      AddParts(w.streams, w.net, a.id, sent, o.queue.Loaded());
    }
  }

  lemma PartKeepsSound(ix: Indexing, guard: Guard, w: World, last: bool, id: PacketId, index: U32, payload: Bytes,
                       now: int, outcome: SendResult)
    requires Base(w) && Sound(ix, w) && IsChunk(w.streams, id, index)
    requires last == (index == Count(w.streams[id]) - 1) && payload == Piece(w.streams[id], index)
    requires Datagram(id, w.streams[id], index) in w.net
    ensures Sound(ix, ApplyPart(guard, w, last, id, index, payload, now, outcome))
  {
    hide PrintDone, PrintAck, PrintPart, BufferSpec.ReceivePart, EntryOk, Got, Expected, Sound,
         StreamsOk, SenderOk, CompletionsOk, ReceiverOk, AllGenuine;
    var w' := ApplyPart(guard, w, last, id, index, payload, now, outcome);
    EntriesAreOk(w, id);
    PartFollowsSet(guard, w.incoming, id, w.streams[id], index, now, outcome);
    var (incoming', result, sent) := ReceivePart(guard, w.incoming, last, id, index, payload, now, outcome);
    if result == PartOk(Panicked) {
      CrashKeepsSound(ix, w);
    } else {
      AddAck(w.streams, w.net, id, index);
      assert sent == [PrintAck(id, index)] ==> SetOf(sent) == {PrintAck(id, index)};
      assert sent == [] ==> w.net + SetOf(sent) == w.net;
      forall other | other in w.incoming
        ensures other in w'.incoming && Got(w.incoming[other]) <= Got(w'.incoming[other])
      {
        if other != id {
          assert other in w'.incoming - {id};
        }
      }
      CompletedStays(w, w');
      AckedStaysSound(ix, w, w', id, index);
    }
  }

  lemma CrashKeepsSound(ix: Indexing, w: World)
    requires Sound(ix, w)
    ensures Sound(ix, w.(crashed := true))
  {
    hide PrintDone, PrintAck, Got, Queue.AckedSet, LookupExact;
    CompletedStays(w, w.(crashed := true));
  }

  /** The receiver has more, completed more, and at most acked one chunk that it has. */
  lemma AckedStaysSound(ix: Indexing, w: World, w': World, id: PacketId, index: U32)
    requires Sound(ix, w)
    requires w'.outgoing == w.outgoing && w'.streams == w.streams && w'.tainted == w.tainted
    requires w.net <= w'.net
    requires forall other :: PrintDone(other) in w'.net ==> PrintDone(other) in w.net
    requires forall other, i: U32 :: PrintAck(other, i) in w'.net ==>
               PrintAck(other, i) in w.net || (other == id && i == index)
    requires id in w'.incoming && index in Got(w'.incoming[id])
    requires forall other :: other in w.incoming ==>
               other in w'.incoming && Got(w.incoming[other]) <= Got(w'.incoming[other])
    requires forall other :: IsCompleted(w, other) ==> IsCompleted(w', other)
    ensures Sound(ix, w')
  {
    hide PrintDone, PrintAck, Got, Queue.AckedSet, LookupExact, IsCompleted;
  }

  lemma DoneKeepsSound(ix: Indexing, w: World, id: PacketId, forgotten: seq<set<PacketId>>)
    requires Sound(ix, w) && PrintDone(id) in w.net
    ensures Sound(ix, w.(incoming := ForgetIncoming(w.incoming, id), forgotten := forgotten))
  {
    hide PrintDone, PrintAck, Got;
    CompletedStays(w, w.(incoming := ForgetIncoming(w.incoming, id), forgotten := forgotten));
  }

  lemma ToReceiverKeepsSound(ix: Indexing, guard: Guard, w: World, a: Action)
    requires Base(w) && Sound(ix, w) && a.ToReceiver? && a.datagram in w.net && a.datagram != []
    ensures Sound(ix, ApplyToReceiver(guard, w, a))
  {
    hide ViewForReceiver, SenderOk, ReceiverOk, CompletionsOk, ApplyPart, Sound;
    match ViewForReceiver(a.datagram)
    case PartView(last, id, index, payload) =>
      GenuinePartView(w.streams, w.net, a.datagram);
      PartKeepsSound(ix, guard, w, last, id, index, payload, a.now, a.outcome);
    case DoneView(id) =>
      DoneKeepsSound(ix, w, id, if id in w.incoming then w.forgotten + [{id}] else w.forgotten);
    case _ =>
  }

  lemma ExactLookupAcksOne(ix: Indexing, o: Out, id: PacketId, stream: Bytes, index: nat)
    requires Count(stream) <= U32_LIMIT && Window(o.queue, Datagrams(id, stream))
    requires LookupExact(ix, Count(stream)) && index < Count(stream)
    ensures AckOut(ix, o, index).0.queue.AckedSet() <= o.queue.AckedSet() + {index}
  {
    hide Datagrams, Queue.AckedSet;
    DocumentedAckIsExact(o.queue, Datagrams(id, stream), index);
    AsBuiltAckIsShifted(o.queue, Datagrams(id, stream), index);
  }

  lemma ToSenderKeepsSound(ix: Indexing, w: World, d: Bytes)
    requires Base(w) && Sound(ix, w) && d in w.net && d != []
    ensures Sound(ix, w.(outgoing := HandleOutgoing(ix, w.outgoing, d).0))
  {
    hide ViewForSender, AckOut, Window, EntryOk, Got, Datagrams, PrintPart, PrintDone, PrintAck, Queue.AckedSet,
         ReceiverOk, LookupExact;
    var w' := w.(outgoing := HandleOutgoing(ix, w.outgoing, d).0);
    CompletedStays(w, w');
    if ViewForSender(d).AckView? && ViewForSender(d).id in w.outgoing {
      var AckView(id, index) := ViewForSender(d);
      AckIsGenuine(w, d);
      AckFacts(ix, w.outgoing[id], Datagrams(id, w.streams[id]), index);
      if LookupExact(ix, Count(w.streams[id])) {
        ExactLookupAcksOne(ix, w.outgoing[id], id, w.streams[id], index);
      }
    }
  }

  lemma AckIsGenuine(w: World, d: Bytes)
    requires Base(w) && d in w.net && ViewForSender(d).AckView?
    ensures var AckView(id, index) := ViewForSender(d);
            IsChunk(w.streams, id, index) && d == PrintAck(id, index) && Datagram(id, w.streams[id], index) in w.net
  {
    assert Genuine(w.streams, w.net, d);
    assert ViewForReceiver(d) == ReceiveUnhandled;
  }

  lemma StepKeepsSound(v: Variant, w: World, a: Action)
    requires Base(w) && Sound(v.ix, w)
    ensures Sound(v.ix, Apply(v, w, a))
  {
    hide Base, ApplySend, ApplyResend, ApplyToReceiver, HandleOutgoing, PrintDone, PrintAck, Got, Queue.AckedSet,
         LookupExact;
    match a
    case Send(id, stream, _, _, _, _) =>
      if id !in w.streams && Count(stream) <= U32_LIMIT {
        SendKeepsSound(v.ix, w, a);
      }
    case Resend(id, _, _, _) =>
      if id in w.outgoing {
        ResendKeepsSound(v.ix, w, a);
      }
    case ToReceiver(datagram, _, _) =>
      if datagram in w.net && datagram != [] {
        ToReceiverKeepsSound(v.ix, v.guard, w, a);
      }
    case ToSender(datagram) =>
      if datagram in w.net && datagram != [] {
        ToSenderKeepsSound(v.ix, w, datagram);
      }
    case _ => CompletedStays(w, Apply(v, w, a));
  }

  lemma {:induction false} RunKeepsSound(v: Variant, w: World, actions: seq<Action>)
    requires Base(w) && Sound(v.ix, w)
    ensures Base(Run(v, w, actions)) && Sound(v.ix, Run(v, w, actions))
    decreases |actions|
  {
    hide Base, Apply, Sound;
    if actions != [] {
      StepKeepsBase(v, w, actions[0]);
      StepKeepsSound(v, w, actions[0]);
      RunKeepsSound(v, Apply(v, w, actions[0]), actions[1..]);
    }
  }

  lemma ReachableIsSound(v: Variant, actions: seq<Action>)
    ensures Base(Run(v, START, actions)) && Sound(v.ix, Run(v, START, actions))
  {
    hide Run;
    StartIsBase();
    RunKeepsSound(v, START, actions);
  }

  /** Ack soundness: in every run, each chunk that the sender of a packet holds as acked is
      in the receiver's received set, as long as the packet is not canceled and the
      receiver does not time it out. */
  lemma AckSoundness(v: Variant, actions: seq<Action>, id: PacketId, i: nat)
    requires var w := Run(v, START, actions);
             && id in w.outgoing && id !in w.tainted && id in w.streams && LookupExact(v.ix, Count(w.streams[id]))
             && i in w.outgoing[id].queue.AckedSet()
    ensures var w := Run(v, START, actions);
            id in w.incoming && i in Got(w.incoming[id])
  {
    hide Run, Got, PrintDone, PrintAck, Queue.AckedSet;
    ReachableIsSound(v, actions);
    var w := Run(v, START, actions);
    assert OutOk(w.outgoing[id], id, w.streams[id], w.net);
    AckedIsBelow(w.outgoing[id].queue, Datagrams(id, w.streams[id]), i);
    assert PrintAck(id, i) in w.net;
  }

  lemma AckedIsBelow(q: Queue, ds: seq<Bytes>, i: nat)
    requires Window(q, ds) && i in q.AckedSet()
    ensures i < |ds|
  {
  }

  /** Done soundness: `Done` is emitted only after the whole packet has arrived. */
  lemma DoneSoundness(v: Variant, actions: seq<Action>, id: PacketId)
    requires var w := Run(v, START, actions);
             id in w.streams && PrintDone(id) in w.net && id !in w.tainted && LookupExact(v.ix, Count(w.streams[id]))
    ensures IsCompleted(Run(v, START, actions), id)
  {
    hide Run, PrintDone, IsCompleted;
    ReachableIsSound(v, actions);
  }

  /** Nothing on the network is empty or malformed, for either party. */
  lemma NothingIsMalformed(v: Variant, actions: seq<Action>, d: Bytes)
    requires d in Run(v, START, actions).net
    ensures d != [] && ViewForReceiver(d) != ReceiveMalformed && ViewForSender(d) != SendMalformed
  {
    hide Run;
    StartIsBase();
    RunKeepsBase(v, START, actions);
    var w := Run(v, START, actions);
    assert Genuine(w.streams, w.net, d);
    ClaimedByOneSide(d);
  }

  /** Whatever part arrives from the network, the receiver never reports a mismatch, and it
      answers the part with an ack, one it already has included. */
  lemma EveryPartIsAnswered(v: Variant, actions: seq<Action>, d: Bytes, now: int)
    requires var w := Run(v, START, actions);
             d in w.net && d != [] && ViewForReceiver(d).PartView?
    ensures var w := Run(v, START, actions);
            var PartView(last, id, index, payload) := ViewForReceiver(d);
            var (_, result, sent) := ReceivePart(v.guard, w.incoming, last, id, index, payload, now, Sent);
            && id in w.streams
            && result == PartOk(Expected(v.guard, GotSoFar(w.incoming, id), Count(w.streams[id]), w.streams[id], index))
            && (sent == [PrintAck(id, index)] || result == PartOk(Panicked))
  {
    hide Run, BufferSpec.ReceivePart, Expected, Got, EntryOk;
    StartIsBase();
    RunKeepsBase(v, START, actions);
    var w := Run(v, START, actions);
    assert Genuine(w.streams, w.net, d);
    GenuinePartView(w.streams, w.net, d);
    var id := ViewForReceiver(d).id;
    PartFollowsSet(v.guard, w.incoming, id, w.streams[id], ViewForReceiver(d).index, now, Sent);
  }
}
