/** When a payload that completed is handed over, over whole runs: a hard error of the
    socket on the ack of the last missing chunk takes the payload away, for good. Exactly
    when the sender can declare such a packet done all the same. */
module LostPayloads {
  import opened Wire
  import opened Chunking
  import opened Serialize
  import opened Sockets
  import opened SendSpec
  import opened SendRefinement
  import opened ReceiveSpec
  import opened ReassemblyLaws
  import opened BufferSpec
  import opened Counting
  import opened Protocol
  import opened ProtocolBase
  import opened ProtocolSteps
  import opened ProtocolSafety
  import opened ProtocolCounts
  import opened Delivery

  // ----- Every completion -----

  /** The action is the arrival of the last missing chunk of a packet. */
  ghost predicate Completes(v: Variant, w: World, a: Action) {
    && a.ToReceiver? && a.datagram in w.net && a.datagram != [] && !w.crashed
    && match ViewForReceiver(a.datagram)
       case PartView(_, id, index, _) =>
         id in w.streams
         && Expected(v.guard, GotSoFar(w.incoming, id), Count(w.streams[id]), w.streams[id], index).Reassembled?
       case _ => false
  }

  /** The completion that the action adds. */
  ghost function Added(v: Variant, w: World, a: Action): seq<Completion> {
    if Completes(v, w, a) then
      var id := ViewForReceiver(a.datagram).id;
      [Completion(id, w.streams[id], a.outcome != Failed)]
    else []
  }

  /** A part arrives that is on the network. */
  predicate PartArrives(w: World, a: Action) {
    a.ToReceiver? && a.datagram in w.net && a.datagram != [] && !w.crashed && ViewForReceiver(a.datagram).PartView?
  }

  lemma OthersAddNothing(v: Variant, w: World, a: Action)
    requires !PartArrives(w, a)
    ensures Apply(v, w, a).completed == w.completed
  {
    hide SendSpec.SendPending, StartOut, HandleOutgoing, ViewForReceiver, ApplyPart;
  }

  lemma StepAdds(v: Variant, w: World, a: Action)
    requires Base(w)
    ensures Apply(v, w, a).completed == w.completed + Added(v, w, a)
  {
    if PartArrives(w, a) {
      PartAdds(v, w, a);
    } else {
      hide Base, Apply, ViewForReceiver, Expected;
      OthersAddNothing(v, w, a);
      assert w.completed + [] == w.completed;
    }
  }

  lemma PartAdds(v: Variant, w: World, a: Action)
    requires Base(w) && PartArrives(w, a)
    ensures Apply(v, w, a).completed == w.completed + Added(v, w, a)
  {
    hide Base, ViewForReceiver, Expected, ApplyPart, Got;
    var PartView(last, id, index, payload) := ViewForReceiver(a.datagram);
    PartIsKnown(w, a.datagram);
    PartEffect(v.guard, w, last, id, index, payload, a.now, a.outcome);
  }

  /** In every reachable world a packet completes exactly with the arrival of its last
      missing chunk, and then its payload is handed over exactly if the ack did not fail. */
  lemma HandedOverExactly(v: Variant, actions: seq<Action>, a: Action)
    ensures var w := Run(v, START, actions);
            Apply(v, w, a).completed == w.completed + Added(v, w, a)
  {
    hide Run, Apply, Added;
    StartIsBase();
    RunKeepsBase(v, START, actions);
    StepAdds(v, Run(v, START, actions), a);
  }

  /** A packet of 2^32 chunks never completes. */
  ghost predicate CompletedFit(w: World) {
    forall c :: c in w.completed ==> c.id in w.streams && Count(w.streams[c.id]) < U32_LIMIT
  }

  lemma AddedFit(v: Variant, w: World, a: Action)
    ensures forall c :: c in Added(v, w, a) ==> c.id in w.streams && Count(w.streams[c.id]) < U32_LIMIT
  {
    hide BlockComplete, Below;
  }

  lemma StreamsStay(v: Variant, w: World, a: Action)
    ensures Extends(w.streams, Apply(v, w, a).streams)
  {
    hide BufferSpec.ReceivePart, HandleOutgoing, StartOut, SendSpec.SendPending, ViewForReceiver;
  }

  lemma {:induction false} RunCompletesFit(v: Variant, w: World, actions: seq<Action>)
    requires Base(w) && CompletedFit(w)
    ensures CompletedFit(Run(v, w, actions))
    decreases |actions|
  {
    hide Base, Apply, Added;
    if actions != [] {
      StepKeepsBase(v, w, actions[0]);
      StepAdds(v, w, actions[0]);
      AddedFit(v, w, actions[0]);
      StreamsStay(v, w, actions[0]);
      RunCompletesFit(v, Apply(v, w, actions[0]), actions[1..]);
    }
  }

  /** In no run does a packet of 2^32 chunks complete. */
  lemma FullLengthNeverCompletes(v: Variant, actions: seq<Action>, id: PacketId)
    requires id in Run(v, START, actions).streams && Count(Run(v, START, actions).streams[id]) == U32_LIMIT
    ensures !IsCompleted(Run(v, START, actions), id)
  {
    hide Run;
    StartIsBase();
    RunCompletesFit(v, START, actions);
  }

  /** A packet completes, and its ack fails. */
  ghost predicate Loses(v: Variant, w: World, a: Action) {
    Completes(v, w, a) && a.outcome == Failed
  }

  ghost predicate LosesAt(v: Variant, w: World, actions: seq<Action>, k: nat)
    requires k < |actions|
  {
    Loses(v, Run(v, w, actions[..k]), actions[k])
  }

  ghost predicate AllHandedOver(w: World) {
    forall c :: c in w.completed ==> c.handedOver
  }

  ghost predicate LosesNowhere(v: Variant, w: World, actions: seq<Action>) {
    forall k: nat :: k < |actions| ==> !LosesAt(v, w, actions, k)
  }

  lemma LosesLater(v: Variant, w: World, actions: seq<Action>)
    requires actions != []
    ensures LosesNowhere(v, w, actions) <==>
            !Loses(v, w, actions[0]) && LosesNowhere(v, Apply(v, w, actions[0]), actions[1..])
  {
    hide Apply, Loses;
    var w', rest := Apply(v, w, actions[0]), actions[1..];
    assert Run(v, w, []) == w;
    assert actions[..0] == [];
    assert LosesAt(v, w, actions, 0) <==> Loses(v, w, actions[0]);
    forall k: nat | k < |rest|
      ensures LosesAt(v, w', rest, k) <==> LosesAt(v, w, actions, k + 1)
    {
      assert actions[..k + 1][1..] == rest[..k];
    }
    assert forall k: nat :: 0 < k < |actions| ==> (LosesAt(v, w, actions, k) <==> LosesAt(v, w', rest, k - 1));
  }

  lemma {:induction false} HandedOverFrom(v: Variant, w: World, actions: seq<Action>)
    requires Base(w)
    ensures AllHandedOver(Run(v, w, actions)) <==> AllHandedOver(w) && LosesNowhere(v, w, actions)
    decreases |actions|
  {
    hide Base, Apply, Completes, LosesNowhere;
    if actions == [] {
      NothingLosesNothing(v, w);
    } else {
      var w' := Apply(v, w, actions[0]);
      StepKeepsBase(v, w, actions[0]);
      StepAdds(v, w, actions[0]);
      HandedOverFrom(v, w', actions[1..]);
      LosesLater(v, w, actions);
      AddedIsHandedOver(v, w, actions[0]);
    }
  }

  lemma NothingLosesNothing(v: Variant, w: World)
    ensures LosesNowhere(v, w, [])
  {
  }

  lemma AddedIsHandedOver(v: Variant, w: World, a: Action)
    requires Apply(v, w, a).completed == w.completed + Added(v, w, a)
    ensures AllHandedOver(Apply(v, w, a)) <==> AllHandedOver(w) && !Loses(v, w, a)
  {
    hide Apply, Expected;
    var added := Added(v, w, a);
    assert Loses(v, w, a) ==> !added[0].handedOver && added[0] in w.completed + added;
    assert forall c :: c in w.completed ==> c in w.completed + added;
  }

  /** In every run, all completed payloads are handed over exactly if at no arrival of a
      last missing chunk the ack fails. */
  lemma AllHandedOverExactly(v: Variant, actions: seq<Action>)
    ensures AllHandedOver(Run(v, START, actions)) <==> LosesNowhere(v, START, actions)
  {
    hide Run, LosesNowhere;
    StartIsBase();
    HandedOverFrom(v, START, actions);
  }

  // ----- Done without delivery -----

  lemma FirstIsCompleted(w: World, id: PacketId)
    requires w.completed != [] && w.completed[0].id == id
    ensures IsCompleted(w, id)
  {
  }

  ghost predicate IsHandedOver(w: World, id: PacketId) {
    exists k :: 0 <= k < |w.completed| && w.completed[k].id == id && w.completed[k].handedOver
  }

  /** Some run ends with a completed packet that the sender declares done, without the
      payload ever being handed over, a cancel or a timeout of the receiver. */
  ghost predicate CanBeLost(v: Variant, stream: Bytes) {
    exists actions, id ::
      var w := Run(v, START, actions);
      && id in w.streams && w.streams[id] == stream && id !in w.tainted
      && PrintDone(id) in w.net && IsCompleted(w, id) && !IsHandedOver(w, id)
  }

  /** Once all is there, a repeated chunk is answered unless its block is complete, which
      it is for every chunk exactly if the chunks fill whole blocks. */
  lemma LastIsDuplicate(guard: Guard, stream: Bytes)
    requires guard == Guarded || Count(stream) % DRAIN_STEP != 0
    ensures var n := Count(stream);
            Below(n) + {n - 1} == Below(n) && Expected(guard, Below(n), n, stream, n - 1) == Duplicate
  {
    var n := Count(stream);
    assert n - 1 in Below(n);
    if n % DRAIN_STEP != 0 {
      assert n in Below(RoundDown(n - 1) + DRAIN_STEP) && n !in Below(n);
    }
  }

  lemma FullBlocksPanic(stream: Bytes, index: nat)
    requires Count(stream) % DRAIN_STEP == 0 && index < Count(stream)
    ensures Expected(Unguarded, Below(Count(stream)), Count(stream), stream, index) == Panicked
  {
    var n := Count(stream);
    assert index in Below(n);
    assert RoundDown(index) + DRAIN_STEP <= n;
  }

  /** The last chunk arrives once more, and is acked. */
  lemma LastArrivesAgain(v: Variant, w: World, id: PacketId, stream: Bytes)
    requires Base(w) && !w.crashed && w.streams == map[id := stream] && Count(stream) < U32_LIMIT
    requires GotSoFar(w.incoming, id) == Below(Count(stream)) && Datagram(id, stream, Count(stream) - 1) in w.net
    requires v.guard == Guarded || Count(stream) % DRAIN_STEP != 0
    ensures var w' := Apply(v, w, ToReceiver(Datagram(id, stream, Count(stream) - 1), 0, Sent));
            && Base(w') && w' == w.(incoming := w'.incoming, net := w'.net) && w.net <= w'.net
            && PrintAck(id, Count(stream) - 1) in w'.net
  {
    hide Base, PrintPart, PrintAck, PrintDone, BufferSpec.ReceivePart, Got, EntryOk, Expected, Below;
    var k := Count(stream) - 1;
    StepKeepsBase(v, w, ToReceiver(Datagram(id, stream, k), 0, Sent));
    PartRoundTrip(true, id, k, Piece(stream, k));
    EntriesAreOk(w, id);
    PartFollowsSet(v.guard, w.incoming, id, stream, k, 0, Sent);
    PartFollowsSet(v.guard, w.incoming, id, stream, k, 0, WouldBlock);
    LastIsDuplicate(v.guard, stream);
    assert [PrintAck(id, k)][0] == PrintAck(id, k);
  }

  /** From the last missing chunk on: it arrives and its ack fails. If no ack is around
      that acks it at the sender, it arrives again. Then the sender is done. */
  lemma LoseLast(v: Variant, w: World, id: PacketId, stream: Bytes) returns (actions: seq<Action>)
    requires Halfway(w, id, stream, Count(stream) - 1) && Count(stream) < U32_LIMIT
    requires v.ix == AsBuilt || v.guard == Guarded || Count(stream) % DRAIN_STEP != 0
    ensures Ended(Run(v, w, actions), id, stream, false)
  {
    hide Base, Apply, Run, Queue.AckedSet, PrintAck, PrintDone, Datagram, Got, Below, Answer;
    var k := Count(stream) - 1;
    var fail := ToReceiver(Datagram(id, stream, k), 0, Failed);
    ChunkArrives(v, w, id, stream, k, Failed);
    var w1 := Apply(v, w, fail);
    if PrintAck(id, AckFor(v.ix, k)) in w1.net {
      AnswerRuns(v, w1, id, stream, k);
      RunCons(v, w, fail, Answer(v.ix, id, k));
      actions := [fail] + Answer(v.ix, id, k);
    } else {
      var again := ToReceiver(Datagram(id, stream, k), 0, Sent);
      LastArrivesAgain(v, w1, id, stream);
      AnswerRuns(v, Apply(v, w1, again), id, stream, k);
      RunCons(v, w1, again, Answer(v.ix, id, k));
      RunCons(v, w, fail, [again] + Answer(v.ix, id, k));
      actions := [fail] + ([again] + Answer(v.ix, id, k));
    }
  }

  /** The run that loses the payload and is done all the same. */
  lemma PayloadIsLost(v: Variant, id: PacketId, stream: Bytes, threshold: nat, b: NonZeroBatchSize)
      returns (actions: seq<Action>)
    requires Count(stream) < U32_LIMIT
    requires v.ix == AsBuilt || v.guard == Guarded || Count(stream) % DRAIN_STEP != 0
    ensures Ended(Run(v, START, actions), id, stream, false)
  {
    hide Halfway, Ended, Run;
    var first := ReachLastChunk(v, id, stream, threshold, b);
    var rest := LoseLast(v, Run(v, START, first), id, stream);
    RunConcat(v, START, first, rest);
    actions := first + rest;
  }

  // ----- Why full blocks keep the sender from being done -----

  ghost predicate AckMissing(w: World, id: PacketId) {
    id in w.streams && exists i: U32 :: i < Count(w.streams[id]) && PrintAck(id, i) !in w.net
  }

  /** A packet of full blocks whose payload was not handed over is not done, and if all of
      it has arrived, one of its chunks was never acked. */
  ghost predicate NotLost(w: World, id: PacketId) {
    id in w.streams && Count(w.streams[id]) % DRAIN_STEP == 0 && id !in w.tainted && !IsHandedOver(w, id) ==>
      PrintDone(id) !in w.net && (HasAll(w, id) ==> AckMissing(w, id))
  }

  ghost predicate NoneLost(w: World) {
    forall id :: NotLost(w, id)
  }

  /** What leaves `NotLost` as it is: no new acks of the id, no done of it, no new entry. */
  lemma QuietKeepsNotLost(w: World, w': World, id: PacketId)
    requires NotLost(w, id) && w.completed <= w'.completed && w.tainted <= w'.tainted
    requires id in w'.streams ==> id in w.streams && w'.streams[id] == w.streams[id]
    requires PrintDone(id) in w'.net ==> PrintDone(id) in w.net
    requires forall i: U32 :: PrintAck(id, i) in w'.net ==> PrintAck(id, i) in w.net
    requires id in w'.incoming && id !in w'.tainted ==> id in w.incoming && w'.incoming[id] == w.incoming[id]
    ensures NotLost(w', id)
  {
    hide PrintDone, PrintAck, Got, IsHandedOver;
    HandedOverStays(w, w', id);
  }

  lemma HandedOverStays(w: World, w': World, id: PacketId)
    requires w.completed <= w'.completed
    ensures IsHandedOver(w, id) ==> IsHandedOver(w', id)
  {
    if IsHandedOver(w, id) {
      var k :| 0 <= k < |w.completed| && w.completed[k].id == id && w.completed[k].handedOver;
      assert w'.completed[k] == w.completed[k];
    }
  }

  lemma SendKeepsNoneLost(w: World, a: Action)
    requires Base(w) && NoneLost(w) && a.Send? && a.id !in w.streams && Count(a.stream) <= U32_LIMIT
    ensures NoneLost(ApplySend(w, a))
  {
    hide PrintDone, PrintAck, PrintPart, Datagrams, StartOut, Serialized, Genuine, Window, EntryOk, Got, SenderOk,
         ReceiverOk, NotLost;
    var w' := ApplySend(w, a);
    var packet := Serialized(a.id, a.threshold, a.stream);
    var (o, sent) := StartOut(packet, a.batchSize, a.now, a.outcomes, 0);
    FreshId(w, a.id);
    StartFacts(packet, a.batchSize, a.now, a.outcomes);
    GenuineStays(w.streams, w'.streams, w.net);
    AddParts(w'.streams, w.net, a.id, sent, Count(a.stream));
    forall id
      ensures NotLost(w', id)
    {
      if id == a.id {
        UnheardIsNotLost(w', id);
      } else {
        QuietKeepsNotLost(w, w', id);
      }
    }
  }

  lemma UnheardIsNotLost(w: World, id: PacketId)
    requires PrintDone(id) !in w.net && id !in w.incoming
    ensures NotLost(w, id)
  {
  }

  /** `Done` goes out when every chunk is acked, and then every ack was sent. */
  lemma DoneMeansHandedOver(w: World, id: PacketId)
    requires Base(w) && Sound(Documented, w) && NotLost(w, id) && id in w.outgoing && id !in w.tainted
    requires Count(w.streams[id]) % DRAIN_STEP == 0
    requires forall i: nat :: i < Count(w.streams[id]) ==> i in w.outgoing[id].queue.AckedSet()
    ensures IsHandedOver(w, id)
  {
    hide PrintDone, PrintAck, Genuine, Window, EntryOk, Got, Queue.AckedSet, IsHandedOver;
    var n := Count(w.streams[id]);
    assert PrintAck(id, 0) in w.net;
    forall i: nat | i < n
      ensures PrintAck(id, i) in w.net && id in w.incoming && i in Got(w.incoming[id])
    {
    }
    GotIsBelow(w.incoming[id], w.streams[id]);
    assert Got(w.incoming[id]) == Below(n);
  }

  lemma ResendKeepsNoneLost(w: World, a: Action)
    requires Base(w) && Sound(Documented, w) && NoneLost(w) && a.Resend? && a.id in w.outgoing
    ensures NoneLost(ApplyResend(w, a))
  {
    hide PrintDone, PrintAck, PrintPart, Datagrams, SendSpec.SendPending, Genuine, Window, EntryOk, Got, ReceiverOk,
         NotLost, Queue.AckedSet;
    var w' := ApplyResend(w, a);
    var ds := Datagrams(a.id, w.streams[a.id]);
    var (o, result, sent) := SendPending(w.outgoing[a.id], a.id, a.now, a.delay, a.outcomes, 0);
    PendingFacts(w.outgoing[a.id], a.id, ds, a.now, a.delay, a.outcomes);
    if result == Finished {
      AddDone(w.streams, w.net, a.id);
      assert SetOf(sent) == {PrintDone(a.id)};
    } else {
      AddParts(w.streams, w.net, a.id, sent, o.queue.Loaded());
    }
    forall id
      ensures NotLost(w', id)
    {
      if id == a.id && result == Finished {
        if id !in w.tainted && Count(w.streams[id]) % DRAIN_STEP == 0 {
          DoneMeansHandedOver(w, id);
        }
        HandedOverIsNotLost(w, w', id);
      } else {
        QuietKeepsNotLost(w, w', id);
      }
    }
  }

  lemma HandedOverIsNotLost(w: World, w': World, id: PacketId)
    requires w'.completed == w.completed && w'.tainted == w.tainted && w'.streams == w.streams
    requires id in w.streams && (id in w.tainted || Count(w.streams[id]) % DRAIN_STEP != 0 || IsHandedOver(w, id))
    ensures NotLost(w', id)
  {
  }

  /** The arrival of a part, for its own id. */
  lemma ArrivalKeepsNotLost(w: World, w': World, id: PacketId, index: U32, outcome: SendResult)
    requires AcksTrue(w) && NotLost(w, id) && IsChunk(w.streams, id, index)
    requires w'.streams == w.streams && w'.tainted == w.tainted
    requires PrintDone(id) in w'.net ==> PrintDone(id) in w.net
    requires w'.net == w.net + (if outcome == Sent then {PrintAck(id, index)} else {})
    requires forall i: U32 :: i != index ==> PrintAck(id, i) != PrintAck(id, index)
    requires id in w'.incoming && Got(w'.incoming[id]) == GotSoFar(w.incoming, id) + {index}
    requires var expected := Expected(Unguarded, GotSoFar(w.incoming, id), Count(w.streams[id]), w.streams[id], index);
             && expected != Panicked
             && w'.completed == w.completed +
                  if expected.Reassembled? then [Completion(id, w.streams[id], outcome != Failed)] else []
    ensures NotLost(w', id)
  {
    hide PrintDone, PrintAck, Got, Below, BlockComplete;
    var stream := w.streams[id];
    var n, got := Count(stream), GotSoFar(w.incoming, id);
    if n % DRAIN_STEP == 0 && id !in w.tainted && !IsHandedOver(w', id) {
      HandedOverStays(w, w', id);
      if got == Below(n) {
        FullBlocksPanic(stream, index);
      } else if index in got {
        assert got + {index} == got;
      } else if got + {index} == Below(n) {
        assert w'.completed[|w.completed|] == Completion(id, stream, outcome != Failed);
        assert outcome == Failed && PrintAck(id, index) !in w'.net;
      }
    }
  }

  lemma PartKeepsNoneLost(w: World, last: bool, id: PacketId, index: U32, payload: Bytes, now: int, outcome: SendResult)
    requires Base(w) && AcksTrue(w) && NoneLost(w) && IsChunk(w.streams, id, index) && !w.crashed
    requires last == (index == Count(w.streams[id]) - 1) && payload == Piece(w.streams[id], index)
    requires Datagram(id, w.streams[id], index) in w.net
    ensures NoneLost(ApplyPart(Unguarded, w, last, id, index, payload, now, outcome))
  {
    hide PrintDone, PrintAck, PrintPart, BufferSpec.ReceivePart, EntryOk, Got, Expected, Below, NotLost, ApplyPart,
         StreamsOk, SenderOk, CompletionsOk, ReceiverOk, AllGenuine, AcksTrue;
    var w' := ApplyPart(Unguarded, w, last, id, index, payload, now, outcome);
    EntriesAreOk(w, id);
    PartEffect(Unguarded, w, last, id, index, payload, now, outcome);
    if w'.crashed {
      forall other
        ensures NotLost(w', other)
      {
        QuietKeepsNotLost(w, w', other);
      }
    } else {
      AddAck(w.streams, w.net, id, index);
      forall other
        ensures NotLost(w', other)
      {
        if other == id {
          AcksDiffer(id, index);
          ArrivalKeepsNotLost(w, w', id, index, outcome);
        } else {
          assert other in w'.incoming ==> other in w'.incoming - {id};
          QuietKeepsNotLost(w, w', other);
        }
      }
    }
  }

  lemma AcksDiffer(id: PacketId, index: U32)
    ensures forall i: U32 :: i != index ==> PrintAck(id, i) != PrintAck(id, index)
  {
    hide PrintAck;
    AckRoundTrip(id, index);
    forall i: U32 | i != index
      ensures PrintAck(id, i) != PrintAck(id, index)
    {
      AckRoundTrip(id, i);
    }
  }

  lemma ToReceiverKeepsNoneLost(w: World, a: Action)
    requires Base(w) && AcksTrue(w) && NoneLost(w) && !w.crashed
    requires a.ToReceiver? && a.datagram in w.net && a.datagram != []
    ensures NoneLost(ApplyToReceiver(Unguarded, w, a))
  {
    hide ViewForReceiver, SenderOk, ReceiverOk, CompletionsOk, ApplyPart, NotLost, PrintDone, PrintAck;
    match ViewForReceiver(a.datagram)
    case PartView(last, id, index, payload) =>
      PartIsKnown(w, a.datagram);
      PartKeepsNoneLost(w, last, id, index, payload, a.now, a.outcome);
    case DoneView(id) =>
      var w' := ApplyToReceiver(Unguarded, w, a);
      forall other
        ensures NotLost(w', other)
      {
        QuietKeepsNotLost(w, w', other);
      }
    case _ =>
  }

  /** What touches neither the network nor the completions. */
  lemma IdleKeepsNoneLost(w: World, w': World)
    requires NoneLost(w) && w'.completed == w.completed && w.tainted <= w'.tainted && w'.streams == w.streams
    requires w'.net == w.net
    requires forall id :: id in w'.incoming && id !in w'.tainted ==>
               id in w.incoming && w'.incoming[id] == w.incoming[id]
    ensures NoneLost(w')
  {
    hide NotLost, PrintDone, PrintAck;
    forall id
      ensures NotLost(w', id)
    {
      QuietKeepsNotLost(w, w', id);
    }
  }

  lemma StepKeepsNoneLost(w: World, a: Action)
    requires Base(w) && Sound(Documented, w) && NoneLost(w)
    ensures NoneLost(Apply(Variant(Documented, Unguarded), w, a))
  {
    hide Base, ApplySend, ApplyResend, ApplyToReceiver, HandleOutgoing, PrintDone, PrintAck, Got, Queue.AckedSet,
         LookupExact, NoneLost;
    match a
    case Send(id, stream, _, _, _, _) =>
      if id !in w.streams && Count(stream) <= U32_LIMIT {
        SendKeepsNoneLost(w, a);
      }
    case Resend(id, _, _, _) =>
      if id in w.outgoing {
        ResendKeepsNoneLost(w, a);
      }
    case ToReceiver(datagram, _, _) =>
      if datagram in w.net && datagram != [] && !w.crashed {
        ToReceiverKeepsNoneLost(w, a);
      }
    case _ => IdleKeepsNoneLost(w, Apply(Variant(Documented, Unguarded), w, a));
  }

  lemma {:induction false} RunKeepsNoneLost(w: World, actions: seq<Action>)
    requires Base(w) && Sound(Documented, w) && NoneLost(w)
    ensures NoneLost(Run(Variant(Documented, Unguarded), w, actions))
    decreases |actions|
  {
    hide Base, Apply, Sound, NoneLost;
    if actions != [] {
      var v := Variant(Documented, Unguarded);
      StepKeepsBase(v, w, actions[0]);
      StepKeepsSound(v, w, actions[0]);
      StepKeepsNoneLost(w, actions[0]);
      RunKeepsNoneLost(Apply(v, w, actions[0]), actions[1..]);
    }
  }

  /** With the offset and without the guard, a packet of full blocks is done only after its
      payload was handed over. */
  lemma FullBlocksAreNotLost(actions: seq<Action>, id: PacketId)
    requires var w := Run(Variant(Documented, Unguarded), START, actions);
             id in w.streams && Count(w.streams[id]) % DRAIN_STEP == 0 && id !in w.tainted && PrintDone(id) in w.net
    ensures IsHandedOver(Run(Variant(Documented, Unguarded), START, actions), id)
  {
    hide Run, PrintDone, IsHandedOver, AckMissing;
    StartIsBase();
    RunKeepsNoneLost(START, actions);
    assert NotLost(Run(Variant(Documented, Unguarded), START, actions), id);
  }

  /** Exactly when a payload can be lost for good behind the sender's back, below 2^32
      chunks: always with a guard against late duplicates or with the built lookup of acks;
      otherwise, when the chunks do not fill whole blocks of 256, since then a repeated
      chunk is answered. */
  lemma PayloadLostExactly(v: Variant, stream: Bytes)
    requires Count(stream) <= U32_LIMIT
    ensures CanBeLost(v, stream) <==>
            && Count(stream) < 0x1_0000_0000
            && (v.ix == AsBuilt || v.guard == Guarded || Count(stream) % 256 != 0)
  {
    hide Run, PrintDone, Base, IsCompleted;
    if Count(stream) == U32_LIMIT {
      forall actions, id | id in Run(v, START, actions).streams && Run(v, START, actions).streams[id] == stream
        ensures !IsCompleted(Run(v, START, actions), id)
      {
        FullLengthNeverCompletes(v, actions, id);
      }
    } else if v.ix == AsBuilt || v.guard == Guarded || Count(stream) % DRAIN_STEP != 0 {
      var id: PacketId := seq(16, _ => 0);
      var actions := PayloadIsLost(v, id, stream, 0, 1);
      var w := Run(v, START, actions);
      FirstIsCompleted(w, id);
      assert IsCompleted(w, id) && !IsHandedOver(w, id);
    } else {
      forall actions, id |
        var w := Run(v, START, actions);
        && id in w.streams && w.streams[id] == stream && id !in w.tainted && PrintDone(id) in w.net
        ensures IsHandedOver(Run(v, START, actions), id)
      {
        FullBlocksAreNotLost(actions, id);
      }
    }
  }
}
