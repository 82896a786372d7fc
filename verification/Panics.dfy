/** When the receiver panics, over whole runs: by a late duplicate that no guard catches, or
    by the counter of a packet of 2^32 chunks. */
module Panics {
  import opened Wire
  import opened Chunking
  import opened Serialize
  import opened Sockets
  import opened SendSpec
  import opened SendRefinement
  import opened ReceiveSpec
  import opened ReassemblyLaws
  import opened BufferSpec
  import opened Counting
  import opened Protocol
  import opened ProtocolBase
  import opened ProtocolSteps
  import opened AsBuiltAcks
  import opened Delivery
  import opened Transfer

  /** A packet of so many chunks can end the receiver. */
  predicate Panicking(guard: Guard, n: nat) {
    (guard == Unguarded && DRAIN_STEP <= n) || n == U32_LIMIT
  }

  // ----- Why a receiver panics -----

  lemma OthersDoNotPanic(guard: Guard, got: set<nat>, n: nat, whole: Bytes, index: nat)
    requires got <= Below(n) && index < n && !Panicking(guard, n) && n <= U32_LIMIT
    ensures Expected(guard, got, n, whole, index) != Panicked
  {
    if guard == Unguarded {
      FewChunksNoBlock(got, n, RoundDown(index));
    }
  }

  /** The receiver is up, or one of the streams is such a packet. */
  ghost predicate Explained(v: Variant, w: World) {
    w.crashed ==> exists id :: id in w.streams && Panicking(v.guard, Count(w.streams[id]))
  }

  lemma GotIsWithin(w: World, id: PacketId)
    requires Base(w) && id in w.streams
    ensures GotSoFar(w.incoming, id) <= Below(Count(w.streams[id]))
  {
  }

  lemma PartIsExplained(v: Variant, w: World, d: Bytes, now: int, outcome: SendResult)
    requires Base(w) && !w.crashed && d in w.net && d != [] && ViewForReceiver(d).PartView?
    ensures var PartView(last, id, index, payload) := ViewForReceiver(d);
            Explained(v, ApplyPart(v.guard, w, last, id, index, payload, now, outcome))
  {
    hide Base, ViewForReceiver, ApplyPart, Got, Expected, EntryOk, Panicking, GotSoFar;
    var PartView(last, id, index, payload) := ViewForReceiver(d);
    PartIsKnown(w, d);
    PartEffect(v.guard, w, last, id, index, payload, now, outcome);
    GotIsWithin(w, id);
    if !Panicking(v.guard, Count(w.streams[id])) {
      OthersDoNotPanic(v.guard, GotSoFar(w.incoming, id), Count(w.streams[id]), w.streams[id], index);
    }
  }

  lemma StepIsExplained(v: Variant, w: World, a: Action)
    requires Base(w) && Explained(v, w)
    ensures Explained(v, Apply(v, w, a))
  {
    hide Base, ViewForReceiver, ApplyPart, HandleOutgoing, StartOut, SendSpec.SendPending, Panicking;
    match a
    case ToReceiver(datagram, now, outcome) =>
      if datagram in w.net && datagram != [] && !w.crashed && ViewForReceiver(datagram).PartView? {
        PartIsExplained(v, w, datagram, now, outcome);
      }
    case Send(id, stream, _, _, _, _) =>
      if w.crashed && id !in w.streams && Count(stream) <= U32_LIMIT {
        var other :| other in w.streams && Panicking(v.guard, Count(w.streams[other]));
        assert other in Apply(v, w, a).streams;
      }
    case _ =>
  }

  lemma {:induction false} RunIsExplained(v: Variant, w: World, actions: seq<Action>)
    requires Base(w) && Explained(v, w)
    ensures Explained(v, Run(v, w, actions))
    decreases |actions|
  {
    hide Base, Apply, Explained;
    if actions != [] {
      StepKeepsBase(v, w, actions[0]);
      StepIsExplained(v, w, actions[0]);
      RunIsExplained(v, Apply(v, w, actions[0]), actions[1..]);
    }
  }

  // ----- Arrivals that are never acked -----

  /** The first 256 chunks are on the network. The first `k` of them have arrived, and no
      ack went out. */
  ghost predicate Silent(w: World, id: PacketId, stream: Bytes, k: nat) {
    && k <= DRAIN_STEP <= Count(stream) <= U32_LIMIT && Base(w) && !w.crashed
    && w.streams == map[id := stream] && w.tainted == {} && (k < Count(stream) ==> w.completed == [])
    && id in w.outgoing && PrintAck(id, 0) !in w.net
    && GotSoFar(w.incoming, id) == Below(k)
    && forall i: nat :: i < DRAIN_STEP ==> Datagram(id, stream, i) in w.net
  }

  /** A first batch carries the first datagrams. */
  lemma FirstBatchCarries(packet: SerializedPacket, b: NonZeroBatchSize, i: nat)
    requires i < b && i < |packet.Content()|
    ensures packet.Content()[i] in Batch(NewQueue(packet), b)
  {
    hide Fill, Batch, Window, Queue.AckedSet;
    var ds, q := packet.Content(), NewQueue(packet);
    NewQueueIsWindow(packet);
    assert q.AckedSet() == Below(0);
    BatchIsLowestOpen(q, ds, b);
    OpenAboveBelow(0, 0, |ds|);
    assert BatchIndices(q, |ds|, b)[i] == i;
    assert Batch(q, b)[i] == ds[i];
  }

  lemma SilentStart(v: Variant, id: PacketId, stream: Bytes)
    requires DRAIN_STEP <= Count(stream) <= U32_LIMIT
    ensures Silent(Apply(v, START, Send(id, stream, 0, DRAIN_STEP, 0, ALL_SENT)), id, stream, 0)
  {
    hide Fill, Batch, Window, Base, Queue.AckedSet, Datagram, Datagrams, Serialized, PrintAck, Genuine;
    var a := Send(id, stream, 0, DRAIN_STEP, 0, ALL_SENT);
    var w := Apply(v, START, a);
    var packet := Serialized(id, 0, stream);
    var batch := Batch(NewQueue(packet), DRAIN_STEP);
    StartIsBase();
    StepKeepsBase(v, START, a);
    AcceptedAll(ALL_SENT, 0, |batch|);
    assert batch[..|batch|] == batch;
    StartFacts(packet, DRAIN_STEP, 0, ALL_SENT);
    AddParts(w.streams, {}, id, batch, Count(stream));
    assert w.net == {} + SetOf(batch);
    forall i: nat | i < DRAIN_STEP
      ensures Datagram(id, stream, i) in w.net
    {
      FirstBatchCarries(packet, DRAIN_STEP, i);
      ContentAt(id, stream, i);
    }
  }

  lemma ContentAt(id: PacketId, stream: Bytes, i: nat)
    requires i < Count(stream) <= U32_LIMIT
    ensures Serialized(id, 0, stream).Content()[i] == Datagram(id, stream, i)
  {
  }

  lemma SilentStep(v: Variant, w: World, id: PacketId, stream: Bytes, k: nat)
    requires Silent(w, id, stream, k) && k < DRAIN_STEP
    ensures Silent(Apply(v, w, ToReceiver(Datagram(id, stream, k), 0, WouldBlock)), id, stream, k + 1)
  {
    hide Base, Apply, PrintAck, Datagram, GotSoFar, Below;
    ChunkArrives(v, w, id, stream, k, WouldBlock);
  }

  /** The arrivals of the first `k` chunks, none of which is acked. */
  lemma {:induction false} SilentRun(v: Variant, id: PacketId, stream: Bytes, k: nat) returns (actions: seq<Action>)
    requires k <= DRAIN_STEP <= Count(stream) <= U32_LIMIT
    ensures Silent(Run(v, START, actions), id, stream, k)
  {
    hide Silent, Run, Apply, Datagram;
    if k == 0 {
      var send := Send(id, stream, 0, DRAIN_STEP, 0, ALL_SENT);
      SilentStart(v, id, stream);
      RunOnce(v, START, send);
      actions := [send];
    } else {
      var earlier := SilentRun(v, id, stream, k - 1);
      var arrive := ToReceiver(Datagram(id, stream, k - 1), 0, WouldBlock);
      SilentStep(v, Run(v, START, earlier), id, stream, k - 1);
      RunConcat(v, START, earlier, [arrive]);
      RunOnce(v, Run(v, START, earlier), arrive);
      actions := earlier + [arrive];
    }
  }

  lemma RunOnce(v: Variant, w: World, a: Action)
    ensures Run(v, w, [a]) == Apply(v, w, a)
  {
    hide Apply;
    assert [a][1..] == [];
  }

  // ----- Exactly when it panics -----

  /** The arrival of a chunk that is expected to panic. */
  lemma PanicArrives(v: Variant, w: World, id: PacketId, stream: Bytes, k: nat)
    requires Base(w) && !w.crashed && w.streams == map[id := stream] && k < Count(stream) <= U32_LIMIT
    requires Datagram(id, stream, k) in w.net
    requires Expected(v.guard, GotSoFar(w.incoming, id), Count(stream), stream, k) == Panicked
    ensures Apply(v, w, ToReceiver(Datagram(id, stream, k), 0, Sent)) == w.(crashed := true)
  {
    hide Base, PrintPart, ApplyPart, Got, EntryOk, Expected, GotSoFar;
    PartRoundTrip(k == Count(stream) - 1, id, k, Piece(stream, k));
    EntriesAreOk(w, id);
    PartEffect(v.guard, w, k == Count(stream) - 1, id, k, Piece(stream, k), 0, Sent);
  }

  lemma BlockPanics(n: nat, whole: Bytes)
    ensures Expected(Unguarded, Below(DRAIN_STEP), n, whole, 0) == Panicked
  {
    assert 0 in Below(DRAIN_STEP) && RoundDown(0) + DRAIN_STEP == DRAIN_STEP;
  }

  /** The run that ends with the panic. */
  lemma ReachPanic(v: Variant, id: PacketId, stream: Bytes) returns (actions: seq<Action>)
    requires Panicking(v.guard, Count(stream)) && Count(stream) <= U32_LIMIT
    ensures Run(v, START, actions).crashed && Run(v, START, actions).streams == map[id := stream]
  {
    hide Run, Apply, Base, Datagram, GotSoFar, Below, Expected;
    var n := Count(stream);
    var k: nat;
    if v.guard == Unguarded && DRAIN_STEP <= n {
      actions := SilentRun(v, id, stream, DRAIN_STEP);
      k := 0;
      BlockPanics(n, stream);
    } else {
      actions := ReachLastChunk(v, id, stream, 0, 1);
      k := n - 1;
      NextInOrder(v.guard, stream, k);
    }
    var w := Run(v, START, actions);
    var last := ToReceiver(Datagram(id, stream, k), 0, Sent);
    PanicArrives(v, w, id, stream, k);
    RunConcat(v, START, actions, [last]);
    RunOnce(v, w, last);
    actions := actions + [last];
  }

  /** The receiver panics in some run in which nothing but this stream is sent. */
  ghost predicate CanPanic(v: Variant, stream: Bytes) {
    exists actions ::
      var w := Run(v, START, actions);
      w.crashed && forall id :: id in w.streams ==> w.streams[id] == stream
  }

  /** Exactly which packets can end the receiver: without a guard those of 256 chunks or
      more, and in any case those of 2^32 chunks. */
  lemma PanicExactly(v: Variant, stream: Bytes)
    requires Count(stream) <= U32_LIMIT
    ensures CanPanic(v, stream) <==>
            (v.guard == Unguarded && 256 <= Count(stream)) || Count(stream) == 0x1_0000_0000
  {
    hide Run;
    if Panicking(v.guard, Count(stream)) {
      var actions := ReachPanic(v, seq(16, _ => 0), stream);
      assert CanPanic(v, stream);
    } else {
      forall actions |
        var w := Run(v, START, actions);
        forall id :: id in w.streams ==> w.streams[id] == stream
        ensures !Run(v, START, actions).crashed
      {
        StartIsBase();
        RunIsExplained(v, START, actions);
      }
    }
  }
}
