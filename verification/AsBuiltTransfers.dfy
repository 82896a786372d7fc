/** The built lookup of acks in a transfer without loss: acks in ascending order never
    reach chunk 1, so the packet never finishes and the growth equation fails. */
module AsBuiltTransfers {
  import opened Wire
  import opened Serialize
  import opened Sockets
  import opened SendSpec
  import opened SendRefinement
  import opened SendLaws
  import opened Transfer
  import opened BufferSpec
  import opened Counting
  import opened ProtocolSteps

  /** Chunk 0 is acked and chunk 1 is not: from here on, only another ack of chunk 0 would
      reach chunk 1. */
  ghost predicate Stuck(o: Out, ds: seq<Bytes>) {
    && 2 <= |ds| && Window(o.queue, ds) && o.lastSend.Some?
    && 0 in o.queue.AckedSet() && 1 !in o.queue.AckedSet()
  }

  lemma StuckFront(q: Queue, ds: seq<Bytes>)
    requires Window(q, ds) && 0 in q.AckedSet() && 1 !in q.AckedSet()
    ensures q.first == 1
  {
    assert q.packets != [] ==> !q.CountsAsAcked(q.first);
    assert 1 < q.first ==> q.CountsAsAcked(1);
  }

  /** As built, no ack of another chunk gets out of it. */
  lemma AckKeepsStuck(o: Out, ds: seq<Bytes>, index: nat)
    requires Stuck(o, ds) && 1 <= index
    ensures Stuck(AckOut(AsBuilt, o, index).0, ds)
  {
    hide Window, Queue.AckedSet;
    StuckFront(o.queue, ds);
    AsBuiltAckIsShifted(o.queue, ds, index);
  }

  lemma {:induction false} AcksKeepStuck(o: Out, ds: seq<Bytes>, order: seq<nat>)
    requires Stuck(o, ds) && 0 !in order
    ensures Stuck(AckAll(AsBuilt, o, order).0, ds)
    decreases |order|
  {
    hide Stuck, AckOut;
    if order != [] {
      assert order == [order[0]] + order[1..];
      AckKeepsStuck(o, ds, order[0]);
      AcksKeepStuck(AckOut(AsBuilt, o, order[0]).0, ds, order[1..]);
    }
  }

  /** Whatever a send does, it stays stuck, and it is not finished. */
  lemma SendKeepsStuck(o: Out, ds: seq<Bytes>, id: PacketId, now: int, delay: nat, outcomes: Outcomes)
    requires Stuck(o, ds)
    ensures var (o', result, _) := SendPending(o, id, now, delay, outcomes, 0);
            Stuck(o', ds) && result != Finished
  {
    hide Window, Queue.AckedSet, SendSpec.SendPending;
    PendingFacts(o, id, ds, now, delay, outcomes);
  }

  lemma RoundKeepsStuck(o: Out, ds: seq<Bytes>, id: PacketId, r: Round)
    requires Stuck(o, ds) && Lossless(o, |ds|, r)
    ensures Stuck(RunRound(AsBuilt, o, id, r), ds) && RunRound(AsBuilt, o, id, r).missedAcks == 0
  {
    hide SendSpec.SendPending, AckAll, Stuck, Queue.AckedSet;
    StuckIsAnswered(o, ds, r.order, NextBatchSize(o));
    AcksAreConserved(AsBuilt, SendPending(o, id, r.now, r.delay, r.outcomes, 0).0, r.order);
    SendKeepsStuck(o, ds, id, r.now, r.delay, r.outcomes);
    AnswerIsFresh(r.order, o.queue, |ds|, NextBatchSize(o));
    assert 0 in o.queue.AckedSet() by { StuckHasFirst(o, ds); }
    AcksKeepStuck(SendPending(o, id, r.now, r.delay, r.outcomes, 0).0, ds, r.order);
  }

  /** Chunk 1 is open, so every batch has something to answer. */
  lemma StuckIsAnswered(o: Out, ds: seq<Bytes>, order: seq<nat>, count: NonZeroBatchSize)
    requires Stuck(o, ds) && Answers(order, o.queue, |ds|, count)
    ensures order != []
  {
    hide Window, Queue.AckedSet;
    OpenIsAscending(o.queue.AckedSet(), 0, |ds|);
    assert 1 in Open(o.queue.AckedSet(), 0, |ds|);
    var indices := BatchIndices(o.queue, |ds|, count);
    assert indices[0] in SetOf(indices);
  }

  lemma StuckHasFirst(o: Out, ds: seq<Bytes>)
    requires Stuck(o, ds)
    ensures 0 in o.queue.AckedSet()
  {
  }

  /** What a batch carries was not acked before. */
  lemma AnswerIsFresh(order: seq<nat>, q: Queue, n: nat, count: nat)
    requires Answers(order, q, n, count)
    ensures forall i :: i in order ==> i !in q.AckedSet()
  {
    hide Queue.AckedSet;
    OpenIsAscending(q.AckedSet(), 0, n);
    forall i | i in order
      ensures i !in q.AckedSet()
    {
      assert i in SetOf(order);
      assert i in BatchIndices(q, n, count);
    }
  }

  /** Chunk 0 is acked first. */
  lemma FirstBatchIsStuck(packet: SerializedPacket, c: Course)
    requires Undisturbed(AsBuilt, packet, c) && 2 <= |packet.Content()| && c.order != [] && c.order[0] == 0
    ensures Stuck(AfterFirstBatch(AsBuilt, packet, c), packet.Content())
  {
    hide Fill, Unacked, Window, AllLossless, AckAll;
    var ds := packet.Content();
    var o := FirstBatch(packet, c).value;
    var o1 := AckOut(AsBuilt, o, 0).0;
    FirstBatchSent(packet, c.batchSize, c.start, c.outcomes);
    assert 0 < o.queue.Loaded() by { CarriesFirst(packet, c); }
    AckZero(o, ds);
    assert c.order == [0] + c.order[1..];
    assert 0 !in c.order[1..];
    AcksKeepStuck(o1, ds, c.order[1..]);
    AckAllSplits(AsBuilt, o, c.order);
  }

  lemma CarriesFirst(packet: SerializedPacket, c: Course)
    requires Answers(c.order, NewQueue(packet), |packet.Content()|, c.batchSize) && c.order != [] && c.order[0] == 0
    ensures 0 < Fill(NewQueue(packet), c.batchSize).Loaded()
  {
    hide Fill, Batch;
    NewQueueIsWindow(packet);
    BatchIsLowestOpen(NewQueue(packet), packet.Content(), c.batchSize);
    assert 0 in SetOf(c.order);
  }

  lemma AckAllSplits(ix: Indexing, o: Out, order: seq<nat>)
    requires order != []
    ensures AckAll(ix, o, order).0 == AckAll(ix, AckOut(ix, o, order[0]).0, order[1..]).0
  {
  }

  lemma AckZero(o: Out, ds: seq<Bytes>)
    requires Incomplete(o, ds) && o.queue.AckedSet() == {} && o.lastSend.Some? && 2 <= |ds|
    requires 0 < o.queue.Loaded()
    ensures Stuck(AckOut(AsBuilt, o, 0).0, ds)
  {
    assert o.queue.first == 0 by {
      assert 0 !in o.queue.AckedSet();
      assert 0 < o.queue.first ==> o.queue.CountsAsAcked(0);
    }
    AsBuiltAckIsShifted(o.queue, ds, 0);
  }

  lemma {:induction false} RoundsKeepStuck(packet: SerializedPacket, c: Course)
    requires Undisturbed(AsBuilt, packet, c) && 2 <= |packet.Content()| && c.order != [] && c.order[0] == 0
    ensures Stuck(AfterRounds(AsBuilt, packet, c), packet.Content())
    ensures AfterRounds(AsBuilt, packet, c).missedAcks == 0
    decreases |c.rounds|
  {
    hide Stuck, RunRound, Lossless, AckAll;
    if c.rounds == [] {
      AcksAreConserved(AsBuilt, FirstBatch(packet, c).value, c.order);
      FirstBatchIsStuck(packet, c);
    } else {
      LastRound(AsBuilt, packet, c);
      RoundsKeepStuck(packet, Earlier(c));
      RoundKeepsStuck(AfterRounds(AsBuilt, packet, Earlier(c)), packet.Content(), c.id, c.rounds[|c.rounds| - 1]);
    }
  }

  /** As built, a packet of two or more chunks whose chunk 0 is acked first never finishes:
      after any number of rounds without loss, whatever the next send does. Nor is it ever
      dropped, since the acks of each round reset the count of missed ones. */
  lemma NeverFinishes(packet: SerializedPacket, c: Course, now: int, delay: nat, outcomes: Outcomes)
    requires Undisturbed(AsBuilt, packet, c) && 2 <= |packet.Content()| && c.order != [] && c.order[0] == 0
    ensures 1 !in AfterRounds(AsBuilt, packet, c).queue.AckedSet()
    ensures SendPending(AfterRounds(AsBuilt, packet, c), c.id, now, delay, outcomes, 0).1 != Finished
    ensures forall outgoing: Outgoing, limit ::
              c.id in outgoing && outgoing[c.id] == AfterRounds(AsBuilt, packet, c) ==>
                c.id in KeptOutgoing(outgoing, limit)
  {
    hide AfterRounds, SendSpec.SendPending, Window, Queue.AckedSet, AllLossless;
    RoundsKeepStuck(packet, c);
    SendKeepsStuck(AfterRounds(AsBuilt, packet, c), packet.Content(), c.id, now, delay, outcomes);
  }

  // ----- Such transfers exist -----

  ghost predicate Increasing(order: seq<nat>) {
    forall a, b :: 0 <= a < b < |order| ==> order[a] < order[b]
  }

  /** Acks of exactly the batch, in ascending order. */
  lemma AscendingAnswers(q: Queue, n: nat, count: nat)
    ensures Answers(BatchIndices(q, n, count), q, n, count) && Increasing(BatchIndices(q, n, count))
  {
    hide Queue.AckedSet;
    OpenIsAscending(q.AckedSet(), 0, n);
  }

  lemma SendKeepsLastSend(o: Out, id: PacketId, now: int, delay: nat, outcomes: Outcomes)
    requires o.lastSend.Some?
    ensures SendPending(o, id, now, delay, outcomes, 0).0.lastSend.Some?
  {
    hide Fill, Batch;
  }

  /** Any number of rounds can go by without loss. */
  lemma {:induction false} AscendingRounds(ix: Indexing, o: Out, id: PacketId, n: nat, k: nat)
      returns (rounds: seq<Round>)
    requires o.lastSend.Some?
    ensures |rounds| == k && AllLossless(ix, o, id, n, rounds)
    ensures forall r :: r in rounds ==> Increasing(r.order)
    ensures RunRounds(ix, o, id, rounds).lastSend.Some?
  {
    hide SendSpec.SendPending, AckAll, BatchIndices, Answers, Increasing;
    if k == 0 {
      rounds := [];
    } else {
      var earlier := AscendingRounds(ix, o, id, n, k - 1);
      var before := RunRounds(ix, o, id, earlier);
      var order := BatchIndices(before.queue, n, NextBatchSize(before));
      var round := Round(before.lastSend.value, 0, _ => Sent, order);
      AscendingAnswers(before.queue, n, NextBatchSize(before));
      SendKeepsLastSend(before, id, round.now, 0, round.outcomes);
      AcksAreConserved(ix, SendPending(before, id, round.now, 0, round.outcomes, 0).0, order);
      rounds := earlier + [round];
      assert rounds[..|rounds| - 1] == earlier;
    }
  }

  /** Every packet, with every first batch size, has a transfer without loss of any length,
      with acks in ascending order. */
  lemma AscendingCourse(ix: Indexing, packet: SerializedPacket, b: NonZeroBatchSize, k: nat) returns (c: Course)
    ensures Undisturbed(ix, packet, c) && c.batchSize == b && |c.rounds| == k
    ensures Increasing(c.order) && forall r :: r in c.rounds ==> Increasing(r.order)
    ensures c.order == BatchIndices(NewQueue(packet), |packet.Content()|, b)
    ensures packet.Content() != [] ==> c.order != [] && c.order[0] == 0
  {
    hide AckAll, AllLossless, Fill, Unacked, Window;
    var n := |packet.Content()|;
    c := Course(seq(16, _ => 0), b, 0, _ => Sent, BatchIndices(NewQueue(packet), n, b), []);
    AscendingAnswers(NewQueue(packet), n, b);
    NewQueueIsWindow(packet);
    AcceptedAll(c.outcomes, 0, |Batch(NewQueue(packet), b)|);
    var o := FirstBatch(packet, c).value;
    AcksAreConserved(ix, o, c.order);
    var rounds := AscendingRounds(ix, AfterFirstBatch(ix, packet, c), c.id, n, k);
    c := c.(rounds := rounds);
  }

  // ----- Exactly when the laws of a transfer hold -----

  /** All transfers without loss, with every order of acks in every round, finish in time. */
  ghost predicate AlwaysFinishes(ix: Indexing, packet: SerializedPacket) {
    forall c, last ::
      Undisturbed(ix, packet, c) && |packet.Content()| <= |c.rounds| + 1 ==> Finishes(ix, packet, c, last)
  }

  /** Every transfer without loss finishes exactly if the lookup is exact: with the
      documented offset, or as built for a packet of a single datagram. */
  lemma TransferFinishesExactly(ix: Indexing, packet: SerializedPacket)
    ensures AlwaysFinishes(ix, packet) <==> ix == Documented || |packet.Content()| <= 1
  {
    hide AllLossless, Finishes;
    if LookupExact(ix, |packet.Content()|) {
      forall c, last | Undisturbed(ix, packet, c) && |packet.Content()| <= |c.rounds| + 1
        ensures Finishes(ix, packet, c, last)
      {
        TransferFinishes(ix, packet, c, last);
      }
    } else {
      var c := AscendingCourse(AsBuilt, packet, 1, |packet.Content()|);
      RefutesFinish(packet, c);
    }
  }

  lemma RefutesFinish(packet: SerializedPacket, c: Course)
    requires Undisturbed(AsBuilt, packet, c) && 2 <= |packet.Content()| && c.order != [] && c.order[0] == 0
    requires |packet.Content()| <= |c.rounds| + 1
    ensures !AlwaysFinishes(AsBuilt, packet)
  {
    hide AfterRounds, SendSpec.SendPending, AllLossless;
    RoundsKeepStuck(packet, c);
    var o := AfterRounds(AsBuilt, packet, c);
    var last := Round(o.lastSend.value, 0, _ => Sent, []);
    NeverFinishes(packet, c, last.now, 0, last.outcomes);
    assert !Finishes(AsBuilt, packet, c, last);
  }

  ghost predicate AlwaysGrows(ix: Indexing, packet: SerializedPacket) {
    forall c :: Undisturbed(ix, packet, c) && c.batchSize * Pow2(|c.rounds|) <= U16_MAX ==> Grown(ix, packet, c)
  }

  /** The growth equation holds in every transfer without loss exactly if the lookup is
      exact. */
  lemma GrowthExactly(ix: Indexing, packet: SerializedPacket)
    ensures AlwaysGrows(ix, packet) <==> ix == Documented || |packet.Content()| <= 1
  {
    hide AllLossless, Grown;
    if LookupExact(ix, |packet.Content()|) {
      forall c | Undisturbed(ix, packet, c) && c.batchSize * Pow2(|c.rounds|) <= U16_MAX
        ensures Grown(ix, packet, c)
      {
        GrowthLaw(ix, packet, c);
      }
    } else {
      var c := AscendingCourse(AsBuilt, packet, 2, 0);
      RefutesGrowth(packet, c);
    }
  }

  lemma RefutesGrowth(packet: SerializedPacket, c: Course)
    requires Undisturbed(AsBuilt, packet, c) && 2 <= |packet.Content()| && c.order != [] && c.order[0] == 0
    requires c.batchSize == 2 && c.rounds == []
    ensures !AlwaysGrows(AsBuilt, packet)
  {
    hide AfterRounds, SendSpec.SendPending, AllLossless, Window, Queue.AckedSet;
    NeverFinishes(packet, c, 0, 0, c.outcomes);
    assert Pow2(0) == 1 && Pow2(1) == 2;
    assert 1 in Below(2);
    assert !Grown(AsBuilt, packet, c);
  }
}
