/** What the regular update of a connection keeps, drops and starts new packets with. */
module Updates {
  import opened Wire
  import opened Sockets
  import opened SendSpec
  import opened Transfer
  import opened BufferSpec
  import opened Counting

  // ----- Timeouts -----

  /** With a limit, exactly the packets that missed no more acks than that stay, as they
      are; without one all do. */
  lemma KeepsWithinLimit(outgoing: Outgoing, maxMissedAcks: Option<nat>)
    ensures var kept := KeptOutgoing(outgoing, maxMissedAcks);
            && (forall id :: id in kept <==>
                  id in outgoing && (maxMissedAcks == None || outgoing[id].missedAcks <= maxMissedAcks.value))
            && (forall id :: id in kept ==> kept[id] == outgoing[id])
  {
  }

  /** With a timeout, exactly the entries that were last heard of less than that ago stay,
      as they are; without one all do. */
  lemma KeepsHeardOf(incoming: Incoming, now: int, timeout: Option<nat>)
    ensures var kept := KeptIncoming(incoming, now, timeout);
            && (forall id :: id in kept <==>
                  && id in incoming
                  && (timeout == None ||
                      (if now < incoming[id].lastReceive then 0 else now - incoming[id].lastReceive) < timeout.value))
            && (forall id :: id in kept ==> kept[id] == incoming[id])
  {
  }

  /** The packets after an update: a pass over those that the timeout keeps. */
  function AfterUpdate(outgoing: Outgoing, order: seq<PacketId>, now: int, delay: nat, maxMissedAcks: Option<nat>,
                       outcomes: Outcomes, calls: nat): Outgoing
    requires Sweepable(KeptOutgoing(outgoing, maxMissedAcks), order)
  {
    SweepAll(Sweep(KeptOutgoing(outgoing, maxMissedAcks), 0, 0, false, calls, []), order, now, delay, outcomes).outgoing
  }

  /** An update drops a packet only for missed acks beyond the limit or because it is
      finished: its `Done` went out in this very pass. */
  lemma DroppedExactly(outgoing: Outgoing, order: seq<PacketId>, now: int, delay: nat, maxMissedAcks: Option<nat>,
                       outcomes: Outcomes, calls: nat, id: PacketId)
    requires Sweepable(KeptOutgoing(outgoing, maxMissedAcks), order)
    requires SetOf(order) == KeptOutgoing(outgoing, maxMissedAcks).Keys && id in outgoing
    ensures var kept := KeptOutgoing(outgoing, maxMissedAcks);
            var after := SweepAll(Sweep(kept, 0, 0, false, calls, []), order, now, delay, outcomes);
            && (maxMissedAcks.Some? && maxMissedAcks.value < outgoing[id].missedAcks ==> id !in after.outgoing)
            && (id !in after.outgoing ==>
                  || (maxMissedAcks.Some? && maxMissedAcks.value < outgoing[id].missedAcks)
                  || PrintDone(id) in after.sent)
  {
    hide SweepAll, SendSpec.SendPending, Distinct, KeptOutgoing, PrintDone;
    KeepsWithinLimit(outgoing, maxMissedAcks);
    var kept := KeptOutgoing(outgoing, maxMissedAcks);
    var s := Sweep(kept, 0, 0, false, calls, []);
    SweepAddsOnly(s, order, now, delay, outcomes);
    assert id in order <==> id in SetOf(order);
    if id in order {
      var k :| 0 <= k < |order| && order[k] == id;
      SweepIsPerPacket(s, order, now, delay, outcomes, k);
      var before := SweepAll(s, order[..k], now, delay, outcomes);
      var after := SweepAll(s, order, now, delay, outcomes);
      FinishedSendsDone(kept[id], id, now, delay, outcomes, before.calls);
      if id !in after.outgoing {
        assert before.sent + [PrintDone(id)] <= after.sent;
        assert after.sent[|before.sent|] == PrintDone(id);
      }
    }
  }

  lemma FinishedSendsDone(o: Out, id: PacketId, now: int, delay: nat, outcomes: Outcomes, from: nat)
    ensures var (_, result, sent) := SendPending(o, id, now, delay, outcomes, from);
            result == Finished ==> sent == [PrintDone(id)]
  {
    hide Fill, Batch, Balance, PrintDone;
  }

  /** A silent peer is given up: after `maxMissedAcks + 1` unanswered resends, one more if
      the last batch before the silence was fully acked, the next update drops the packet,
      whatever else it does. */
  lemma SilentPeerIsDropped(o: Out, ds: seq<Bytes>, id: PacketId, resends: seq<Resend>, maxMissedAcks: nat,
                            outgoing: Outgoing, order: seq<PacketId>, now: int, delay: nat, outcomes: Outcomes,
                            calls: nat)
    requires Incomplete(o, ds) && AllDue(o, id, resends)
    requires maxMissedAcks + (if o.lastBatchAcks < o.lastBatchSize then 1 else 2) <= |resends|
    requires id in outgoing && outgoing[id] == RunResends(o, id, resends)
    requires Sweepable(KeptOutgoing(outgoing, Some(maxMissedAcks)), order)
    ensures id !in AfterUpdate(outgoing, order, now, delay, Some(maxMissedAcks), outcomes, calls)
  {
    hide SweepAll, RunResends, AllDue, KeptOutgoing, Incomplete;
    SilenceExceedsLimit(o, ds, id, resends, maxMissedAcks);
    KeepsWithinLimit(outgoing, Some(maxMissedAcks));
    SweepAddsOnly(Sweep(KeptOutgoing(outgoing, Some(maxMissedAcks)), 0, 0, false, calls, []), order, now, delay,
                  outcomes);
  }

  // ----- The batch size for new packets -----

  /** The sum of the batch sizes of the packets, as they are before the pass. */
  function SumOfSizes(outgoing: Outgoing, order: seq<PacketId>): nat
    requires forall id :: id in order ==> id in outgoing
  {
    if order == [] then 0 else outgoing[order[0]].batchSize + SumOfSizes(outgoing, order[1..])
  }

  lemma {:induction false} SumIsLocal(outgoing: Outgoing, outgoing': Outgoing, order: seq<PacketId>)
    requires forall id :: id in order ==> id in outgoing && id in outgoing' && outgoing'[id] == outgoing[id]
    ensures SumOfSizes(outgoing', order) == SumOfSizes(outgoing, order)
    decreases |order|
  {
    if order != [] {
      SumIsLocal(outgoing, outgoing', order[1..]);
    }
  }

  lemma {:induction false} SumIsPositive(outgoing: Outgoing, order: seq<PacketId>)
    requires forall id :: id in order ==> id in outgoing
    ensures |order| <= SumOfSizes(outgoing, order) <= U16_MAX * |order|
    decreases |order|
  {
    if order != [] {
      SumIsPositive(outgoing, order[1..]);
    }
  }

  lemma {:induction false} PassAddsUp(s: Sweep, order: seq<PacketId>, now: int, delay: nat, outcomes: Outcomes)
    requires Sweepable(s.outgoing, order)
    ensures var after := SweepAll(s, order, now, delay, outcomes);
            after.count == s.count + |order| && after.total == s.total + SumOfSizes(s.outgoing, order)
    decreases |order|
  {
    if order != [] {
      hide SweepAll, SweepOne;
      var s' := SweepOne(s, order[0], now, delay, outcomes);
      SweepUnrolls(s, order, now, delay, outcomes);
      SweepOneLeavesOthers(s, order, now, delay, outcomes);
      SumIsLocal(s.outgoing, s'.outgoing, order[1..]);
      PassAddsUp(s', order[1..], now, delay, outcomes);
    }
  }

  /** A pass over no packets leaves the batch size for new ones as it was. Otherwise it is
      the average of the batch sizes before the pass, rounded down, over all packets: those
      that finish, fail or are left alone after an error included. */
  lemma AverageIsExact(outgoing: Outgoing, order: seq<PacketId>, now: int, delay: nat, outcomes: Outcomes,
                       calls: nat, previous: NonZeroBatchSize)
    requires Sweepable(outgoing, order)
    ensures var after := SweepAll(Sweep(outgoing, 0, 0, false, calls, []), order, now, delay, outcomes);
            var b := AverageBatchSize(after, previous);
            && (order == [] ==> b == previous)
            && (order != [] ==> b * |order| <= SumOfSizes(outgoing, order) < (b + 1) * |order|)
  {
    hide SweepAll, SumOfSizes;
    PassAddsUp(Sweep(outgoing, 0, 0, false, calls, []), order, now, delay, outcomes);
    SumIsPositive(outgoing, order);
    if order != [] {
      var total := SumOfSizes(outgoing, order);
      Quotient(total, |order|, 1, U16_MAX);
      DivisionBounds(total, |order|);
    }
  }

  lemma DivisionBounds(total: nat, count: nat)
    requires 0 < count
    ensures total / count * count <= total < (total / count + 1) * count
  {
    assert total == total / count * count + total % count;
  }
}
