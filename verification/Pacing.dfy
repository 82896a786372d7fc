/** What each operation of an outgoing packet does, case by case, on the packet's list of
    datagrams; and how far apart resends are in every run. */
module Pacing {
  import opened Wire
  import opened Chunking
  import opened Serialize
  import opened Sockets
  import opened SendSpec
  import opened SendRefinement
  import opened Protocol
  import opened ProtocolBase
  import opened ProtocolSteps

  // ----- The first batch -----

  /** A new packet sends its first datagrams up to the first that is not accepted. A hard
      error keeps nothing of it. Otherwise the batch counts as sent in full at this time
      exactly if nothing would have blocked; else the packet has no time of a last send. */
  lemma StartsExactly(packet: SerializedPacket, batchSize: NonZeroBatchSize, now: int, outcomes: Outcomes, from: nat)
    ensures var (o, sent) := StartOut(packet, batchSize, now, outcomes, from);
            var ds := packet.Content();
            var n := Min(batchSize, |ds|);
            var k := |sent|;
            && k <= n && sent == ds[..k]
            && (forall j :: from <= j < from + k ==> outcomes(j) == Sent)
            && (k < n ==> outcomes(from + k) != Sent)
            && (o == None <==> k < n && outcomes(from + k) == Failed)
            && (o.Some? ==>
                  && Window(o.value.queue, ds) && o.value.queue.AckedSet() == {}
                  && o.value.lastSend == (if k == n then Some(now) else None)
                  && o.value.missedAcks == 0 && o.value.batchSize == batchSize
                  && o.value.lastBatchSize == k && o.value.lastBatchAcks == 0)
  {
    hide Fill, Batch, Window, Queue.AckedSet;
    var ds, q := packet.Content(), NewQueue(packet);
    NewQueueIsWindow(packet);
    FillKeepsWindow(q, ds, batchSize);
    BatchIsLowestOpen(q, ds, batchSize);
    NothingAckedIsAllOpen(|ds|, batchSize);
    var batch := Batch(q, batchSize);
    assert batch == ds[..Min(batchSize, |ds|)];
  }

  lemma {:induction false} AllOpen(lo: nat, hi: nat)
    requires lo <= hi
    ensures |Open({}, lo, hi)| == hi - lo && forall k :: 0 <= k < hi - lo ==> Open({}, lo, hi)[k] == lo + k
    decreases hi - lo
  {
    if lo < hi {
      AllOpen(lo + 1, hi);
    }
  }

  lemma NothingAckedIsAllOpen(n: nat, count: nat)
    ensures var indices := Take(Open({}, 0, n), count);
            |indices| == Min(count, n) && forall k :: 0 <= k < |indices| ==> indices[k] == k
  {
    AllOpen(0, n);
  }

  // ----- Resends -----

  /** Before the delay has passed since the last send, a resend does nothing at all. */
  lemma EarlyResendDoesNothing(o: Out, id: PacketId, now: int, delay: nat, outcomes: Outcomes, from: nat)
    requires o.lastSend.Some? && (if now < o.lastSend.value then 0 else now - o.lastSend.value) < delay
    ensures SendPending(o, id, now, delay, outcomes, from) == (o, Kept, [])
    ensures PendingAttempts(o, now, delay, outcomes, from) == 0
  {
  }

  /** How the batch size follows the last batch: up to twice the last batch if it was acked
      in full, but never lowered; otherwise half of what it was, but at least one. */
  lemma BatchSizeFollows(previous: NonZeroBatchSize, acks: BatchSize, size: BatchSize)
    ensures var next := Balance(previous, acks, size);
            if size <= acks then
              && previous <= next
              && (next == previous || next == 2 * size || next == 65535)
              && (2 * size <= next || next == 65535)
            else
              2 * next <= previous < 2 * next + 2 || (previous == 1 && next == 1)
    ensures var next := Balance(previous, acks, size);
            size <= acks && 65535 < 2 * size ==> next == 65535
  {
  }

  /** What a resend does once the delay has passed. */
  ghost predicate Resent(o: Out, o': Out, result: PendingResult, sent: seq<Bytes>, id: PacketId, ds: seq<Bytes>,
                         now: int, outcomes: Outcomes, from: nat)
  {
    var indices := Take(Open(o.queue.AckedSet(), 0, |ds|), o'.batchSize);
    && Window(o'.queue, ds) && o'.queue.AckedSet() == o.queue.AckedSet()
    && if indices == [] then
         && o'.lastSend == o.lastSend && o'.missedAcks == o.missedAcks
         && o'.lastBatchSize == o.lastBatchSize && o'.lastBatchAcks == o.lastBatchAcks
         && DoneTried(result, sent, id, outcomes(from))
       else
         var k := |sent|;
         && k <= |indices|
         && (forall j :: 0 <= j < k ==> sent[j] == ds[indices[j]] && outcomes(from + j) == Sent)
         && (k < |indices| ==> outcomes(from + k) != Sent)
         && if k < |indices| && outcomes(from + k) == Failed then
              && result == SendError && o'.lastSend == o.lastSend && o'.missedAcks == o.missedAcks
              && o'.lastBatchSize == o.lastBatchSize && o'.lastBatchAcks == o.lastBatchAcks
            else
              && result == Kept && o'.lastSend == Some(now) && o'.lastBatchSize == k && o'.lastBatchAcks == 0
              && o'.missedAcks ==
                 o.missedAcks +
                 if o.lastBatchAcks < o.lastBatchSize then o.lastBatchSize - o.lastBatchAcks else 0
  }

  /** `Done` went out and the packet is finished, or it is tried again, or it is an error. */
  ghost predicate DoneTried(result: PendingResult, sent: seq<Bytes>, id: PacketId, outcome: SendResult) {
    match outcome
    case Sent => result == Finished && sent == [PrintDone(id)]
    case WouldBlock => result == Kept && sent == []
    case Failed => result == SendError && sent == []
  }

  /** Once the delay has passed, a resend sends the lowest datagrams that are not acked, up
      to the first that is not accepted, and counts the acks that the last batch lacks. A
      hard error leaves the time and the counters as they were. If nothing is left to be
      acked, `Done` is tried instead. */
  lemma DueResendGoesOut(o: Out, id: PacketId, ds: seq<Bytes>, now: int, delay: nat, outcomes: Outcomes, from: nat)
    requires Window(o.queue, ds)
    requires o.lastSend.Some? && delay <= (if now < o.lastSend.value then 0 else now - o.lastSend.value)
    ensures var (o', result, sent) := SendPending(o, id, now, delay, outcomes, from);
            && o'.batchSize == Balance(o.batchSize, o.lastBatchAcks, o.lastBatchSize)
            && Resent(o, o', result, sent, id, ds, now, outcomes, from)
  {
    hide Fill, Batch, Window, Queue.AckedSet;
    var size := Balance(o.batchSize, o.lastBatchAcks, o.lastBatchSize);
    FillKeepsWindow(o.queue, ds, size);
    BatchIsLowestOpen(o.queue, ds, size);
    var k := Accepted(outcomes, from, |Batch(o.queue, size)|);
    assert forall j :: from <= j < from + k ==> outcomes(j).Sent?;
  }

  /** With something to ack and nothing that blocks, parts go out at this time. */
  lemma DueResendSends(o: Out, id: PacketId, ds: seq<Bytes>, now: int, delay: nat, outcomes: Outcomes, from: nat,
                       missing: nat)
    requires Window(o.queue, ds) && missing < |ds| && missing !in o.queue.AckedSet()
    requires o.lastSend.Some? && delay <= (if now < o.lastSend.value then 0 else now - o.lastSend.value)
    requires forall j :: outcomes(j).Sent?
    ensures var (o', result, sent) := SendPending(o, id, now, delay, outcomes, from);
            && result == Kept && o'.lastSend == Some(now) && sent != [] && sent[0] in ds
            && |sent| == o'.lastBatchSize
  {
    hide Window, Queue.AckedSet, SendSpec.SendPending, Balance;
    DueResendGoesOut(o, id, ds, now, delay, outcomes, from);
    OpenIsAscending(o.queue.AckedSet(), 0, |ds|);
    assert missing in Open(o.queue.AckedSet(), 0, |ds|);
  }

  /** A canceled packet only tries `Done`, whatever the time and the acks. */
  lemma CanceledTriesDone(o: Out, id: PacketId, now: int, delay: nat, outcomes: Outcomes, from: nat)
    ensures var canceled := CancelOut(o);
            var (o', result, sent) := SendPending(canceled, id, now, delay, outcomes, from);
            && o' == canceled && canceled.queue == o.queue && canceled.missedAcks == o.missedAcks
            && DoneTried(result, sent, id, outcomes(from))
  {
  }

  // ----- The distance between resends, over runs -----

  /** The action puts parts of the packet on the network, and hits no hard error. */
  predicate SendsParts(w: World, a: Action, id: PacketId) {
    match a
    case Send(from, stream, threshold, batchSize, now, outcomes) =>
      && from == id && id !in w.streams && Count(stream) <= U32_LIMIT
      && StartOut(Serialized(id, threshold, stream), batchSize, now, outcomes, 0).0.Some?
    case Resend(from, now, delay, outcomes) =>
      && from == id && id in w.outgoing
      && SendPending(w.outgoing[id], id, now, delay, outcomes, 0).1 == Kept
      && SendPending(w.outgoing[id], id, now, delay, outcomes, 0).2 != []
    case _ => false
  }

  /** The resend puts anything but `Done` on the network. */
  predicate ResendsParts(w: World, a: Action, id: PacketId) {
    && a.Resend? && a.id == id && id in w.outgoing
    && SendPending(w.outgoing[id], id, a.now, a.delay, a.outcomes, 0).2 !in {[], [PrintDone(id)]}
  }

  /** The packet was last sent no earlier than `t`, or it is gone or canceled for good. */
  ghost predicate SentSince(w: World, id: PacketId, t: int) {
    && id in w.streams
    && (id in w.outgoing && w.outgoing[id].lastSend.Some? ==> t <= w.outgoing[id].lastSend.value)
  }

  lemma LastSendAfter(o: Out, id: PacketId, now: int, delay: nat, outcomes: Outcomes)
    ensures var (o', result, sent) := SendPending(o, id, now, delay, outcomes, 0);
            && (o'.lastSend == o.lastSend || o'.lastSend == Some(now))
            && (result == Kept && sent != [] ==> o'.lastSend == Some(now))
            && (o.lastSend == None ==> o' == o && (sent == [] || sent == [PrintDone(id)]))
  {
    hide Fill, Batch, Balance;
  }

  lemma StartIsSentSince(v: Variant, w: World, a: Action, id: PacketId)
    requires SendsParts(w, a, id) && (id in w.outgoing ==> id in w.streams)
    ensures SentSince(Apply(v, w, a), id, a.now)
  {
    hide StartOut, SendSpec.SendPending, Serialized;
    if a.Resend? {
      LastSendAfter(w.outgoing[id], id, a.now, a.delay, a.outcomes);
    } else {
      StartsExactly(Serialized(id, a.threshold, a.stream), a.batchSize, a.now, a.outcomes, 0);
    }
  }

  lemma StepKeepsSentSince(v: Variant, w: World, a: Action, id: PacketId, t: int)
    requires SentSince(w, id, t) && (a.Resend? && a.id == id ==> t <= a.now)
    ensures SentSince(Apply(v, w, a), id, t)
  {
    hide StartOut, SendSpec.SendPending, Serialized, AckQueue, BufferSpec.ReceivePart, ViewForReceiver, ViewForSender;
    if a.Resend? && a.id in w.outgoing {
      LastSendAfter(w.outgoing[a.id], a.id, a.now, a.delay, a.outcomes);
    }
  }

  lemma {:induction false} RunKeepsSentSince(v: Variant, w: World, actions: seq<Action>, id: PacketId, t: int)
    requires SentSince(w, id, t)
    requires forall k :: 0 <= k < |actions| && actions[k].Resend? && actions[k].id == id ==> t <= actions[k].now
    ensures SentSince(Run(v, w, actions), id, t)
    decreases |actions|
  {
    hide SentSince, Apply;
    if actions != [] {
      StepKeepsSentSince(v, w, actions[0], id, t);
      RunKeepsSentSince(v, Apply(v, w, actions[0]), actions[1..], id, t);
    }
  }

  lemma OutgoingHasStream(w: World, id: PacketId)
    requires Base(w)
    ensures id in w.outgoing ==> id in w.streams
  {
    hide OutOk;
  }

  /** A resend that puts parts on the network comes at least its delay after every earlier
      send of the packet that hit no hard error, in every run in which the clock of the
      resends never goes back behind that send. */
  lemma ResendsAreSpaced(v: Variant, before: seq<Action>, first: Action, between: seq<Action>, second: Action,
                         id: PacketId)
    requires var w := Run(v, START, before);
             && SendsParts(w, first, id)
             && ResendsParts(Run(v, Apply(v, w, first), between), second, id)
    requires forall k :: 0 <= k < |between| && between[k].Resend? && between[k].id == id ==> first.now <= between[k].now
    ensures second.delay == 0 || first.now + second.delay <= second.now
  {
    hide Apply, Run, Base, SendSpec.SendPending, StartOut, Serialized;
    var w := Run(v, START, before);
    var w' := Run(v, Apply(v, w, first), between);
    StartIsBase();
    RunKeepsBase(v, START, before);
    assert id in w.outgoing ==> id in w.streams by { OutgoingHasStream(w, id); }
    StartIsSentSince(v, w, first, id);
    RunKeepsSentSince(v, Apply(v, w, first), between, id, first.now);
    var o := w'.outgoing[id];
    LastSendAfter(o, id, second.now, second.delay, second.outcomes);
    if o.lastSend.Some? && second.now - o.lastSend.value < second.delay && second.delay != 0 {
      EarlyResendDoesNothing(o, id, second.now, second.delay, second.outcomes, 0);
    }
  }
}
