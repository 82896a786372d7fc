/** Laws of the sending side over whole runs: what laziness hides, and how acks drive
    the batch size. */
module SendLaws {
  import opened Wire
  import opened Chunking
  import opened Serialize
  import opened Sockets
  import opened SendSpec
  import opened SendRefinement
  import opened Counting

  // ----- The queue against a plain list -----

  datatype QueueOp = SendOp(count: NonZeroBatchSize, outcomes: Outcomes) | AckOp(index: nat)

  datatype Observation = SentObs(sent: seq<Bytes>, result: BatchResult) | AckObs(ack: AckResult)

  function StepQueue(ix: Indexing, q: Queue, op: QueueOp): (Queue, Observation) {
    match op
    case SendOp(count, outcomes) =>
      var batch := Batch(q, count);
      (Fill(q, count),
       SentObs(batch[..Accepted(outcomes, 0, |batch|)], SendBatch(batch, outcomes, 0)))
    case AckOp(index) =>
      var (q', result) := AckQueue(ix, q, index);
      (q', AckObs(result))
  }

  function RunQueue(ix: Indexing, q: Queue, ops: seq<QueueOp>): seq<Observation>
    decreases |ops|
  {
    if ops == [] then [] else
      var (q', obs) := StepQueue(ix, q, ops[0]);
      [obs] + RunQueue(ix, q', ops[1..])
  }

  /** The same operations on all datagrams at once and a set of acked indices. */
  function StepList(ds: seq<Bytes>, acked: set<nat>, op: QueueOp): (set<nat>, Observation) {
    match op
    case SendOp(count, outcomes) =>
      var batch := At(ds, Take(Open(acked, 0, |ds|), count));
      (acked, SentObs(batch[..Accepted(outcomes, 0, |batch|)], SendBatch(batch, outcomes, 0)))
    case AckOp(index) => (acked + {index}, AckObs(Acked(index in acked)))
  }

  function RunList(ds: seq<Bytes>, acked: set<nat>, ops: seq<QueueOp>): seq<Observation>
    decreases |ops|
  {
    if ops == [] then [] else
      var (acked', obs) := StepList(ds, acked, ops[0]);
      [obs] + RunList(ds, acked', ops[1..])
  }

  /** The indices that a send puts on the wire. */
  function SentIndices(q: Queue, n: nat, op: QueueOp): seq<nat>
    requires op.SendOp?
  {
    var indices := BatchIndices(q, n, op.count);
    indices[..Accepted(op.outcomes, 0, |indices|)]
  }

  /** Only what the queue sent before is ever acked. */
  ghost predicate AcksOnlySent(ix: Indexing, q: Queue, n: nat, sent: set<nat>, ops: seq<QueueOp>)
    decreases |ops|
  {
    ops == [] ||
    var q' := StepQueue(ix, q, ops[0]).0;
    match ops[0]
    case SendOp(_, _) => AcksOnlySent(ix, q', n, sent + SetOf(SentIndices(q, n, ops[0])), ops[1..])
    case AckOp(index) => index in sent && AcksOnlySent(ix, q', n, sent, ops[1..])
  }

  ghost predicate SentAreLoaded(sent: set<nat>, q: Queue) {
    forall i :: i in sent ==> i < q.Loaded()
  }

  lemma SendStepRefines(ix: Indexing, q: Queue, ds: seq<Bytes>, sent: set<nat>, op: QueueOp)
    requires Window(q, ds) && op.SendOp? && SentAreLoaded(sent, q)
    ensures var (q', obs) := StepQueue(ix, q, op);
            && Window(q', ds) && q'.AckedSet() == q.AckedSet()
            && StepList(ds, q.AckedSet(), op) == (q.AckedSet(), obs)
            && SentAreLoaded(sent + SetOf(SentIndices(q, |ds|, op)), q')
  {
    FillKeepsWindow(q, ds, op.count);
    BatchIsLowestOpen(q, ds, op.count);
  }

  /** With the documented offset, whatever has been pulled from the channel, the queue
      behaves like the plain list. */
  lemma {:induction false} QueueRefinesList(ix: Indexing, q: Queue, ds: seq<Bytes>, sent: set<nat>, ops: seq<QueueOp>)
    requires ix == Documented || ds == []
    requires Window(q, ds) && SentAreLoaded(sent, q) && AcksOnlySent(ix, q, |ds|, sent, ops)
    ensures RunQueue(ix, q, ops) == RunList(ds, q.AckedSet(), ops)
    decreases |ops|
  {
    if ops != [] {
      hide Window, Queue.AckedSet, Fill, Batch;
      var q' := StepQueue(ix, q, ops[0]).0;
      match ops[0]
      case SendOp(_, _) =>
        SendStepRefines(ix, q, ds, sent, ops[0]);
        QueueRefinesList(ix, q', ds, sent + SetOf(SentIndices(q, |ds|, ops[0])), ops[1..]);
      case AckOp(index) =>
        AckedIsLoaded(q, ds, sent, index);
        DocumentedAckIsExact(q, ds, index);
        QueueRefinesList(ix, q', ds, sent, ops[1..]);
    }
  }

  lemma AckedIsLoaded(q: Queue, ds: seq<Bytes>, sent: set<nat>, index: nat)
    requires Window(q, ds) && SentAreLoaded(sent, q) && index in sent
    ensures index < q.Loaded() <= |ds|
  {
  }

  /** An ack of a loaded datagram does the same to two queues that differ in what they have
      pulled, if the lookup is exact. */
  lemma AckStepAgrees(ix: Indexing, q: Queue, p: Queue, ds: seq<Bytes>, index: nat)
    requires LookupExact(ix, |ds|) && Window(q, ds) && Window(p, ds) && q.AckedSet() == p.AckedSet()
    requires index < q.Loaded() && index < p.Loaded()
    ensures var ((q', a), (p', b)) := (AckQueue(ix, q, index), AckQueue(ix, p, index));
            && a == b && Window(q', ds) && Window(p', ds) && q'.AckedSet() == p'.AckedSet()
            && q'.Loaded() == q.Loaded() && p'.Loaded() == p.Loaded()
  {
    if ix == Documented {
      DocumentedAckIsExact(q, ds, index);
      DocumentedAckIsExact(p, ds, index);
    } else {
      AsBuiltAckIsShifted(q, ds, index);
      AsBuiltAckIsShifted(p, ds, index);
      assert q.CountsAsAcked(0) <==> 0 in q.AckedSet();
      assert p.CountsAsAcked(0) <==> 0 in p.AckedSet();
    }
  }

  lemma {:induction false} QueuesAgree(ix: Indexing, q: Queue, p: Queue, ds: seq<Bytes>, sent: set<nat>,
                                       ops: seq<QueueOp>)
    requires LookupExact(ix, |ds|) && Window(q, ds) && Window(p, ds) && q.AckedSet() == p.AckedSet()
    requires SentAreLoaded(sent, q) && SentAreLoaded(sent, p) && AcksOnlySent(ix, q, |ds|, sent, ops)
    ensures RunQueue(ix, q, ops) == RunQueue(ix, p, ops)
    decreases |ops|
  {
    if ops != [] {
      hide Window, Queue.AckedSet, Fill, Batch, LookupExact, BatchIndices, AckQueue;
      var q', p' := StepQueue(ix, q, ops[0]).0, StepQueue(ix, p, ops[0]).0;
      match ops[0]
      case SendOp(_, _) =>
        SendStepRefines(ix, q, ds, sent, ops[0]);
        SendStepRefines(ix, p, ds, sent, ops[0]);
        SameIndices(q, p, |ds|, ops[0]);
        QueuesAgree(ix, q', p', ds, sent + SetOf(SentIndices(q, |ds|, ops[0])), ops[1..]);
      case AckOp(index) =>
        AckStepAgrees(ix, q, p, ds, index);
        QueuesAgree(ix, q', p', ds, sent, ops[1..]);
    }
  }

  lemma SameIndices(q: Queue, p: Queue, n: nat, op: QueueOp)
    requires q.AckedSet() == p.AckedSet() && op.SendOp?
    ensures SentIndices(q, n, op) == SentIndices(p, n, op)
  {
  }

  // ----- Exactly when the queue is a plain list, and its laziness hidden -----

  const SEND_ONE: QueueOp := SendOp(1, _ => Sent)

  /** One datagram is sent, and its ack arrives twice. */
  function AckedTwice(): seq<QueueOp> {
    [SEND_ONE, AckOp(0), AckOp(0)]
  }

  lemma SendsFirst(q: Queue, ds: seq<Bytes>)
    requires ds != [] && (q == NewQueue(Channel(ds)) || q == NewQueue(InMemory(ds)))
    ensures StepQueue(AsBuilt, q, SEND_ONE) == (Fill(q, 1), SentObs([ds[0]], BatchSent(1, true)))
    ensures SentIndices(q, |ds|, SEND_ONE) == [0]
    ensures StepList(ds, {}, SEND_ONE) == ({}, SentObs([ds[0]], BatchSent(1, true)))
  {
    hide Fill, Batch, Window, Queue.AckedSet;
    NewQueueIsWindow(Channel(ds));
    NewQueueIsWindow(InMemory(ds));
    assert q.AckedSet() == {};
    BatchIsLowestOpen(q, ds, 1);
    assert BatchIndices(q, |ds|, 1) == [0];
    assert At(ds, [0]) == [ds[0]];
    AcceptedAll(SEND_ONE.outcomes, 0, 1);
    assert [ds[0]][..1] == [ds[0]] && [0][..1] == [0];
  }

  lemma Observed(ix: Indexing, q: Queue, a: QueueOp, b: QueueOp, c: QueueOp)
    ensures var (q1, o1) := StepQueue(ix, q, a);
            var (q2, o2) := StepQueue(ix, q1, b);
            RunQueue(ix, q, [a, b, c]) == [o1, o2, StepQueue(ix, q2, c).1]
  {
    hide StepQueue;
    assert [a, b, c][1..] == [b, c] && [b, c][1..] == [c] && [c][1..] == [];
    var q1 := StepQueue(ix, q, a).0;
    var q2 := StepQueue(ix, q1, b).0;
    assert RunQueue(ix, q2, [c]) == [StepQueue(ix, q2, c).1];
    assert RunQueue(ix, q1, [b, c]) == [StepQueue(ix, q1, b).1] + RunQueue(ix, q2, [c]);
  }

  lemma ListObserved(ds: seq<Bytes>, acked: set<nat>, a: QueueOp, b: QueueOp, c: QueueOp)
    ensures var (s1, o1) := StepList(ds, acked, a);
            var (s2, o2) := StepList(ds, s1, b);
            RunList(ds, acked, [a, b, c]) == [o1, o2, StepList(ds, s2, c).1]
  {
    hide StepList;
    assert [a, b, c][1..] == [b, c] && [b, c][1..] == [c] && [c][1..] == [];
    var s1 := StepList(ds, acked, a).0;
    var s2 := StepList(ds, s1, b).0;
    assert RunList(ds, s2, [c]) == [StepList(ds, s2, c).1];
    assert RunList(ds, s1, [b, c]) == [StepList(ds, s1, b).1] + RunList(ds, s2, [c]);
  }

  /** As built, an ack of index 0 takes away the front. */
  lemma AckTakesFront(q: Queue)
    requires q.packets != [] && !q.packets[0].acked
    ensures var (q', result) := AckQueue(AsBuilt, q, 0);
            && result == Acked(false) && |q'.packets| <= |q.packets| - 1
            && (1 < |q.packets| && !q.packets[1].acked ==> q'.packets == q.packets[1..])
  {
    var marked := q.packets[0 := q.packets[0].(acked := true)];
    assert marked[1..] == q.packets[1..];
  }

  /** As built, the second copy finds nothing in a queue that has pulled just what it sent,
      and the next datagram in one that has it all. */
  lemma AckedTwiceShows(ds: seq<Bytes>)
    requires ds != []
    ensures AcksOnlySent(AsBuilt, NewQueue(Channel(ds)), |ds|, {}, AckedTwice())
    ensures RunQueue(AsBuilt, NewQueue(Channel(ds)), AckedTwice())[2] == AckObs(AckedBeforeSent)
    ensures 1 < |ds| ==> RunQueue(AsBuilt, NewQueue(InMemory(ds)), AckedTwice())[2] == AckObs(Acked(false))
    ensures RunList(ds, {}, AckedTwice())[2] == AckObs(Acked(true))
  {
    hide StepQueue, StepList, AcksOnlySent, AckQueue, Fill;
    var lazy, eager := NewQueue(Channel(ds)), NewQueue(InMemory(ds));
    SendsFirst(lazy, ds);
    SendsFirst(eager, ds);
    Observed(AsBuilt, lazy, SEND_ONE, AckOp(0), AckOp(0));
    Observed(AsBuilt, eager, SEND_ONE, AckOp(0), AckOp(0));
    ListObserved(ds, {}, SEND_ONE, AckOp(0), AckOp(0));
    PulledOne(ds);
    AckSteps(Fill(lazy, 1));
    AckSteps(Fill(eager, 1));
    AckListSteps(ds);
    AckedTwiceIsSent(lazy, |ds|);
  }

  lemma PulledOne(ds: seq<Bytes>)
    requires ds != []
    ensures |Fill(NewQueue(Channel(ds)), 1).packets| == 1 && !Fill(NewQueue(Channel(ds)), 1).packets[0].acked
    ensures Fill(NewQueue(InMemory(ds)), 1) == NewQueue(InMemory(ds))
    ensures !NewQueue(InMemory(ds)).packets[0].acked
    ensures 1 < |ds| ==> 1 < |NewQueue(InMemory(ds)).packets| && !NewQueue(InMemory(ds)).packets[1].acked
  {
  }

  /** What two acks of index 0 show. */
  lemma AckSteps(q: Queue)
    requires q.packets != [] && !q.packets[0].acked
    ensures var second := StepQueue(AsBuilt, StepQueue(AsBuilt, q, AckOp(0)).0, AckOp(0)).1;
            && (|q.packets| == 1 ==> second == AckObs(AckedBeforeSent))
            && (1 < |q.packets| && !q.packets[1].acked ==> second == AckObs(Acked(false)))
  {
    AckTakesFront(q);
  }

  lemma AckListSteps(ds: seq<Bytes>)
    ensures StepList(ds, StepList(ds, {}, AckOp(0)).0, AckOp(0)).1 == AckObs(Acked(true))
  {
  }

  lemma AckedTwiceIsSent(q: Queue, n: nat)
    requires SentIndices(q, n, SEND_ONE) == [0]
    ensures AcksOnlySent(AsBuilt, q, n, {}, AckedTwice())
  {
    hide StepQueue, SentIndices;
    var ops := AckedTwice();
    assert ops[1..] == [AckOp(0), AckOp(0)] && [AckOp(0), AckOp(0)][1..] == [AckOp(0)] && [AckOp(0)][1..] == [];
    assert 0 in {} + SetOf([0]);
    assert forall q1: Queue :: AcksOnlySent(AsBuilt, q1, n, {} + SetOf([0]), []);
  }

  /** The queue shows what the plain list shows, for all operations that ack only what the
      queue sent. */
  ghost predicate AlwaysRefines(ix: Indexing, ds: seq<Bytes>) {
    forall ops :: AcksOnlySent(ix, NewQueue(Channel(ds)), |ds|, {}, ops) ==>
      RunQueue(ix, NewQueue(Channel(ds)), ops) == RunList(ds, {}, ops)
  }

  lemma RefinesExactly(ix: Indexing, ds: seq<Bytes>)
    ensures AlwaysRefines(ix, ds) <==> ix == Documented || ds == []
  {
    hide RunQueue, RunList, AcksOnlySent;
    if ix == Documented || ds == [] {
      NewQueueIsWindow(Channel(ds));
      forall ops | AcksOnlySent(ix, NewQueue(Channel(ds)), |ds|, {}, ops)
        ensures RunQueue(ix, NewQueue(Channel(ds)), ops) == RunList(ds, {}, ops)
      {
        QueueRefinesList(ix, NewQueue(Channel(ds)), ds, {}, ops);
      }
    } else {
      AckedTwiceShows(ds);
    }
  }

  /** Pulling lazily from the background thread makes no difference to anything observed. */
  ghost predicate LazinessHidden(ix: Indexing, ds: seq<Bytes>) {
    forall ops :: AcksOnlySent(ix, NewQueue(Channel(ds)), |ds|, {}, ops) ==>
      RunQueue(ix, NewQueue(Channel(ds)), ops) == RunQueue(ix, NewQueue(InMemory(ds)), ops)
  }

  /** Exactly when laziness is unobservable: with the documented offset, or as built for at
      most one datagram. */
  lemma LazinessHiddenExactly(ix: Indexing, ds: seq<Bytes>)
    ensures LazinessHidden(ix, ds) <==> ix == Documented || |ds| <= 1
  {
    hide RunQueue, AcksOnlySent;
    if LookupExact(ix, |ds|) {
      NewQueueIsWindow(Channel(ds));
      NewQueueIsWindow(InMemory(ds));
      forall ops | AcksOnlySent(ix, NewQueue(Channel(ds)), |ds|, {}, ops)
        ensures RunQueue(ix, NewQueue(Channel(ds)), ops) == RunQueue(ix, NewQueue(InMemory(ds)), ops)
      {
        QueuesAgree(ix, NewQueue(Channel(ds)), NewQueue(InMemory(ds)), ds, {}, ops);
      }
    } else {
      AckedTwiceShows(ds);
    }
  }

  // ----- Ack conservation and batch control -----

  /** How many loaded packets are not acked. */
  function Pending(o: Out): nat {
    |Unacked(o.queue.packets)|
  }

  lemma {:induction false} MarkingTakesOne(packets: seq<Slot>, position: nat)
    requires position < |packets| && !packets[position].acked
    ensures |Unacked(packets[position := packets[position].(acked := true)])| == |Unacked(packets)| - 1
  {
    var marked := packets[position := packets[position].(acked := true)];
    if position == 0 {
      assert marked[1..] == packets[1..];
    } else {
      assert marked[1..] == packets[1..][position - 1 := packets[position].(acked := true)];
      MarkingTakesOne(packets[1..], position - 1);
    }
  }

  lemma {:induction false} DrainingTakesNone(packets: seq<Slot>, n: nat)
    requires n <= FirstUnacked(packets)
    ensures Unacked(packets[n..]) == Unacked(packets)
  {
    if n == 0 {
      assert packets[n..] == packets;
    } else {
      assert packets[1..][n - 1..] == packets[n..];
      DrainingTakesNone(packets[1..], n - 1);
    }
  }

  /** A fresh ack takes exactly one off the pending count, with either lookup; nothing
      else takes any. */
  lemma AckConserves(ix: Indexing, o: Out, index: nat)
    ensures var (o', result) := AckOut(ix, o, index);
            Pending(o') == Pending(o) - (if result == Acked(false) then 1 else 0)
  {
    var position := if ix == AsBuilt then index else index - o.queue.first;
    if AckOut(ix, o, index).1 == Acked(false) {
      var marked := o.queue.packets[position := o.queue.packets[position].(acked := true)];
      MarkingTakesOne(o.queue.packets, position);
      DrainingTakesNone(marked, FirstUnacked(marked));
    }
  }

  /** A sequence of acks, and how many of them were fresh. */
  function AckAll(ix: Indexing, o: Out, indices: seq<nat>): (Out, nat)
    decreases |indices|
  {
    if indices == [] then (o, 0) else
      var (o', result) := AckOut(ix, o, indices[0]);
      var (o'', freshAcks) := AckAll(ix, o', indices[1..]);
      (o'', freshAcks + if result == Acked(false) then 1 else 0)
  }

  /** Between two sends: pending now plus fresh acks is what was pending after the send,
      and the counter holds the fresh acks up to its width. */
  lemma {:induction false} AcksAreConserved(ix: Indexing, o: Out, indices: seq<nat>)
    ensures var (o', freshAcks) := AckAll(ix, o, indices);
            && Pending(o') + freshAcks == Pending(o)
            && o'.lastBatchAcks == Min(o.lastBatchAcks + freshAcks, U16_MAX)
            && o'.lastBatchSize == o.lastBatchSize && o'.batchSize == o.batchSize && o'.lastSend == o.lastSend
            && (indices != [] ==> o'.missedAcks == 0)
    decreases |indices|
  {
    if indices != [] {
      AckConserves(ix, o, indices[0]);
      AcksAreConserved(ix, AckOut(ix, o, indices[0]).0, indices[1..]);
    }
  }

  datatype OutOp =
    | OutAck(index: nat)
    | OutPending(now: int, delay: nat, outcomes: Outcomes)
    | OutCancel

  function StepOut(ix: Indexing, o: Out, id: PacketId, op: OutOp): Out {
    match op
    case OutAck(index) => AckOut(ix, o, index).0
    case OutPending(now, delay, outcomes) => SendPending(o, id, now, delay, outcomes, 0).0
    case OutCancel => CancelOut(o)
  }

  function RunOut(ix: Indexing, o: Out, id: PacketId, ops: seq<OutOp>): Out
    decreases |ops|
  {
    if ops == [] then o else RunOut(ix, StepOut(ix, o, id, ops[0]), id, ops[1..])
  }

  /** What the last batch still lacks in acks is pending. */
  ghost predicate AcksAccountedFor(o: Out) {
    o.lastBatchSize <= Pending(o) + o.lastBatchAcks
  }

  lemma FillPendingGrows(q: Queue, count: nat)
    ensures |Unacked(q.packets)| <= |Unacked(Fill(q, count).packets)|
    ensures |Batch(q, count)| <= |Unacked(Fill(q, count).packets)|
  {
    if q.rx.Some? {
      var pulled := Take(q.rx.value, count - Min(count, |Unacked(q.packets)|));
      UnackedOfFresh(q.packets, pulled);
    }
  }

  lemma StepKeepsAccount(ix: Indexing, o: Out, id: PacketId, op: OutOp)
    requires AcksAccountedFor(o)
    ensures AcksAccountedFor(StepOut(ix, o, id, op))
  {
    hide Fill, Batch, Unacked, AckQueue;
    match op
    case OutAck(index) => AckConserves(ix, o, index);
    case OutPending(now, delay, outcomes) =>
      FillPendingGrows(o.queue, Balance(o.batchSize, o.lastBatchAcks, o.lastBatchSize));
    case OutCancel =>
  }

  lemma {:induction false} RunKeepsAccount(ix: Indexing, o: Out, id: PacketId, ops: seq<OutOp>)
    requires AcksAccountedFor(o)
    ensures AcksAccountedFor(RunOut(ix, o, id, ops))
    decreases |ops|
  {
    if ops != [] {
      StepKeepsAccount(ix, o, id, ops[0]);
      RunKeepsAccount(ix, StepOut(ix, o, id, ops[0]), id, ops[1..]);
    }
  }

  /** In every run, once nothing is pending the batch size is not cut: the next due send
      keeps or raises it. It is cut only while something is pending. */
  lemma AckedPacketIsNeverSlowed(
      ix: Indexing, packet: SerializedPacket, batchSize: NonZeroBatchSize, start: int, outcomes: Outcomes,
      id: PacketId, ops: seq<OutOp>)
    requires StartOut(packet, batchSize, start, outcomes, 0).0.Some?
    ensures var o := RunOut(ix, StartOut(packet, batchSize, start, outcomes, 0).0.value, id, ops);
            && (Pending(o) == 0 ==> o.lastBatchSize <= o.lastBatchAcks)
            && (Balance(o.batchSize, o.lastBatchAcks, o.lastBatchSize) < o.batchSize ==> 0 < Pending(o))
  {
    var o := StartOut(packet, batchSize, start, outcomes, 0).0.value;
    FillPendingGrows(NewQueue(packet), batchSize);
    RunKeepsAccount(ix, o, id, ops);
  }
}
