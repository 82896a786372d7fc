/** How a transfer proceeds when nothing is lost, and how a silent peer is given up. */
module Transfer {
  import opened Wire
  import opened Chunking
  import opened Serialize
  import opened Sockets
  import opened SendSpec
  import opened SendRefinement
  import opened SendLaws
  import opened Counting

  // ----- Growth without loss -----

  function Pow2(n: nat): (p: nat)
    ensures 1 <= p
  {
    if n == 0 then 1 else 2 * Pow2(n - 1)
  }

  /** One round: a send, then acks in the given order. */
  datatype Round = Round(now: int, delay: nat, outcomes: Outcomes, order: seq<nat>)

  /** A first batch with the acks of it, and the rounds after it. */
  datatype Course = Course(
    id: PacketId,
    batchSize: NonZeroBatchSize,
    start: int,
    outcomes: Outcomes,
    order: seq<nat>,
    rounds: seq<Round>)

  function NextBatchSize(o: Out): NonZeroBatchSize {
    Balance(o.batchSize, o.lastBatchAcks, o.lastBatchSize)
  }

  function RunRound(ix: Indexing, o: Out, id: PacketId, r: Round): Out {
    AckAll(ix, SendPending(o, id, r.now, r.delay, r.outcomes, 0).0, r.order).0
  }

  function RunRounds(ix: Indexing, o: Out, id: PacketId, rounds: seq<Round>): Out {
    if rounds == [] then o
    else RunRound(ix, RunRounds(ix, o, id, rounds[..|rounds| - 1]), id, rounds[|rounds| - 1])
  }

  function FirstBatch(packet: SerializedPacket, c: Course): Option<Out> {
    StartOut(packet, c.batchSize, c.start, c.outcomes, 0).0
  }

  /** The state after the first batch has been sent and acked. */
  function AfterFirstBatch(ix: Indexing, packet: SerializedPacket, c: Course): Out
    requires FirstBatch(packet, c).Some?
  {
    AckAll(ix, FirstBatch(packet, c).value, c.order).0
  }

  function AfterRounds(ix: Indexing, packet: SerializedPacket, c: Course): Out
    requires FirstBatch(packet, c).Some?
  {
    RunRounds(ix, AfterFirstBatch(ix, packet, c), c.id, c.rounds)
  }

  ghost predicate AllSent(outcomes: Outcomes) {
    forall j :: outcomes(j).Sent?
  }

  /** Each datagram of the batch is acked once, in any order. */
  ghost predicate Answers(order: seq<nat>, q: Queue, n: nat, count: nat) {
    Distinct(order) && SetOf(order) == SetOf(BatchIndices(q, n, count))
  }

  /** Due, nothing blocks, and the batch is answered. */
  ghost predicate Lossless(o: Out, n: nat, r: Round) {
    && o.lastSend.Some? && Due(o, r.now, r.delay)
    && AllSent(r.outcomes)
    && Answers(r.order, o.queue, n, NextBatchSize(o))
  }

  ghost predicate AllLossless(ix: Indexing, o: Out, id: PacketId, n: nat, rounds: seq<Round>)
    decreases |rounds|
  {
    rounds == [] ||
    var earlier := rounds[..|rounds| - 1];
    AllLossless(ix, o, id, n, earlier) && Lossless(RunRounds(ix, o, id, earlier), n, rounds[|rounds| - 1])
  }

  /** Nothing is lost, blocked or duplicated. */
  ghost predicate Undisturbed(ix: Indexing, packet: SerializedPacket, c: Course) {
    var n := |packet.Content()|;
    && AllSent(c.outcomes) && Answers(c.order, NewQueue(packet), n, c.batchSize)
    && FirstBatch(packet, c).Some?
    && AllLossless(ix, AfterFirstBatch(ix, packet, c), c.id, n, c.rounds)
  }

  /** The first `a` of the datagrams are acked, and no others. */
  ghost predicate AckedUpTo(o: Out, ds: seq<Bytes>, a: nat) {
    Window(o.queue, ds) && a <= |ds| && o.queue.AckedSet() == Below(a)
  }

  lemma {:induction false} OpenAboveBelow(a: nat, lo: nat, hi: nat)
    requires a <= lo <= hi
    ensures var open := Open(Below(a), lo, hi);
            |open| == hi - lo && forall k :: 0 <= k < |open| ==> open[k] == lo + k
    decreases hi - lo
  {
    if lo < hi {
      OpenAboveBelow(a, lo + 1, hi);
    }
  }

  lemma {:induction false} AckAllIsExact(ix: Indexing, o: Out, ds: seq<Bytes>, order: seq<nat>)
    requires Window(o.queue, ds) && Distinct(order) && LookupExact(ix, |ds|)
    requires forall i :: i in order ==> i < o.queue.Loaded() && i !in o.queue.AckedSet()
    ensures var (o', added) := AckAll(ix, o, order);
            && Window(o'.queue, ds) && added == |order|
            && o'.queue.AckedSet() == o.queue.AckedSet() + SetOf(order)
    decreases |order|
  {
    if order != [] {
      LookupsAgree(ix, o.queue, ds, order[0]);
      DocumentedAckIsExact(o.queue, ds, order[0]);
      var rest := order[1..];
      assert order == [order[0]] + rest;
      forall i | i in rest
        ensures i in order && i != order[0]
      {
      }
      AckAllIsExact(ix, AckOut(ix, o, order[0]).0, ds, rest);
    }
  }

  /** The next batch is the next stretch of datagrams. */
  lemma BatchAboveAcked(o: Out, ds: seq<Bytes>, a: nat, count: NonZeroBatchSize)
    requires AckedUpTo(o, ds, a)
    ensures |Batch(o.queue, count)| == Min(|ds| - a, count)
    ensures Min(|ds|, a + count) <= Fill(o.queue, count).Loaded()
    ensures Window(Fill(o.queue, count), ds) && Fill(o.queue, count).AckedSet() == Below(a)
  {
    hide Fill, Unacked, Batch, Open, Window;
    FillKeepsWindow(o.queue, ds, count);
    BatchIsLowestOpen(o.queue, ds, count);
    OpenSkipsAcked(Below(a), 0, a);
    OpenSplits(Below(a), 0, a, |ds|);
    OpenAboveBelow(a, a, |ds|);
    var indices := BatchIndices(o.queue, |ds|, count);
    if 0 < a {
      assert a - 1 in Fill(o.queue, count).AckedSet();
    }
    if indices != [] {
      assert indices[|indices| - 1] == a + |indices| - 1;
    }
  }

  /** The answer to a batch of the next stretch lists that stretch. */
  lemma AnswersList(order: seq<nat>, q: Queue, a: nat, n: nat, count: nat)
    requires q.AckedSet() == Below(a) && a <= n && Answers(order, q, n, count)
    ensures Lists(order, a, Min(n, a + count))
  {
    hide Queue.AckedSet;
    OpenSkipsAcked(Below(a), 0, a);
    OpenSplits(Below(a), 0, a, n);
    OpenAboveBelow(a, a, n);
    var indices := BatchIndices(q, n, count);
    var hi := Min(n, a + count);
    forall i: nat
      ensures i in indices <==> a <= i < hi
    {
      assert a <= i < hi ==> indices[i - a] == i;
    }
    assert SetOf(indices) == Range(a, hi);
    DistinctSize(order);
    assert forall i :: i in order ==> i in SetOf(order);
  }

  /** The send of a lossless round. */
  lemma LosslessSend(o: Out, id: PacketId, ds: seq<Bytes>, a: nat, r: Round)
    requires AckedUpTo(o, ds, a) && o.lastSend.Some? && Due(o, r.now, r.delay) && AllSent(r.outcomes)
    ensures var (o', result, sent) := SendPending(o, id, r.now, r.delay, r.outcomes, 0);
            var size := NextBatchSize(o);
            && AckedUpTo(o', ds, a) && Min(|ds|, a + size) <= o'.queue.Loaded()
            && o'.lastSend.Some? && o'.batchSize == size
            && (a < |ds| ==> result == Kept && o'.lastBatchSize == Min(|ds| - a, size) && o'.lastBatchAcks == 0)
            && (a == |ds| ==> result == Finished && sent == [PrintDone(id)])
  {
    hide Fill, Unacked, Window;
    var size := NextBatchSize(o);
    BatchAboveAcked(o, ds, a, size);
    AcceptedAll(r.outcomes, 0, |Batch(o.queue, size)|);
    assert SendPending(o, id, r.now, r.delay, r.outcomes, 0).0.queue == Fill(o.queue, size);
  }

  /** Acking the next stretch, in any order. */
  lemma AckStretch(ix: Indexing, o: Out, ds: seq<Bytes>, a: nat, hi: nat, order: seq<nat>)
    requires AckedUpTo(o, ds, a) && a <= hi <= o.queue.Loaded() && hi <= |ds|
    requires Lists(order, a, hi) && LookupExact(ix, |ds|)
    ensures var o' := AckAll(ix, o, order).0;
            && AckedUpTo(o', ds, hi)
            && o'.lastSend == o.lastSend && o'.batchSize == o.batchSize && o'.lastBatchSize == o.lastBatchSize
            && o'.lastBatchAcks == Min(o.lastBatchAcks + hi - a, U16_MAX)
  {
    hide Window, AckAll, Queue.AckedSet, LookupExact;
    ListsCoverRange(order, a, hi);
    AckAllIsExact(ix, o, ds, order);
    AcksAreConserved(ix, o, order);
    assert Below(a) + Range(a, hi) == Below(hi);
  }

  /** A lossless round acks the next stretch, if the lookup is exact. */
  lemma LosslessRoundAcks(ix: Indexing, o: Out, id: PacketId, ds: seq<Bytes>, a: nat, r: Round)
    requires AckedUpTo(o, ds, a) && Lossless(o, |ds|, r) && LookupExact(ix, |ds|)
    ensures var o' := RunRound(ix, o, id, r);
            var size := NextBatchSize(o);
            && AckedUpTo(o', ds, Min(|ds|, a + size))
            && o'.lastSend.Some?
            && (a < |ds| ==>
                  o'.batchSize == size && o'.lastBatchSize == o'.lastBatchAcks == Min(|ds| - a, size))
  {
    hide Window, SendSpec.SendPending, AckAll, LookupExact, BatchIndices;
    LosslessSend(o, id, ds, a, r);
    AnswersList(r.order, o.queue, a, |ds|, NextBatchSize(o));
    var hi := Min(|ds|, a + NextBatchSize(o));
    AckStretch(ix, SendPending(o, id, r.now, r.delay, r.outcomes, 0).0, ds, a, hi, r.order);
  }

  lemma FirstBatchAcks(ix: Indexing, packet: SerializedPacket, c: Course)
    requires Undisturbed(ix, packet, c) && LookupExact(ix, |packet.Content()|)
    ensures var n := Min(|packet.Content()|, c.batchSize);
            var o := AfterFirstBatch(ix, packet, c);
            && AckedUpTo(o, packet.Content(), n)
            && o.lastSend.Some? && o.batchSize == c.batchSize
            && o.lastBatchSize == o.lastBatchAcks == n
  {
    hide Fill, Unacked, Window, LookupExact, AllLossless;
    var ds := packet.Content();
    var q := NewQueue(packet);
    NewQueueIsWindow(packet);
    assert q.AckedSet() == Below(0);
    BatchAboveAcked(Out(q, None, 0, c.batchSize, 0, 0), ds, 0, c.batchSize);
    AcceptedAll(c.outcomes, 0, |Batch(q, c.batchSize)|);
    AnswersList(c.order, q, 0, |ds|, c.batchSize);
    AckStretch(ix, FirstBatch(packet, c).value, ds, 0, Min(|ds|, c.batchSize), c.order);
  }

  /** `b` doubled `k` times. */
  function Doubled(b: nat, k: nat): nat {
    if k == 0 then b else 2 * Doubled(b, k - 1)
  }

  lemma {:induction false} DoubledIsPower(b: nat, k: nat)
    ensures Doubled(b, k) == b * Pow2(k)
    ensures 2 * Doubled(b, k) - b == b * (Pow2(k + 1) - 1)
  {
    if k != 0 {
      DoubledIsPower(b, k - 1);
      TwiceProduct(b, Pow2(k - 1));
    }
    TwiceProduct(b, Pow2(k));
  }

  lemma TwiceProduct(b: nat, p: nat)
    ensures b * (2 * p) == 2 * (b * p)
    ensures b * (2 * p - 1) == 2 * (b * p) - b
  {
  }

  /** A course without its last round. */
  function Earlier(c: Course): Course
    requires c.rounds != []
  {
    c.(rounds := c.rounds[..|c.rounds| - 1])
  }

  lemma LastRound(ix: Indexing, packet: SerializedPacket, c: Course)
    requires Undisturbed(ix, packet, c) && c.rounds != []
    ensures var last := c.rounds[|c.rounds| - 1];
            && Undisturbed(ix, packet, Earlier(c))
            && Lossless(AfterRounds(ix, packet, Earlier(c)), |packet.Content()|, last)
            && AfterRounds(ix, packet, c) == RunRound(ix, AfterRounds(ix, packet, Earlier(c)), c.id, last)
  {
    hide RunRound, Lossless, AckAll, StartOut, BatchIndices;
  }

  /** The last batch had `full` datagrams if there were as many, and all of it is acked. */
  ghost predicate Reached(o: Out, ds: seq<Bytes>, b: nat, full: nat) {
    && b <= full
    && AckedUpTo(o, ds, Min(|ds|, 2 * full - b))
    && (2 * full - b <= |ds| ==> o.batchSize == o.lastBatchSize == o.lastBatchAcks == full)
  }

  lemma RoundDoubles(ix: Indexing, o: Out, id: PacketId, ds: seq<Bytes>, b: nat, full: nat, r: Round)
    requires Reached(o, ds, b, full) && 2 * full <= U16_MAX
    requires Lossless(o, |ds|, r) && LookupExact(ix, |ds|)
    ensures Reached(RunRound(ix, o, id, r), ds, b, 2 * full)
  {
    hide AckedUpTo, RunRound, Lossless, LookupExact;
    LosslessRoundAcks(ix, o, id, ds, Min(|ds|, 2 * full - b), r);
  }

  lemma {:induction false} RoundsDouble(ix: Indexing, packet: SerializedPacket, c: Course)
    requires Undisturbed(ix, packet, c) && LookupExact(ix, |packet.Content()|)
    requires Doubled(c.batchSize, |c.rounds|) <= U16_MAX
    ensures Reached(AfterRounds(ix, packet, c), packet.Content(), c.batchSize, Doubled(c.batchSize, |c.rounds|))
    decreases |c.rounds|
  {
    hide RunRound, AfterFirstBatch, Lossless, LookupExact;
    if c.rounds == [] {
      FirstBatchAcks(ix, packet, c);
    } else {
      hide Reached, AfterRounds, Undisturbed;
      LastRound(ix, packet, c);
      RoundsDouble(ix, packet, Earlier(c));
      RoundDoubles(ix, AfterRounds(ix, packet, Earlier(c)), c.id, packet.Content(), c.batchSize,
                   Doubled(c.batchSize, |c.rounds| - 1), c.rounds[|c.rounds| - 1]);
    }
  }

  /** The growth equation: after the first batch and `k` more rounds exactly
      `min(n, b * (2^(k+1) - 1))` of the `n` datagrams are acked, the lowest-numbered ones. */
  ghost predicate Grown(ix: Indexing, packet: SerializedPacket, c: Course)
    requires FirstBatch(packet, c).Some?
  {
    var n, total := |packet.Content()|, c.batchSize * (Pow2(|c.rounds| + 1) - 1);
    0 <= total && AckedUpTo(AfterRounds(ix, packet, c), packet.Content(), Min(n, total))
  }

  /** It holds as long as `b * 2^k` fits the counter, if the lookup is exact. */
  lemma GrowthLaw(ix: Indexing, packet: SerializedPacket, c: Course)
    requires Undisturbed(ix, packet, c) && LookupExact(ix, |packet.Content()|)
    requires c.batchSize * Pow2(|c.rounds|) <= U16_MAX
    ensures Grown(ix, packet, c)
  {
    hide AckedUpTo, AfterFirstBatch, RunRounds, AllLossless, LookupExact;
    DoubledIsPower(c.batchSize, |c.rounds|);
    RoundsDouble(ix, packet, c);
  }

  /** Every round makes progress, so after at most `n` rounds all is acked. */
  lemma {:induction false} RoundsProgress(ix: Indexing, packet: SerializedPacket, c: Course) returns (a: nat)
    requires Undisturbed(ix, packet, c) && LookupExact(ix, |packet.Content()|)
    ensures AckedUpTo(AfterRounds(ix, packet, c), packet.Content(), a) && AfterRounds(ix, packet, c).lastSend.Some?
    ensures Min(|packet.Content()|, |c.rounds| + 1) <= a
    decreases |c.rounds|
  {
    hide AckedUpTo, RunRound, AfterFirstBatch, Lossless, LookupExact;
    FirstBatchAcks(ix, packet, c);
    if c.rounds == [] {
      a := Min(|packet.Content()|, c.batchSize);
    } else {
      var earlier, last := Earlier(c), c.rounds[|c.rounds| - 1];
      LastRound(ix, packet, c);
      var before := RoundsProgress(ix, packet, earlier);
      var o := AfterRounds(ix, packet, earlier);
      AckedIsWithin(o, packet.Content(), before);
      LosslessRoundAcks(ix, o, c.id, packet.Content(), before, last);
      a := Min(|packet.Content()|, before + NextBatchSize(o));
    }
  }

  lemma AckedIsWithin(o: Out, ds: seq<Bytes>, a: nat)
    requires AckedUpTo(o, ds, a)
    ensures a <= |ds|
  {
  }

  /** A due send after enough rounds is `Done`. */
  ghost predicate Finishes(ix: Indexing, packet: SerializedPacket, c: Course, last: Round)
    requires FirstBatch(packet, c).Some?
  {
    var o := AfterRounds(ix, packet, c);
    && o.lastSend.Some?
    && (Due(o, last.now, last.delay) && AllSent(last.outcomes) ==>
          var (_, result, sent) := SendPending(o, c.id, last.now, last.delay, last.outcomes, 0);
          result == Finished && sent == [PrintDone(c.id)])
  }

  /** Every transfer without loss finishes, if the lookup is exact: the due send after at
      most `n` rounds is `Done`. */
  lemma TransferFinishes(ix: Indexing, packet: SerializedPacket, c: Course, last: Round)
    requires Undisturbed(ix, packet, c) && LookupExact(ix, |packet.Content()|)
    requires |packet.Content()| <= |c.rounds| + 1
    ensures Finishes(ix, packet, c, last)
  {
    hide AckedUpTo, AfterRounds, LookupExact;
    var n := |packet.Content()|;
    var a := RoundsProgress(ix, packet, c);
    var o := AfterRounds(ix, packet, c);
    AckedIsWithin(o, packet.Content(), a);
    if Due(o, last.now, last.delay) && AllSent(last.outcomes) {
      LosslessSend(o, c.id, packet.Content(), n, last);
    }
  }

  // ----- A silent peer -----

  /** A due resend that nothing blocks. */
  datatype Resend = Resend(now: int, delay: nat, outcomes: Outcomes)

  function ResendOnce(o: Out, id: PacketId, r: Resend): Out {
    SendPending(o, id, r.now, r.delay, r.outcomes, 0).0
  }

  function RunResends(o: Out, id: PacketId, resends: seq<Resend>): Out
    decreases |resends|
  {
    if resends == [] then o
    else RunResends(ResendOnce(o, id, resends[0]), id, resends[1..])
  }

  ghost predicate AllDue(o: Out, id: PacketId, resends: seq<Resend>)
    decreases |resends|
  {
    resends == [] ||
    (&& o.lastSend.Some? && Due(o, resends[0].now, resends[0].delay) && AllSent(resends[0].outcomes)
     && AllDue(ResendOnce(o, id, resends[0]), id, resends[1..]))
  }

  /** Something is left to be acked. */
  ghost predicate Incomplete(o: Out, ds: seq<Bytes>) {
    Window(o.queue, ds) && exists i: nat :: i < |ds| && i !in o.queue.AckedSet()
  }

  /** One unanswered resend. */
  lemma ResendMisses(o: Out, ds: seq<Bytes>, id: PacketId, r: Resend)
    requires Incomplete(o, ds) && AllDue(o, id, [r])
    ensures var (o', result, _) := SendPending(o, id, r.now, r.delay, r.outcomes, 0);
            && result == Kept && Incomplete(o', ds) && o'.lastSend.Some?
            && o'.queue.AckedSet() == o.queue.AckedSet()
            && o'.batchSize == NextBatchSize(o)
            && o'.lastBatchAcks == 0 && o'.lastBatchSize == |BatchIndices(o.queue, |ds|, NextBatchSize(o))|
            && 1 <= o'.lastBatchSize
            && o'.missedAcks == o.missedAcks + SaturatingSub(o.lastBatchSize, o.lastBatchAcks)
  {
    hide Fill, Unacked;
    var size := NextBatchSize(o);
    FillKeepsWindow(o.queue, ds, size);
    BatchIsLowestOpen(o.queue, ds, size);
    EmptyBatchMeansAllAcked(o.queue, ds, size);
    AcceptedAll(r.outcomes, 0, |Batch(o.queue, size)|);
  }

  /** Every unanswered resend misses at least one ack, except that the first may follow a
      batch that was fully acked. */
  lemma {:induction false} SilenceMisses(o: Out, ds: seq<Bytes>, id: PacketId, resends: seq<Resend>)
    requires Incomplete(o, ds) && AllDue(o, id, resends)
    ensures var o' := RunResends(o, id, resends);
            && Incomplete(o', ds)
            && o.missedAcks + |resends| <= o'.missedAcks + (if o.lastBatchAcks < o.lastBatchSize then 0 else 1)
    decreases |resends|
  {
    if resends != [] {
      ResendMisses(o, ds, id, resends[0]);
      SilenceMisses(ResendOnce(o, id, resends[0]), ds, id, resends[1..]);
    }
  }

  /** The batch size after `k` cuts. */
  function Halved(b: NonZeroBatchSize, k: nat): NonZeroBatchSize
    decreases k
  {
    if k == 0 then b else Halved(NonZero(b / 2), k - 1)
  }

  /** `k` cuts divide by `2^k`, but never go below one. */
  lemma {:induction false} HalvedIsQuotient(b: NonZeroBatchSize, k: nat)
    ensures b < Pow2(k) ==> Halved(b, k) == 1
    ensures Pow2(k) <= b ==> Halved(b, k) * Pow2(k) <= b < (Halved(b, k) + 1) * Pow2(k)
    decreases k
  {
    if k != 0 {
      var half := NonZero(b / 2);
      HalvedIsQuotient(half, k - 1);
      TwiceProduct(Halved(b, k), Pow2(k - 1));
      TwiceProduct(Halved(b, k) + 1, Pow2(k - 1));
    }
  }

  /** Every unanswered resend cuts the batch size in half. */
  lemma {:induction false} SilenceHalves(o: Out, ds: seq<Bytes>, id: PacketId, resends: seq<Resend>)
    requires Incomplete(o, ds) && AllDue(o, id, resends) && o.lastBatchAcks < o.lastBatchSize
    ensures RunResends(o, id, resends).batchSize == Halved(o.batchSize, |resends|)
    decreases |resends|
  {
    if resends != [] {
      ResendMisses(o, ds, id, resends[0]);
      SilenceHalves(ResendOnce(o, id, resends[0]), ds, id, resends[1..]);
    }
  }

  /** A silent peer's packet has missed more acks than the limit after `maxMissedAcks + 1`
      unanswered resends, one more if the last batch before the silence was fully acked. */
  lemma SilenceExceedsLimit(o: Out, ds: seq<Bytes>, id: PacketId, resends: seq<Resend>, maxMissedAcks: nat)
    requires Incomplete(o, ds) && AllDue(o, id, resends)
    requires maxMissedAcks + (if o.lastBatchAcks < o.lastBatchSize then 1 else 2) <= |resends|
    ensures maxMissedAcks < RunResends(o, id, resends).missedAcks
  {
    SilenceMisses(o, ds, id, resends);
  }

  /** The state right after the first batch went out. */
  lemma FirstBatchSent(packet: SerializedPacket, b: NonZeroBatchSize, start: int, outcomes: Outcomes)
    requires AllSent(outcomes) && packet.Content() != []
    ensures var o := StartOut(packet, b, start, outcomes, 0).0;
            && o.Some? && Incomplete(o.value, packet.Content()) && o.value.queue.AckedSet() == {}
            && o.value.lastSend.Some? && o.value.missedAcks == 0 && o.value.batchSize == b
            && o.value.lastBatchAcks == 0 && o.value.lastBatchSize == Min(|packet.Content()|, b)
  {
    hide Fill, Unacked, Window;
    var q := NewQueue(packet);
    NewQueueIsWindow(packet);
    assert q.AckedSet() == Below(0);
    BatchAboveAcked(Out(q, None, 0, b, 0, 0), packet.Content(), 0, b);
    AcceptedAll(outcomes, 0, |Batch(q, b)|);
    assert 0 !in StartOut(packet, b, start, outcomes, 0).0.value.queue.AckedSet();
  }

  lemma {:induction false} SingleResendsCountOne(o: Out, ds: seq<Bytes>, id: PacketId, resends: seq<Resend>)
    requires Incomplete(o, ds) && o.queue.AckedSet() == {} && AllDue(o, id, resends)
    requires o.lastBatchAcks == 0 && o.lastBatchSize == 1 == Min(|ds|, o.batchSize)
    ensures RunResends(o, id, resends).missedAcks == o.missedAcks + |resends|
    decreases |resends|
  {
    if resends != [] {
      ResendMisses(o, ds, id, resends[0]);
      OpenAboveBelow(0, 0, |ds|);
      assert Below(0) == {};
      SingleResendsCountOne(ResendOnce(o, id, resends[0]), ds, id, resends[1..]);
    }
  }

  /** The configuration documents `max_missed_acks` as a number of resends. The counter
      counts chunks instead: with a silent peer it equals the number of resends exactly if
      batches hold a single datagram; otherwise already the first resend counts the whole
      first batch. */
  lemma MissedAcksCountResendsExactly(packet: SerializedPacket, b: NonZeroBatchSize, start: int, outcomes: Outcomes,
                                      id: PacketId)
    requires AllSent(outcomes) && packet.Content() != []
    ensures var o := StartOut(packet, b, start, outcomes, 0).0;
            o.Some? &&
            ((forall resends :: AllDue(o.value, id, resends) ==>
                RunResends(o.value, id, resends).missedAcks == |resends|)
             <==> Min(|packet.Content()|, b) == 1)
    ensures var o := StartOut(packet, b, start, outcomes, 0).0;
            forall r :: o.Some? && AllDue(o.value, id, [r]) ==>
              RunResends(o.value, id, [r]).missedAcks == Min(|packet.Content()|, b)
  {
    FirstBatchSent(packet, b, start, outcomes);
    var ds := packet.Content();
    var o := StartOut(packet, b, start, outcomes, 0).0.value;
    if Min(|ds|, b) == 1 {
      forall resends | AllDue(o, id, resends)
        ensures RunResends(o, id, resends).missedAcks == |resends|
      {
        SingleResendsCountOne(o, ds, id, resends);
      }
    }
    forall r | AllDue(o, id, [r])
      ensures RunResends(o, id, [r]).missedAcks == Min(|ds|, b)
    {
      ResendMisses(o, ds, id, r);
    }
    var r := Resend(o.lastSend.value, 0, outcomes);
    assert AllDue(o, id, [r]);
  }

  /** A new packet whose first batch would block is as good as canceled: exactly then the
      next round sends `Done` for it, although nothing was acked. */
  lemma BlockedFirstBatchCancels(packet: SerializedPacket, b: NonZeroBatchSize, start: int, outcomes: Outcomes,
                                 id: PacketId, now: int, delay: nat)
    requires packet.Content() != [] && StartOut(packet, b, start, outcomes, 0).0.Some?
    ensures var (o, sent) := StartOut(packet, b, start, outcomes, 0);
            var blocked := Accepted(outcomes, 0, Min(|packet.Content()|, b)) < Min(|packet.Content()|, b);
            && (o.value.lastSend == None <==> blocked)
            && (blocked <==> forall r: Outcomes :: AllSent(r) ==>
                  SendPending(o.value, id, now, delay, r, 0).1 == Finished)
  {
    hide Fill, Unacked, Window;
    var q := NewQueue(packet);
    NewQueueIsWindow(packet);
    assert q.AckedSet() == Below(0);
    BatchAboveAcked(Out(q, None, 0, b, 0, 0), packet.Content(), 0, b);
    var o := StartOut(packet, b, start, outcomes, 0).0.value;
    var always: Outcomes := _ => Sent;
    assert AllSent(always);
    if o.lastSend.Some? {
      var size := Balance(o.batchSize, o.lastBatchAcks, o.lastBatchSize);
      BatchCarriesSome(o.queue, packet.Content(), size, q, b);
      AcceptedAll(always, 0, |Batch(o.queue, size)|);
      assert SendPending(o, id, now, delay, always, 0).1 != Finished;
    }
  }

  lemma BatchCarriesSome(f: Queue, ds: seq<Bytes>, size: NonZeroBatchSize, q: Queue, b: NonZeroBatchSize)
    requires Window(q, ds) && q.AckedSet() == {} && f == Fill(q, b) && ds != []
    ensures Batch(f, size) != []
  {
    hide Fill, Unacked;
    FillKeepsWindow(q, ds, b);
    EmptyBatchMeansAllAcked(f, ds, size);
    assert 0 !in f.AckedSet();
  }
}
