/** The per-id state of a connection on values: what `ReceivePacketBuffer` and
    `SendPacketBuffer` compute, datagrams in and datagrams out. */
module BufferSpec {
  import opened Wire
  import opened Chunking
  import opened Serialize
  import opened Sockets
  import opened SendSpec
  import opened ReceiveSpec
  import opened Counting

  // ----- Receiving -----

  /** `packet` is `None` for a packet that came as a single chunk. */
  datatype PacketIn = PacketIn(lastReceive: int, packet: Option<Reassembly>)

  type Incoming = map<PacketId, PacketIn>

  datatype PartResult = PartOk(result: ReceivedPacket) | PartMismatch | PartIoError

  datatype Handling =
    | HandledPart(part: PartResult)
    | HandledDone(known: bool)
    | HandledAck(ack: AckResult)
    | InvalidAckId
    | Malformed
    | EmptyDatagram
    | UnexpectedKind(kind: Byte)

  /** The ack that follows a part; only a hard error is noticed. */
  function AckPart(id: PacketId, index: U32, outcome: SendResult, result: ReceivedPacket): (PartResult, seq<Bytes>) {
    match outcome
    case Sent => (PartOk(result), [PrintAck(id, index)])
    case WouldBlock => (PartOk(result), [])
    case Failed => (PartIoError, [])
  }

  function ReceivePart(guard: Guard, incoming: Incoming, last: bool, id: PacketId, index: U32, payload: Bytes, now: int,
                       outcome: SendResult): (Incoming, PartResult, seq<Bytes>)
  {
    if last && index == 0 then
      if id !in incoming then
        var (result, sent) := AckPart(id, index, outcome, Reassembled(payload));
        (incoming[id := PacketIn(now, None)], result, sent)
      else if incoming[id].packet.None? then
        var (result, sent) := AckPart(id, index, outcome, Duplicate);
        (incoming, result, sent)
      else (incoming, PartMismatch, [])
    else
      var entry := if id in incoming then incoming[id].(lastReceive := now) else PacketIn(now, Some(EMPTY_REASSEMBLY));
      match entry.packet
      case None => (incoming[id := entry], PartMismatch, [])
      case Some(reassembly) =>
        var (reassembly', received) := Receive(guard, reassembly, last, index, payload);
        var incoming' := incoming[id := entry.(packet := Some(reassembly'))];
        if received == Panicked then (incoming', PartOk(Panicked), [])
        else
          var (result, sent) := AckPart(id, index, outcome, received);
          (incoming', result, sent)
  }

  function ForgetIncoming(incoming: Incoming, id: PacketId): Incoming {
    incoming - {id}
  }

  function TimeoutIncoming(incoming: Incoming, now: int, timeout: nat): Incoming {
    map id | id in incoming && Max(0, now - incoming[id].lastReceive) < timeout :: incoming[id]
  }

  /** A datagram at the receiving buffer; `None` leaves it to the other one. */
  function HandleIncoming(guard: Guard, incoming: Incoming, buf: Bytes, now: int, outcome: SendResult)
      : (Incoming, Option<Handling>, seq<Bytes>)
    requires buf != []
  {
    match ViewForReceiver(buf)
    case PartView(last, id, index, payload) =>
      var (incoming', result, sent) := ReceivePart(guard, incoming, last, id, index, payload, now, outcome);
      (incoming', Some(HandledPart(result)), sent)
    case DoneView(id) => (ForgetIncoming(incoming, id), Some(HandledDone(id in incoming)), [])
    case ReceiveMalformed => (incoming, Some(Malformed), [])
    case ReceiveUnhandled => (incoming, None, [])
  }

  // ----- Sending -----

  type Outgoing = map<PacketId, Out>

  function AckOutgoing(ix: Indexing, outgoing: Outgoing, id: PacketId, index: nat): (Outgoing, Handling) {
    if id !in outgoing then (outgoing, InvalidAckId)
    else
      var (o, result) := AckOut(ix, outgoing[id], index);
      (outgoing[id := o], HandledAck(result))
  }

  function HandleOutgoing(ix: Indexing, outgoing: Outgoing, buf: Bytes): (Outgoing, Option<Handling>)
    requires buf != []
  {
    match ViewForSender(buf)
    case AckView(id, index) =>
      var (outgoing', result) := AckOutgoing(ix, outgoing, id, index);
      (outgoing', Some(result))
    case SendMalformed => (outgoing, Some(Malformed))
    case SendUnhandled => (outgoing, None)
  }

  function TimeoutOutgoing(outgoing: Outgoing, maxMissedAcks: nat): Outgoing {
    map id | id in outgoing && outgoing[id].missedAcks <= maxMissedAcks :: outgoing[id]
  }

  function KeptOutgoing(outgoing: Outgoing, maxMissedAcks: Option<nat>): Outgoing {
    if maxMissedAcks.Some? then TimeoutOutgoing(outgoing, maxMissedAcks.value) else outgoing
  }

  function KeptIncoming(incoming: Incoming, now: int, timeout: Option<nat>): Incoming {
    if timeout.Some? then TimeoutIncoming(incoming, now, timeout.value) else incoming
  }

  /** A new packet, started with the current batch size; a hard error keeps nothing. */
  function StartOutgoing(outgoing: Outgoing, id: PacketId, packet: SerializedPacket, batchSize: NonZeroBatchSize,
                         now: int, outcomes: Outcomes, from: nat): (Outgoing, bool, seq<Bytes>)
  {
    var (o, sent) := StartOut(packet, batchSize, now, outcomes, from);
    if o.Some? then (outgoing[id := o.value], true, sent) else (outgoing, false, sent)
  }

  /** The state of a pass over the packets. After an error the rest is left alone. */
  datatype Sweep = Sweep(outgoing: Outgoing, total: nat, count: nat, failed: bool, calls: nat, sent: seq<Bytes>)

  function SweepOne(s: Sweep, id: PacketId, now: int, delay: nat, outcomes: Outcomes): Sweep
    requires id in s.outgoing
  {
    var o := s.outgoing[id];
    var s' := s.(total := s.total + o.batchSize, count := s.count + 1);
    if s.failed then s'
    else
      var (o', result, sent) := SendPending(o, id, now, delay, outcomes, s.calls);
      s'.(outgoing := if result == Finished then s.outgoing - {id} else s.outgoing[id := o'],
          failed := result == SendError,
          calls := s.calls + PendingAttempts(o, now, delay, outcomes, s.calls),
          sent := s.sent + sent)
  }

  /** The order lists packets that are there, none twice. */
  ghost predicate Sweepable(outgoing: Outgoing, order: seq<PacketId>) {
    Distinct(order) && forall id :: id in order ==> id in outgoing
  }

  function SweepAll(s: Sweep, order: seq<PacketId>, now: int, delay: nat, outcomes: Outcomes): Sweep
    requires Sweepable(s.outgoing, order)
    decreases |order|
  {
    if order == [] then s
    else
      assert forall id :: id in order[1..] ==> id in order && id != order[0];
      SweepAll(SweepOne(s, order[0], now, delay, outcomes), order[1..], now, delay, outcomes)
  }

  lemma SweepOfNone(s: Sweep, order: seq<PacketId>, now: int, delay: nat, outcomes: Outcomes)
    requires order == []
    ensures Sweepable(s.outgoing, order) && SweepAll(s, order, now, delay, outcomes) == s
  {
  }

  lemma SweepUnrolls(s: Sweep, order: seq<PacketId>, now: int, delay: nat, outcomes: Outcomes)
    requires Sweepable(s.outgoing, order) && order != []
    ensures order[0] in s.outgoing
    ensures var s' := SweepOne(s, order[0], now, delay, outcomes);
            && Sweepable(s'.outgoing, order[1..])
            && SweepAll(s, order, now, delay, outcomes) == SweepAll(s', order[1..], now, delay, outcomes)
  {
    assert forall id :: id in order[1..] ==> id in order && id != order[0];
  }

  /** The batch size that new packets start with: the average of the pass. */
  function AverageBatchSize(s: Sweep, previous: NonZeroBatchSize): NonZeroBatchSize {
    if s.count == 0 then previous else NonZero(Min(s.total / s.count, U16_MAX))
  }

  lemma SweepableRest(outgoing: Outgoing, order: seq<PacketId>, k: nat)
    requires Sweepable(outgoing, order) && k <= |order|
    ensures Sweepable(outgoing, order[..k]) && Sweepable(outgoing, order[k..])
  {
    forall id | id in order[..k] || id in order[k..]
      ensures id in order
    {
    }
  }

  /** The pass over a whole order, as the pass up to `k`, the step of its packet, and the
      pass over the rest. */
  lemma {:induction false} SweepSplits(s: Sweep, order: seq<PacketId>, now: int, delay: nat, outcomes: Outcomes, k: nat)
    requires Sweepable(s.outgoing, order) && k <= |order|
    ensures Sweepable(s.outgoing, order[..k])
    ensures var s' := SweepAll(s, order[..k], now, delay, outcomes);
            && Sweepable(s'.outgoing, order[k..])
            && SweepAll(s, order, now, delay, outcomes) == SweepAll(s', order[k..], now, delay, outcomes)
            && (forall id :: id in order[k..] ==> id in s.outgoing && s'.outgoing[id] == s.outgoing[id])
    decreases k
  {
    SweepableRest(s.outgoing, order, k);
    if k == 0 {
      assert order[0..] == order;
      SweepOfNone(s, order[..0], now, delay, outcomes);
    } else {
      hide SweepAll, SweepOne, Distinct;
      var s1 := SweepOne(s, order[0], now, delay, outcomes);
      SweepUnrolls(s, order, now, delay, outcomes);
      SweepUnrolls(s, order[..k], now, delay, outcomes);
      SweepOneLeavesOthers(s, order, now, delay, outcomes);
      SweepSplits(s1, order[1..], now, delay, outcomes, k - 1);
      assert order[..k][1..] == order[1..][..k - 1];
      assert order[1..][k - 1..] == order[k..];
      assert forall id :: id in order[k..] ==> id in order[1..];
    }
  }

  lemma {:induction false} SweepAddsOnly(s: Sweep, order: seq<PacketId>, now: int, delay: nat, outcomes: Outcomes)
    requires Sweepable(s.outgoing, order)
    ensures var s' := SweepAll(s, order, now, delay, outcomes);
            && s.sent <= s'.sent && (s.failed ==> s'.failed && s'.outgoing == s.outgoing && s'.sent == s.sent)
            && (forall id :: id !in order ==>
                  (id in s'.outgoing <==> id in s.outgoing)
                  && (id in s.outgoing ==> s'.outgoing[id] == s.outgoing[id]))
    decreases |order|
  {
    if order != [] {
      hide SendSpec.SendPending, PendingAttempts, Distinct;
      SweepUnrolls(s, order, now, delay, outcomes);
      SweepAddsOnly(SweepOne(s, order[0], now, delay, outcomes), order[1..], now, delay, outcomes);
      assert forall id :: id in order[1..] ==> id in order;
    }
  }

  /** A pass treats every packet as if it were alone, with the socket where the packets
      before it in the order left it. Up to the first error each one takes its own resend
      step and is removed exactly if it finished; the packets after the failing one are
      untouched, and nothing is sent for them. */
  lemma SweepIsPerPacket(s: Sweep, order: seq<PacketId>, now: int, delay: nat, outcomes: Outcomes, k: nat)
    requires Sweepable(s.outgoing, order) && k < |order|
    ensures Sweepable(s.outgoing, order[..k])
    ensures var id, before := order[k], SweepAll(s, order[..k], now, delay, outcomes);
            var after := SweepAll(s, order, now, delay, outcomes);
            && id in s.outgoing
            && if before.failed then
                 && after.failed && after.sent == before.sent
                 && id in after.outgoing && after.outgoing[id] == s.outgoing[id]
               else
                 var (o, result, sent) := SendPending(s.outgoing[id], id, now, delay, outcomes, before.calls);
                 && (id in after.outgoing <==> result != Finished)
                 && (id in after.outgoing ==> after.outgoing[id] == o)
                 && (result == SendError ==> after.failed && after.sent == before.sent + sent)
                 && before.sent + sent <= after.sent
  {
    hide SweepAll, SendSpec.SendPending, PendingAttempts, Distinct;
    SweepSplits(s, order, now, delay, outcomes, k);
    var before, rest := SweepAll(s, order[..k], now, delay, outcomes), order[k..];
    assert rest[0] == order[k] && rest[0] in rest;
    SweepUnrolls(before, rest, now, delay, outcomes);
    FirstIsNotInRest(rest);
    SweepAddsOnly(SweepOne(before, rest[0], now, delay, outcomes), rest[1..], now, delay, outcomes);
    SweepAddsOnly(before, rest, now, delay, outcomes);
  }

  lemma FirstIsNotInRest(order: seq<PacketId>)
    requires Distinct(order) && order != []
    ensures order[0] !in order[1..]
  {
  }

  lemma SweepOneLeavesOthers(s: Sweep, order: seq<PacketId>, now: int, delay: nat, outcomes: Outcomes)
    requires Sweepable(s.outgoing, order) && order != []
    ensures order[0] in s.outgoing && order[0] in order
    ensures var s' := SweepOne(s, order[0], now, delay, outcomes);
            && s'.total == s.total + s.outgoing[order[0]].batchSize && s'.count == s.count + 1
            && forall id :: id in order[1..] ==>
                 id in order && id in s.outgoing && id in s'.outgoing && s'.outgoing[id] == s.outgoing[id]
  {
    hide SendSpec.SendPending, PendingAttempts;
    forall id | id in order[1..]
      ensures id in order && id != order[0]
    {
    }
  }

  lemma {:induction false} SweepTotals(s: Sweep, order: seq<PacketId>, now: int, delay: nat, outcomes: Outcomes,
                                       lo: nat, hi: nat)
    requires Sweepable(s.outgoing, order)
    requires forall id :: id in order ==> lo <= s.outgoing[id].batchSize <= hi
    ensures var s' := SweepAll(s, order, now, delay, outcomes);
            && s'.count == s.count + |order|
            && s.total + lo * |order| <= s'.total <= s.total + hi * |order|
    decreases |order|
  {
    if order != [] {
      hide SweepAll, SweepOne;
      var rest := order[1..];
      SweepUnrolls(s, order, now, delay, outcomes);
      SweepOneLeavesOthers(s, order, now, delay, outcomes);
      SweepTotals(SweepOne(s, order[0], now, delay, outcomes), rest, now, delay, outcomes, lo, hi);
      OneMore(lo, |rest|);
      OneMore(hi, |rest|);
    }
  }

  /** New packets start with a batch size between the smallest and the largest of the pass. */
  lemma AverageIsBetween(outgoing: Outgoing, order: seq<PacketId>, now: int, delay: nat, outcomes: Outcomes,
                         calls: nat, previous: NonZeroBatchSize, lo: nat, hi: nat)
    requires Sweepable(outgoing, order) && order != []
    requires forall id :: id in order ==> lo <= outgoing[id].batchSize <= hi
    ensures var s := SweepAll(Sweep(outgoing, 0, 0, false, calls, []), order, now, delay, outcomes);
            lo <= AverageBatchSize(s, previous) <= hi
  {
    hide SweepAll, SweepOne;
    SweepTotals(Sweep(outgoing, 0, 0, false, calls, []), order, now, delay, outcomes, lo, hi);
    var s := SweepAll(Sweep(outgoing, 0, 0, false, calls, []), order, now, delay, outcomes);
    assert order[0] in order;
    assert s.count == |order| && lo * s.count <= s.total <= hi * s.count;
    Quotient(s.total, s.count, lo, hi);
  }

  lemma Quotient(total: nat, count: nat, lo: nat, hi: nat)
    requires 0 < count && lo * count <= total <= hi * count
    ensures lo <= total / count <= hi
  {
    var q := total / count;
    assert total == q * count + total % count;
    assert q * count <= total < (q + 1) * count;
    if hi < q {
      Monotone(hi + 1, q, count);
    } else if q < lo {
      Monotone(q + 1, lo, count);
    }
  }

  lemma OneMore(a: nat, n: nat)
    ensures a * (n + 1) == a * n + a
  {
  }

  lemma Monotone(a: nat, b: nat, c: nat)
    requires a <= b
    ensures a * c <= b * c
  {
  }
}
