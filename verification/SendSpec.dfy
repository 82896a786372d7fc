/** The sending side of one packet, on values: what `PacketQueue` and `PacketOut` compute. */
module SendSpec {
  import opened Wire
  import opened Chunking
  import opened Serialize
  import opened Sockets

  type BatchSize = U16
  type NonZeroBatchSize = x: int | 1 <= x < 0x1_0000 witness 1

  /** How an acked sequence index is looked up in the deque of unacked packets.

      The code uses the raw index. Its fields document an offset, `first_unacked`, that
      would have to be subtracted first. Both are modelled. */
  datatype Indexing = AsBuilt | Documented

  /** An ack finds the entry of its own index whatever was drained before: with the offset
      always, as built only in a packet of at most one datagram. */
  predicate LookupExact(ix: Indexing, n: nat) {
    ix == Documented || n <= 1
  }

  /** A finished datagram in the deque. */
  datatype Slot = Slot(acked: bool, data: Bytes)

  /** `first` is the sequence index of the front of `packets`; `rx` holds what the
      background thread has yet to deliver. */
  datatype Queue = Queue(packets: seq<Slot>, first: nat, rx: Option<seq<Bytes>>)
  {
    function Loaded(): nat {
      first + |packets|
    }

    predicate CountsAsAcked(i: nat) {
      i < first || (i < Loaded() && packets[i - first].acked)
    }

    /** The sequence indices that count as acked. */
    function AckedSet(): set<nat> {
      set i: nat | i < Loaded() && CountsAsAcked(i)
    }
  }

  function Slots(ds: seq<Bytes>): (slots: seq<Slot>)
    ensures |slots| == |ds|
  {
    seq(|ds|, i requires 0 <= i < |ds| => Slot(false, ds[i]))
  }

  function NewQueue(packet: SerializedPacket): Queue {
    match packet
    case InMemory(buffers) => Queue(Slots(buffers), 0, None)
    case Channel(incoming) => Queue([], 0, Some(incoming))
  }

  /** The datagrams that are not acked, front to back. */
  function Unacked(packets: seq<Slot>): seq<Bytes> {
    if packets == [] then []
    else if packets[0].acked then Unacked(packets[1..])
    else [packets[0].data] + Unacked(packets[1..])
  }

  function Take<T>(s: seq<T>, n: nat): seq<T> {
    s[..Min(n, |s|)]
  }

  /** Pulls from the channel until `count` unacked packets are there or it is exhausted. */
  function Fill(q: Queue, count: nat): Queue {
    match q.rx
    case None => q
    case Some(incoming) =>
      var existing := Min(count, |Unacked(q.packets)|);
      var pulled := Take(incoming, count - existing);
      Queue(q.packets + Slots(pulled), q.first, Some(incoming[|pulled|..]))
  }

  function Batch(q: Queue, count: nat): (batch: seq<Bytes>)
    ensures |batch| <= count
  {
    Take(Unacked(Fill(q, count).packets), count)
  }

  datatype BatchResult = BatchSent(count: nat, complete: bool) | BatchFailed

  function SendBatch(batch: seq<Bytes>, outcomes: Outcomes, from: nat): BatchResult {
    var k := Accepted(outcomes, from, |batch|);
    if k == |batch| then BatchSent(k, true)
    else if outcomes(from + k) == WouldBlock then BatchSent(k, false)
    else BatchFailed
  }

  datatype AckResult = Acked(duplicate: bool) | AckedBeforeSent

  /** The position of the first unacked packet, or the length if there is none. */
  function FirstUnacked(packets: seq<Slot>): (p: nat)
    ensures p <= |packets|
    ensures forall i :: 0 <= i < p ==> packets[i].acked
    ensures p < |packets| ==> !packets[p].acked
  {
    if packets == [] || !packets[0].acked then 0 else 1 + FirstUnacked(packets[1..])
  }

  /** Marks one position and drops the acked front. */
  function AckPosition(q: Queue, position: nat): (Queue, AckResult) {
    if |q.packets| <= position then (q, AckedBeforeSent)
    else if q.packets[position].acked then (q, Acked(true))
    else
      var marked := q.packets[position := q.packets[position].(acked := true)];
      var drained := FirstUnacked(marked);
      (Queue(marked[drained..], q.first + drained, q.rx), Acked(false))
  }

  function AckQueue(ix: Indexing, q: Queue, index: nat): (Queue, AckResult) {
    match ix
    case AsBuilt => AckPosition(q, index)
    case Documented => if index < q.first then (q, Acked(true)) else AckPosition(q, index - q.first)
  }

  /** One outgoing packet. `lastSend` is `None` once it is canceled. */
  datatype Out = Out(
    queue: Queue,
    lastSend: Option<int>,
    missedAcks: nat,
    batchSize: NonZeroBatchSize,
    lastBatchSize: BatchSize,
    lastBatchAcks: BatchSize)

  function SaturatingSub(a: nat, b: nat): nat {
    if a < b then 0 else a - b
  }

  function NonZero(n: BatchSize): NonZeroBatchSize {
    if n == 0 then 1 else n
  }

  function Balance(previous: NonZeroBatchSize, acks: BatchSize, size: BatchSize): NonZeroBatchSize {
    if size <= acks then
      Max(previous, NonZero(Min(2 * size, U16_MAX)))
    else
      NonZero(previous / 2)
  }

  /** The first batch. If it would block, the packet counts as canceled from the start. */
  function StartOut(packet: SerializedPacket, batchSize: NonZeroBatchSize, now: int, outcomes: Outcomes, from: nat)
      : (Option<Out>, seq<Bytes>)
  {
    var q := NewQueue(packet);
    var batch := Batch(q, batchSize);
    var sent := batch[..Accepted(outcomes, from, |batch|)];
    match SendBatch(batch, outcomes, from)
    case BatchFailed => (None, sent)
    case BatchSent(count, complete) =>
      (Some(Out(Fill(q, batchSize), if complete then Some(now) else None, 0, batchSize, count, 0)), sent)
  }

  function AckOut(ix: Indexing, o: Out, index: nat): (Out, AckResult) {
    var (q, result) := AckQueue(ix, o.queue, index);
    (o.(queue := q, missedAcks := 0,
        lastBatchAcks := if result == Acked(false) then Min(o.lastBatchAcks + 1, U16_MAX) else o.lastBatchAcks),
     result)
  }

  function CancelOut(o: Out): Out {
    o.(lastSend := None)
  }

  datatype PendingResult = Kept | Finished | SendError

  /** Sends `Done`; only a datagram that went out finishes the packet. */
  function SendDone(o: Out, id: PacketId, outcome: SendResult): (Out, PendingResult, seq<Bytes>) {
    match outcome
    case Sent => (o, Finished, [PrintDone(id)])
    case WouldBlock => (o, Kept, [])
    case Failed => (o, SendError, [])
  }

  predicate Due(o: Out, now: int, delay: nat)
    requires o.lastSend.Some?
  {
    delay <= Max(0, now - o.lastSend.value)
  }

  /** One round of resending. */
  function SendPending(o: Out, id: PacketId, now: int, delay: nat, outcomes: Outcomes, from: nat)
      : (Out, PendingResult, seq<Bytes>)
  {
    if o.lastSend.None? then SendDone(o, id, outcomes(from))
    else if !Due(o, now, delay) then (o, Kept, [])
    else
      var size := Balance(o.batchSize, o.lastBatchAcks, o.lastBatchSize);
      var batch := Batch(o.queue, size);
      var sent := batch[..Accepted(outcomes, from, |batch|)];
      var filled := o.(batchSize := size, queue := Fill(o.queue, size));
      match SendBatch(batch, outcomes, from)
      case BatchFailed => (filled, SendError, sent)
      case BatchSent(count, complete) =>
        if count == 0 && complete then SendDone(filled, id, outcomes(from))
        else
          (filled.(missedAcks := o.missedAcks + SaturatingSub(o.lastBatchSize, o.lastBatchAcks),
                   lastBatchSize := count, lastBatchAcks := 0, lastSend := Some(now)),
           Kept, sent)
  }

  /** How many times a resend uses the socket. */
  function PendingAttempts(o: Out, now: int, delay: nat, outcomes: Outcomes, from: nat): nat {
    if o.lastSend.None? then 1
    else if !Due(o, now, delay) then 0
    else
      var batch := Batch(o.queue, Balance(o.batchSize, o.lastBatchAcks, o.lastBatchSize));
      if batch == [] then 1 else Attempts(outcomes, from, |batch|)
  }
}
