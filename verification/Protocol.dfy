/** Two parties over a network that may lose, duplicate and reorder datagrams.

    A run is any list of actions. Everything ever sent stays in the network and may be
    delivered any number of times, in any order, or never. Actions that are not enabled
    change nothing. */
module Protocol {
  import opened Wire
  import opened Chunking
  import opened Serialize
  import opened Sockets
  import opened SendSpec
  import opened ReceiveSpec
  import opened BufferSpec
  import opened Counting

  /** A packet whose chunks have all arrived. The payload is handed over unless a hard
      error of the socket hits the ack of the last missing chunk. */
  datatype Completion = Completion(id: PacketId, payload: Bytes, handedOver: bool)

  /** The two parties, the network, and what is remembered of the run: the stream that was
      serialized under each id, the completions, the ids the receiver forgot, and the ids
      that were canceled or that the receiver timed out. */
  datatype World = World(
    outgoing: Outgoing,
    incoming: Incoming,
    crashed: bool,
    net: set<Bytes>,
    streams: map<PacketId, Bytes>,
    completed: seq<Completion>,
    forgotten: seq<set<PacketId>>,
    tainted: set<PacketId>)

  /** Which reading of the code a run follows: the lookup of acks, and the guard against
      late duplicates. */
  datatype Variant = Variant(ix: Indexing, guard: Guard)

  const START: World := World(map[], map[], false, {}, map[], [], [], {})

  datatype Action =
    | Send(id: PacketId, stream: Bytes, threshold: nat, batchSize: NonZeroBatchSize, now: int, outcomes: Outcomes)
    | Resend(id: PacketId, now: int, delay: nat, outcomes: Outcomes)
    | Cancel(id: PacketId)
    | SenderTimeout(maxMissedAcks: nat)
    | ToReceiver(datagram: Bytes, now: int, outcome: SendResult)
    | ToSender(datagram: Bytes)
    | ReceiverTimeout(now: int, timeout: nat)

  function ApplySend(w: World, a: Action): World
    requires a.Send? && a.id !in w.streams && Count(a.stream) <= U32_LIMIT
  {
    var (outgoing, ok, sent) :=
      StartOutgoing(w.outgoing, a.id, Serialized(a.id, a.threshold, a.stream), a.batchSize, a.now, a.outcomes, 0);
    w.(outgoing := outgoing, net := w.net + SetOf(sent), streams := w.streams[a.id := a.stream],
       tainted := if ok && outgoing[a.id].lastSend.None? then w.tainted + {a.id} else w.tainted)
  }

  function ApplyResend(w: World, a: Action): World
    requires a.Resend? && a.id in w.outgoing
  {
    var (o, result, sent) := SendPending(w.outgoing[a.id], a.id, a.now, a.delay, a.outcomes, 0);
    w.(outgoing := if result == Finished then w.outgoing - {a.id} else w.outgoing[a.id := o],
       net := w.net + SetOf(sent))
  }

  /** A part arrives. A panic ends the receiver; otherwise its answer is sent. */
  function ApplyPart(guard: Guard, w: World, last: bool, id: PacketId, index: U32, payload: Bytes, now: int,
                     outcome: SendResult): World
  {
    var (incoming, result, sent) := ReceivePart(guard, w.incoming, last, id, index, payload, now, outcome);
    var unhindered := ReceivePart(guard, w.incoming, last, id, index, payload, now, WouldBlock).1;
    if result == PartOk(Panicked) then w.(crashed := true)
    else
      w.(incoming := incoming, net := w.net + SetOf(sent),
         completed :=
           if unhindered.PartOk? && unhindered.result.Reassembled? then
             w.completed + [Completion(id, unhindered.result.payload, result == unhindered)]
           else w.completed)
  }

  function ApplyToReceiver(guard: Guard, w: World, a: Action): World
    requires a.ToReceiver? && a.datagram != []
  {
    match ViewForReceiver(a.datagram)
    case PartView(last, id, index, payload) => ApplyPart(guard, w, last, id, index, payload, a.now, a.outcome)
    case DoneView(id) =>
      w.(incoming := ForgetIncoming(w.incoming, id),
         forgotten := if id in w.incoming then w.forgotten + [{id}] else w.forgotten)
    case _ => w
  }

  function Apply(v: Variant, w: World, a: Action): World {
    match a
    case Send(id, stream, _, _, _, _) =>
      if id !in w.streams && Count(stream) <= U32_LIMIT then ApplySend(w, a) else w
    case Resend(id, _, _, _) => if id in w.outgoing then ApplyResend(w, a) else w
    case Cancel(id) =>
      if id in w.outgoing then
        w.(outgoing := w.outgoing[id := CancelOut(w.outgoing[id])], tainted := w.tainted + {id})
      else w
    case SenderTimeout(maxMissedAcks) => w.(outgoing := TimeoutOutgoing(w.outgoing, maxMissedAcks))
    case ToReceiver(datagram, _, _) =>
      if datagram in w.net && datagram != [] && !w.crashed then ApplyToReceiver(v.guard, w, a) else w
    case ToSender(datagram) =>
      if datagram in w.net && datagram != [] then
        w.(outgoing := HandleOutgoing(v.ix, w.outgoing, datagram).0)
      else w
    case ReceiverTimeout(now, timeout) =>
      if w.crashed then w
      else
        var kept := TimeoutIncoming(w.incoming, now, timeout);
        var gone := w.incoming.Keys - kept.Keys;
        w.(incoming := kept, forgotten := w.forgotten + [gone], tainted := w.tainted + gone)
  }

  function Run(v: Variant, w: World, actions: seq<Action>): World
    decreases |actions|
  {
    if actions == [] then w else Run(v, Apply(v, w, actions[0]), actions[1..])
  }

  lemma {:induction false} RunConcat(v: Variant, w: World, first: seq<Action>, second: seq<Action>)
    ensures Run(v, w, first + second) == Run(v, Run(v, w, first), second)
    decreases |first|
  {
    if first == [] {
      assert first + second == second;
    } else {
      assert (first + second)[1..] == first[1..] + second;
      RunConcat(v, Apply(v, w, first[0]), first[1..], second);
    }
  }
}
