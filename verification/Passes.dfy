/** What the buffers of a connection do, seen from the protocol: an update is a run of
    resends, and a handled datagram is a step. */
module Passes {
  import opened Wire
  import opened Sockets
  import opened SendSpec
  import opened ReceiveSpec
  import opened BufferSpec
  import opened Counting
  import opened Protocol

  /** The outcomes that remain after some attempts. */
  function Remaining(outcomes: Outcomes, from: nat): Outcomes {
    (j: nat) => outcomes(from + j)
  }

  lemma {:induction false} AcceptedRemaining(outcomes: Outcomes, from: nat, at: nat, n: nat)
    ensures Accepted(Remaining(outcomes, from), at, n) == Accepted(outcomes, from + at, n)
    decreases n
  {
    if n != 0 && outcomes(from + at).Sent? {
      AcceptedRemaining(outcomes, from, at + 1, n - 1);
    }
  }

  /** A resend depends only on what remains of the outcomes. */
  lemma PendingRemaining(o: Out, id: PacketId, now: int, delay: nat, outcomes: Outcomes, from: nat)
    ensures SendPending(o, id, now, delay, Remaining(outcomes, from), 0) ==
            SendPending(o, id, now, delay, outcomes, from)
  {
    hide Batch, Fill, Accepted, Balance;
    var batch := Batch(o.queue, Balance(o.batchSize, o.lastBatchAcks, o.lastBatchSize));
    AcceptedRemaining(outcomes, from, 0, |batch|);
  }

  /** The resends of a pass, up to the first error. */
  function ResendsOf(s: Sweep, order: seq<PacketId>, now: int, delay: nat, outcomes: Outcomes): seq<Action>
    requires Sweepable(s.outgoing, order)
    decreases |order|
  {
    if order == [] || s.failed then []
    else
      SweepUnrolls(s, order, now, delay, outcomes);
      var s' := SweepOne(s, order[0], now, delay, outcomes);
      [Resend(order[0], now, delay, Remaining(outcomes, s.calls))] + ResendsOf(s', order[1..], now, delay, outcomes)
  }

  /** The world with the packets of the pass, and on the network what it has sent. */
  ghost predicate Shows(w: World, before: World, s: Sweep) {
    w == before.(outgoing := s.outgoing, net := before.net + SetOf(s.sent))
  }

  lemma ResendIsSweepOne(v: Variant, w: World, before: World, s: Sweep, id: PacketId, now: int, delay: nat,
                         outcomes: Outcomes)
    requires Shows(w, before, s) && !s.failed && id in s.outgoing
    ensures Shows(Apply(v, w, Resend(id, now, delay, Remaining(outcomes, s.calls))), before,
                  SweepOne(s, id, now, delay, outcomes))
  {
    hide SendSpec.SendPending, PendingAttempts;
    PendingRemaining(s.outgoing[id], id, now, delay, outcomes, s.calls);
    var sent := SendPending(s.outgoing[id], id, now, delay, outcomes, s.calls).2;
    assert SetOf(s.sent) + SetOf(sent) == SetOf(s.sent + sent);
  }

  lemma {:induction false} ResendsAreSweep(v: Variant, w: World, before: World, s: Sweep, order: seq<PacketId>,
                                           now: int, delay: nat, outcomes: Outcomes)
    requires Sweepable(s.outgoing, order) && Shows(w, before, s)
    ensures Shows(Run(v, w, ResendsOf(s, order, now, delay, outcomes)), before,
                  SweepAll(s, order, now, delay, outcomes))
    decreases |order|
  {
    hide SweepOne, Apply, Distinct;
    if order == [] {
    } else if s.failed {
      SweepAddsOnly(s, order, now, delay, outcomes);
    } else {
      var first := Resend(order[0], now, delay, Remaining(outcomes, s.calls));
      var s' := SweepOne(s, order[0], now, delay, outcomes);
      SweepUnrolls(s, order, now, delay, outcomes);
      ResendIsSweepOne(v, w, before, s, order[0], now, delay, outcomes);
      ResendsAreSweep(v, Apply(v, w, first), before, s', order[1..], now, delay, outcomes);
      assert ResendsOf(s, order, now, delay, outcomes)[1..] == ResendsOf(s', order[1..], now, delay, outcomes);
    }
  }

  /** The actions of an update at the sender: the timeout, if there is one, and the resends. */
  function UpdateOf(outgoing: Outgoing, order: seq<PacketId>, now: int, delay: nat, maxMissedAcks: Option<nat>,
                    outcomes: Outcomes, calls: nat): seq<Action>
    requires Sweepable(KeptOutgoing(outgoing, maxMissedAcks), order)
  {
    (if maxMissedAcks.Some? then [SenderTimeout(maxMissedAcks.value)] else [])
    + ResendsOf(Sweep(KeptOutgoing(outgoing, maxMissedAcks), 0, 0, false, calls, []), order, now, delay, outcomes)
  }

  /** An update is a run of the protocol: a pass over the packets that the timeout leaves
      has the same effect on the packets and puts the same datagrams on the network as the
      timeout followed by one resend for each packet up to the first error. So every law
      of runs holds for updates. */
  lemma UpdateIsRun(v: Variant, w: World, order: seq<PacketId>, now: int, delay: nat, maxMissedAcks: Option<nat>,
                    outcomes: Outcomes, calls: nat)
    requires Sweepable(KeptOutgoing(w.outgoing, maxMissedAcks), order)
    ensures var kept := KeptOutgoing(w.outgoing, maxMissedAcks);
            var after := SweepAll(Sweep(kept, 0, 0, false, calls, []), order, now, delay, outcomes);
            Run(v, w, UpdateOf(w.outgoing, order, now, delay, maxMissedAcks, outcomes, calls)) ==
            w.(outgoing := after.outgoing, net := w.net + SetOf(after.sent))
  {
    hide SweepAll, SweepOne, ResendsOf, Sweepable;
    var kept := KeptOutgoing(w.outgoing, maxMissedAcks);
    var s := Sweep(kept, 0, 0, false, calls, []);
    var resends := ResendsOf(s, order, now, delay, outcomes);
    var w1 := w.(outgoing := kept);
    assert w.net + SetOf([]) == w.net;
    ResendsAreSweep(v, w1, w, s, order, now, delay, outcomes);
    if maxMissedAcks.Some? {
      var timeout := SenderTimeout(maxMissedAcks.value);
      assert ([timeout] + resends)[1..] == resends;
      assert Apply(v, w, timeout) == w1;
    } else {
      assert [] + resends == resends;
    }
  }

  /** A datagram from the network that the two buffers of a party handle is the matching
      action: at the receiver with its answer on the network, or with a panic; at the
      sender with its packets changed. No datagram is both. */
  lemma HandleIsStep(v: Variant, w: World, d: Bytes, now: int, outcome: SendResult)
    requires d in w.net && d != [] && !w.crashed
    ensures var (incoming, handling, sent) := HandleIncoming(v.guard, w.incoming, d, now, outcome);
            var w' := Apply(v, w, ToReceiver(d, now, outcome));
            if handling == Some(HandledPart(PartOk(Panicked))) then w' == w.(crashed := true)
            else
              && w'.incoming == incoming && w'.net == w.net + SetOf(sent) && !w'.crashed
              && w'.outgoing == w.outgoing
    ensures Apply(v, w, ToSender(d)) == w.(outgoing := HandleOutgoing(v.ix, w.outgoing, d).0)
    ensures HandleIncoming(v.guard, w.incoming, d, now, outcome).1 == None ||
            HandleOutgoing(v.ix, w.outgoing, d).1 == None
  {
    hide BufferSpec.ReceivePart, AckOutgoing;
    ClaimedByOneSide(d);
    assert w.net + SetOf([]) == w.net;
  }
}
