/** The ping laws of a single connection, carried over to the table: in every run of the
    server they hold for every client from its acceptance on, whatever happens to others. */
module PingTable {
  import opened Wire
  import opened ServerSpec
  import opened ServerLaws
  import opened Pings

  /** The ping loop always uses the server's configuration. */
  ghost predicate PingedWith<B>(events: seq<Event<B>>, config: PingConfig) {
    forall i :: 0 <= i < |events| && events[i].PingsSent? ==> events[i].config == config
  }

  /** What an event means for the pings of the client with an address and a slot. */
  function OpsOf<B>(e: Event<B>, addr: Addr, slot: nat): seq<PingOp> {
    match e
    case PingsSent(_, now, ids, outcomes) => [Check(now, ids(slot), outcomes(slot))]
    case Arrived(from, PongDatagram(id), now) => if from == addr then [Answer(id, now)] else []
    case _ => []
  }

  function AllOps<B>(events: seq<Event<B>>, addr: Addr, slot: nat): seq<PingOp> {
    if events == [] then [] else OpsOf(events[0], addr, slot) + AllOps(events[1..], addr, slot)
  }

  lemma {:induction false} RunPingsConcat<B>(run: PingRun<B>, config: PingConfig, first: seq<PingOp>,
                                             second: seq<PingOp>)
    ensures RunPings(run, config, first + second) == RunPings(RunPings(run, config, first), config, second)
    decreases |second|
  {
    if second == [] {
      assert first + second == first;
    } else {
      var earlier := second[..|second| - 1];
      assert (first + second)[..|first + second| - 1] == first + earlier;
      RunPingsConcat(run, config, first, earlier);
    }
  }

  lemma RunPingsOnce<B>(run: PingRun<B>, config: PingConfig, op: PingOp)
    ensures RunPings(run, config, [op]) == StepPing(run, config, op)
  {
    assert [op][..0] == [];
  }

  /** The pings of a client do not depend on its buffers. */
  lemma SamePingsStep<B>(c: Client<B>, d: Client<B>, log: seq<PingEvent>, config: PingConfig, op: PingOp)
    requires SamePings(c, d)
    ensures var (r, s) := (StepPing(PingRun(Some(c), log), config, op), StepPing(PingRun(Some(d), log), config, op));
            && r.log == s.log && (r.client.Some? <==> s.client.Some?)
            && (r.client.Some? ==> SamePings(r.client.value, s.client.value))
  {
  }

  /** The client of an address, if it is connected, agrees with a run of pings. */
  ghost predicate Tracks<B>(run: PingRun<B>, t: Table<B>, addr: Addr) {
    Connected(t, addr) && run.client.Some? && SamePings(run.client.value, t.clients[SlotOf(t.clients, addr)].value)
  }

  lemma StepTracks<B>(t: Table<B>, e: Event<B>, addr: Addr, config: PingConfig, run: PingRun<B>)
    requires TableOk(t) && Tracks(run, t, addr) && Connected(Step(t, e), addr)
    requires e.PingsSent? ==> e.config == config
    ensures Tracks(RunPings(run, config, OpsOf(e, addr, SlotOf(t.clients, addr))), Step(t, e), addr)
  {
    hide TableOk, StepPing, HandleDatagram, SamePings;
    var slot := SlotOf(t.clients, addr);
    var c, d := run.client.value, t.clients[slot].value;
    SlotStays(t, e, addr);
    match e
    case Updated(update) => UpdateKeepsPings(t, update, slot, c);
    case PingsSent(_, now, ids, outcomes) =>
      var op := Check(now, ids(slot), outcomes(slot));
      RunPingsOnce(run, config, op);
      TableVisitIsCheck(t, config, now, ids, outcomes, slot, run.log);
      SamePingsStep(c, d, run.log, config, op);
    case Arrived(from, datagram, now) =>
      ArrivalIsAnswer(t, from, datagram, now, config, slot, run.log);
      FoundAt(t, addr, from);
      if datagram.PongDatagram? && from == addr {
        var op := Answer(datagram.id, now);
        RunPingsOnce(run, config, op);
        SamePingsStep(c, d, run.log, config, op);
      } else {
        SamePingsChain(c, d, Step(t, e).clients[slot].value);
      }
    case _ =>
  }

  lemma FoundAt<B>(t: Table<B>, addr: Addr, from: Addr)
    requires Connected(t, addr)
    ensures SlotOf(t.clients, from) == SlotOf(t.clients, addr) <==> from == addr
  {
  }

  lemma SamePingsChain<B>(a: Client<B>, b: Client<B>, c: Client<B>)
    requires SamePings(a, b) && SamePings(c, b)
    ensures SamePings(a, c)
  {
  }

  lemma UpdateKeepsPings<B>(t: Table<B>, update: Update<B>, i: nat, c: Client<B>)
    requires i < |t.clients| && t.clients[i].Some? && SamePings(c, t.clients[i].value)
    ensures var t' := UpdateBuffers(t, update);
            i < |t'.clients| && (t'.clients[i].Some? ==> SamePings(c, t'.clients[i].value))
  {
    hide UpdateBuffers;
    UpdateReachesEveryClient(t, update, i);
  }

  /** Over a whole run, as long as the client stays connected. */
  lemma {:induction false} RunTracks<B>(t: Table<B>, events: seq<Event<B>>, addr: Addr, config: PingConfig,
                                        run: PingRun<B>)
    requires TableOk(t) && Tracks(run, t, addr) && StaysConnected(t, events, addr) && PingedWith(events, config)
    ensures Tracks(RunPings(run, config, AllOps(events, addr, SlotOf(t.clients, addr))), Run(t, events), addr)
    decreases |events|
  {
    hide Step, TableOk, SlotOf, Tracks, StepPing, OpsOf, Connected;
    if events != [] {
      var slot := SlotOf(t.clients, addr);
      var t' := Step(t, events[0]);
      var ops := OpsOf(events[0], addr, slot);
      StepKeepsTable(t, events[0]);
      StaysAfterStep(t, events, addr);
      SlotStays(t, events[0], addr);
      StepTracks(t, events[0], addr, config, run);
      RunTracks(t', events[1..], addr, config, RunPings(run, config, ops));
      RunPingsConcat(run, config, ops, AllOps(events[1..], addr, slot));
    }
  }

  lemma StaysAfterStep<B>(t: Table<B>, events: seq<Event<B>>, addr: Addr)
    requires StaysConnected(t, events, addr) && events != []
    ensures Connected(t, addr) && Connected(Step(t, events[0]), addr)
  {
    hide Step, Connected;
  }

  /** Whoever was not connected and now is, is a new client. */
  lemma EntersFresh<B>(t: Table<B>, e: Event<B>, addr: Addr)
    requires TableOk(t) && !Connected(t, addr) && Connected(Step(t, e), addr)
    ensures var t' := Step(t, e);
            var client := t'.clients[SlotOf(t'.clients, addr)].value;
            e.Arrived? && e.addr == addr && client == NewClient(addr, client.buffers)
  {
    hide Answered, Seated;
    var t' := Step(t, e);
    var slot := SlotOf(t'.clients, addr);
    match e
    case Updated(update) => UpdateKeepsOrClears(t, update);
    case PingsSent(config, now, ids, outcomes) => PingsKeepOrClear(t, config, now, ids, outcomes);
    case Arrived(from, datagram, now) =>
      if from == addr && addr in t.listeners && datagram.BufferDatagram? {
        AcceptedExactly(t, addr, datagram, now);
      } else {
        OthersEnterNot(t, from, datagram, now, addr);
      }
    case _ =>
  }

  lemma OthersEnterNot<B>(t: Table<B>, from: Addr, d: Datagram<B>, now: int, addr: Addr)
    requires !Connected(t, addr) && !(from == addr && addr in t.listeners && d.BufferDatagram?)
    ensures !Connected(HandleDatagram(t, from, d, now), addr)
  {
    hide Answered, Seated;
    if SlotOf(t.clients, from) == |t.clients| && from in t.listeners && d.BufferDatagram? {
      SeatedAtLowestFree(t.clients, NewClient(from, Answered(d, t.listeners[from], false).0));
    }
  }

  function AfterAccept<B>(before: seq<Event<B>>, accept: Event<B>): Table<B> {
    Step(Run(Table(map[], []), before), accept)
  }

  /** A run of the server in which a client is accepted by one event and stays connected to
      the end. */
  ghost predicate Stays<B>(before: seq<Event<B>>, accept: Event<B>, after: seq<Event<B>>, addr: Addr,
                           config: PingConfig)
  {
    && !Connected(Run(Table(map[], []), before), addr)
    && StaysConnected(AfterAccept(before, accept), after, addr) && PingedWith(after, config)
  }

  function EndOf<B>(before: seq<Event<B>>, accept: Event<B>, after: seq<Event<B>>): Table<B> {
    Run(AfterAccept(before, accept), after)
  }

  /** The ping history of the client since its acceptance. */
  function HistoryOf<B>(before: seq<Event<B>>, accept: Event<B>, after: seq<Event<B>>, addr: Addr): seq<PingOp> {
    AllOps(after, addr, SlotOf(AfterAccept(before, accept).clients, addr))
  }

  /** What happened to its pings, with the new client's buffers of no account. */
  function PingsOf<B>(before: seq<Event<B>>, accept: Event<B>, after: seq<Event<B>>, addr: Addr, config: PingConfig)
      : PingRun<B>
    requires Connected(AfterAccept(before, accept), addr)
  {
    var t := AfterAccept(before, accept);
    RunPings(Joined(addr, t.clients[SlotOf(t.clients, addr)].value.buffers), config,
             HistoryOf(before, accept, after, addr))
  }

  lemma HistoryTracks<B>(before: seq<Event<B>>, accept: Event<B>, after: seq<Event<B>>, addr: Addr,
                         config: PingConfig)
    requires Stays(before, accept, after, addr, config)
    ensures Connected(AfterAccept(before, accept), addr)
    ensures Tracks(PingsOf(before, accept, after, addr, config), EndOf(before, accept, after), addr)
  {
    hide Step, TableOk, SlotOf, StepPing, RunPings, Run;
    var t := Run(Table(map[], []), before);
    var t' := Step(t, accept);
    EveryRunKeepsTable(before);
    StepKeepsTable(t, accept);
    EntersFresh(t, accept, addr);
    RunTracks(t', after, addr, config, Joined(addr, t'.clients[SlotOf(t'.clients, addr)].value.buffers));
  }

  /** In every run of the server, for every client from its acceptance on, `missed_pongs` is
      the number of pings that went out to it and expired unanswered since its last valid
      answer or its acceptance. */
  lemma MissedPongsInTable<B>(before: seq<Event<B>>, accept: Event<B>, after: seq<Event<B>>, addr: Addr,
                              config: PingConfig)
    requires Stays(before, accept, after, addr, config)
    ensures var t := EndOf(before, accept, after);
            && Connected(AfterAccept(before, accept), addr) && Connected(t, addr)
            && t.clients[SlotOf(t.clients, addr)].value.missedPongs ==
               |MissedSet(PingsOf(before, accept, after, addr, config).log)|
  {
    hide RunPings, EndOf, HistoryOf, SlotOf, AfterAccept, MissedSet;
    HistoryTracks(before, accept, after, addr, config);
    var t := AfterAccept(before, accept);
    MissedPongsIsExact(addr, t.clients[SlotOf(t.clients, addr)].value.buffers, config,
                       HistoryOf(before, accept, after, addr));
  }

  /** In every run of the server, no client is timed out for missed pongs earlier than
      `(max_missed_pongs + 1)` delays after its last valid answer or its acceptance. */
  lemma NoEarlyTimeoutInTable<B>(before: seq<Event<B>>, accept: Event<B>, after: seq<Event<B>>, addr: Addr,
                                 config: PingConfig, accepted: int, now: int)
    requires Stays(before, accept, after, addr, config)
    requires var ops := HistoryOf(before, accept, after, addr);
             Ordered(accepted, ops) && accepted <= now && forall i :: 0 <= i < |ops| ==> ops[i].now <= now
    requires var t := EndOf(before, accept, after);
             Connected(t, addr) && TimesOut(t.clients[SlotOf(t.clients, addr)].value, config, now)
    ensures Connected(AfterAccept(before, accept), addr)
    ensures LastReset(PingsOf(before, accept, after, addr, config).log, accepted)
            + Times(config.maxMissed.value + 1, config.delay) <= now
  {
    hide RunPings, EndOf, HistoryOf, SlotOf, LastReset, Times, AfterAccept;
    HistoryTracks(before, accept, after, addr, config);
    var t := AfterAccept(before, accept);
    NoEarlyTimeout(addr, t.clients[SlotOf(t.clients, addr)].value.buffers, config,
                   HistoryOf(before, accept, after, addr), accepted, now);
  }
}
