/** The connection table over all runs: who is where, what happens to buffers, and which
    slot a client has. */
module ServerLaws {
  import opened Wire
  import opened Sockets
  import opened ServerSpec

  datatype Event<!B> =
    | UnlistenOne(addr: Addr)
    | UnlistenAll
    | Updated(update: Update<B>)
    | VersionRequested(addr: Addr, newBuffers: B, outcome: SendResult)
    | Arrived(addr: Addr, datagram: Datagram<B>, now: int)
    | PingsSent(config: PingConfig, now: int, ids: nat -> PingId, outcomes: Outcomes)

  function Step<B>(t: Table<B>, e: Event<B>): Table<B> {
    match e
    case UnlistenOne(addr) => Unlisten(t, addr).0
    case UnlistenAll => t.(listeners := map[])
    case Updated(update) => UpdateBuffers(t, update)
    case VersionRequested(addr, newBuffers, outcome) => VersionRequest(t, addr, newBuffers, outcome)
    case Arrived(addr, datagram, now) => HandleDatagram(t, addr, datagram, now)
    case PingsSent(config, now, ids, outcomes) => SendPings(t, config, now, ids, outcomes)
  }

  function Run<B>(t: Table<B>, events: seq<Event<B>>): Table<B>
    decreases |events|
  {
    if events == [] then t else Run(Step(t, events[0]), events[1..])
  }

  /** No address has two slots, and no connected client is a listener as well. */
  ghost predicate TableOk<B>(t: Table<B>) {
    && (forall i, j :: 0 <= i < j < |t.clients| && t.clients[i].Some? && t.clients[j].Some? ==>
          t.clients[i].value.addr != t.clients[j].value.addr)
    && (forall i :: 0 <= i < |t.clients| && t.clients[i].Some? ==> t.clients[i].value.addr !in t.listeners)
  }

  /** In a table without repetition a client's slot is the one that `SlotOf` finds. */
  lemma SlotIsUnique<B>(t: Table<B>, i: nat)
    requires TableOk(t) && i < |t.clients| && t.clients[i].Some?
    ensures SlotOf(t.clients, t.clients[i].value.addr) == i
  {
  }

  /** Slots are kept in place or cleared, never moved. */
  ghost predicate KeptOrCleared<B>(before: seq<Option<Client<B>>>, after: seq<Option<Client<B>>>) {
    && |after| <= |before|
    && forall i :: 0 <= i < |after| && after[i].Some? ==> before[i].Some? && after[i].value.addr == before[i].value.addr
  }

  lemma UpdateKeepsOrClears<B>(t: Table<B>, update: Update<B>)
    ensures KeptOrCleared(t.clients, UpdateBuffers(t, update).clients)
  {
  }

  lemma PingsKeepOrClear<B>(t: Table<B>, config: PingConfig, now: int, ids: nat -> PingId, outcomes: Outcomes)
    ensures KeptOrCleared(t.clients, SendPings(t, config, now, ids, outcomes).clients)
  {
    var after := SendPings(t, config, now, ids, outcomes).clients;
    forall i | 0 <= i < |after| && after[i].Some?
      ensures t.clients[i].Some? && after[i].value.addr == t.clients[i].value.addr
    {
      assert after[i] == PingSlot(t.clients[i], config, now, ids(i), outcomes(i));
    }
  }

  /** A client enters at the lowest free slot; every other slot stays as it is. */
  lemma SeatedAtLowestFree<B>(clients: seq<Option<Client<B>>>, client: Client<B>)
    ensures var seated, slot := Seated(clients, client), FreeSlot(clients);
            && slot < |seated| && seated[slot] == Some(client)
            && |clients| <= |seated| <= |clients| + 1
            && (forall i :: 0 <= i < |seated| && i != slot ==> i < |clients| && seated[i] == clients[i])
            && (slot < |clients| ==> clients[slot].None?)
  {
  }

  lemma StepKeepsTable<B>(t: Table<B>, e: Event<B>)
    requires TableOk(t)
    ensures TableOk(Step(t, e))
  {
    match e
    case Updated(update) =>
      hide UpdateBuffers;
      UpdateKeepsOrClears(t, update);
      assert UpdateBuffers(t, update).listeners == t.listeners by { UpdateLeavesListeners(t, update); }
    case PingsSent(config, now, ids, outcomes) => PingsKeepOrClear(t, config, now, ids, outcomes);
    case Arrived(addr, datagram, now) => ArrivalKeepsTable(t, addr, datagram, now);
    case _ =>
  }

  lemma UpdateLeavesListeners<B>(t: Table<B>, update: Update<B>)
    ensures UpdateBuffers(t, update).listeners == t.listeners
  {
  }

  lemma ArrivalKeepsTable<B>(t: Table<B>, addr: Addr, d: Datagram<B>, now: int)
    requires TableOk(t)
    ensures TableOk(HandleDatagram(t, addr, d, now))
  {
    hide TableOk, HandleListener, HandleConnected;
    var slot := SlotOf(t.clients, addr);
    if slot < |t.clients| {
      ConnectedKeepsTable(t, slot, d, now);
    } else if addr in t.listeners {
      ListenerKeepsTable(t, addr, d);
    }
  }

  lemma ConnectedKeepsTable<B>(t: Table<B>, slot: nat, d: Datagram<B>, now: int)
    requires TableOk(t) && slot < |t.clients| && t.clients[slot].Some?
    ensures TableOk(HandleConnected(t, slot, d, now))
  {
    hide Answered;
  }

  lemma ListenerKeepsTable<B>(t: Table<B>, addr: Addr, d: Datagram<B>)
    requires TableOk(t) && addr in t.listeners && !Connected(t, addr)
    ensures TableOk(HandleListener(t, addr, d))
  {
    hide Answered, Seated;
    if d.BufferDatagram? {
      SeatedAtLowestFree(t.clients, NewClient(addr, Answered(d, t.listeners[addr], false).0));
    }
  }

  lemma {:induction false} RunKeepsTable<B>(t: Table<B>, events: seq<Event<B>>)
    requires TableOk(t)
    ensures TableOk(Run(t, events))
    decreases |events|
  {
    hide Step, TableOk;
    if events != [] {
      StepKeepsTable(t, events[0]);
      RunKeepsTable(Step(t, events[0]), events[1..]);
    }
  }

  /** In every run from the empty table, listeners and connected clients are disjoint and
      no address holds two slots. */
  lemma EveryRunKeepsTable<B>(events: seq<Event<B>>)
    ensures TableOk(Run(Table(map[], []), events))
  {
    RunKeepsTable(Table(map[], []), events);
  }

  // ----- Slots -----

  /** A client that is connected before and after a step has the same slot. */
  lemma SlotStays<B>(t: Table<B>, e: Event<B>, addr: Addr)
    requires TableOk(t) && Connected(t, addr) && Connected(Step(t, e), addr)
    ensures SlotOf(Step(t, e).clients, addr) == SlotOf(t.clients, addr)
  {
    var t' := Step(t, e);
    StepKeepsTable(t, e);
    var after := SlotOf(t'.clients, addr);
    match e
    case Updated(update) =>
      UpdateKeepsOrClears(t, update);
      SlotIsUnique(t, after);
    case PingsSent(config, now, ids, outcomes) =>
      PingsKeepOrClear(t, config, now, ids, outcomes);
      SlotIsUnique(t, after);
    case Arrived(from, datagram, now) => ArrivalKeepsSlots(t, from, datagram, now, addr);
    case _ =>
  }

  lemma ArrivalKeepsSlots<B>(t: Table<B>, from: Addr, d: Datagram<B>, now: int, addr: Addr)
    requires TableOk(t) && Connected(t, addr) && Connected(HandleDatagram(t, from, d, now), addr)
    ensures SlotOf(HandleDatagram(t, from, d, now).clients, addr) == SlotOf(t.clients, addr)
  {
    hide Answered, Seated;
    var t' := HandleDatagram(t, from, d, now);
    var before, after := SlotOf(t.clients, addr), SlotOf(t'.clients, addr);
    if SlotOf(t.clients, from) == |t.clients| && from in t.listeners && d.BufferDatagram? {
      SeatedAtLowestFree(t.clients, NewClient(from, Answered(d, t.listeners[from], false).0));
      assert addr != from;
    }
    assert after < |t.clients| && t.clients[after].Some? && t.clients[after].value.addr == addr;
    SlotIsUnique(t, after);
  }

  /** Connected after every step of a run. */
  ghost predicate StaysConnected<B>(t: Table<B>, events: seq<Event<B>>, addr: Addr)
    decreases |events|
  {
    Connected(t, addr) && (events == [] || StaysConnected(Step(t, events[0]), events[1..], addr))
  }

  /** A client keeps its slot for as long as it stays connected, whatever happens to the
      others, to free slots and to the end of the table. */
  lemma {:induction false} SlotStaysThroughRun<B>(t: Table<B>, events: seq<Event<B>>, addr: Addr)
    requires TableOk(t) && StaysConnected(t, events, addr)
    ensures Connected(Run(t, events), addr)
    ensures SlotOf(Run(t, events).clients, addr) == SlotOf(t.clients, addr)
    decreases |events|
  {
    hide Step, TableOk, SlotOf;
    if events != [] {
      StepKeepsTable(t, events[0]);
      SlotStays(t, events[0], addr);
      SlotStaysThroughRun(Step(t, events[0]), events[1..], addr);
    }
  }

  /** The only ways out of a slot: a hard error of the client's own update or ping, too many
      missed pongs, or a datagram of the client itself, which makes it a listener again. */
  ghost predicate ClearedBy<B>(t: Table<B>, e: Event<B>, addr: Addr)
    requires Connected(t, addr)
  {
    var slot := SlotOf(t.clients, addr);
    var client := t.clients[slot].value;
    match e
    case Updated(update) => !update(slot, client.buffers).1
    case PingsSent(config, now, ids, outcomes) => PingClient(client, config, now, ids(slot), outcomes(slot)) == None
    case Arrived(from, datagram, now) =>
      from == addr && datagram.BufferDatagram? && addr in HandleDatagram(t, from, datagram, now).listeners
    case _ => false
  }

  lemma ClearedOnlyByItsOwn<B>(t: Table<B>, e: Event<B>, addr: Addr)
    requires TableOk(t) && Connected(t, addr) && !Connected(Step(t, e), addr)
    ensures ClearedBy(t, e, addr)
  {
    hide Answered, Seated;
    var slot, t' := SlotOf(t.clients, addr), Step(t, e);
    assert slot < |t'.clients| ==> t'.clients[slot].None? || t'.clients[slot].value.addr != addr;
    match e
    case Updated(update) =>
      assert slot < UsedSlots(t.clients);
      assert t'.clients[slot] == UpdatedSlot(t.clients[slot], slot, update);
    case PingsSent(config, now, ids, outcomes) =>
      assert t'.clients[slot] == PingSlot(t.clients[slot], config, now, ids(slot), outcomes(slot));
    case Arrived(from, datagram, now) => ArrivalClearsSender(t, from, datagram, now, addr);
    case _ =>
  }

  lemma ArrivalClearsSender<B>(t: Table<B>, from: Addr, d: Datagram<B>, now: int, addr: Addr)
    requires Connected(t, addr) && !Connected(HandleDatagram(t, from, d, now), addr)
    ensures from == addr && d.BufferDatagram? && addr in HandleDatagram(t, from, d, now).listeners
  {
    hide Answered, Seated;
    var slot, t' := SlotOf(t.clients, addr), HandleDatagram(t, from, d, now);
    assert slot < |t'.clients| ==> t'.clients[slot].None? || t'.clients[slot].value.addr != addr;
    if SlotOf(t.clients, from) == |t.clients| && from in t.listeners && d.BufferDatagram? {
      SeatedAtLowestFree(t.clients, NewClient(from, Answered(d, t.listeners[from], false).0));
    }
  }

  /** A listener leaves only by being unlistened or by being accepted as a client.

      The table has no clock for listeners, since the code keeps none: that the documented
      `listener_timeout` is never applied restates this reading of the source. */
  lemma ListenerLeavesOnly<B>(t: Table<B>, e: Event<B>, addr: Addr)
    requires TableOk(t) && addr in t.listeners && addr !in Step(t, e).listeners
    ensures e == UnlistenOne(addr) || e.UnlistenAll? || (e.Arrived? && e.addr == addr && Connected(Step(t, e), addr))
  {
    hide Answered, Seated;
    match e
    case Updated(update) => UpdateLeavesListeners(t, update);
    case Arrived(from, datagram, now) =>
      if SlotOf(t.clients, from) == |t.clients| && from in t.listeners && datagram.BufferDatagram? {
        SeatedAtLowestFree(t.clients, NewClient(from, Answered(datagram, t.listeners[from], false).0));
      }
    case _ =>
  }

  /** A connected client is disconnected by its datagram exactly if that asks to connect or
      to disconnect, or is a query whose answer hits a hard error. */
  lemma DisconnectedExactly<B>(t: Table<B>, addr: Addr, d: Datagram<B>, now: int)
    requires TableOk(t) && Connected(t, addr) && d.BufferDatagram?
    ensures var (buffers, request, ok) := Answered(d, t.clients[SlotOf(t.clients, addr)].value.buffers, true);
            var t' := HandleDatagram(t, addr, d, now);
            && (Connected(t', addr) <==> !(request.Connect? || request == Disconnect || (request == Query && !ok)))
            && (addr in t'.listeners <==> !Connected(t', addr))
  {
    hide Answered;
    var slot, t' := SlotOf(t.clients, addr), HandleDatagram(t, addr, d, now);
    ArrivalKeepsTable(t, addr, d, now);
    if t'.clients[slot].Some? {
      SlotIsUnique(t', slot);
    } else {
      forall i | 0 <= i < |t'.clients| && t'.clients[i].Some?
        ensures t'.clients[i].value.addr != addr
      {
        SlotIsUnique(t, i);
      }
    }
  }

  /** What a datagram of a listener does, from what its buffers make of it and of the answer.
      A query and every connect, accepted or rejected, are answered; nothing else is. Only
      an accepted connect whose answer went out makes it a client. */
  lemma ListenerIsAnswered<B>(t: Table<B>, addr: Addr, d: Datagram<B>, now: int)
    requires TableOk(t) && addr in t.listeners && !Connected(t, addr) && d.BufferDatagram?
    ensures var (handled, request) := d.handle(t.listeners[addr]);
            var (answered, ok) := d.send(handled);
            var t' := HandleDatagram(t, addr, d, now);
            if request == Connect(true) && ok then
              && addr !in t'.listeners && Connected(t', addr)
              && t'.clients[SlotOf(t'.clients, addr)] == Some(Client(addr, answered, None, None, 0))
            else if request == Query || request.Connect? then
              t' == t.(listeners := t.listeners[addr := answered])
            else
              t' == t.(listeners := t.listeners[addr := handled])
  {
    AcceptedExactly(t, addr, d, now);
  }

  /** What a datagram of a client does. Only a query is answered. A connect, a disconnect
      and a query whose answer fails make it a listener again, with its buffers. */
  lemma ClientIsAnswered<B>(t: Table<B>, addr: Addr, d: Datagram<B>, now: int)
    requires TableOk(t) && Connected(t, addr) && d.BufferDatagram?
    ensures var slot := SlotOf(t.clients, addr);
            var (handled, request) := d.handle(t.clients[slot].value.buffers);
            var (answered, ok) := d.send(handled);
            var t' := HandleDatagram(t, addr, d, now);
            var buffers := if request == Query then answered else handled;
            if request.Connect? || request == Disconnect || (request == Query && !ok) then
              t' == Table(t.listeners[addr := buffers], t.clients[slot := None])
            else
              t' == t.(clients := t.clients[slot := Some(t.clients[slot].value.(buffers := buffers))])
  {
  }

  /** A ping answer of a client counts exactly if it names the ping on its way: it is then
      the last one, at this time, and nothing is missed. One of anybody else does nothing. */
  lemma PongExactly<B>(t: Table<B>, addr: Addr, id: Option<PingId>, now: int)
    ensures var t' := HandleDatagram(t, addr, PongDatagram(id), now);
            var slot := SlotOf(t.clients, addr);
            if slot < |t.clients| && t.clients[slot].value.activePing.Some?
               && id == Some(t.clients[slot].value.activePing.value.id) then
              var counted := t.clients[slot].value.(lastPong := Some(now), missedPongs := 0);
              t' == t.(clients := t.clients[slot := Some(counted)])
            else t' == t
  {
    var slot := SlotOf(t.clients, addr);
    assert slot < |t.clients| ==> t.clients[slot := t.clients[slot]] == t.clients;
  }

  /** Unlistening removes a listener; a connected client is refused exactly if it is no
      listener, and any other address is reported as not listening. */
  lemma UnlistenExactly<B>(t: Table<B>, addr: Addr)
    ensures var (t', result) := Unlisten(t, addr);
            && (result == Unlistened <==> addr in t.listeners)
            && (result == StillConnected <==>
                  addr !in t.listeners
                  && exists i :: 0 <= i < |t.clients| && t.clients[i].Some? && t.clients[i].value.addr == addr)
            && t'.clients == t.clients && addr !in t'.listeners && t'.listeners == t.listeners - {addr}
  {
    assert addr !in t.listeners ==> t.listeners - {addr} == t.listeners;
  }

  /** A listener becomes a client exactly if its connect is accepted and the acceptance can
      be sent; it then takes the lowest free slot, with a fresh ping state. */
  lemma AcceptedExactly<B>(t: Table<B>, addr: Addr, d: Datagram<B>, now: int)
    requires TableOk(t) && addr in t.listeners && !Connected(t, addr) && d.BufferDatagram?
    ensures var (buffers, request, ok) := Answered(d, t.listeners[addr], false);
            var t' := HandleDatagram(t, addr, d, now);
            && (Connected(t', addr) <==> request == Connect(true) && ok)
            && (addr in t'.listeners <==> !Connected(t', addr))
            && (Connected(t', addr) ==>
                  && SlotOf(t'.clients, addr) == FreeSlot(t.clients)
                  && t'.clients[FreeSlot(t.clients)] == Some(NewClient(addr, buffers)))
  {
    hide Answered, Seated;
    SeatedAtLowestFree(t.clients, NewClient(addr, Answered(d, t.listeners[addr], false).0));
    ArrivalKeepsTable(t, addr, d, now);
    var t' := HandleDatagram(t, addr, d, now);
    if addr !in t'.listeners {
      SlotIsUnique(t', FreeSlot(t.clients));
    }
  }

  /** After a version request an address that is not connected is a listener exactly if it
      was one or the answer went out. */
  lemma ListensExactly<B>(t: Table<B>, addr: Addr, newBuffers: B, outcome: SendResult)
    requires TableOk(t)
    ensures addr in VersionRequest(t, addr, newBuffers, outcome).listeners <==>
            addr in t.listeners || (outcome == Sent && !Connected(t, addr))
    ensures addr in t.listeners ==> VersionRequest(t, addr, newBuffers, outcome) == t
  {
  }

  /** An update reaches every client in place: it stays with its updated buffers unless its
      own update fails, and only unused slots at the end are dropped. */
  lemma UpdateReachesEveryClient<B>(t: Table<B>, update: Update<B>, i: nat)
    requires i < |t.clients| && t.clients[i].Some?
    ensures var t' := UpdateBuffers(t, update);
            var (buffers, ok) := update(i, t.clients[i].value.buffers);
            && i < |t'.clients|
            && t'.clients[i] == (if ok then Some(t.clients[i].value.(buffers := buffers)) else None)
            && (forall j :: |t'.clients| <= j < |t.clients| ==> t.clients[j].None?)
            && t.clients[|t'.clients| - 1].Some?
  {
    assert UpdatedSlots(t.clients, update)[i] == UpdatedSlot(t.clients[i], i, update);
  }

  // ----- Buffers -----

  /** The buffers of an address, wherever they are. */
  function BuffersOf<B>(t: Table<B>, addr: Addr): Option<B> {
    var slot := SlotOf(t.clients, addr);
    if slot < |t.clients| then Some(t.clients[slot].value.buffers)
    else if addr in t.listeners then Some(t.listeners[addr])
    else None
  }

  /** A client in a known slot of a sound table. */
  lemma BuffersAtSlot<B>(t: Table<B>, i: nat)
    requires TableOk(t) && i < |t.clients| && t.clients[i].Some?
    ensures BuffersOf(t, t.clients[i].value.addr) == Some(t.clients[i].value.buffers)
  {
    SlotIsUnique(t, i);
  }

  lemma NotInAnySlot<B>(t: Table<B>, addr: Addr)
    requires forall i :: 0 <= i < |t.clients| && t.clients[i].Some? ==> t.clients[i].value.addr != addr
    ensures BuffersOf(t, addr) == if addr in t.listeners then Some(t.listeners[addr]) else None
  {
  }

  /** A datagram changes no buffers but those of its sender, and those only by handling it
      and sending the answer, whether the client moves between the tables or not. */
  lemma ArrivalMovesBuffersIntact<B>(t: Table<B>, from: Addr, d: Datagram<B>, now: int)
    requires TableOk(t)
    ensures var t' := HandleDatagram(t, from, d, now);
            && BuffersOf(t', from) == (match BuffersOf(t, from)
                                       case None => None
                                       case Some(buffers) =>
                                         if d.PongDatagram? then Some(buffers)
                                         else Some(Answered(d, buffers, Connected(t, from)).0))
            && (forall other :: other != from ==> BuffersOf(t', other) == BuffersOf(t, other))
  {
    hide Answered, Seated, BuffersOf;
    var t' := HandleDatagram(t, from, d, now);
    ArrivalKeepsTable(t, from, d, now);
    var slot := SlotOf(t.clients, from);
    if slot < |t.clients| {
      BuffersAtSlot(t, slot);
      if t'.clients[slot].Some? {
        BuffersAtSlot(t', slot);
      } else {
        assert forall i :: 0 <= i < |t'.clients| && t'.clients[i].Some? ==> t'.clients[i].value.addr != from by {
          forall i | 0 <= i < |t'.clients| && t'.clients[i].Some?
            ensures t'.clients[i].value.addr != from
          {
            SlotIsUnique(t, i);
          }
        }
        NotInAnySlot(t', from);
      }
      forall other | other != from
        ensures BuffersOf(t', other) == BuffersOf(t, other)
      {
        OtherStays(t, t', other);
      }
    } else {
      NotInAnySlot(t, from);
      if from in t.listeners && d.BufferDatagram? {
        SeatedAtLowestFree(t.clients, NewClient(from, Answered(d, t.listeners[from], false).0));
        if from in t'.listeners {
          NotInAnySlot(t', from);
        } else {
          BuffersAtSlot(t', FreeSlot(t.clients));
        }
      }
      forall other | other != from
        ensures BuffersOf(t', other) == BuffersOf(t, other)
      {
        OtherStays(t, t', other);
      }
    }
  }

  /** An address whose slot and listener entry are the same has the same buffers. */
  lemma OtherStays<B>(t: Table<B>, t': Table<B>, other: Addr)
    requires TableOk(t) && TableOk(t')
    requires forall i :: 0 <= i < |t.clients| && t.clients[i].Some? && t.clients[i].value.addr == other ==>
               i < |t'.clients| && t'.clients[i] == t.clients[i]
    requires forall i :: 0 <= i < |t'.clients| && t'.clients[i].Some? && t'.clients[i].value.addr == other ==>
               i < |t.clients| && t'.clients[i] == t.clients[i]
    requires (other in t'.listeners <==> other in t.listeners)
    requires other in t.listeners ==> t'.listeners[other] == t.listeners[other]
    ensures BuffersOf(t', other) == BuffersOf(t, other)
  {
    var slot := SlotOf(t.clients, other);
    if slot < |t.clients| {
      BuffersAtSlot(t, slot);
      BuffersAtSlot(t', slot);
    }
  }

  /** The buffers of an address after an event, from those before it. */
  ghost predicate BuffersMove<B>(t: Table<B>, e: Event<B>, addr: Addr, before: Option<B>, after: Option<B>) {
    var slot := SlotOf(t.clients, addr);
    var connected := slot < |t.clients|;
    match e
    case UnlistenOne(from) => after == if from == addr && !connected then None else before
    case UnlistenAll => after == if connected then before else None
    case Updated(update) =>
      if connected && before.Some? then
        var (buffers, ok) := update(slot, before.value);
        after == if ok then Some(buffers) else None
      else after == before
    case VersionRequested(from, newBuffers, outcome) =>
      after == if from == addr && before == None && outcome == Sent then Some(newBuffers) else before
    case Arrived(from, datagram, _) =>
      if from == addr && datagram.BufferDatagram? && before.Some? then
        after == Some(Answered(datagram, before.value, connected).0)
      else after == before
    case PingsSent(config, now, ids, outcomes) =>
      after ==
      if connected && PingClient(t.clients[slot].value, config, now, ids(slot), outcomes(slot)) == None then None
      else before
  }

  /** An address without a slot before and after has the buffers of its listener. */
  lemma ListenerBuffers<B>(t: Table<B>, t': Table<B>, addr: Addr)
    requires !Connected(t, addr) && KeptOrCleared(t.clients, t'.clients)
    ensures BuffersOf(t, addr) == if addr in t.listeners then Some(t.listeners[addr]) else None
    ensures BuffersOf(t', addr) == if addr in t'.listeners then Some(t'.listeners[addr]) else None
  {
    NotInAnySlot(t, addr);
    NotInAnySlot(t', addr);
  }

  /** A client whose slot is kept or cleared. */
  lemma ClientBuffers<B>(t: Table<B>, t': Table<B>, addr: Addr)
    requires TableOk(t) && TableOk(t') && Connected(t, addr) && KeptOrCleared(t.clients, t'.clients)
    requires SlotOf(t.clients, addr) < |t'.clients| && t'.listeners == t.listeners
    ensures var slot := SlotOf(t.clients, addr);
            && BuffersOf(t, addr) == Some(t.clients[slot].value.buffers)
            && BuffersOf(t', addr) ==
               match t'.clients[slot]
               case None => None
               case Some(client) => Some(client.buffers)
  {
    var slot := SlotOf(t.clients, addr);
    BuffersAtSlot(t, slot);
    if t'.clients[slot].Some? {
      BuffersAtSlot(t', slot);
    } else {
      forall i | 0 <= i < |t'.clients| && t'.clients[i].Some?
        ensures t'.clients[i].value.addr != addr
      {
        SlotIsUnique(t, i);
      }
      NotInAnySlot(t', addr);
    }
  }

  lemma UpdateMovesBuffers<B>(t: Table<B>, update: Update<B>, addr: Addr)
    requires TableOk(t)
    ensures BuffersMove(t, Updated(update), addr, BuffersOf(t, addr), BuffersOf(UpdateBuffers(t, update), addr))
  {
    hide UpdateBuffers, BuffersOf;
    var t' := UpdateBuffers(t, update);
    StepKeepsTable(t, Updated(update));
    UpdateKeepsOrClears(t, update);
    UpdateLeavesListeners(t, update);
    if Connected(t, addr) {
      UpdateReachesEveryClient(t, update, SlotOf(t.clients, addr));
      ClientBuffers(t, t', addr);
    } else {
      ListenerBuffers(t, t', addr);
    }
  }

  lemma PingsMoveBuffers<B>(t: Table<B>, e: Event<B>, addr: Addr)
    requires TableOk(t) && e.PingsSent?
    ensures BuffersMove(t, e, addr, BuffersOf(t, addr), BuffersOf(Step(t, e), addr))
  {
    hide BuffersOf, PingClient, TableOk;
    var t' := SendPings(t, e.config, e.now, e.ids, e.outcomes);
    StepKeepsTable(t, e);
    PingsKeepOrClear(t, e.config, e.now, e.ids, e.outcomes);
    var slot := SlotOf(t.clients, addr);
    if slot < |t.clients| {
      ClientBuffers(t, t', addr);
      PingsKeepBuffers(t.clients[slot].value, e.config, e.now, e.ids(slot), e.outcomes(slot));
      assert t'.clients[slot] == PingSlot(t.clients[slot], e.config, e.now, e.ids(slot), e.outcomes(slot));
    } else {
      ListenerBuffers(t, t', addr);
    }
  }

  lemma PingsKeepBuffers<B>(c: Client<B>, config: PingConfig, now: int, id: PingId, outcome: SendResult)
    ensures var client := PingClient(c, config, now, id, outcome);
            client.Some? ==> client.value.buffers == c.buffers
  {
  }

  /** Buffers are conserved by every event: only its own update, its own datagram, its own
      version request or its removal touches the buffers of an address. */
  lemma StepMovesBuffers<B>(t: Table<B>, e: Event<B>, addr: Addr)
    requires TableOk(t)
    ensures BuffersMove(t, e, addr, BuffersOf(t, addr), BuffersOf(Step(t, e), addr))
  {
    match e
    case Updated(update) => UpdateMovesBuffers(t, update, addr);
    case PingsSent(_, _, _, _) => PingsMoveBuffers(t, e, addr);
    case Arrived(from, datagram, now) =>
      hide Answered, HandleDatagram, TableOk, SlotOf;
      ArrivalMovesBuffersIntact(t, from, datagram, now);
    case _ =>
  }

  /** Events that hand something to the buffers of an address, or create them. */
  predicate Touches<B>(e: Event<B>, addr: Addr) {
    match e
    case Updated(_) => true
    case VersionRequested(from, _, _) => from == addr
    case Arrived(from, datagram, _) => from == addr && datagram.BufferDatagram?
    case _ => false
  }

  /** Over a run in which nothing touches them, the buffers of an address are exactly as
      they were, or gone with it. */
  lemma {:induction false} UntouchedBuffersStay<B>(t: Table<B>, events: seq<Event<B>>, addr: Addr)
    requires TableOk(t) && forall i :: 0 <= i < |events| ==> !Touches(events[i], addr)
    ensures BuffersOf(Run(t, events), addr) == BuffersOf(t, addr) || BuffersOf(Run(t, events), addr) == None
    decreases |events|
  {
    hide Step, TableOk, BuffersOf, SlotOf;
    if events != [] {
      StepKeepsTable(t, events[0]);
      StepMovesBuffers(t, events[0], addr);
      UntouchedBuffersStay(Step(t, events[0]), events[1..], addr);
    }
  }
}
