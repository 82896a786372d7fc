/** The server's connection table as it is updated in place, proved against `ServerSpec`. */
module Server {
  import opened Wire
  import opened Sockets
  import opened ServerSpec

  class Server<B(==)> {
    var listeners: map<Addr, B>
    var clients: seq<Option<Client<B>>>

    function Value(): Table<B>
      reads this
    {
      Table(listeners, clients)
    }

    constructor ()
      ensures Value() == Table(map[], [])
    {
      listeners := map[];
      clients := [];
    }

    method Unlisten(addr: Addr) returns (result: UnlistenResult)
      modifies this
      ensures (Value(), result) == ServerSpec.Unlisten(old(Value()), addr)
    {
      if addr in listeners {
        listeners := listeners - {addr};
        return Unlistened;
      }
      var slot := FindClient(addr);
      return if slot < |clients| then StillConnected else NotListening;
    }

    method UnlistenAll()
      modifies this
      ensures Value() == old(Value()).(listeners := map[])
    {
      listeners := map[];
    }

    method FindClient(addr: Addr) returns (slot: nat)
      ensures slot == SlotOf(clients, addr)
    {
      slot := 0;
      while slot < |clients| && !(clients[slot].Some? && clients[slot].value.addr == addr)
        invariant slot <= |clients|
        invariant SlotOf(clients, addr) == slot + SlotOf(clients[slot..], addr)
      {
        assert clients[slot..][1..] == clients[slot + 1..];
        slot := slot + 1;
      }
    }

    method GetOrAddFreeSlot() returns (slot: nat)
      modifies this`clients
      ensures slot == FreeSlot(old(clients)) < |clients|
      ensures clients == if slot < |old(clients)| then old(clients) else old(clients) + [None]
    {
      slot := 0;
      while slot < |clients| && clients[slot].Some?
        invariant slot <= |clients|
        invariant FreeSlot(clients) == slot + FreeSlot(clients[slot..])
      {
        assert clients[slot..][1..] == clients[slot + 1..];
        slot := slot + 1;
      }
      if slot == |clients| {
        clients := clients + [None];
      }
    }

    method UpdateBuffers(update: Update<B>)
      modifies this
      ensures Value() == ServerSpec.UpdateBuffers(old(Value()), update)
    {
      var firstEmptySlot, i := 0, 0;
      ghost var before := clients;
      ghost var after := UpdatedSlots(before, update);
      while i < |clients|
        invariant i <= |clients| == |before| && listeners == old(listeners)
        invariant |clients| == |before|
        invariant forall k :: 0 <= k < i ==> clients[k] == after[k]
        invariant forall k :: i <= k < |before| ==> clients[k] == before[k]
        invariant firstEmptySlot == UsedSlots(before[..i])
      {
        assert before[..i + 1][..i] == before[..i];
        assert after[i] == UpdatedSlot(before[i], i, update);
        if clients[i].Some? {
          firstEmptySlot := i + 1;
          var (buffers, ok) := update(i, clients[i].value.buffers);
          clients := clients[i := if ok then Some(clients[i].value.(buffers := buffers)) else None];
        }
        i := i + 1;
      }
      assert before[..i] == before && clients == after;
      clients := clients[..firstEmptySlot];
    }

    method HandleVersionRequest(addr: Addr, freshBuffers: B, outcome: SendResult)
      modifies this
      ensures Value() == VersionRequest(old(Value()), addr, freshBuffers, outcome)
    {
      if outcome == Sent && addr !in listeners {
        var slot := FindClient(addr);
        if slot == |clients| {
          listeners := listeners[addr := freshBuffers];
        }
      }
    }

    method HandleDatagram(addr: Addr, datagram: Datagram<B>, now: int)
      modifies this
      ensures Value() == ServerSpec.HandleDatagram(old(Value()), addr, datagram, now)
    {
      var slot := FindClient(addr);
      if slot < |clients| {
        var client := clients[slot].value;
        match datagram
        case PongDatagram(id) =>
          if client.activePing.Some? && id == Some(client.activePing.value.id) {
            client := client.(lastPong := Some(now), missedPongs := 0);
          }
          clients := clients[slot := Some(client)];
        case BufferDatagram(_, _) =>
          var (buffers, request, ok) := Answered(datagram, client.buffers, true);
          var disconnect := request.Connect? || request == Disconnect || (request == Query && !ok);
          clients := clients[slot := if disconnect then None else Some(client.(buffers := buffers))];
          if disconnect {
            listeners := listeners[client.addr := buffers];
          }
        return;
      }
      if addr in listeners && datagram.BufferDatagram? {
        var (buffers, request, ok) := Answered(datagram, listeners[addr], false);
        listeners := listeners[addr := buffers];
        if request == Connect(true) && ok {
          var free := GetOrAddFreeSlot();
          clients := clients[free := Some(NewClient(addr, listeners[addr]))];
          listeners := listeners - {addr};
        }
      }
    }

    method SendPings(config: PingConfig, now: int, ids: nat -> PingId, outcomes: Outcomes)
      modifies this
      ensures Value() == ServerSpec.SendPings(old(Value()), config, now, ids, outcomes)
    {
      ghost var before := clients;
      ghost var after := ServerSpec.SendPings(Value(), config, now, ids, outcomes).clients;
      var i := 0;
      while i < |clients|
        invariant i <= |clients| == |before| && listeners == old(listeners)
        invariant |clients| == |before|
        invariant forall k :: 0 <= k < i ==> clients[k] == after[k]
        invariant forall k :: i <= k < |before| ==> clients[k] == before[k]
      {
        assert after[i] == PingSlot(before[i], config, now, ids(i), outcomes(i));
        if clients[i].Some? {
          PingOne(i, config, now, ids(i), outcomes(i));
        }
        i := i + 1;
      }
    }

    /** One client's turn in the ping loop. */
    method PingOne(i: nat, config: PingConfig, now: int, id: PingId, outcome: SendResult)
      requires i < |clients| && clients[i].Some?
      modifies this`clients
      ensures clients == old(clients)[i := PingClient(old(clients)[i].value, config, now, id, outcome)]
    {
      var client := clients[i].value;
      if !PingDue(client, now, config.delay) {
        return;
      }
      var sentPing, receivedPong := client.activePing.Some?, client.lastPong.Some?;
      client := client.(activePing := None, lastPong := None);
      if sentPing && !receivedPong {
        client := client.(missedPongs := client.missedPongs + 1);
        if config.maxMissed.Some? && config.maxMissed.value < client.missedPongs {
          clients := clients[i := None];
          return;
        }
      }
      match outcome
      case Sent => clients := clients[i := Some(client.(activePing := Some(ActivePing(id, now))))];
      case WouldBlock => clients := clients[i := Some(client)];
      case Failed => clients := clients[i := None];
    }
  }
}
