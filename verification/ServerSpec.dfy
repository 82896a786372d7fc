/** The server's connection table on values: listeners by address, connected clients in
    slots, and the ping of each client. */
module ServerSpec {
  import opened Wire
  import opened Chunking
  import opened Sockets

  type Addr = nat
  type PingId = nat

  datatype ActivePing = ActivePing(id: PingId, at: int)

  /** `B` stands for the packet buffers of a connection. */
  datatype Client<B> = Client(
    addr: Addr,
    buffers: B,
    activePing: Option<ActivePing>,
    lastPong: Option<int>,
    missedPongs: nat)

  datatype Table<B> = Table(listeners: map<Addr, B>, clients: seq<Option<Client<B>>>)

  function NewClient<B>(addr: Addr, buffers: B): Client<B> {
    Client(addr, buffers, None, None, 0)
  }

  /** The slot that holds an address, or the number of slots. */
  function SlotOf<B>(clients: seq<Option<Client<B>>>, addr: Addr): (slot: nat)
    ensures slot <= |clients|
    ensures forall i :: 0 <= i < slot ==> clients[i].None? || clients[i].value.addr != addr
    ensures slot < |clients| ==> clients[slot].Some? && clients[slot].value.addr == addr
  {
    if clients == [] then 0
    else if clients[0].Some? && clients[0].value.addr == addr then 0
    else 1 + SlotOf(clients[1..], addr)
  }

  predicate Connected<B>(t: Table<B>, addr: Addr) {
    SlotOf(t.clients, addr) < |t.clients|
  }

  /** The lowest free slot, or the number of slots. */
  function FreeSlot<B>(clients: seq<Option<Client<B>>>): (slot: nat)
    ensures slot <= |clients|
    ensures forall i :: 0 <= i < slot ==> clients[i].Some?
    ensures slot < |clients| ==> clients[slot].None?
  {
    if clients == [] || clients[0].None? then 0 else 1 + FreeSlot(clients[1..])
  }

  /** One past the last slot that is in use. */
  function UsedSlots<B>(clients: seq<Option<Client<B>>>): (used: nat)
    ensures used <= |clients|
    ensures forall i :: used <= i < |clients| ==> clients[i].None?
    ensures 0 < used ==> clients[used - 1].Some?
  {
    if clients == [] then 0
    else if clients[|clients| - 1].Some? then |clients|
    else UsedSlots(clients[..|clients| - 1])
  }

  // ----- Operations -----

  datatype UnlistenResult = Unlistened | NotListening | StillConnected

  function Unlisten<B>(t: Table<B>, addr: Addr): (Table<B>, UnlistenResult) {
    if addr in t.listeners then (t.(listeners := t.listeners - {addr}), Unlistened)
    else if Connected(t, addr) then (t, StillConnected)
    else (t, NotListening)
  }

  /** The outcome of updating the buffers of one slot; a hard error loses the client. */
  type Update<!B> = (nat, B) -> (B, bool)

  function UpdatedSlot<B>(slot: Option<Client<B>>, i: nat, update: Update<B>): Option<Client<B>> {
    match slot
    case None => None
    case Some(client) =>
      var (buffers, ok) := update(i, client.buffers);
      if ok then Some(client.(buffers := buffers)) else None
  }

  function UpdatedSlots<B>(clients: seq<Option<Client<B>>>, update: Update<B>): (r: seq<Option<Client<B>>>)
    ensures |r| == |clients|
  {
    seq(|clients|, i requires 0 <= i < |clients| => UpdatedSlot(clients[i], i, update))
  }

  /** Unused slots at the end are dropped, as they were before the update. */
  function UpdateBuffers<B>(t: Table<B>, update: Update<B>): Table<B> {
    t.(clients := UpdatedSlots(t.clients, update)[..UsedSlots(t.clients)])
  }

  /** A version request from a new address makes it a listener once the answer went out. */
  function VersionRequest<B>(t: Table<B>, addr: Addr, newBuffers: B, outcome: SendResult): Table<B> {
    if outcome == Sent && addr !in t.listeners && !Connected(t, addr) then
      t.(listeners := t.listeners[addr := newBuffers])
    else t
  }

  /** What a reassembled packet asks for. */
  datatype Request = Nothing | Query | Connect(accept: bool) | Disconnect | User

  /** A datagram: a ping answer, or something for the buffers, which may complete a
      request; `send` is the answer to a query or a connect, if it can be sent. */
  datatype Datagram<!B> =
    | PongDatagram(id: Option<PingId>)
    | BufferDatagram(handle: B -> (B, Request), send: B -> (B, bool))

  function PongClient<B>(c: Client<B>, id: Option<PingId>, now: int): Client<B> {
    if c.activePing.Some? && id == Some(c.activePing.value.id) then
      c.(lastPong := Some(now), missedPongs := 0)
    else c
  }

  /** Buffers after the datagram and, if one is due, after the answer; and whether the
      answer could be sent. */
  function Answered<B>(d: Datagram<B>, buffers: B, connected: bool): (B, Request, bool)
    requires d.BufferDatagram?
  {
    var (handled, request) := d.handle(buffers);
    if request == Query || (request.Connect? && !connected) then
      var (after, ok) := d.send(handled);
      (after, request, ok)
    else (handled, request, true)
  }

  function HandleConnected<B>(t: Table<B>, slot: nat, d: Datagram<B>, now: int): Table<B>
    requires slot < |t.clients| && t.clients[slot].Some?
  {
    var client := t.clients[slot].value;
    match d
    case PongDatagram(id) => t.(clients := t.clients[slot := Some(PongClient(client, id, now))])
    case BufferDatagram(_, _) =>
      var (buffers, request, ok) := Answered(d, client.buffers, true);
      if request.Connect? || request == Disconnect || (request == Query && !ok) then
        Table(t.listeners[client.addr := buffers], t.clients[slot := None])
      else t.(clients := t.clients[slot := Some(client.(buffers := buffers))])
  }

  /** Puts a client into the lowest free slot, or into a new one. */
  function Seated<B>(clients: seq<Option<Client<B>>>, client: Client<B>): seq<Option<Client<B>>> {
    var slot := FreeSlot(clients);
    if slot < |clients| then clients[slot := Some(client)] else clients + [Some(client)]
  }

  /** A listener's ping kind is not special: it goes to the buffers, which do not handle it. */
  function HandleListener<B>(t: Table<B>, addr: Addr, d: Datagram<B>): Table<B>
    requires addr in t.listeners
  {
    match d
    case PongDatagram(_) => t
    case BufferDatagram(_, _) =>
      var (buffers, request, ok) := Answered(d, t.listeners[addr], false);
      if request == Connect(true) && ok then
        Table(t.listeners - {addr}, Seated(t.clients, NewClient(addr, buffers)))
      else t.(listeners := t.listeners[addr := buffers])
  }

  function HandleDatagram<B>(t: Table<B>, addr: Addr, d: Datagram<B>, now: int): Table<B> {
    var slot := SlotOf(t.clients, addr);
    if slot < |t.clients| then HandleConnected(t, slot, d, now)
    else if addr in t.listeners then HandleListener(t, addr, d)
    else t
  }

  // ----- Pings -----

  datatype PingConfig = PingConfig(delay: nat, maxMissed: Option<nat>)

  predicate PingDue<B>(c: Client<B>, now: int, delay: nat) {
    c.activePing.None? || delay <= Max(0, now - c.activePing.value.at)
  }

  /** The visit of one client by the ping loop; `None` clears its slot. */
  function PingClient<B>(c: Client<B>, config: PingConfig, now: int, id: PingId, outcome: SendResult)
      : Option<Client<B>>
  {
    if !PingDue(c, now, config.delay) then Some(c)
    else
      var missed := c.missedPongs + if c.activePing.Some? && c.lastPong.None? then 1 else 0;
      var checked := c.(activePing := None, lastPong := None, missedPongs := missed);
      if c.missedPongs < missed && config.maxMissed.Some? && config.maxMissed.value < missed then None
      else
        match outcome
        case Sent => Some(checked.(activePing := Some(ActivePing(id, now))))
        case WouldBlock => Some(checked)
        case Failed => None
  }

  function PingSlot<B>(slot: Option<Client<B>>, config: PingConfig, now: int, id: PingId, outcome: SendResult)
      : Option<Client<B>>
  {
    match slot
    case None => None
    case Some(client) => PingClient(client, config, now, id, outcome)
  }

  function SendPings<B>(t: Table<B>, config: PingConfig, now: int, ids: nat -> PingId, outcomes: Outcomes): Table<B> {
    t.(clients := seq(|t.clients|, i requires 0 <= i < |t.clients| =>
                        PingSlot(t.clients[i], config, now, ids(i), outcomes(i))))
  }
}
