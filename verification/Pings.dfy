/** Pings over the whole life of a connection: what `missed_pongs` counts, and how early a
    client can be timed out. */
module Pings {
  import opened Wire
  import opened Sockets
  import opened ServerSpec

  /** What can happen to a connected client: a visit of the ping loop, or a ping answer. */
  datatype PingOp = Check(now: int, id: PingId, outcome: SendResult) | Answer(answer: Option<PingId>, now: int)

  /** What happened: a ping went out, the ping on its way was given up, an answer came. */
  datatype PingEvent = PingSent(id: PingId, at: int) | Expired(at: int) | PongCame(answer: Option<PingId>, at: int)

  datatype PingRun<B> = PingRun(client: Option<Client<B>>, log: seq<PingEvent>)

  function StepPing<B>(run: PingRun<B>, config: PingConfig, op: PingOp): PingRun<B> {
    match run.client
    case None => run
    case Some(c) =>
      match op
      case Answer(answer, now) => PingRun(Some(PongClient(c, answer, now)), run.log + [PongCame(answer, now)])
      case Check(now, id, outcome) =>
        if !PingDue(c, now, config.delay) then run
        else
          var checked := if c.activePing.Some? then run.log + [Expired(now)] else run.log;
          var client := PingClient(c, config, now, id, outcome);
          PingRun(client, if client.Some? && outcome == Sent then checked + [PingSent(id, now)] else checked)
  }

  function RunPings<B>(run: PingRun<B>, config: PingConfig, ops: seq<PingOp>): PingRun<B>
    decreases |ops|
  {
    if ops == [] then run else StepPing(RunPings(run, config, ops[..|ops| - 1]), config, ops[|ops| - 1])
  }

  // ----- What the log says, independently of the counters -----

  /** The position of the ping that is on its way. */
  function Live(log: seq<PingEvent>): (s: Option<nat>)
    ensures s.Some? ==> s.value < |log| && log[s.value].PingSent?
    decreases |log|
  {
    if log == [] then None
    else
      match log[|log| - 1]
      case PingSent(_, _) => Some(|log| - 1)
      case Expired(_) => None
      case PongCame(_, _) => Live(log[..|log| - 1])
  }

  /** An answer is valid if it names the ping that is on its way. */
  predicate ValidPong(log: seq<PingEvent>, k: nat)
    requires k < |log|
  {
    && log[k].PongCame?
    && Live(log[..k]).Some? && log[k].answer == Some(log[Live(log[..k]).value].id)
  }

  ghost predicate AnsweredSince(log: seq<PingEvent>, s: nat, k: nat)
    requires k <= |log|
  {
    exists j: nat :: s < j < k && ValidPong(log, j)
  }

  /** A ping that went out was given up without a valid answer, and none came since. */
  ghost predicate Missed(log: seq<PingEvent>, k: nat)
    requires k < |log|
  {
    && log[k].Expired?
    && Live(log[..k]).Some? && !AnsweredSince(log, Live(log[..k]).value, k)
    && !AnsweredSince(log, k, |log|)
  }

  ghost function MissedSet(log: seq<PingEvent>): set<nat> {
    set k: nat | k < |log| && Missed(log, k)
  }

  /** When the count last started from zero: the last valid answer, or the connection. */
  function LastReset(log: seq<PingEvent>, connected: int): int
    decreases |log|
  {
    if log == [] then connected
    else if ValidPong(log, |log| - 1) then log[|log| - 1].at
    else LastReset(log[..|log| - 1], connected)
  }

  // ----- The log grows by one -----

  lemma PrefixAgrees(log: seq<PingEvent>, e: PingEvent)
    ensures (log + [e])[..|log|] == log
    ensures forall k: nat :: k < |log| ==> (ValidPong(log + [e], k) <==> ValidPong(log, k))
    ensures forall s: nat, k: nat :: k <= |log| ==> (AnsweredSince(log + [e], s, k) <==> AnsweredSince(log, s, k))
  {
    var log' := log + [e];
    forall k: nat | k < |log|
      ensures ValidPong(log', k) <==> ValidPong(log, k)
    {
      assert log'[..k] == log[..k];
    }
  }

  /** A valid answer leaves nothing missed. */
  lemma ValidPongClears(log: seq<PingEvent>, e: PingEvent)
    requires ValidPong(log + [e], |log|)
    ensures MissedSet(log + [e]) == {}
  {
    var log' := log + [e];
    forall k: nat | k < |log'|
      ensures !Missed(log', k)
    {
      if k < |log| {
        assert AnsweredSince(log', k, |log'|);
      }
    }
  }

  /** Any other event keeps what was missed before it. */
  lemma EarlierStayMissed(log: seq<PingEvent>, e: PingEvent, k: nat)
    requires !ValidPong(log + [e], |log|) && k < |log|
    ensures Missed(log + [e], k) <==> Missed(log, k)
  {
    hide Live, ValidPong;
    PrefixAgrees(log, e);
    AnsweredLater(log, e, k);
    assert (log + [e])[..k] == log[..k];
  }

  /** Anything else keeps what was missed, and an unanswered expiry adds itself. */
  lemma OtherEventsKeep(log: seq<PingEvent>, e: PingEvent)
    requires !ValidPong(log + [e], |log|)
    ensures MissedSet(log + [e]) ==
            MissedSet(log) +
            (if e.Expired? && Live(log).Some? && !AnsweredSince(log, Live(log).value, |log|) then {|log|} else {})
  {
    hide Live, ValidPong;
    var log' := log + [e];
    PrefixAgrees(log, e);
    forall k: nat | k < |log|
      ensures Missed(log', k) <==> Missed(log, k)
    {
      EarlierStayMissed(log, e, k);
    }
    assert !AnsweredSince(log', |log|, |log'|);
  }

  /** After a valid answer to the ping on its way, nothing is missed. */
  lemma AnsweredMeansNoneMissed(log: seq<PingEvent>, s: nat)
    requires Live(log) == Some(s) && AnsweredSince(log, s, |log|)
    ensures MissedSet(log) == {}
  {
    LiveIsLast(log, s);
    var j: nat :| s < j < |log| && ValidPong(log, j);
    forall k: nat | k < |log|
      ensures !Missed(log, k)
    {
      if k < j {
        assert AnsweredSince(log, k, |log|);
      } else {
        assert log[k].PongCame?;
      }
    }
  }

  lemma {:induction false} LiveIsLast(log: seq<PingEvent>, s: nat)
    requires Live(log) == Some(s)
    ensures forall k :: s < k < |log| ==> log[k].PongCame?
    decreases |log|
  {
    if log[|log| - 1].PongCame? {
      LiveIsLast(log[..|log| - 1], s);
    }
  }

  // ----- The counters agree with the log -----

  ghost predicate CountersMatch<B>(c: Client<B>, log: seq<PingEvent>) {
    && (c.activePing == None <==> Live(log) == None)
    && (c.activePing.Some? ==>
          var s := Live(log).value;
          && log[s] == PingSent(c.activePing.value.id, c.activePing.value.at)
          && (c.lastPong.Some? <==> AnsweredSince(log, s, |log|)))
    && (c.activePing == None ==> c.lastPong == None)
    && c.missedPongs == |MissedSet(log)|
  }

  lemma SentKeepsMatch<B>(c: Client<B>, log: seq<PingEvent>, id: PingId, now: int)
    requires CountersMatch(c, log) && c.activePing == None
    ensures CountersMatch(c.(activePing := Some(ActivePing(id, now))), log + [PingSent(id, now)])
  {
    hide MissedSet;
    OtherEventsKeep(log, PingSent(id, now));
    PrefixAgrees(log, PingSent(id, now));
  }

  lemma AnswerKeepsMatch<B>(c: Client<B>, log: seq<PingEvent>, answer: Option<PingId>, now: int)
    requires CountersMatch(c, log)
    ensures CountersMatch(PongClient(c, answer, now), log + [PongCame(answer, now)])
  {
    hide MissedSet;
    var e := PongCame(answer, now);
    var log' := log + [e];
    PrefixAgrees(log, e);
    assert Live(log') == Live(log);
    if ValidPong(log', |log|) {
      ValidPongClears(log, e);
      assert AnsweredSince(log', Live(log).value, |log'|);
    } else {
      OtherEventsKeep(log, e);
      if Live(log).Some? {
        AnsweredLater(log, e, Live(log).value);
      }
    }
  }

  lemma AnsweredLater(log: seq<PingEvent>, e: PingEvent, s: nat)
    requires !ValidPong(log + [e], |log|)
    ensures AnsweredSince(log + [e], s, |log| + 1) <==> AnsweredSince(log, s, |log|)
  {
    PrefixAgrees(log, e);
    if AnsweredSince(log + [e], s, |log| + 1) {
      var j: nat :| s < j < |log| + 1 && ValidPong(log + [e], j);
      assert j < |log| && ValidPong(log, j);
    }
    if AnsweredSince(log, s, |log|) {
      var j: nat :| s < j < |log| && ValidPong(log, j);
      assert ValidPong(log + [e], j);
    }
  }

  /** Giving up the ping on its way counts it exactly if it was not answered. */
  lemma ExpiryKeepsMatch<B>(c: Client<B>, log: seq<PingEvent>, now: int)
    requires CountersMatch(c, log) && c.activePing.Some?
    ensures CountersMatch(c.(activePing := None, lastPong := None,
                             missedPongs := c.missedPongs + if c.lastPong.None? then 1 else 0),
                          log + [Expired(now)])
  {
    var e := Expired(now);
    var log' := log + [e];
    var s := Live(log).value;
    PrefixAgrees(log, e);
    OtherEventsKeep(log, e);
    if AnsweredSince(log, s, |log|) {
      AnsweredMeansNoneMissed(log, s);
    } else {
      assert |log| !in MissedSet(log);
    }
  }

  lemma StepKeepsMatch<B>(run: PingRun<B>, config: PingConfig, op: PingOp)
    requires run.client.Some? && CountersMatch(run.client.value, run.log)
    ensures var run' := StepPing(run, config, op);
            run'.client.Some? ==> CountersMatch(run'.client.value, run'.log)
  {
    hide CountersMatch;
    var c := run.client.value;
    match op
    case Answer(answer, now) => AnswerKeepsMatch(c, run.log, answer, now);
    case Check(now, id, outcome) =>
      if PingDue(c, now, config.delay) {
        var checked := c.(activePing := None, lastPong := None,
                          missedPongs := c.missedPongs + if c.activePing.Some? && c.lastPong.None? then 1 else 0);
        var log := if c.activePing.Some? then run.log + [Expired(now)] else run.log;
        if c.activePing.Some? {
          ExpiryKeepsMatch(c, run.log, now);
        } else {
          IdleHasNoAnswer(c, run.log);
        }
        if StepPing(run, config, op).client.Some? && outcome == Sent {
          SentKeepsMatch(checked, log, id, now);
        }
      }
  }

  lemma IdleHasNoAnswer<B>(c: Client<B>, log: seq<PingEvent>)
    requires CountersMatch(c, log) && c.activePing == None
    ensures c.lastPong == None
  {
  }

  function Joined<B>(addr: Addr, buffers: B): PingRun<B> {
    PingRun(Some(NewClient(addr, buffers)), [])
  }

  /** In every run of a connection, `missed_pongs` is the number of pings that actually went
      out and expired unanswered since the last valid answer or the connection. A ping that
      would have blocked never counts, since it never went out. */
  lemma {:induction false} MissedPongsIsExact<B>(addr: Addr, buffers: B, config: PingConfig, ops: seq<PingOp>)
    ensures var run := RunPings(Joined(addr, buffers), config, ops);
            run.client.Some? ==>
              CountersMatch(run.client.value, run.log)
              && run.client.value.missedPongs == |MissedSet(run.log)|
    decreases |ops|
  {
    if ops == [] {
      assert MissedSet([]) == {};
    } else {
      var earlier := ops[..|ops| - 1];
      MissedPongsIsExact(addr, buffers, config, earlier);
      var run := RunPings(Joined(addr, buffers), config, earlier);
      if run.client.Some? {
        StepKeepsMatch(run, config, ops[|ops| - 1]);
      }
    }
  }

  // ----- The timeout bound -----

  /** The clock never goes back. */
  ghost predicate Ordered(start: int, ops: seq<PingOp>) {
    && (forall i :: 0 <= i < |ops| ==> start <= ops[i].now)
    && (forall i, j :: 0 <= i < j < |ops| ==> ops[i].now <= ops[j].now)
  }

  function Times(n: nat, delay: nat): nat {
    n * delay
  }

  lemma OneMoreDelay(n: nat, delay: nat)
    ensures Times(n + 1, delay) == Times(n, delay) + delay
  {
  }

  /** Every missed ping took its delay. */
  ghost predicate Paced<B>(c: Client<B>, log: seq<PingEvent>, config: PingConfig, connected: int, now: int) {
    var due := LastReset(log, connected) + Times(c.missedPongs, config.delay);
    && due <= now
    && (c.activePing.Some? ==> c.activePing.value.at <= now)
    && (c.activePing.Some? && c.lastPong.None? ==> due <= c.activePing.value.at)
    && (config.maxMissed.Some? ==> c.missedPongs <= config.maxMissed.value)
  }

  /** The visit that times the client out for missed pongs. */
  predicate TimesOut<B>(c: Client<B>, config: PingConfig, now: int) {
    && PingDue(c, now, config.delay) && c.activePing.Some? && c.lastPong.None?
    && config.maxMissed.Some? && config.maxMissed.value < c.missedPongs + 1
  }

  /** A visit clears the slot exactly for a timeout or a hard error of the socket. */
  lemma ClearedExactly<B>(c: Client<B>, config: PingConfig, now: int, id: PingId, outcome: SendResult)
    ensures PingClient(c, config, now, id, outcome) == None <==>
            TimesOut(c, config, now) || (PingDue(c, now, config.delay) && outcome == Failed)
  {
  }

  lemma ResetUnlessValid(log: seq<PingEvent>, e: PingEvent, connected: int)
    ensures LastReset(log + [e], connected) == if ValidPong(log + [e], |log|) then e.at else LastReset(log, connected)
  {
    assert (log + [e])[..|log|] == log;
  }

  lemma StepKeepsPace<B>(run: PingRun<B>, config: PingConfig, op: PingOp, connected: int, before: int)
    requires run.client.Some? && CountersMatch(run.client.value, run.log)
    requires Paced(run.client.value, run.log, config, connected, before) && before <= op.now
    ensures var run' := StepPing(run, config, op);
            run'.client.Some? ==> Paced(run'.client.value, run'.log, config, connected, op.now)
  {
    hide CountersMatch, LastReset, ValidPong, Times;
    match op
    case Answer(answer, now) =>
      ResetUnlessValid(run.log, PongCame(answer, now), connected);
      AnswerIsValid(run.client.value, run.log, answer, now);
      NoDelay(config.delay);
    case Check(_, _, _) => CheckKeepsPace(run, config, op, connected, before);
  }

  lemma NoDelay(delay: nat)
    ensures Times(0, delay) == 0
  {
  }

  lemma CheckKeepsPace<B>(run: PingRun<B>, config: PingConfig, op: PingOp, connected: int, before: int)
    requires run.client.Some? && op.Check?
    requires Paced(run.client.value, run.log, config, connected, before) && before <= op.now
    ensures var run' := StepPing(run, config, op);
            run'.client.Some? ==> Paced(run'.client.value, run'.log, config, connected, op.now)
  {
    hide LastReset, Times;
    var c := run.client.value;
    var checked := if c.activePing.Some? then run.log + [Expired(op.now)] else run.log;
    OneMoreDelay(c.missedPongs, config.delay);
    ResetUnlessValid(run.log, Expired(op.now), connected);
    ResetUnlessValid(checked, PingSent(op.id, op.now), connected);
  }

  lemma AnswerIsValid<B>(c: Client<B>, log: seq<PingEvent>, answer: Option<PingId>, now: int)
    requires CountersMatch(c, log)
    ensures ValidPong(log + [PongCame(answer, now)], |log|) <==>
            c.activePing.Some? && answer == Some(c.activePing.value.id)
  {
    assert (log + [PongCame(answer, now)])[..|log|] == log;
  }

  lemma {:induction false} RunKeepsPace<B>(addr: Addr, buffers: B, config: PingConfig, ops: seq<PingOp>, connected: int)
    requires Ordered(connected, ops)
    ensures var run := RunPings(Joined(addr, buffers), config, ops);
            var now := if ops == [] then connected else ops[|ops| - 1].now;
            run.client.Some? ==> Paced(run.client.value, run.log, config, connected, now)
    decreases |ops|
  {
    hide CountersMatch, Paced, StepPing;
    if ops == [] {
      JoinedIsPaced(addr, buffers, config, connected);
    } else {
      var earlier := ops[..|ops| - 1];
      RunKeepsPace(addr, buffers, config, earlier, connected);
      MissedPongsIsExact(addr, buffers, config, earlier);
      var run := RunPings(Joined(addr, buffers), config, earlier);
      var before := if earlier == [] then connected else earlier[|earlier| - 1].now;
      if run.client.Some? {
        StepKeepsPace(run, config, ops[|ops| - 1], connected, before);
      } else {
        ClearedStays(run, config, ops[|ops| - 1]);
      }
    }
  }

  lemma JoinedIsPaced<B>(addr: Addr, buffers: B, config: PingConfig, connected: int)
    ensures Paced(NewClient(addr, buffers), [], config, connected, connected)
  {
  }

  lemma ClearedStays<B>(run: PingRun<B>, config: PingConfig, op: PingOp)
    requires run.client == None
    ensures StepPing(run, config, op) == run
  {
  }

  /** No client is timed out for missed pongs earlier than `(max_missed_pongs + 1)` delays
      after its last valid answer or its connection, in any run. */
  lemma NoEarlyTimeout<B>(addr: Addr, buffers: B, config: PingConfig, ops: seq<PingOp>, connected: int, now: int)
    requires Ordered(connected, ops) && connected <= now
    requires forall i :: 0 <= i < |ops| ==> ops[i].now <= now
    requires var run := RunPings(Joined(addr, buffers), config, ops);
             run.client.Some? && TimesOut(run.client.value, config, now)
    ensures var run := RunPings(Joined(addr, buffers), config, ops);
            && run.client.value.missedPongs == config.maxMissed.value
            && LastReset(run.log, connected) + Times(config.maxMissed.value + 1, config.delay) <= now
  {
    hide CountersMatch, RunPings;
    RunKeepsPace(addr, buffers, config, ops, connected);
    OneMoreDelay(config.maxMissed.value, config.delay);
  }

  /** Checks at every multiple of the delay, with pings that go out and stay unanswered. */
  function SilentChecks(start: int, delay: nat, n: nat): (ops: seq<PingOp>)
    ensures |ops| == n
  {
    seq(n, i requires 0 <= i < n => Check(start + Times(i, delay), i, Sent))
  }

  /** The bound is reached: a client that never answers survives the checks at `0` to
      `max` delays and is timed out by the one at `max + 1` delays. */
  lemma {:induction false} SilentClient<B>(addr: Addr, buffers: B, config: PingConfig, start: int, n: nat)
    requires config.maxMissed.Some? && n <= config.maxMissed.value
    ensures var run := RunPings(Joined(addr, buffers), config, SilentChecks(start, config.delay, n + 1));
            && run.client.Some? && run.client.value.missedPongs == n && run.client.value.lastPong == None
            && run.client.value.activePing == Some(ActivePing(n, start + Times(n, config.delay)))
    decreases n
  {
    var ops := SilentChecks(start, config.delay, n + 1);
    assert ops[..n] == SilentChecks(start, config.delay, n);
    if n == 0 {
      assert RunPings(Joined(addr, buffers), config, ops[..0]) == Joined(addr, buffers);
    } else {
      SilentClient(addr, buffers, config, start, n - 1);
      OneMoreDelay(n - 1, config.delay);
    }
  }

  lemma TimeoutBoundIsTight<B>(addr: Addr, buffers: B, config: PingConfig, start: int)
    requires config.maxMissed.Some?
    ensures var max := config.maxMissed.value;
            var run := RunPings(Joined(addr, buffers), config, SilentChecks(start, config.delay, max + 1));
            run.client.Some? && TimesOut(run.client.value, config, start + Times(max + 1, config.delay))
  {
    SilentClient(addr, buffers, config, start, config.maxMissed.value);
    OneMoreDelay(config.maxMissed.value, config.delay);
  }

  // ----- The table -----

  /** Two states of a client agree in all that concerns pings. */
  predicate SamePings<B>(a: Client<B>, b: Client<B>) {
    a.addr == b.addr && a.activePing == b.activePing && a.lastPong == b.lastPong && a.missedPongs == b.missedPongs
  }

  /** A visit of the whole table is a check of every client on its own. */
  lemma TableVisitIsCheck<B>(t: Table<B>, config: PingConfig, now: int, ids: nat -> PingId, outcomes: Outcomes,
                             i: nat, log: seq<PingEvent>)
    requires i < |t.clients|
    ensures SendPings(t, config, now, ids, outcomes).clients[i] ==
            StepPing(PingRun(t.clients[i], log), config, Check(now, ids(i), outcomes(i))).client
  {
  }

  /** A datagram is at most an answer of its own sender: a client that stays in its slot
      changes its ping state only by that. */
  lemma ArrivalIsAnswer<B>(t: Table<B>, from: Addr, d: Datagram<B>, now: int, config: PingConfig, i: nat,
                           log: seq<PingEvent>)
    requires i < |t.clients| && t.clients[i].Some?
    ensures var t' := HandleDatagram(t, from, d, now);
            i < |t'.clients| &&
            (t'.clients[i].Some? ==>
               if d.PongDatagram? && SlotOf(t.clients, from) == i then
                 t'.clients[i] == StepPing(PingRun(t.clients[i], log), config, Answer(d.id, now)).client
               else SamePings(t'.clients[i].value, t.clients[i].value))
  {
    hide Answered;
  }
}
