/** How often a packet is delivered: at most once between two times that the receiver
    forgets its id. */
module ProtocolCounts {
  import opened Wire
  import opened Chunking
  import opened Sockets
  import opened SendSpec
  import opened ReceiveSpec
  import opened ReassemblyLaws
  import opened BufferSpec
  import opened Counting
  import opened Protocol
  import opened ProtocolBase
  import opened ProtocolSteps

  function CompletionsOf(completed: seq<Completion>, id: PacketId): nat
    decreases |completed|
  {
    if completed == [] then 0
    else CompletionsOf(completed[..|completed| - 1], id) + if completed[|completed| - 1].id == id then 1 else 0
  }

  function ForgetsOf(forgotten: seq<set<PacketId>>, id: PacketId): nat
    decreases |forgotten|
  {
    if forgotten == [] then 0
    else ForgetsOf(forgotten[..|forgotten| - 1], id) + if id in forgotten[|forgotten| - 1] then 1 else 0
  }

  /** The receiver has the whole packet. */
  ghost predicate HasAll(w: World, id: PacketId) {
    id in w.incoming && id in w.streams && Got(w.incoming[id]) == Below(Count(w.streams[id]))
  }

  /** What happens to an id as long as it is not forgotten: once the receiver has all of
      the packet it keeps it, and the packet completes exactly when that becomes true. */
  ghost predicate SameLife(w: World, w': World, id: PacketId) {
    && ForgetsOf(w'.forgotten, id) == ForgetsOf(w.forgotten, id)
    && (HasAll(w, id) ==> HasAll(w', id))
    && CompletionsOf(w'.completed, id) ==
       CompletionsOf(w.completed, id) + (if HasAll(w', id) && !HasAll(w, id) then 1 else 0)
  }

  /** One step forgets the id, and completes nothing. */
  ghost predicate Forgets(w: World, w': World, id: PacketId) {
    && id !in w'.incoming
    && ForgetsOf(w'.forgotten, id) == ForgetsOf(w.forgotten, id) + 1
    && CompletionsOf(w'.completed, id) == CompletionsOf(w.completed, id)
  }

  lemma OneMoreCompletion(completed: seq<Completion>, c: Completion, id: PacketId)
    ensures CompletionsOf(completed + [c], id) == CompletionsOf(completed, id) + if c.id == id then 1 else 0
  {
    assert (completed + [c])[..|completed|] == completed;
  }

  lemma OneMoreForget(forgotten: seq<set<PacketId>>, gone: set<PacketId>, id: PacketId)
    ensures ForgetsOf(forgotten + [gone], id) == ForgetsOf(forgotten, id) + if id in gone then 1 else 0
  {
    assert (forgotten + [gone])[..|forgotten|] == forgotten;
  }

  /** What leaves the entry of the id and the histories alone. */
  lemma UntouchedIsSameLife(w: World, w': World, id: PacketId)
    requires w'.completed == w.completed && w'.forgotten == w.forgotten
    requires id in w'.incoming <==> id in w.incoming
    requires id in w.incoming ==> w'.incoming[id] == w.incoming[id]
    requires id in w.incoming ==> id in w.streams && id in w'.streams && w'.streams[id] == w.streams[id]
    ensures SameLife(w, w', id)
  {
    hide Got, Below;
  }

  /** The arrival of a part, for its own id. */
  lemma PartIsSameLife(guard: Guard, w: World, last: bool, id: PacketId, index: U32, payload: Bytes, now: int,
                       outcome: SendResult)
    requires IsChunk(w.streams, id, index) && (id in w.incoming ==> EntryOk(w.incoming[id], w.streams[id]))
    requires last == (index == Count(w.streams[id]) - 1) && payload == Piece(w.streams[id], index)
    ensures SameLife(w, ApplyPart(guard, w, last, id, index, payload, now, outcome), id)
  {
    hide EntryOk, Got, BlockComplete, Below, CompletionsOf, ForgetsOf, ApplyPart;
    var stream, w' := w.streams[id], ApplyPart(guard, w, last, id, index, payload, now, outcome);
    var got := GotSoFar(w.incoming, id);
    PartEffect(guard, w, last, id, index, payload, now, outcome);
    OneMoreCompletion(w.completed, Completion(id, stream, outcome != Failed), id);
    assert w.completed + [] == w.completed;
    IndexIsBelow(index, Count(stream));
    if index in got {
      assert got + {index} == got;
    }
  }

  lemma IndexIsBelow(index: nat, n: nat)
    requires index < n
    ensures index in Below(n)
  {
  }

  lemma PartIsSameLifeOfOthers(guard: Guard, w: World, last: bool, id: PacketId, index: U32, payload: Bytes, now: int,
                               outcome: SendResult, other: PacketId)
    requires Base(w) && IsChunk(w.streams, id, index) && other != id
    requires last == (index == Count(w.streams[id]) - 1) && payload == Piece(w.streams[id], index)
    ensures SameLife(w, ApplyPart(guard, w, last, id, index, payload, now, outcome), other)
  {
    hide Base, EntryOk, Got, Expected, Below, ApplyPart, HasAll;
    var w' := ApplyPart(guard, w, last, id, index, payload, now, outcome);
    EntriesAreOk(w, id);
    PartEffect(guard, w, last, id, index, payload, now, outcome);
    OneMoreCompletion(w.completed, Completion(id, w.streams[id], outcome != Failed), other);
    assert w.completed + [] == w.completed;
    assert other in w'.incoming <==> other in w'.incoming - {id};
    assert other in w.incoming <==> other in w.incoming - {id};
    SameEntryHasAll(w, w', other);
  }

  lemma SameEntryHasAll(w: World, w': World, id: PacketId)
    requires w'.streams == w.streams && (id in w'.incoming <==> id in w.incoming)
    requires id in w.incoming ==> w'.incoming[id] == w.incoming[id]
    ensures HasAll(w', id) <==> HasAll(w, id)
  {
    hide Got, Below;
  }

  /** Forgetting some ids. */
  lemma ForgettingForgets(w: World, w': World, gone: set<PacketId>, id: PacketId)
    requires w' == w.(incoming := w'.incoming, forgotten := w.forgotten + [gone], tainted := w'.tainted)
    requires id in gone ==> id !in w'.incoming
    requires id !in gone ==> (id in w'.incoming <==> id in w.incoming)
    requires id !in gone && id in w.incoming ==> w'.incoming[id] == w.incoming[id]
    ensures if id in gone then Forgets(w, w', id) else SameLife(w, w', id)
  {
    hide HasAll, CompletionsOf, ForgetsOf;
    OneMoreForget(w.forgotten, gone, id);
    if id !in gone {
      SameEntryHasAll(w, w', id);
    }
  }

  lemma ArrivalLives(guard: Guard, w: World, a: Action, id: PacketId)
    requires Base(w) && a.ToReceiver? && a.datagram in w.net && a.datagram != []
    ensures var w' := ApplyToReceiver(guard, w, a);
            SameLife(w, w', id) || Forgets(w, w', id)
  {
    hide ViewForReceiver, ApplyPart, Base, SameLife, Forgets, EntryOk;
    match ViewForReceiver(a.datagram)
    case PartView(last, from, index, payload) =>
      PartIsKnown(w, a.datagram);
      if from == id {
        PartIsSameLife(guard, w, last, id, index, payload, a.now, a.outcome);
      } else {
        PartIsSameLifeOfOthers(guard, w, last, from, index, payload, a.now, a.outcome, id);
      }
    case DoneView(from) =>
      var w' := ApplyToReceiver(guard, w, a);
      if from in w.incoming {
        ForgettingForgets(w, w', {from}, id);
      } else {
        assert w'.incoming == w.incoming;
        KnownIsSameLife(w, w', id);
      }
    case _ => KnownIsSameLife(w, w, id);
  }

  lemma KnownIsSameLife(w: World, w': World, id: PacketId)
    requires Base(w) && w'.completed == w.completed && w'.forgotten == w.forgotten && w'.incoming == w.incoming
    requires Extends(w.streams, w'.streams)
    ensures SameLife(w, w', id)
  {
    hide EntryOk, Got;
    UntouchedIsSameLife(w, w', id);
  }

  /** Every step goes on with the life of an id, or ends it. */
  lemma StepLives(v: Variant, w: World, a: Action, id: PacketId)
    requires Base(w)
    ensures SameLife(w, Apply(v, w, a), id) || Forgets(w, Apply(v, w, a), id)
  {
    hide ApplyToReceiver, HandleOutgoing, StartOut, SendSpec.SendPending, SameLife, Forgets, Base;
    var w' := Apply(v, w, a);
    match a
    case ToReceiver(datagram, now, outcome) =>
      if datagram in w.net && datagram != [] && !w.crashed {
        ArrivalLives(v.guard, w, a, id);
      } else {
        KnownIsSameLife(w, w', id);
      }
    case ReceiverTimeout(now, timeout) =>
      if !w.crashed {
        ForgettingForgets(w, w', w.incoming.Keys - TimeoutIncoming(w.incoming, now, timeout).Keys, id);
      } else {
        KnownIsSameLife(w, w', id);
      }
    case _ => KnownIsSameLife(w, w', id);
  }

  /** Over any stretch of a run: forgets are never taken back, and while there are none the
      life of the id goes on. */
  lemma {:induction false} RunLives(v: Variant, w: World, actions: seq<Action>, id: PacketId)
    requires Base(w)
    ensures var w' := Run(v, w, actions);
            && ForgetsOf(w.forgotten, id) <= ForgetsOf(w'.forgotten, id)
            && (ForgetsOf(w.forgotten, id) == ForgetsOf(w'.forgotten, id) ==> SameLife(w, w', id))
    decreases |actions|
  {
    hide Base, Apply, HasAll, CompletionsOf, ForgetsOf;
    if actions != [] {
      StepKeepsBase(v, w, actions[0]);
      StepLives(v, w, actions[0], id);
      RunLives(v, Apply(v, w, actions[0]), actions[1..], id);
    }
  }

  /** At most one delivery per creation: over every stretch of every run in which the
      receiver does not forget an id, by a `Done` or a timeout, the id completes exactly
      when the receiver comes to have all of it. So it completes at most once between its
      creation and its forgetting, and not again once the receiver has it all. */
  lemma AtMostOncePerCreation(v: Variant, first: seq<Action>, second: seq<Action>, id: PacketId)
    ensures var w := Run(v, START, first);
            var w' := Run(v, w, second);
            ForgetsOf(w'.forgotten, id) == ForgetsOf(w.forgotten, id) ==>
              && CompletionsOf(w'.completed, id) ==
                 CompletionsOf(w.completed, id) + (if HasAll(w', id) && !HasAll(w, id) then 1 else 0)
              && (HasAll(w, id) ==> HasAll(w', id))
  {
    hide Run, HasAll, CompletionsOf, ForgetsOf;
    StartIsBase();
    RunKeepsBase(v, START, first);
    RunLives(v, Run(v, START, first), second, id);
  }

  lemma {:induction false} CompletionsFrom(v: Variant, w: World, actions: seq<Action>, id: PacketId)
    requires Base(w)
    requires CompletionsOf(w.completed, id) <= ForgetsOf(w.forgotten, id) + (if HasAll(w, id) then 1 else 0)
    ensures var w' := Run(v, w, actions);
            CompletionsOf(w'.completed, id) <= ForgetsOf(w'.forgotten, id) + (if HasAll(w', id) then 1 else 0)
    decreases |actions|
  {
    hide Base, Apply, HasAll, CompletionsOf, ForgetsOf;
    if actions != [] {
      StepKeepsBase(v, w, actions[0]);
      StepLives(v, w, actions[0], id);
      CompletionsFrom(v, Apply(v, w, actions[0]), actions[1..], id);
    }
  }

  /** Over a whole run an id completes at most once more often than it was forgotten. */
  lemma CompletionsAreBounded(v: Variant, actions: seq<Action>, id: PacketId)
    ensures var w := Run(v, START, actions);
            CompletionsOf(w.completed, id) <= ForgetsOf(w.forgotten, id) + 1
  {
    hide Run;
    StartIsBase();
    CompletionsFrom(v, START, actions, id);
  }
}
