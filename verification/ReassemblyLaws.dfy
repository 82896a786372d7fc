/** Reassembly of the chunks of one stream, in any order and with any duplicates, is
    described exactly by the plain set of chunks received so far. */
module ReassemblyLaws {
  import opened Wire
  import opened Chunking
  import opened ReceiveSpec
  import opened Counting

  /** All chunks of the aligned block of 256 that starts at `f` and of all blocks before
      it are there. */
  ghost predicate BlockComplete(received: set<nat>, f: nat) {
    Below(f + 256) <= received
  }

  /** The window starts at the first block that is not complete. */
  ghost predicate WindowAligned(received: set<nat>, f: nat) {
    f % 256 == 0 && Below(f) <= received && !BlockComplete(received, f)
  }

  /** The received chunks are at their places, and the last of them ends the payload. */
  ghost predicate PayloadHolds(payload: Bytes, cs: seq<Bytes>, received: set<nat>) {
    && (forall i :: i in received ==> ChunkPlaced(payload, cs, i))
    && (payload == [] || exists i :: i in received && ChunkPlaced(payload, cs, i) && |payload| == End(cs, i))
  }

  /** What holds after some of the chunks `cs` have been received. */
  ghost predicate Consistent(r: Reassembly, cs: seq<Bytes>) {
    var received := r.Received();
    && WellCut(cs)
    && received <= Below(|cs|)
    && WindowAligned(received, r.firstPending)
    && r.maxIndex == (if |cs| - 1 in received then Some(|cs| - 1) else None)
    && r.receivedCount == Min(|received|, |cs| - 1)
    && PayloadHolds(r.payload, cs, received)
  }

  lemma EmptyIsConsistent(cs: seq<Bytes>)
    requires WellCut(cs)
    ensures EMPTY_REASSEMBLY.Received() == {} && Consistent(EMPTY_REASSEMBLY, cs)
  {
    assert 0 in Below(DRAIN_STEP);
  }

  /** Marking, then draining whole blocks, adds just the marked chunk. */
  lemma SlideAddsOne(r: Reassembly, offset: nat, r': Reassembly)
    requires !r.Has(r.firstPending + offset)
    requires r'.bits == Slide(r.bits, r.firstPending, offset).0
    requires r'.firstPending == Slide(r.bits, r.firstPending, offset).1
    ensures && (forall i: nat :: r'.Has(i) <==> r.Has(i) || i == r.firstPending + offset)
            && (exists i: nat :: i < r'.firstPending + DRAIN_STEP && !r'.Has(i))
            && r'.firstPending % DRAIN_STEP == r.firstPending % DRAIN_STEP
  {
    hide FirstZero, Resized;
    var marked := Resized(r.bits, offset)[offset := true];
    var first := FirstZero(marked);
    var boundary := RoundDown(first);
    forall i: nat
      ensures r'.Has(i) <==> r.Has(i) || i == r.firstPending + offset
    {
      if r.firstPending <= i {
        var k := i - r.firstPending;
        assert k < |marked| ==> (marked[k] <==> r.Has(i) || k == offset);
        assert boundary <= k < |marked| ==> r'.bits[k - boundary] == marked[k];
      }
    }
    assert !r'.Has(r.firstPending + first);
  }

  lemma ReceivedIsHas(r: Reassembly)
    ensures forall i: nat :: i in r.Received() <==> r.Has(i)
  {
  }

  /** A chunk that is not there yet reaches the slide, and then the payload and counters. */
  lemma FreshChunkSlides(guard: Guard, r: Reassembly, last: bool, index: U32, chunk: Bytes)
    requires !r.Has(index)
    ensures var (r', result) := Receive(guard, r, last, index, chunk);
            var maxIndex := if last then Some(index) else r.maxIndex;
            && r'.bits == Slide(r.bits, r.firstPending, index - r.firstPending).0
            && r'.firstPending == Slide(r.bits, r.firstPending, index - r.firstPending).1
            && r'.maxIndex == maxIndex
            && (r'.firstPending < U32_LIMIT ==>
                && r'.payload == Placed(r.payload, Offset(index), chunk)
                && if Some(r.receivedCount) == maxIndex then
                     r'.receivedCount == r.receivedCount && result == Reassembled(r'.payload)
                   else if r.receivedCount + 1 < U32_LIMIT then
                     r'.receivedCount == r.receivedCount + 1 && result == Pending
                   else result == Panicked)
            && (U32_LIMIT <= r'.firstPending ==> result == Panicked)
  {
    hide Placed, Slide, Resized;
    var offset := index - r.firstPending;
    assert !Resized(r.bits, offset)[offset];
  }

  lemma FreshChunkIsMarked(guard: Guard, r: Reassembly, last: bool, index: U32, chunk: Bytes)
    requires !r.Has(index)
    ensures var r' := Receive(guard, r, last, index, chunk).0;
            && (forall i: nat :: r'.Has(i) <==> r.Has(i) || i == index)
            && (exists i: nat :: i < r'.firstPending + DRAIN_STEP && !r'.Has(i))
            && r'.firstPending % DRAIN_STEP == r.firstPending % DRAIN_STEP
  {
    hide Receive;
    FreshChunkSlides(guard, r, last, index, chunk);
    SlideAddsOne(r, index - r.firstPending, Receive(guard, r, last, index, chunk).0);
  }

  lemma AlignedFromHas(r: Reassembly)
    requires r.firstPending % DRAIN_STEP == 0
    requires exists i: nat :: i < r.firstPending + DRAIN_STEP && !r.Has(i)
    ensures WindowAligned(r.Received(), r.firstPending)
  {
    hide Reassembly.Received;
    ReceivedIsHas(r);
    var gap: nat :| gap < r.firstPending + DRAIN_STEP && !r.Has(gap);
    assert gap in Below(r.firstPending + DRAIN_STEP);
  }

  /** The arrival of a chunk that is not there yet, as far as the window goes. */
  lemma FreshChunkIsAdded(guard: Guard, r: Reassembly, last: bool, index: U32, chunk: Bytes)
    requires index !in r.Received()
    requires WindowAligned(r.Received(), r.firstPending)
    ensures var r' := Receive(guard, r, last, index, chunk).0;
            && r'.Received() == r.Received() + {index}
            && WindowAligned(r'.Received(), r'.firstPending)
  {
    hide Receive, Reassembly.Received, Below, BlockComplete, Reassembly.Has;
    ReceivedIsHas(r);
    FreshChunkIsMarked(guard, r, last, index, chunk);
    var r' := Receive(guard, r, last, index, chunk).0;
    ReceivedIsHas(r');
    AlignedFromHas(r');
  }

  /** A chunk that is already there changes nothing but what is known of the end; if its
      block has been drained, the subtraction underflows. */
  lemma KnownChunkIsRejected(guard: Guard, r: Reassembly, last: bool, index: U32, chunk: Bytes)
    requires index in r.Received()
    requires WindowAligned(r.Received(), r.firstPending)
    ensures var (r', result) := Receive(guard, r, last, index, chunk);
            && r'.(maxIndex := r.maxIndex) == r
            && r'.maxIndex == (if last then Some(index) else r.maxIndex)
            && result ==
               if guard == Unguarded && BlockComplete(r.Received(), RoundDown(index)) then Panicked else Duplicate
  {
    hide Placed, FirstZero;
    ReceivedIsHas(r);
    BlockBefore(r.Received(), r.firstPending, index);
  }

  /** A received chunk lies before the window exactly if its block is complete. */
  lemma BlockBefore(received: set<nat>, f: nat, index: nat)
    requires WindowAligned(received, f) && index in received
    ensures index < f <==> BlockComplete(received, RoundDown(index))
  {
    if index < f {
      assert RoundDown(index) + DRAIN_STEP <= f;
    } else {
      assert f <= RoundDown(index);
      var gap :| gap in Below(f + DRAIN_STEP) && gap !in received;
      assert gap in Below(RoundDown(index) + DRAIN_STEP);
    }
  }

  /** Placing a chunk leaves all other chunks where they are. */
  lemma PlacingKeepsChunks(payload: Bytes, cs: seq<Bytes>, received: set<nat>, index: nat)
    requires WellCut(cs) && index < |cs| && index !in received
    requires PayloadHolds(payload, cs, received)
    ensures PayloadHolds(Placed(payload, Offset(index), cs[index]), cs, received + {index})
  {
    hide PayloadHolds, Extended;
    var start := Offset(index);
    var placed := Placed(payload, start, cs[index]);
    PayloadHoldsUnfolds(payload, cs, received);
    forall i | i in received
      ensures ChunkPlaced(placed, cs, i)
    {
      OtherChunkStays(payload, cs, i, index);
    }
    assert ChunkPlaced(placed, cs, index);
    PayloadHoldsFolds(placed, cs, received + {index}, index, payload, received);
  }

  lemma PayloadHoldsUnfolds(payload: Bytes, cs: seq<Bytes>, received: set<nat>)
    requires PayloadHolds(payload, cs, received)
    ensures forall i :: i in received ==> ChunkPlaced(payload, cs, i)
  {
  }

  lemma PayloadHoldsFolds(placed: Bytes, cs: seq<Bytes>, all: set<nat>, index: nat, payload: Bytes, received: set<nat>)
    requires all == received + {index} && index < |cs|
    requires forall i :: i in all ==> ChunkPlaced(placed, cs, i)
    requires PayloadHolds(payload, cs, received)
    requires |placed| == Max(|payload|, End(cs, index))
    ensures PayloadHolds(placed, cs, all)
  {
  }

  lemma OtherChunkStays(payload: Bytes, cs: seq<Bytes>, i: nat, index: nat)
    requires WellCut(cs) && index < |cs| && i != index && ChunkPlaced(payload, cs, i)
    ensures ChunkPlaced(Placed(payload, Offset(index), cs[index]), cs, i)
  {
    var start := Offset(index);
    var grown := Extended(payload, start + |cs[index]|);
    var placed := Placed(payload, start, cs[index]);
    assert grown[Offset(i)..End(cs, i)] == payload[Offset(i)..End(cs, i)];
    if i < index {
      assert End(cs, i) <= start;
    } else {
      assert start + |cs[index]| <= Offset(i);
    }
    assert placed[Offset(i)..End(cs, i)] == grown[Offset(i)..End(cs, i)];
  }

  /** With all chunks at their places the payload is the whole. */
  lemma CompletePayload(payload: Bytes, cs: seq<Bytes>)
    requires WellCut(cs) && PayloadHolds(payload, cs, Below(|cs|))
    ensures payload == Join(cs)
  {
    CompleteLength(payload, cs);
    hide PayloadHolds, ChunkPlaced, WellCut, Join, End;
    PayloadHoldsUnfolds(payload, cs, Below(|cs|));
    forall i | 0 <= i < |cs|
      ensures ChunkPlaced(payload, cs, i)
    {
      assert i in Below(|cs|);
    }
    JoinByPlaces(cs, payload);
  }

  lemma CompleteLength(payload: Bytes, cs: seq<Bytes>)
    requires WellCut(cs) && PayloadHolds(payload, cs, Below(|cs|))
    ensures |payload| == End(cs, |cs| - 1)
  {
    var n := |cs|;
    assert n - 1 in Below(n);
    assert ChunkPlaced(payload, cs, n - 1);
    if payload != [] {
      var i :| i in Below(n) && ChunkPlaced(payload, cs, i) && |payload| == End(cs, i);
      EndsGrow(cs, i);
    }
  }

  lemma EndsGrow(cs: seq<Bytes>, i: nat)
    requires WellCut(cs) && i < |cs|
    ensures End(cs, i) <= End(cs, |cs| - 1)
  {
  }

  /** What the plain set of received chunks says about the arrival of a chunk. */
  ghost function Expected(guard: Guard, received: set<nat>, n: nat, whole: Bytes, index: nat): ReceivedPacket {
    if index in received then
      if guard == Unguarded && BlockComplete(received, RoundDown(index)) then Panicked else Duplicate
    else if received + {index} == Below(n) then
      if n < U32_LIMIT then Reassembled(whole) else Panicked
    else Pending
  }

  /** The set of received chunks alone decides the outcome of every arrival. */
  lemma ArrivalFollowsSet(guard: Guard, r: Reassembly, cs: seq<Bytes>, index: nat)
    requires Consistent(r, cs) && index < |cs| <= U32_LIMIT
    ensures var (r', result) := Receive(guard, r, index == |cs| - 1, index, cs[index]);
            && r'.Received() == r.Received() + {index}
            && result == Expected(guard, r.Received(), |cs|, Join(cs), index)
            && (result != Panicked ==> Consistent(r', cs))
  {
    hide Receive, Reassembly.Received, PayloadHolds, BlockComplete, Below, Join;
    var last := index == |cs| - 1;
    var r' := Receive(guard, r, last, index, cs[index]).0;
    if index in r.Received() {
      KnownChunkIsRejected(guard, r, last, index, cs[index]);
      assert r' == r;
      assert r.Received() + {index} == r.Received();
    } else {
      FreshChunkCounts(guard, r, cs, index);
    }
  }

  /** The sets and sizes after the arrival of a chunk that is not there yet. */
  lemma FreshChunkSets(guard: Guard, r: Reassembly, cs: seq<Bytes>, index: nat)
    requires Consistent(r, cs) && index < |cs| <= U32_LIMIT && index !in r.Received()
    ensures var n, r' := |cs|, Receive(guard, r, index == |cs| - 1, index, cs[index]).0;
            var received := r'.Received();
            && received == r.Received() + {index} && received <= Below(n)
            && |received| == |r.Received()| + 1 <= n
            && (|received| == n <==> received == Below(n))
            && WindowAligned(received, r'.firstPending) && r'.firstPending <= n
            && (r'.firstPending == n ==> |received| == n)
            && (|received| == n == U32_LIMIT ==> r'.firstPending == n)
  {
    hide Receive, Reassembly.Received, PayloadHolds, WindowAligned;
    var n, r' := |cs|, Receive(guard, r, index == |cs| - 1, index, cs[index]).0;
    FreshChunkIsAdded(guard, r, index == n - 1, index, cs[index]);
    var received := r'.Received();
    SubsetIsSmaller(received, Below(n));
    if |received| == n {
      SubsetOfSameSize(received, Below(n));
    }
    WindowWithin(received, r'.firstPending, n);
  }

  lemma FreshChunkCounts(guard: Guard, r: Reassembly, cs: seq<Bytes>, index: nat)
    requires Consistent(r, cs) && index < |cs| <= U32_LIMIT && index !in r.Received()
    ensures var (r', result) := Receive(guard, r, index == |cs| - 1, index, cs[index]);
            && r'.Received() == r.Received() + {index}
            && result == Expected(guard, r.Received(), |cs|, Join(cs), index)
            && (result != Panicked ==> Consistent(r', cs))
  {
    hide Receive, Slide, Placed, Reassembly.Received, PayloadHolds, WindowAligned, Below, Join;
    var last := index == |cs| - 1;
    var (r', result) := Receive(guard, r, last, index, cs[index]);
    ReceivedIsHas(r);
    FreshChunkSlides(guard, r, last, index, cs[index]);
    FreshChunkSets(guard, r, cs, index);
    assert |cs| - 1 in r'.Received() <==> last || |cs| - 1 in r.Received();
    LastIsThereAtTheEnd(r'.Received(), |cs|);
    if r'.firstPending < U32_LIMIT {
      PlacingKeepsChunks(r.payload, cs, r.Received(), index);
      if |r'.Received()| == |cs| {
        CompletePayload(r'.payload, cs);
      }
    }
  }

  lemma LastIsThereAtTheEnd(received: set<nat>, n: nat)
    requires 0 < n && (|received| == n ==> received == Below(n))
    ensures |received| == n ==> n - 1 in received
  {
  }

  /** The window never gets ahead of the chunks there are, and it covers whole steps. */
  lemma WindowWithin(received: set<nat>, f: nat, n: nat)
    requires WindowAligned(received, f) && received <= Below(n)
    ensures f <= n
    ensures f == n ==> received == Below(n)
    ensures received == Below(n) && n == U32_LIMIT ==> f == n
  {
    if 0 < f {
      assert f - 1 in received;
    }
    if received == Below(n) {
      var gap :| gap in Below(f + DRAIN_STEP) && gap !in received;
      assert n <= gap;
    }
  }

  // ----- Whole runs -----

  ghost predicate Within(order: seq<nat>, n: nat) {
    forall j :: 0 <= j < |order| ==> order[j] < n
  }

  /** Chunks of `cs` arriving in some order; nothing is reported after a panic. */
  ghost function Arrivals(guard: Guard, r: Reassembly, cs: seq<Bytes>, order: seq<nat>): (out: seq<ReceivedPacket>)
    requires |cs| <= U32_LIMIT && Within(order, |cs|)
    ensures |out| <= |order|
    ensures |out| < |order| ==> |out| != 0 && out[|out| - 1] == Panicked
    decreases |order|
  {
    hide Receive;
    if order == [] then [] else
      var (r', result) := Receive(guard, r, order[0] == |cs| - 1, order[0], cs[order[0]]);
      if result == Panicked then [Panicked] else [result] + Arrivals(guard, r', cs, order[1..])
  }

  lemma {:induction false} ArrivalsFrom(guard: Guard, r: Reassembly, cs: seq<Bytes>, order: seq<nat>, k: nat)
    requires Consistent(r, cs) && |cs| <= U32_LIMIT && Within(order, |cs|)
    requires k < |Arrivals(guard, r, cs, order)|
    ensures Arrivals(guard, r, cs, order)[k] ==
            Expected(guard, r.Received() + SetOf(order[..k]), |cs|, Join(cs), order[k])
    decreases |order|
  {
    hide Consistent, Receive, Expected;
    ArrivalFollowsSet(guard, r, cs, order[0]);
    var (r', result) := Receive(guard, r, order[0] == |cs| - 1, order[0], cs[order[0]]);
    if k == 0 {
      assert r.Received() + SetOf(order[..0]) == r.Received();
    } else {
      ArrivalsFrom(guard, r', cs, order[1..], k - 1);
      assert order[..k] == [order[0]] + order[1..][..k - 1];
      assert r.Received() + SetOf(order[..k]) == r'.Received() + SetOf(order[1..][..k - 1]);
    }
  }

  /** Completion is exact and independent of order: each arrival is reported by what the
      set of earlier arrivals says, so `Reassembled` comes exactly with the last missing
      chunk and carries the concatenation of the chunks. */
  lemma CompletionIsExact(guard: Guard, cs: seq<Bytes>, order: seq<nat>, k: nat)
    requires WellCut(cs) && |cs| <= U32_LIMIT && Within(order, |cs|)
    requires k < |Arrivals(guard, EMPTY_REASSEMBLY, cs, order)|
    ensures Arrivals(guard, EMPTY_REASSEMBLY, cs, order)[k] ==
            Expected(guard, SetOf(order[..k]), |cs|, Join(cs), order[k])
  {
    hide Consistent, Expected, Arrivals;
    EmptyIsConsistent(cs);
    ArrivalsFrom(guard, EMPTY_REASSEMBLY, cs, order, k);
    assert EMPTY_REASSEMBLY.Received() + SetOf(order[..k]) == SetOf(order[..k]);
  }

  /** It comes at most once. */
  lemma ReassembledOnce(guard: Guard, cs: seq<Bytes>, order: seq<nat>, j: nat, k: nat)
    requires WellCut(cs) && |cs| <= U32_LIMIT && Within(order, |cs|)
    requires j < k < |Arrivals(guard, EMPTY_REASSEMBLY, cs, order)|
    requires Arrivals(guard, EMPTY_REASSEMBLY, cs, order)[j].Reassembled?
    ensures Arrivals(guard, EMPTY_REASSEMBLY, cs, order)[k] in {Duplicate, Panicked}
  {
    hide Arrivals, BlockComplete;
    CompletionIsExact(guard, cs, order, j);
    CompletionIsExact(guard, cs, order, k);
    assert SetOf(order[..j]) + {order[j]} == Below(|cs|);
    assert order[k] in SetOf(order[..j]) + {order[j]};
    assert order[..k][j] == order[j];
    assert order[..j] == order[..k][..j];
    assert order[k] in SetOf(order[..k]);
  }

  /** The subtraction is safe for every order of arrival exactly if it is guarded or the
      packet has fewer than 256 chunks. Otherwise a late duplicate underflows it. */
  lemma UnderflowExactly(guard: Guard, cs: seq<Bytes>)
    requires WellCut(cs) && |cs| < U32_LIMIT
    ensures (forall order: seq<nat> :: Within(order, |cs|) ==>
               Panicked !in Arrivals(guard, EMPTY_REASSEMBLY, cs, order))
            <==> guard == Guarded || |cs| < 256
  {
    hide Arrivals;
    if guard == Guarded || |cs| < DRAIN_STEP {
      forall order: seq<nat> | Within(order, |cs|)
        ensures Panicked !in Arrivals(guard, EMPTY_REASSEMBLY, cs, order)
      {
        SafeArrivalsNeverPanic(guard, cs, order);
      }
    } else {
      LateDuplicateUnderflows(cs);
    }
  }

  lemma SafeArrivalsNeverPanic(guard: Guard, cs: seq<Bytes>, order: seq<nat>)
    requires WellCut(cs) && |cs| < U32_LIMIT && Within(order, |cs|)
    requires guard == Guarded || |cs| < DRAIN_STEP
    ensures Panicked !in Arrivals(guard, EMPTY_REASSEMBLY, cs, order)
  {
    hide Arrivals;
    var out := Arrivals(guard, EMPTY_REASSEMBLY, cs, order);
    forall k | 0 <= k < |out|
      ensures out[k] != Panicked
    {
      CompletionIsExact(guard, cs, order, k);
      if |cs| < DRAIN_STEP {
        FewChunksNoBlock(SetOf(order[..k]), |cs|, RoundDown(order[k]));
      }
    }
  }

  lemma FewChunksNoBlock(received: set<nat>, n: nat, f: nat)
    requires n < DRAIN_STEP && forall i :: i in received ==> i < n
    ensures !BlockComplete(received, f)
  {
    assert n in Below(f + DRAIN_STEP);
  }

  function Ascending(n: nat): (s: seq<nat>)
    ensures |s| == n && forall i :: 0 <= i < n ==> s[i] == i
  {
    seq(n, i => i)
  }

  lemma AscendingSet(n: nat)
    ensures SetOf(Ascending(n)) == Below(n)
  {
    forall i | i in Below(n)
      ensures i in SetOf(Ascending(n))
    {
      assert Ascending(n)[i] == i;
    }
  }

  /** The run that underflows: the first 256 chunks in order, then the first one again. */
  lemma LateDuplicateUnderflows(cs: seq<Bytes>)
    requires WellCut(cs) && DRAIN_STEP <= |cs| < U32_LIMIT
    ensures var order := Ascending(DRAIN_STEP) + [0];
            Within(order, |cs|) && Panicked in Arrivals(Unguarded, EMPTY_REASSEMBLY, cs, order)
  {
    hide Arrivals, Ascending;
    var order := Ascending(DRAIN_STEP) + [0];
    var out := Arrivals(Unguarded, EMPTY_REASSEMBLY, cs, order);
    if |out| == |order| {
      CompletionIsExact(Unguarded, cs, order, DRAIN_STEP);
      assert order[..DRAIN_STEP] == Ascending(DRAIN_STEP);
      AscendingSet(DRAIN_STEP);
      assert out[DRAIN_STEP] == Panicked;
    } else {
      assert out[|out| - 1] == Panicked;
    }
  }

  /** The counters never leave `u32` in any order of arrival without duplicates exactly if
      the packet has fewer than 2^32 chunks: not counting the completing chunk saves
      `received_count`, but not `first_pending`. */
  lemma OverflowExactly(guard: Guard, cs: seq<Bytes>)
    requires WellCut(cs) && |cs| <= U32_LIMIT
    ensures (forall order: seq<nat> :: Within(order, |cs|) && Distinct(order) ==>
               Panicked !in Arrivals(guard, EMPTY_REASSEMBLY, cs, order))
            <==> |cs| < U32_LIMIT
  {
    hide Arrivals, Distinct;
    if |cs| < U32_LIMIT {
      forall order: seq<nat> | Within(order, |cs|) && Distinct(order)
        ensures Panicked !in Arrivals(guard, EMPTY_REASSEMBLY, cs, order)
      {
        DistinctNeverPanics(guard, cs, order);
      }
    } else {
      FullLengthOverflows(guard, cs);
    }
  }

  lemma DistinctIsFresh(order: seq<nat>, k: nat)
    requires Distinct(order) && k < |order|
    ensures order[k] !in SetOf(order[..k])
  {
  }

  lemma DistinctNeverPanics(guard: Guard, cs: seq<Bytes>, order: seq<nat>)
    requires WellCut(cs) && |cs| < U32_LIMIT && Within(order, |cs|) && Distinct(order)
    ensures Panicked !in Arrivals(guard, EMPTY_REASSEMBLY, cs, order)
  {
    hide Arrivals, Distinct;
    var out := Arrivals(guard, EMPTY_REASSEMBLY, cs, order);
    forall k | 0 <= k < |out|
      ensures out[k] != Panicked
    {
      CompletionIsExact(guard, cs, order, k);
      DistinctIsFresh(order, k);
    }
  }

  lemma FullLengthOverflows(guard: Guard, cs: seq<Bytes>)
    requires WellCut(cs) && |cs| == U32_LIMIT
    ensures var order := Ascending(|cs|);
            Within(order, |cs|) && Distinct(order) && Panicked in Arrivals(guard, EMPTY_REASSEMBLY, cs, order)
  {
    hide Arrivals, Ascending;
    var n := |cs|;
    var order := Ascending(n);
    var out := Arrivals(guard, EMPTY_REASSEMBLY, cs, order);
    if |out| == n {
      CompletionIsExact(guard, cs, order, n - 1);
      assert order[..n - 1] == Ascending(n - 1);
      AscendingSet(n - 1);
      assert Below(n - 1) + {n - 1} == Below(n);
      assert out[n - 1] == Panicked;
    } else {
      assert out[|out| - 1] == Panicked;
    }
  }
}
