/** The deque with its offset refines a fixed list of datagrams with a set of acked
    indices, no matter how much of the list has been pulled from the channel. */
module SendRefinement {
  import opened Wire
  import opened Chunking
  import opened Serialize
  import opened SendSpec

  /** The deque is the window of `ds` from `first` on, the channel holds the rest, and
      the front is never acked. */
  ghost predicate Window(q: Queue, ds: seq<Bytes>) {
    && q.Loaded() <= |ds|
    && (forall j :: 0 <= j < |q.packets| ==> q.packets[j].data == ds[q.first + j])
    && (q.rx.None? ==> q.Loaded() == |ds|)
    && (q.rx.Some? ==> q.rx.value == ds[q.Loaded()..])
    && (q.packets != [] ==> !q.packets[0].acked)
  }

  /** The indices in `lo..hi` that are not acked, ascending. */
  function Open(acked: set<nat>, lo: nat, hi: nat): (open: seq<nat>)
    ensures forall k :: 0 <= k < |open| ==> lo <= open[k] < hi
    decreases hi - lo
  {
    if hi <= lo then []
    else if lo in acked then Open(acked, lo + 1, hi)
    else [lo] + Open(acked, lo + 1, hi)
  }

  /** `Open` is the ascending enumeration of the unacked indices. */
  lemma {:induction false} OpenIsAscending(acked: set<nat>, lo: nat, hi: nat)
    ensures var open := Open(acked, lo, hi);
            && (forall i: nat :: i in open <==> lo <= i < hi && i !in acked)
            && (forall a, b :: 0 <= a < b < |open| ==> open[a] < open[b])
    decreases hi - lo
  {
    if lo < hi {
      OpenIsAscending(acked, lo + 1, hi);
    }
  }

  lemma {:induction false} OpenSplits(acked: set<nat>, lo: nat, mid: nat, hi: nat)
    requires lo <= mid <= hi
    ensures Open(acked, lo, hi) == Open(acked, lo, mid) + Open(acked, mid, hi)
    decreases mid - lo
  {
    if lo < mid {
      OpenSplits(acked, lo + 1, mid, hi);
    }
  }

  lemma {:induction false} OpenSkipsAcked(acked: set<nat>, lo: nat, hi: nat)
    requires forall i: nat :: lo <= i < hi ==> i in acked
    ensures Open(acked, lo, hi) == []
    decreases hi - lo
  {
    if lo < hi {
      OpenSkipsAcked(acked, lo + 1, hi);
    }
  }

  function At(ds: seq<Bytes>, indices: seq<nat>): (r: seq<Bytes>)
    requires forall k :: 0 <= k < |indices| ==> indices[k] < |ds|
    ensures |r| == |indices|
  {
    seq(|indices|, k requires 0 <= k < |indices| => ds[indices[k]])
  }

  lemma AtCons(ds: seq<Bytes>, i: nat, rest: seq<nat>)
    requires i < |ds| && forall k :: 0 <= k < |rest| ==> rest[k] < |ds|
    ensures At(ds, [i] + rest) == [ds[i]] + At(ds, rest)
  {
  }

  /** One entry of the deque is the datagram of its index, acked or not. */
  ghost predicate SlotIs(slot: Slot, ds: seq<Bytes>, acked: set<nat>, i: nat) {
    i < |ds| && slot.data == ds[i] && (slot.acked <==> i in acked)
  }

  lemma UnackedUnrolls(packets: seq<Slot>)
    requires packets != []
    ensures Unacked(packets) == (if packets[0].acked then [] else [packets[0].data]) + Unacked(packets[1..])
  {
  }

  lemma OpenUnrolls(acked: set<nat>, lo: nat, hi: nat)
    requires lo < hi
    ensures Open(acked, lo, hi) == (if lo in acked then [] else [lo]) + Open(acked, lo + 1, hi)
  {
  }

  /** Filtering the deque is filtering the indices. */
  lemma {:induction false} UnackedAreOpen(packets: seq<Slot>, first: nat, ds: seq<Bytes>, acked: set<nat>)
    requires first + |packets| <= |ds|
    requires forall j :: 0 <= j < |packets| ==> SlotIs(packets[j], ds, acked, first + j)
    ensures Unacked(packets) == At(ds, Open(acked, first, first + |packets|))
  {
    if packets != [] {
      hide At, SlotIs, Unacked, Open;
      var rest := packets[1..];
      forall j | 0 <= j < |rest|
        ensures SlotIs(rest[j], ds, acked, first + 1 + j)
      {
        assert SlotIs(packets[j + 1], ds, acked, first + (j + 1));
      }
      UnackedAreOpen(rest, first + 1, ds, acked);
      assert SlotIs(packets[0], ds, acked, first + 0);
      FirstSlot(packets[0], ds, acked, first);
      UnackedUnrolls(packets);
      OpenUnrolls(acked, first, first + |packets|);
      AtCons(ds, first, Open(acked, first + 1, first + |packets|));
    }
  }

  lemma FirstSlot(slot: Slot, ds: seq<Bytes>, acked: set<nat>, i: nat)
    requires SlotIs(slot, ds, acked, i)
    ensures slot.data == ds[i] && (slot.acked <==> i in acked)
  {
  }

  lemma {:induction false} UnackedOfSlots(ds: seq<Bytes>)
    ensures Unacked(Slots(ds)) == ds
  {
    if ds != [] {
      UnackedOfSlots(ds[1..]);
      assert Slots(ds)[1..] == Slots(ds[1..]);
    }
  }

  lemma {:induction false} UnackedConcat(a: seq<Slot>, b: seq<Slot>)
    ensures Unacked(a + b) == Unacked(a) + Unacked(b)
  {
    if a == [] {
      assert a + b == b;
    } else {
      UnackedConcat(a[1..], b);
      assert (a + b)[0] == a[0] && (a + b)[1..] == a[1..] + b;
    }
  }

  lemma UnackedOfFresh(packets: seq<Slot>, pulled: seq<Bytes>)
    ensures Unacked(packets + Slots(pulled)) == Unacked(packets) + pulled
  {
    hide Slots, Unacked;
    UnackedOfSlots(pulled);
    UnackedConcat(packets, Slots(pulled));
  }

  lemma NewQueueIsWindow(packet: SerializedPacket)
    ensures Window(NewQueue(packet), packet.Content()) && NewQueue(packet).AckedSet() == {}
  {
  }

  /** Appending fresh packets acks nothing. */
  lemma FreshKeepsAcked(q: Queue, pulled: seq<Bytes>, rx: Option<seq<Bytes>>)
    ensures Queue(q.packets + Slots(pulled), q.first, rx).AckedSet() == q.AckedSet()
  {
    var f := Queue(q.packets + Slots(pulled), q.first, rx);
    forall i: nat
      ensures i in f.AckedSet() <==> i in q.AckedSet()
    {
      assert f.CountsAsAcked(i) <==> q.CountsAsAcked(i);
    }
  }

  /** Moving datagrams from the channel to the deque keeps the window. */
  lemma PullKeepsWindow(q: Queue, ds: seq<Bytes>, k: nat)
    requires Window(q, ds) && q.rx.Some? && k <= |q.rx.value|
    ensures Window(Queue(q.packets + Slots(q.rx.value[..k]), q.first, Some(q.rx.value[k..])), ds)
  {
    var f := Queue(q.packets + Slots(q.rx.value[..k]), q.first, Some(q.rx.value[k..]));
    assert f.rx.value == ds[f.Loaded()..];
    forall j | 0 <= j < |f.packets|
      ensures f.packets[j].data == ds[f.first + j]
    {
      if |q.packets| <= j {
        assert f.packets[j].data == q.rx.value[j - |q.packets|];
      }
    }
  }

  /** Filling only moves the boundary between deque and channel. Afterwards there are
      enough unacked packets, or nothing is left to pull. */
  lemma FillKeepsWindow(q: Queue, ds: seq<Bytes>, count: nat)
    requires Window(q, ds)
    ensures var f := Fill(q, count);
            && Window(f, ds)
            && f.AckedSet() == q.AckedSet()
            && q.Loaded() <= f.Loaded() && f.first == q.first
            && (count <= |Unacked(f.packets)| || f.Loaded() == |ds|)
  {
    if q.rx.Some? {
      hide Unacked, Queue.AckedSet;
      var missing := count - Min(count, |Unacked(q.packets)|);
      var pulled := Take(q.rx.value, missing);
      assert pulled == q.rx.value[..|pulled|];
      UnackedOfFresh(q.packets, pulled);
      FreshKeepsAcked(q, pulled, Fill(q, count).rx);
      PullKeepsWindow(q, ds, |pulled|);
    }
  }

  /** Filling pulls no more than it lacks: with enough unacked packets there, nothing. */
  lemma FillPullsNoMore(q: Queue, count: nat)
    ensures |Unacked(Fill(q, count).packets)| <= Max(count, |Unacked(q.packets)|)
    ensures count <= |Unacked(q.packets)| ==> Fill(q, count) == q
  {
    if q.rx.Some? {
      var pulled := Take(q.rx.value, count - Min(count, |Unacked(q.packets)|));
      UnackedOfFresh(q.packets, pulled);
      assert q.packets + Slots([]) == q.packets;
    }
  }

  /** The indices that the next batch carries. */
  function BatchIndices(q: Queue, n: nat, count: nat): seq<nat> {
    Take(Open(q.AckedSet(), 0, n), count)
  }

  /** Each batch is the lowest-numbered unacked datagrams of the whole list, in order:
      what has been pulled so far makes no difference. */
  lemma BatchIsLowestOpen(q: Queue, ds: seq<Bytes>, count: nat)
    requires Window(q, ds)
    ensures var indices := BatchIndices(q, |ds|, count);
            && Fill(q, count).Loaded() <= |ds|
            && (forall k :: 0 <= k < |indices| ==> indices[k] < Fill(q, count).Loaded())
            && Batch(q, count) == At(ds, indices)
  {
    hide Fill, Unacked;
    FillKeepsWindow(q, ds, count);
    var f := Fill(q, count);
    UnackedOfWindow(f, ds);
    LowestOpen(q.AckedSet(), f.first, f.Loaded(), |ds|, count);
  }

  /** The lowest open indices are found in the window if it has enough of them. */
  lemma LowestOpen(acked: set<nat>, first: nat, loaded: nat, n: nat, count: nat)
    requires first <= loaded <= n
    requires forall i: nat :: i < first ==> i in acked
    requires count <= |Open(acked, first, loaded)| || loaded == n
    ensures Take(Open(acked, 0, n), count) == Take(Open(acked, first, loaded), count)
  {
    OpenSkipsAcked(acked, 0, first);
    OpenSplits(acked, 0, first, n);
    OpenSplits(acked, first, loaded, n);
  }

  lemma UnackedOfWindow(q: Queue, ds: seq<Bytes>)
    requires Window(q, ds)
    ensures Unacked(q.packets) == At(ds, Open(q.AckedSet(), q.first, q.Loaded()))
    ensures forall i: nat :: i < q.first ==> i in q.AckedSet()
  {
    var acked := q.AckedSet();
    forall j | 0 <= j < |q.packets|
      ensures SlotIs(q.packets[j], ds, acked, q.first + j)
    {
      assert q.CountsAsAcked(q.first + j) <==> q.packets[j].acked;
    }
    forall i: nat | i < q.first
      ensures i in acked
    {
      assert q.CountsAsAcked(i);
    }
    UnackedAreOpen(q.packets, q.first, ds, acked);
  }

  /** A batch is empty exactly if everything is acked. */
  lemma EmptyBatchMeansAllAcked(q: Queue, ds: seq<Bytes>, count: nat)
    requires Window(q, ds) && 0 < count
    ensures |Batch(q, count)| == 0 <==> forall i: nat :: i < |ds| ==> i in q.AckedSet()
    ensures |Batch(q, count)| == 0 <==> q.packets == [] && (q.rx == None || q.rx == Some([]))
  {
    BatchIsLowestOpen(q, ds, count);
    OpenIsAscending(q.AckedSet(), 0, |ds|);
    if q.packets != [] {
      assert !q.CountsAsAcked(q.first);
    }
    assert q.Loaded() < |ds| ==> q.Loaded() !in q.AckedSet();
    assert q.packets == [] && q.Loaded() == |ds| ==> forall i: nat :: i < |ds| ==> q.CountsAsAcked(i);
    var open := Open(q.AckedSet(), 0, |ds|);
    assert open != [] ==> open[0] in open;
  }

  /** Marking one position acks the index at its place and drains the acked front. */
  lemma AckPositionAcksOne(q: Queue, ds: seq<Bytes>, position: nat)
    requires Window(q, ds)
    ensures var (q', result) := AckPosition(q, position);
            && Window(q', ds)
            && q'.Loaded() == q.Loaded()
            && (result == AckedBeforeSent <==> |q.packets| <= position)
            && (result == Acked(true) <==> position < |q.packets| && q.first + position in q.AckedSet())
            && q'.AckedSet() == q.AckedSet() + (if position < |q.packets| then {q.first + position} else {})
  {
    if position < |q.packets| {
      assert q.first + position in q.AckedSet() <==> q.packets[position].acked by {
        assert q.CountsAsAcked(q.first + position) <==> q.packets[position].acked;
      }
      if !q.packets[position].acked {
        FreshAckAddsOne(q, ds, position);
      }
    }
  }

  lemma FreshAckAddsOne(q: Queue, ds: seq<Bytes>, position: nat)
    requires Window(q, ds) && position < |q.packets| && !q.packets[position].acked
    ensures var q' := AckPosition(q, position).0;
            && Window(q', ds)
            && q'.Loaded() == q.Loaded()
            && q'.AckedSet() == q.AckedSet() + {q.first + position}
  {
    hide FirstUnacked;
    var marked := q.packets[position := q.packets[position].(acked := true)];
    var drained := FirstUnacked(marked);
    var q' := AckPosition(q, position).0;
    forall i: nat | i < q.Loaded()
      ensures q'.CountsAsAcked(i) <==> q.CountsAsAcked(i) || i == q.first + position
    {
      if q.first <= i < q.first + drained {
        assert marked[i - q.first].acked;
      }
    }
  }

  /** With the documented offset, an ack acks exactly its own index. */
  lemma DocumentedAckIsExact(q: Queue, ds: seq<Bytes>, index: nat)
    requires Window(q, ds)
    ensures var (q', result) := AckQueue(Documented, q, index);
            && Window(q', ds)
            && q'.Loaded() == q.Loaded()
            && (result == AckedBeforeSent <==> q.Loaded() <= index)
            && (result == Acked(true) <==> index in q.AckedSet())
            && q'.AckedSet() == q.AckedSet() + (if index < q.Loaded() then {index} else {})
  {
    if index < q.first {
      assert q.CountsAsAcked(index);
    } else {
      AckPositionAcksOne(q, ds, index - q.first);
    }
  }

  /** The built code keeps the window too, but acks the index `first` further on. */
  lemma AsBuiltAckIsShifted(q: Queue, ds: seq<Bytes>, index: nat)
    requires Window(q, ds)
    ensures var (q', result) := AckQueue(AsBuilt, q, index);
            && Window(q', ds)
            && q'.Loaded() == q.Loaded()
            && (result == AckedBeforeSent <==> |q.packets| <= index)
            && q'.AckedSet() == q.AckedSet() + (if index < |q.packets| then {q.first + index} else {})
  {
    AckPositionAcksOne(q, ds, index);
  }

  /** Exactly when the built lookup does what the fields document: before anything was
      drained, for an index beyond everything loaded, or if it happens to hit an acked
      entry while the right one is acked as well. */
  lemma AckAgreesExactly(q: Queue, ds: seq<Bytes>, index: nat)
    requires Window(q, ds)
    ensures AckQueue(AsBuilt, q, index) == AckQueue(Documented, q, index) <==>
            || q.first == 0
            || q.Loaded() <= index
            || (index < |q.packets| && q.packets[index].acked && (index < q.first || q.packets[index - q.first].acked))
  {
    AsBuiltAckIsShifted(q, ds, index);
    DocumentedAckIsExact(q, ds, index);
    if q.first <= index && index < |q.packets| && !q.packets[index].acked && !q.packets[index - q.first].acked {
      assert !q.CountsAsAcked(index) && !q.CountsAsAcked(q.first + index);
    }
  }

  /** In a packet of at most one datagram the built lookup is exact, too. */
  lemma LookupsAgree(ix: Indexing, q: Queue, ds: seq<Bytes>, index: nat)
    requires Window(q, ds) && LookupExact(ix, |ds|) && index !in q.AckedSet()
    ensures AckQueue(ix, q, index) == AckQueue(Documented, q, index)
  {
    AckAgreesExactly(q, ds, index);
    assert index < q.first ==> q.CountsAsAcked(index);
  }
}
