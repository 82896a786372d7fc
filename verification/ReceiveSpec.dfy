/** The receiving side of one packet, on values: what `ReassembledPacket::receive` computes. */
module ReceiveSpec {
  import opened Wire
  import opened Chunking

  const DRAIN_STEP: nat := 256

  /** `bits` says which chunks from `firstPending` on have been received. */
  datatype Reassembly = Reassembly(
    payload: Bytes,
    bits: seq<bool>,
    firstPending: nat,
    receivedCount: nat,
    maxIndex: Option<nat>)
  {
    predicate Has(i: nat) {
      i < firstPending || (i - firstPending < |bits| && bits[i - firstPending])
    }

    /** The set of chunks that the sliding window stands for. */
    function Received(): set<nat> {
      set i: nat | i < firstPending + |bits| && Has(i)
    }
  }

  const EMPTY_REASSEMBLY: Reassembly := Reassembly([], [], 0, 0, None)

  /** What becomes of a chunk below the window.

      The code subtracts `first_pending` without a guard. The documentation calls such a
      late duplicate a `Duplicate`, which a guard would make it. Both are modelled. */
  datatype Guard = Unguarded | Guarded

  /** `Panicked` stands for arithmetic that leaves its type: the unguarded subtraction of
      `first_pending`, or a `u32` counter that would overflow. */
  datatype ReceivedPacket = Pending | Duplicate | Reassembled(payload: Bytes) | Panicked

  function FirstZero(bits: seq<bool>): (p: nat)
    ensures p <= |bits|
    ensures forall i :: 0 <= i < p ==> bits[i]
    ensures p < |bits| ==> !bits[p]
  {
    if bits == [] || !bits[0] then 0 else 1 + FirstZero(bits[1..])
  }

  /** Grows the bits so that `at` is inside. */
  function Resized(bits: seq<bool>, at: nat): (r: seq<bool>)
    ensures at < |r| && |r| == Max(|bits|, at + 1)
    ensures forall i :: 0 <= i < |r| ==> (r[i] <==> i < |bits| && bits[i])
  {
    if at < |bits| then bits else bits + seq(at + 1 - |bits|, _ => false)
  }

  /** Zero-extends the payload to `end` bytes. */
  function Extended(payload: Bytes, end: nat): (r: Bytes)
    ensures |r| == Max(|payload|, end) && payload <= r
  {
    if end <= |payload| then payload else payload + seq(end - |payload|, _ => 0)
  }

  /** Overwrites the payload at `start`, growing it if necessary. */
  function Placed(payload: Bytes, start: nat, chunk: Bytes): Bytes {
    var grown := Extended(payload, start + |chunk|);
    grown[..start] + chunk + grown[start + |chunk|..]
  }

  function RoundDown(n: nat): nat {
    n - n % DRAIN_STEP
  }

  /** Marks one place of the window, then drains the received front in whole steps. */
  function Slide(bits: seq<bool>, firstPending: nat, offset: nat): (seq<bool>, nat) {
    var marked := Resized(bits, offset)[offset := true];
    var boundary := RoundDown(FirstZero(marked));
    (marked[boundary..], firstPending + boundary)
  }

  function Receive(guard: Guard, r: Reassembly, last: bool, index: U32, chunk: Bytes): (Reassembly, ReceivedPacket) {
    var r1 := if last then r.(maxIndex := Some(index)) else r;
    if index < r.firstPending then (r1, if guard == Guarded then Duplicate else Panicked)
    else
      var offset := index - r.firstPending;
      var resized := Resized(r.bits, offset);
      if resized[offset] then (r1.(bits := resized), Duplicate)
      else
        var (bits, firstPending) := Slide(r.bits, r.firstPending, offset);
        var r2 := r1.(bits := bits, firstPending := firstPending);
        if U32_LIMIT <= r2.firstPending then (r2, Panicked)
        else
          var r3 := r2.(payload := Placed(r.payload, Offset(index), chunk));
          if Some(r3.receivedCount) == r3.maxIndex then (r3, Reassembled(r3.payload))
          else if U32_LIMIT <= r3.receivedCount + 1 then (r3, Panicked)
          else (r3.(receivedCount := r3.receivedCount + 1), Pending)
  }
}
