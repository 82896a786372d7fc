/** Reassembly of one packet as it updates its fields, proved against `ReceiveSpec`. */
module Receive {
  import opened Wire
  import opened ReceiveSpec

  class ReassembledPacket {
    const guard: Guard
    var payload: Bytes
    var receivedChunks: seq<bool>
    var firstPending: nat
    var receivedCount: nat
    var maxIndex: Option<nat>

    function Value(): Reassembly
      reads this
    {
      Reassembly(payload, receivedChunks, firstPending, receivedCount, maxIndex)
    }

    /** The packet as it was stored. */
    constructor Stored(guard: Guard, value: Reassembly)
      ensures Value() == value && this.guard == guard
    {
      this.guard := guard;
      this.payload := value.payload;
      this.receivedChunks := value.bits;
      this.firstPending := value.firstPending;
      this.receivedCount := value.receivedCount;
      this.maxIndex := value.maxIndex;
    }

    method Receive(last: bool, index: U32, chunk: Bytes) returns (result: ReceivedPacket)
      modifies this
      ensures (Value(), result) == ReceiveSpec.Receive(guard, old(Value()), last, index, chunk)
    {
      hide Resized, Slide, Placed;
      if last {
        maxIndex := Some(index);
      }
      if index < firstPending {
        return if guard == Guarded then Duplicate else Panicked;
      }
      var offset := index - firstPending;
      var known := Grow(offset);
      if known {
        return Duplicate;
      }
      Mark(old(receivedChunks), offset);
      if U32_LIMIT <= firstPending {
        return Panicked;
      }
      Place(Offset(index), chunk);
      if Some(receivedCount) == maxIndex {
        return Reassembled(payload);
      }
      if U32_LIMIT <= receivedCount + 1 {
        return Panicked;
      }
      receivedCount := receivedCount + 1;
      return Pending;
    }

    /** Makes the window reach `offset` and tells whether that chunk is already there. */
    method Grow(offset: nat) returns (known: bool)
      modifies this`receivedChunks
      ensures receivedChunks == Resized(old(receivedChunks), offset) && known == receivedChunks[offset]
    {
      if |receivedChunks| <= offset {
        receivedChunks := receivedChunks + seq(offset + 1 - |receivedChunks|, _ => false);
      }
      known := receivedChunks[offset];
    }

    /** Marks a chunk of the grown window and drains the front in whole steps. */
    method Mark(ghost bits: seq<bool>, offset: nat)
      requires receivedChunks == Resized(bits, offset)
      modifies this`receivedChunks, this`firstPending
      ensures receivedChunks == Slide(bits, old(firstPending), offset).0
      ensures firstPending == Slide(bits, old(firstPending), offset).1
    {
      receivedChunks := receivedChunks[offset := true];
      var boundary := CompleteBlocks();
      receivedChunks := receivedChunks[boundary..];
      firstPending := firstPending + boundary;
    }

    method Place(start: nat, chunk: Bytes)
      modifies this`payload
      ensures payload == Placed(old(payload), start, chunk)
    {
      var end := start + |chunk|;
      if |payload| < end {
        payload := payload + seq(end - |payload|, _ => 0);
      }
      payload := payload[..start] + chunk + payload[end..];
    }

    /** How much of the window's front is received, in whole steps of 256. */
    method CompleteBlocks() returns (boundary: nat)
      ensures boundary == RoundDown(FirstZero(receivedChunks))
    {
      var p := FirstMissing();
      boundary := p - p % DRAIN_STEP;
    }

    /** The first chunk of the window that has not been received. */
    method FirstMissing() returns (p: nat)
      ensures p == FirstZero(receivedChunks)
    {
      p := 0;
      while p < |receivedChunks| && receivedChunks[p]
        invariant p <= |receivedChunks|
        invariant FirstZero(receivedChunks) == p + FirstZero(receivedChunks[p..])
      {
        assert receivedChunks[p..][1..] == receivedChunks[p + 1..];
        p := p + 1;
      }
    }
  }
}
