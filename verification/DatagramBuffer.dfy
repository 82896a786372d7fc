/** One datagram under construction: a fixed 512-byte buffer and how much of it is used. */
module DatagramBuffer {
  import opened Wire
  import opened Chunking

  class PacketBuffer {
    var len: nat
    const data: array<Byte>

    ghost predicate Valid()
      reads this
    {
      data.Length == PACKET_BUFFER_SIZE && len <= PACKET_BUFFER_SIZE
    }

    /** What a send of this buffer puts on the wire. */
    function Bytes(): Wire.Bytes
      requires Valid()
      reads this, data
    {
      data[..len]
    }

    /** The buffer carries part `index` of packet `id`, not marked as the last. */
    ghost predicate HasHeader(id: PacketId, index: U32)
      reads this, data
    {
      Valid() && HEADER_LEN <= len && data[..HEADER_LEN] == PrintPart(false, id, index, [])
    }

    ghost predicate Holds(id: PacketId, index: U32, payload: Wire.Bytes)
      reads this, data
    {
      HasHeader(id, index) && data[HEADER_LEN..len] == payload
    }

    constructor (id: PacketId)
      ensures fresh(data) && Holds(id, 0, [])
    {
      data := new Byte[PACKET_BUFFER_SIZE](_ => 0);
      len := 0;
      new;
      var rest := Append([KindByte(Part)]);
      rest := Append(id);
      rest := Append(ToLe(0));
      assert data[..len] == PrintPart(false, id, 0, []);
    }

    constructor Blank()
      ensures Valid() && fresh(data) && len == HEADER_LEN
    {
      data := new Byte[PACKET_BUFFER_SIZE](_ => 0);
      len := HEADER_LEN;
    }

    /** Takes as much of `bytes` as still fits and returns the rest. */
    method Append(bytes: Wire.Bytes) returns (rest: Wire.Bytes)
      requires Valid()
      modifies this`len, data
      ensures Valid()
      ensures var taken := Min(|bytes|, PACKET_BUFFER_SIZE - old(len));
              Bytes() == old(Bytes()) + bytes[..taken] && rest == bytes[taken..]
    {
      var taken := Min(|bytes|, PACKET_BUFFER_SIZE - len);
      forall i | 0 <= i < taken {
        data[len + i] := bytes[i];
      }
      len := len + taken;
      rest := bytes[taken..];
    }

    /** `Append` in terms of the part that the buffer carries. */
    method AppendHeld(bytes: Wire.Bytes, ghost id: PacketId, ghost index: U32, ghost payload: Wire.Bytes)
        returns (rest: Wire.Bytes)
      requires Holds(id, index, payload)
      modifies this`len, data
      ensures var taken := Min(|bytes|, PACKET_BUFFER_SIZE - old(len));
              Holds(id, index, payload + bytes[..taken]) && len == old(len) + taken && rest == bytes[taken..]
    {
      BytesOfHeld(id, index, payload);
      rest := Append(bytes);
      var taken := Min(|bytes|, PACKET_BUFFER_SIZE - old(len));
      assert Bytes() == PrintPart(false, id, index, payload) + bytes[..taken];
      assert data[..HEADER_LEN] == Bytes()[..HEADER_LEN];
      assert data[HEADER_LEN..len] == Bytes()[HEADER_LEN..];
    }

    lemma HeldLength(id: PacketId, index: U32, payload: Wire.Bytes)
      requires Holds(id, index, payload)
      ensures len == HEADER_LEN + |payload|
    {
      assert |data[HEADER_LEN..len]| == len - HEADER_LEN;
    }

    /** Counts as much of `bytes` as still fits without storing it. */
    method Skip(bytes: Wire.Bytes) returns (rest: Wire.Bytes)
      requires Valid()
      modifies this`len
      ensures Valid()
      ensures var taken := Min(|bytes|, PACKET_BUFFER_SIZE - old(len));
              len == old(len) + taken && rest == bytes[taken..]
    {
      var taken := Min(|bytes|, PACKET_BUFFER_SIZE - len);
      len := len + taken;
      rest := bytes[taken..];
    }

    /** Reuses the buffer for the next part; like the source, it asserts that all 512 bytes
        of the buffer are in use. */
    method Next(ghost id: PacketId, ghost index: nat)
      requires len == PACKET_BUFFER_SIZE
      requires index + 1 < U32_LIMIT && HasHeader(id, index)
      modifies this`len, data
      ensures Holds(id, index + 1, []) && len == HEADER_LEN
    {
      len := HEADER_LEN;
      IncSeqIndex(id, index);
    }

    /** A fresh buffer for the part after this one. */
    method NewNext(ghost id: PacketId, ghost index: nat) returns (next: PacketBuffer)
      requires index + 1 < U32_LIMIT && HasHeader(id, index)
      ensures fresh(next) && fresh(next.data)
      ensures next.Holds(id, index + 1, []) && next.len == HEADER_LEN
    {
      next := new PacketBuffer.Blank();
      forall i | 0 <= i < HEADER_LEN {
        next.data[i] := data[i];
      }
      assert next.data[..HEADER_LEN] == data[..HEADER_LEN];
      next.IncSeqIndex(id, index);
    }

    method IncSeqIndex(ghost id: PacketId, ghost index: nat)
      requires index + 1 < U32_LIMIT && HasHeader(id, index)
      modifies data
      ensures HasHeader(id, index + 1)
    {
      var start := KIND_LEN + ID_LEN;
      LeRoundTrip(index);
      assert data[start..HEADER_LEN] == data[..HEADER_LEN][start..] == ToLe(index);
      var next := ToLe(FromLe(data[start..HEADER_LEN]) + 1);
      forall i | 0 <= i < SEQ_LEN {
        data[start + i] := next[i];
      }
      assert data[..start] == old(data[..HEADER_LEN])[..start];
      assert data[..HEADER_LEN] == data[..start] + next;
    }

    method MarkLast(ghost id: PacketId, ghost index: U32, ghost payload: Wire.Bytes)
      requires Holds(id, index, payload)
      modifies data
      ensures Valid() && Bytes() == PrintPart(true, id, index, payload)
    {
      data[0] := KindByte(LastPart);
      assert data[1..HEADER_LEN] == old(data[..HEADER_LEN])[1..] == id + ToLe(index);
      assert data[..len] == [data[0]] + data[1..HEADER_LEN] + data[HEADER_LEN..len];
    }

    lemma BytesOfHeld(id: PacketId, index: U32, payload: Wire.Bytes)
      requires Holds(id, index, payload)
      ensures Bytes() == PrintPart(false, id, index, payload)
    {
      assert data[..len] == data[..HEADER_LEN] + data[HEADER_LEN..len];
    }
  }
}
