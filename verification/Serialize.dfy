/** Serialization of a packet into datagrams: first in memory up to a chunk limit and,
    if that overflows, again from the start while skipping what was already produced.

    A packet is the sequence of `write` calls that its archiver makes; both passes see
    the same calls. */
module Serialize {
  import opened Wire
  import opened Chunking
  import opened DatagramBuffer

  datatype SerializedPacket =
    | InMemory(buffers: seq<Bytes>)
    | Channel(incoming: seq<Bytes>)
  {
    function Content(): seq<Bytes> {
      if InMemory? then buffers else incoming
    }
  }

  /** Appending whatever fits into the current piece leaves the finished pieces alone. */
  lemma PieceGrows(written: Bytes, more: Bytes, n: nat)
    requires 1 <= n && Offset(n - 1) <= |written|
    requires |written + more| <= Offset(n)
    ensures Piece(written + more, n - 1) == Piece(written, n - 1) + more
  {
  }

  lemma PiecesStay(written: Bytes, more: Bytes, n: nat)
    requires Offset(n) <= |written|
    ensures forall i :: 0 <= i < n ==> Piece(written + more, i) == Piece(written, i)
  {
  }

  class VecPacketSerializer {
    const id: PacketId
    const threshold: nat
    var buf: seq<PacketBuffer>
    ghost var written: Bytes

    ghost var Repr: set<object>

    /** Buffer `i` holds piece `i` of what was written; the last one may be empty. */
    ghost predicate Aligned()
      reads this, Repr
    {
      && this in Repr
      && (forall b :: b in buf ==> b in Repr && b.data in Repr)
      && 1 <= |buf| <= threshold
      && |buf| <= U32_LIMIT
      && Offset(|buf| - 1) <= |written| <= Offset(|buf|)
      && (forall i, j :: 0 <= i < j < |buf| ==> buf[i] != buf[j] && buf[i].data != buf[j].data)
      && (forall i :: 0 <= i < |buf| ==> buf[i].Holds(id, i, Piece(written, i)))
    }

    ghost predicate Valid()
      reads this, Repr
    {
      Aligned() && |buf| == Count(written)
    }

    constructor (id: PacketId, threshold: nat)
      requires 0 < threshold
      ensures Valid() && fresh(Repr) && written == [] && this.id == id && this.threshold == threshold
    {
      this.id := id;
      this.threshold := threshold;
      var first := new PacketBuffer(id);
      this.buf := [first];
      this.written := [];
      this.Repr := {this, first, first.data};
    }

    /** Appends to the last buffer whatever still fits. */
    method AppendToLast(bytes: Bytes) returns (rest: Bytes)
      requires Aligned()
      modifies Repr
      ensures Aligned() && buf == old(buf) && Repr == old(Repr)
      ensures var taken := Min(|bytes|, Offset(|buf|) - |old(written)|);
              |rest| == |bytes| - taken && |written| == |old(written)| + taken
      ensures written + rest == old(written) + bytes
    {
      hide PacketBuffer.Holds, PacketBuffer.Bytes;
      var n := |buf|;
      var last := buf[n - 1];
      last.HeldLength(id, n - 1, Piece(written, n - 1));
      ghost var taken := Min(|bytes|, PACKET_BUFFER_SIZE - last.len);
      rest := last.AppendHeld(bytes, id, n - 1, Piece(written, n - 1));
      PieceGrows(written, bytes[..taken], n);
      PiecesStay(written, bytes[..taken], n - 1);
      written := written + bytes[..taken];
      assert bytes == bytes[..taken] + rest;
    }

    /** Starts the next buffer after a full one. */
    method PushNext()
      requires Aligned() && |buf| < threshold && |buf| < U32_LIMIT
      requires |written| == Offset(|buf|)
      modifies this`buf, this`Repr
      ensures Aligned() && |buf| == |old(buf)| + 1 && written == old(written)
      ensures old(Repr) <= Repr && fresh(Repr - old(Repr))
    {
      hide PrintPart;
      var next := buf[|buf| - 1].NewNext(id, |buf| - 1);
      buf := buf + [next];
      Repr := Repr + {next, next.data};
    }

    /** Stores the bytes, or reports `false` once they need more chunks than allowed;
        the buffers kept then are the first `threshold` pieces, all full. */
    method Write(chunk: Bytes) returns (ok: bool)
      requires Valid()
      requires Count(written + chunk) <= U32_LIMIT
      modifies Repr
      ensures ok <==> Count(old(written) + chunk) <= threshold
      ensures Aligned() && fresh(Repr - old(Repr))
      ensures ok ==> Valid() && written == old(written) + chunk
      ensures !ok ==> |buf| == threshold && |written| == Offset(threshold)
      ensures !ok ==> written < old(written) + chunk
    {
      hide PrintPart;
      var bytes := chunk;
      ghost var total := written + chunk;
      while bytes != []
        invariant Aligned() && fresh(Repr - old(Repr))
        invariant written + bytes == total
        invariant bytes != [] || |buf| == 1 || Offset(|buf| - 1) < |written|
        decreases |bytes|, Offset(|buf|) - |written| == 0
      {
        var atLimit := |buf| == threshold;
        var before := |bytes|;
        bytes := AppendToLast(bytes);
        if |bytes| == before {
          if atLimit {
            assert written < total;
            return false;
          }
          PushNext();
        }
      }
      assert written == total;
      CountIs(written, |buf|);
      return true;
    }

    /** Marks the last buffer as such and gives up all datagrams. */
    method Finish() returns (buffers: seq<Bytes>)
      requires Valid()
      modifies buf[|buf| - 1].data
      ensures Count(written) <= U32_LIMIT && buffers == Datagrams(id, written)
    {
      hide PrintPart, Datagrams;
      var n := |buf|;
      buffers := Frozen(buf[..n - 1], id, written);
      buf[n - 1].MarkLast(id, n - 1, Piece(written, n - 1));
      SentAll(id, written, buffers, buf[n - 1].Bytes());
      buffers := buffers + [buf[n - 1].Bytes()];
    }
  }

  /** The sending end of the rendezvous channel to a receiver that takes some number of
      datagrams before it is dropped, or all of them. */
  class SyncSender {
    const takes: Option<nat>
    var sent: seq<Bytes>

    predicate Valid()
      reads this
    {
      takes.Some? ==> |sent| <= takes.value
    }

    constructor (takes: Option<nat>)
      ensures Valid() && this.takes == takes && sent == []
    {
      this.takes := takes;
      this.sent := [];
    }

    /** Reports `false` once the receiver is gone. */
    method Send(datagram: Bytes) returns (ok: bool)
      requires Valid()
      modifies this
      ensures Valid() && (ok <==> takes != Some(|old(sent)|))
      ensures sent == if ok then old(sent) + [datagram] else old(sent)
    {
      ok := takes != Some(|sent|);
      if ok {
        sent := sent + [datagram];
      }
    }
  }

  /** Streams the full buffers of the second pass, after skipping the given number. */
  class ChannelPacketSerializer {
    const id: PacketId
    var skip: nat
    const buf: PacketBuffer
    const tx: SyncSender
    /** The whole stream that this pass will be given. */
    ghost const total: Bytes
    ghost const already: nat
    ghost var written: Bytes
    /** How many pieces have been started, the one in `buf` included. */
    ghost var started: nat

    ghost predicate Aligned()
      reads this, buf, buf.data, tx
    {
      && tx.Valid()
      && 1 <= started <= U32_LIMIT
      && Offset(started - 1) <= |written| <= Offset(started)
      && skip == Max(0, already - (started - 1))
      && buf.HasHeader(id, started - 1)
      && buf.len == HEADER_LEN + |written| - Offset(started - 1)
      && (skip == 0 ==> buf.Holds(id, started - 1, Piece(written, started - 1)))
      && SentInOrder(id, total, tx.sent, Max(already, started - 1))
    }

    ghost predicate Valid()
      reads this, buf, buf.data, tx
    {
      Aligned() && started == Count(written) && written <= total
    }

    constructor (id: PacketId, tx: SyncSender, ghost total: Bytes)
      requires Count(total) <= U32_LIMIT && tx.Valid()
      requires SentInOrder(id, total, tx.sent, |tx.sent|)
      ensures Valid() && fresh(buf) && fresh(buf.data)
      ensures this.id == id && this.tx == tx && this.total == total && written == [] && already == |tx.sent|
    {
      this.id := id;
      this.skip := |tx.sent|;
      this.buf := new PacketBuffer(id);
      this.tx := tx;
      this.total := total;
      this.already := |tx.sent|;
      this.written := [];
      this.started := 1;
    }

    method SkipOrAppend(bytes: Bytes) returns (rest: Bytes)
      requires Aligned()
      modifies this`written, buf`len, buf.data
      ensures Aligned()
      ensures var taken := Min(|bytes|, Offset(started) - |old(written)|);
              |rest| == |bytes| - taken && |written| == |old(written)| + taken
      ensures written + rest == old(written) + bytes
    {
      hide PrintPart;
      ghost var k := Min(|bytes|, PACKET_BUFFER_SIZE - buf.len);
      ghost var taken := bytes[..k];
      assert |taken| == k && bytes == taken + bytes[k..];
      PieceGrows(written, taken, started);
      if skip > 0 {
        rest := buf.Skip(bytes);
      } else {
        rest := buf.AppendHeld(bytes, id, started - 1, Piece(written, started - 1));
      }
      assert written + bytes == (written + taken) + rest;
      written := written + taken;
    }

    /** Passes on or skips the full buffer and starts the next one. */
    method Flush() returns (ok: bool)
      requires Aligned() && |written| == Offset(started)
      requires written < total
      modifies this`skip, this`started, buf`len, buf.data, tx
      ensures ok ==> Aligned() && started == old(started) + 1
      ensures !ok ==> tx.takes == Some(old(started) - 1) && already < old(started)
      ensures !ok ==> SentInOrder(id, total, tx.sent, old(started) - 1)
    {
      hide PrintPart;
      FullPieceIsNotLast(written, total, started);
      if skip > 0 {
        skip := skip - 1;
      } else {
        buf.BytesOfHeld(id, started - 1, Piece(written, started - 1));
        SentOneMore(id, total, tx.sent, started - 1);
        ok := tx.Send(buf.Bytes());
        if !ok {
          return;
        }
      }
      buf.Next(id, started - 1);
      started := started + 1;
      ok := true;
    }

    /** Stores the bytes and passes on what is full, or reports `false` once the receiver
        is gone: exactly if it takes fewer pieces than are finished. */
    method Write(chunk: Bytes) returns (ok: bool)
      requires Valid() && written + chunk <= total
      modifies this, buf, buf.data, tx
      ensures ok <==> (tx.takes.None? || Max(already, Count(old(written) + chunk) - 1) <= tx.takes.value)
      ensures ok ==> Valid() && written == old(written) + chunk
      ensures !ok ==> tx.takes == Some(|tx.sent|) && SentInOrder(id, total, tx.sent, |tx.sent|)
    {
      hide PrintPart;
      var bytes := chunk;
      ghost var goal := written + chunk;
      while bytes != []
        invariant Aligned() && written + bytes == goal
        invariant bytes != [] || started == 1 || Offset(started - 1) < |written|
        decreases |bytes|, Offset(started) - |written| == 0
      {
        var before := |bytes|;
        bytes := SkipOrAppend(bytes);
        if |bytes| == before {
          assert written < goal;
          FullPieceIsNotLast(written, goal, started);
          var flushed := Flush();
          if !flushed {
            return false;
          }
        }
      }
      assert written == goal;
      CountIs(written, started);
      return true;
    }

    /** Marks the last buffer as such and passes it on, whether or not it is taken. */
    method Finish()
      requires Valid() && written == total
      modifies buf.data, tx
      ensures tx.sent == Taken(Datagrams(id, total), tx.takes)
    {
      hide PrintPart, Datagrams, Taken;
      assert skip == 0;
      buf.MarkLast(id, started - 1, Piece(total, started - 1));
      SentAll(id, total, tx.sent, buf.Bytes());
      SentIsTaken(id, total, tx.sent);
      AllIsTaken(Datagrams(id, total), tx.takes, tx.sent);
      var _ := tx.Send(buf.Bytes());
    }
  }

  /** The first `n` pieces of a stream have been put into the channel, in order. */
  ghost predicate SentInOrder(id: PacketId, stream: Bytes, tx: seq<Bytes>, n: nat) {
    && |tx| == n < Count(stream) <= U32_LIMIT
    && forall i :: 0 <= i < n ==> tx[i] == Datagram(id, stream, i)
  }

  lemma SentOneMore(id: PacketId, stream: Bytes, tx: seq<Bytes>, n: nat)
    requires SentInOrder(id, stream, tx, n) && n + 1 < Count(stream)
    ensures SentInOrder(id, stream, tx + [PrintPart(false, id, n, Piece(stream, n))], n + 1)
  {
  }

  lemma SentAll(id: PacketId, stream: Bytes, tx: seq<Bytes>, last: Bytes)
    requires SentInOrder(id, stream, tx, Count(stream) - 1)
    requires last == Datagram(id, stream, Count(stream) - 1)
    ensures tx + [last] == Datagrams(id, stream)
  {
  }

  lemma FullPiecesAreInOrder(id: PacketId, written: Bytes, stream: Bytes, buffers: seq<Bytes>)
    requires written < stream && Count(stream) <= U32_LIMIT
    requires 1 <= |buffers| <= U32_LIMIT && |written| == Offset(|buffers|)
    requires forall i :: 0 <= i < |buffers| ==> buffers[i] == PrintPart(false, id, i, Piece(written, i))
    ensures SentInOrder(id, stream, buffers, |buffers|)
  {
    hide PrintPart;
    FullPieceIsNotLast(written, stream, |buffers|);
    forall i | 0 <= i < |buffers|
      ensures buffers[i] == Datagram(id, stream, i)
    {
      assert Piece(stream, i) == Piece(written, i);
    }
  }

  lemma FullPieceIsNotLast(written: Bytes, stream: Bytes, n: nat)
    requires written < stream && |written| == Offset(n) && 1 <= n
    ensures n < Count(stream) && Piece(stream, n - 1) == Piece(written, n - 1)
  {
  }

  /** The first pass: all datagrams in memory if they are few enough, and otherwise the
      full ones that were made before the limit was hit. */
  method SerializeInMemory(id: PacketId, threshold: nat, writes: seq<Bytes>) returns (ok: bool, buffers: seq<Bytes>)
    requires 0 < threshold && Count(Join(writes)) <= U32_LIMIT
    ensures ok <==> Count(Join(writes)) <= threshold
    ensures ok ==> buffers == Datagrams(id, Join(writes))
    ensures !ok ==> SentInOrder(id, Join(writes), buffers, threshold)
  {
    var serializer := new VecPacketSerializer(id, threshold);
    ghost var stream := Join(writes);
    ok := true;
    var i := 0;
    while i < |writes| && ok
      invariant i <= |writes|
      invariant serializer.id == id && serializer.threshold == threshold
      invariant serializer.Aligned() && fresh(serializer.Repr)
      invariant ok ==> serializer.Valid() && serializer.written + Join(writes[i..]) == stream
      invariant !ok ==> |serializer.buf| == threshold && |serializer.written| == Offset(threshold)
      invariant !ok ==> serializer.written < stream
    {
      hide PrintPart;
      assert writes[i..][1..] == writes[i + 1..];
      ghost var goal := serializer.written + writes[i];
      assert stream == goal + Join(writes[i + 1..]);
      MoreBytesMoreChunks(goal, stream);
      ok := serializer.Write(writes[i]);
      i := i + 1;
    }
    if ok {
      assert serializer.written == stream;
      buffers := serializer.Finish();
    } else {
      buffers := Frozen(serializer.buf, id, serializer.written);
      FullPiecesAreInOrder(id, serializer.written, stream, buffers);
    }
  }

  lemma MoreBytesMoreChunks(part: Bytes, whole: Bytes)
    requires |part| <= |whole|
    ensures Count(part) <= Count(whole)
  {
  }

  /** The bytes of finished buffers, in order. */
  method Frozen(buf: seq<PacketBuffer>, ghost id: PacketId, ghost written: Bytes) returns (frozen: seq<Bytes>)
    requires |buf| <= U32_LIMIT && Offset(|buf| - 1) <= |written|
    requires forall i :: 0 <= i < |buf| ==> buf[i].Holds(id, i, Piece(written, i))
    ensures |frozen| == |buf|
    ensures forall i :: 0 <= i < |buf| ==> frozen[i] == PrintPart(false, id, i, Piece(written, i))
  {
    hide PrintPart;
    frozen := [];
    for i := 0 to |buf|
      invariant |frozen| == i
      invariant forall j :: 0 <= j < i ==> frozen[j] == PrintPart(false, id, j, Piece(written, j))
    {
      buf[i].BytesOfHeld(id, i, Piece(written, i));
      frozen := frozen + [buf[i].Bytes()];
    }
  }

  /** What a receiver gets of the datagrams before it is dropped. */
  function Taken(ds: seq<Bytes>, takes: Option<nat>): seq<Bytes> {
    if takes.None? then ds else ds[..Min(takes.value, |ds|)]
  }

  /** With all but the last datagram sent, the last one is all that is left to take. */
  lemma AllIsTaken(ds: seq<Bytes>, takes: Option<nat>, sent: seq<Bytes>)
    requires ds != [] && sent == Taken(ds, Some(|ds| - 1)) && (takes.Some? ==> |sent| <= takes.value)
    ensures Taken(ds, takes) == if takes == Some(|sent|) then sent else ds
  {
  }

  lemma SentIsTaken(id: PacketId, stream: Bytes, tx: seq<Bytes>)
    requires SentInOrder(id, stream, tx, |tx|)
    ensures tx == Taken(Datagrams(id, stream), Some(|tx|))
  {
    hide PrintPart;
  }

  /** Passes on the datagrams of the first pass. */
  method PassOn(already: seq<Bytes>, tx: SyncSender, ghost id: PacketId, ghost stream: Bytes) returns (ok: bool)
    requires SentInOrder(id, stream, already, |already|)
    requires tx.Valid() && tx.sent == []
    modifies tx
    ensures tx.Valid()
    ensures ok ==> tx.sent == already
    ensures !ok ==> tx.sent == Taken(Datagrams(id, stream), tx.takes)
  {
    hide PrintPart, Datagrams;
    for i := 0 to |already|
      invariant tx.Valid() && tx.sent == already[..i]
    {
      ok := tx.Send(already[i]);
      if !ok {
        SentIsTaken(id, stream, tx.sent);
        return;
      }
    }
    return true;
  }

  /** Writes everything once more, until the receiver is gone. */
  method SecondPass(serializer: ChannelPacketSerializer, writes: seq<Bytes>) returns (ok: bool)
    requires serializer.Valid() && serializer.written == [] && serializer.total == Join(writes)
    modifies serializer, serializer.buf, serializer.buf.data, serializer.tx
    ensures ok ==> serializer.Valid() && serializer.written == serializer.total
    ensures !ok ==> serializer.tx.sent == Taken(Datagrams(serializer.id, serializer.total), serializer.tx.takes)
  {
    hide PrintPart, Datagrams;
    for i := 0 to |writes|
      invariant serializer.Valid()
      invariant serializer.written + Join(writes[i..]) == serializer.total
    {
      assert writes[i..][1..] == writes[i + 1..];
      assert serializer.total == (serializer.written + writes[i]) + Join(writes[i + 1..]);
      ok := serializer.Write(writes[i]);
      if !ok {
        SentIsTaken(serializer.id, serializer.total, serializer.tx.sent);
        return;
      }
    }
    return true;
  }

  /** The background thread: it passes on what is already serialized and then what the
      second pass makes, until the receiver is gone. */
  method SerializeInBackground(id: PacketId, already: seq<Bytes>, writes: seq<Bytes>, tx: SyncSender)
    requires Count(Join(writes)) <= U32_LIMIT
    requires SentInOrder(id, Join(writes), already, |already|)
    requires tx.Valid() && tx.sent == []
    modifies tx
    ensures tx.sent == Taken(Datagrams(id, Join(writes)), tx.takes)
  {
    hide PrintPart, Datagrams;
    ghost var stream := Join(writes);
    var ok := PassOn(already, tx, id, stream);
    if !ok {
      return;
    }
    var serializer := new ChannelPacketSerializer(id, tx, stream);
    ok := SecondPass(serializer, writes);
    if ok {
      serializer.Finish();
    }
  }

  /** The serialized packet is plain chunking, in memory if it is short enough. */
  function Serialized(id: PacketId, threshold: nat, stream: Bytes): (packet: SerializedPacket)
    requires Count(stream) <= U32_LIMIT
    ensures packet.Content() == Datagrams(id, stream)
  {
    if Count(stream) <= threshold then InMemory(Datagrams(id, stream)) else Channel(Datagrams(id, stream))
  }

  /** Both passes together are plain chunking, whatever the threshold and the cut of the
      bytes into write calls. The channel stands for all that a receiver gets that stays. */
  method SerializePacket(id: PacketId, threshold: nat, writes: seq<Bytes>) returns (packet: SerializedPacket)
    requires Count(Join(writes)) <= U32_LIMIT
    ensures packet == Serialized(id, threshold, Join(writes))
    ensures packet.Content() == Datagrams(id, Join(writes))
    ensures packet.InMemory? <==> Count(Join(writes)) <= threshold
  {
    var already: seq<Bytes> := [];
    if threshold != 0 {
      var ok, buffers := SerializeInMemory(id, threshold, writes);
      if ok {
        return InMemory(buffers);
      }
      already := buffers;
    }
    var tx := new SyncSender(None);
    SerializeInBackground(id, already, writes, tx);
    return Channel(tx.sent);
  }
}
