/** Plain chunking of a byte stream: the reference that the serializers and the
    reassembler are measured against. */
module Chunking {
  import opened Wire

  /** How many chunks a stream takes; the empty stream still takes one. */
  function Count(stream: Bytes): (n: nat)
    ensures 1 <= n
    ensures Offset(n - 1) <= |stream| <= Offset(n)
    ensures stream != [] ==> Offset(n - 1) < |stream|
  {
    if stream == [] then 1 else (|stream| - 1) / 491 + 1
  }

  lemma CountIs(stream: Bytes, n: nat)
    requires 1 <= n && Offset(n - 1) <= |stream| <= Offset(n)
    requires n == 1 || Offset(n - 1) < |stream|
    ensures Count(stream) == n
  {
  }

  function Min(a: int, b: int): int {
    if a < b then a else b
  }

  function Max(a: int, b: int): int {
    if a < b then b else a
  }

  function Piece(stream: Bytes, i: nat): Bytes
    requires Offset(i) <= |stream|
  {
    stream[Offset(i)..Min(Offset(i + 1), |stream|)]
  }

  function Chunks(stream: Bytes): (cs: seq<Bytes>)
    ensures |cs| == Count(stream)
  {
    seq(Count(stream), i requires 0 <= i < Count(stream) => Piece(stream, i))
  }

  /** All chunks but the last are full, and none is longer than a full one. */
  ghost predicate WellCut(cs: seq<Bytes>) {
    && 1 <= |cs|
    && (forall i :: 0 <= i < |cs| ==> |cs[i]| <= PART_PAYLOAD)
    && (forall i :: 0 <= i < |cs| - 1 ==> |cs[i]| == PART_PAYLOAD)
  }

  function Join(cs: seq<Bytes>): Bytes {
    if cs == [] then [] else cs[0] + Join(cs[1..])
  }

  /** Where chunk `i` ends. */
  function End(cs: seq<Bytes>, i: nat): nat
    requires i < |cs|
  {
    Offset(i) + |cs[i]|
  }

  /** Chunk `i` is at its place. */
  ghost predicate ChunkPlaced(whole: Bytes, cs: seq<Bytes>, i: nat) {
    && i < |cs| && End(cs, i) <= |whole|
    && whole[Offset(i)..End(cs, i)] == cs[i]
  }

  /** Anything that has all chunks at their places, with nothing after the last, is their
      concatenation. */
  lemma {:induction false} JoinByPlaces(cs: seq<Bytes>, whole: Bytes)
    requires WellCut(cs)
    requires |whole| == End(cs, |cs| - 1)
    requires forall i :: 0 <= i < |cs| ==> ChunkPlaced(whole, cs, i)
    ensures Join(cs) == whole
  {
    hide ChunkPlaced;
    FirstChunk(cs, whole);
    if |cs| == 1 {
      assert Join(cs[1..]) == [];
    } else {
      var rest := whole[PART_PAYLOAD..];
      forall i | 0 <= i < |cs| - 1
        ensures ChunkPlaced(rest, cs[1..], i)
      {
        assert ChunkPlaced(whole, cs, i + 1);
        LaterChunk(cs, whole, i);
      }
      JoinByPlaces(cs[1..], rest);
    }
  }

  lemma FirstChunk(cs: seq<Bytes>, whole: Bytes)
    requires WellCut(cs) && ChunkPlaced(whole, cs, 0) && |whole| == End(cs, |cs| - 1)
    ensures |cs| == 1 ==> whole == cs[0]
    ensures 1 < |cs| ==> PART_PAYLOAD <= |whole| && whole == cs[0] + whole[PART_PAYLOAD..]
  {
    assert whole == whole[..|cs[0]|] + whole[|cs[0]|..];
  }

  lemma LaterChunk(cs: seq<Bytes>, whole: Bytes, i: nat)
    requires ChunkPlaced(whole, cs, i + 1)
    ensures PART_PAYLOAD <= |whole| && ChunkPlaced(whole[PART_PAYLOAD..], cs[1..], i)
  {
    assert cs[1..][i] == cs[i + 1];
  }

  lemma ChunksJoin(stream: Bytes)
    ensures WellCut(Chunks(stream))
    ensures Join(Chunks(stream)) == stream
  {
    JoinByPlaces(Chunks(stream), stream);
  }

  /** The datagrams that carry a stream. */
  function Datagrams(id: PacketId, stream: Bytes): (ds: seq<Bytes>)
    requires Count(stream) <= U32_LIMIT
    ensures |ds| == Count(stream)
  {
    seq(Count(stream), i requires 0 <= i < Count(stream) => Datagram(id, stream, i))
  }

  function Datagram(id: PacketId, stream: Bytes, i: nat): Bytes
    requires i < Count(stream) <= U32_LIMIT
  {
    PrintPart(i == Count(stream) - 1, id, i, Piece(stream, i))
  }
}
