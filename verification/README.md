# Reliable packet delivery and the connection table of ultinet

This project models the reliable-delivery protocol of ultinet end to end, and the
server's connection table with its pings, and proves what they promise.

A packet is a stream of bytes. It is cut into chunks of 491 bytes, sent in batches that
grow and shrink with the acks, reassembled in any order, and forgotten through `Done`.
The network may lose, duplicate and reorder every datagram.

## Layers

- `Wire` prints and parses datagrams; `Chunking` is plain chunking, the reference.
- `DatagramBuffer` and `Serialize` are the two-pass serializer, with its 512-byte buffers.
- `SendSpec` and `Send` are one outgoing packet: the deque with its offset, lazy pulling
  from the background thread, acks, and the batch size. `SendRefinement`, `SendLaws`,
  `Pacing`, `Transfer` and `AsBuiltTransfers` prove what they mean.
- `ReceiveSpec` and `Receive` are one incoming packet: the sliding bit window drained in
  steps of 256, the payload and the counter. `ReassemblyLaws` proves what they mean.
- `BufferSpec` and `Buffers` are the maps by packet id on both sides of a connection;
  `Handling` and `Updates` say what datagrams and the regular update do to them.
- `Protocol` puts a sender and a receiver on a network that remembers every datagram ever
  sent. A run is any list of actions; `Passes` shows that the regular update of a buffer is
  such a run, and a handled datagram a step. `ProtocolBase`, `ProtocolSteps`,
  `ProtocolSafety` and `ProtocolCounts` hold the invariants and the results over all runs;
  `Delivery` builds the runs that deliver, `AsBuiltAcks`, `LostPayloads` and `Panics` the
  runs that break a promise, with the exact extent, and `Progress` says when a packet can
  be finished from wherever a run has got to.
- `ServerSpec`, `Server`, `ServerLaws`, `Pings` and `PingTable` are the connection table.

Each stateful part comes twice: as a function on values (the `...Spec` modules), and as a
class whose methods change fields step by step and are proved equal to that function. The
laws are about the functions. The maps and tables hold packets and clients by value, as
Rust stores them inline; a method takes an entry out, changes it and puts it back.

The socket, the clock and the archiver are parameters: every attempt to send has an
outcome (sent, would block, failed) that the environment chooses, an operation reads the
clock once, and a packet is any sequence of `write` calls that both passes repeat.

## Where the code and its documentation part

Two deviations change what whole runs can do, so both readings of each are modelled: the
lookup of acks (`Indexing`, `AsBuilt` or `Documented`) and the guard against late
duplicates (`Guard`, `Unguarded` as built or `Guarded`). A `Variant` is a choice of both.
The code is `Variant(AsBuilt, Unguarded)`. Results without a condition hold for every
variant. For each promise that a variant breaks there is a lemma with the run that breaks
it, and the exact condition for it to hold.

- **Lookup of acks.** `PacketQueue::ack` (src/packet/send.rs:252-254) indexes the deque
  with the raw sequence index, while the fields (src/packet/send.rs:185-188) document an
  offset. `AckAgreesExactly` says when one ack is treated alike. As built:
  - A transfer of two or more chunks, without any loss, whose chunk 0 is acked first, never
    finishes, and is never dropped for missed acks either (`NeverFinishes`). All transfers without loss finish, and the growth equation
    holds, exactly with the offset or for at most one chunk (`TransferFinishesExactly`,
    `GrowthExactly`).
  - Pulling lazily from the background thread shows: after an ack and a copy of it, the
    queue that pulled just what it sent reports an error, the one in memory acks the next
    datagram (`AckedTwiceShows`). It is unobservable exactly with the offset or for at most
    one chunk (`LazinessHiddenExactly`); the queue refines a plain list exactly with the
    offset or for no chunk at all (`RefinesExactly`).
  - Acks and `Done` are sound in all runs of a stream exactly with the offset or for at
    most 491 bytes (`AckSoundExactly`, `DoneSoundExactly`).
  - `SeqIndexAckedBeforeSent` is reachable for every packet as built and for none with the
    offset (`UnsentReportedExactly`).
  - Copies of one ack can make the sender hold as acked what it never sent, so that the
    packet cannot be completed any more (`FinishableExactly`).
  - Integrity, the at-most-once result, ack conservation, the batch-control result and the
    existence of a delivering run hold all the same.
- **Late duplicates.** `ReassembledPacket::receive` (src/packet/receive.rs:39) subtracts
  `first_pending` without a guard. The outcome `Panicked` stands for the underflow; with the
  guard it is the documented `Duplicate`. The underflow happens exactly for chunks of blocks
  of 256 that are complete with all blocks before them (`KnownChunkIsRejected`), so for some
  order of arrival exactly if there is no guard and the packet has 256 chunks or more
  (`UnderflowExactly`). In the protocol a panic ends the receiver: some run of a stream
  gets there exactly without the guard and with 256 chunks or more, or with 2^32 chunks
  (`PanicExactly`). Without the guard one lost ack of a complete block leaves no way to
  finish the packet but a panic; with the guard and the offset every packet below 2^32
  chunks can be finished from every reachable world (`FinishableExactly`).
- **Lost payloads.** A hard error of the socket while acking the last missing chunk loses
  the payload (src/packet.rs:626, 652): a completed payload is handed over exactly if that
  ack does not fail (`HandedOverExactly`, over whole runs `AllHandedOverExactly`). The
  sender can declare such a packet done all the same (`PayloadIsLost`), below 2^32 chunks
  exactly if the lookup is the built one, or late duplicates are guarded, or the chunks do
  not fill whole blocks of 256 (`PayloadLostExactly`): otherwise every repeated chunk panics, so the
  missing ack is never sent.
- **Counters.** Not counting the completing chunk (src/packet/receive.rs:15-18) keeps
  `received_count` within `u32`, but `first_pending` overflows when all 2^32 chunks of a
  packet of that size arrive (`OverflowExactly`).
- **A blocked first batch.** `PacketOut::send` (src/packet/send.rs:58) leaves `last_send`
  empty if the first batch would block, which means canceled: the next round sends `Done`
  although nothing was acked (`BlockedFirstBatchCancels`).
- **Missed acks.** `max_missed_acks` is documented as a number of resends
  (src/config.rs:14-15); the counter counts chunks (`MissedAcksCountResendsExactly`).
- **Listener timeout.** `listener_timeout` (src/config.rs:61-69) is never applied: the
  code keeps no time for listeners, and so neither does the model (`ListenerLeavesOnly`).

## Model

| member | source | states |
|---|---|---|
| Wire.PayloadFillsTheDatagram | src/packet.rs:811-816 | header and payload of a part fill the 512-byte datagram exactly |
| Wire.PartRoundTrip | src/packet/send.rs:282-296 | a printed part reads back as the same part at the receiving side and is ignored by the sending side |
| Wire.AckRoundTrip | src/packet.rs:821-839 | a printed ack reads back as the same ack at the sending side and is ignored by the receiving side |
| Wire.DoneRoundTrip | src/packet/send.rs:397-402 | a printed done reads back as done of the same id and is ignored by the sending side |
| Wire.PartBytes | src/packet/send.rs:282-296 | byte for byte: 2, or 3 for the last part, the id at 1 to 16, the index at 17 to 20 with the least significant byte first, then the payload |
| Wire.AckBytes | src/packet.rs:821-839 | byte for byte: 4, the id, and the index with the least significant byte first |
| Wire.DoneBytes | src/packet/send.rs:397-402 | byte for byte: 5 and the id |
| Wire.ReadsLittleEndian | src/packet.rs:403-408 | whatever bytes are read as a part or an ack, its index is the little-endian number at bytes 17 to 20 |
| Wire.ReceiverReadsExactly | src/packet.rs:557-608 | for arbitrary bytes: a part is read iff the bytes are that printed part, a done iff they start with a printed done, malformed iff the kind is right and the bytes too short |
| Wire.SenderReadsExactly | src/packet.rs:389-426 | for arbitrary bytes: an ack is read iff the bytes start with that printed ack, malformed iff the kind is ack and the bytes too short |
| Wire.ClaimedByOneSide | src/packet.rs:307-332 | no datagram is claimed by both buffers; neither claims it exactly for version, ping, update and unknown kinds |
| Chunking.ChunksJoin | src/packet/serialize.rs:84-100 | the chunks are full but for the last and concatenate to the stream |
| Chunking.JoinByPlaces | src/packet/receive.rs:56-62 | bytes with every chunk at 491 times its index and nothing after the last are the concatenation |
| DatagramBuffer.PacketBuffer.constructor | src/packet/send.rs:282-296 | a new buffer carries part 0 of its id with no payload |
| DatagramBuffer.PacketBuffer.Append | src/packet/send.rs:319-327 | takes exactly what fits behind what is there and returns the rest |
| DatagramBuffer.PacketBuffer.Skip | src/packet/send.rs:329-333 | advances the length like an append without storing |
| DatagramBuffer.PacketBuffer.Next | src/packet/send.rs:309-313 | a full buffer becomes the empty next part of the same packet |
| DatagramBuffer.PacketBuffer.NewNext | src/packet/send.rs:335-344 | a fresh buffer for the next part; the old one is untouched |
| DatagramBuffer.PacketBuffer.IncSeqIndex | src/packet/send.rs:346-352 | the little-endian index in the header grows by one and nothing else in the header changes |
| DatagramBuffer.PacketBuffer.MarkLast | src/packet/send.rs:315-317 | the buffer becomes the last part with the same id, index and payload |
| Serialize.VecPacketSerializer.Write | src/packet/serialize.rs:84-100 | succeeds iff everything written so far needs at most the allowed chunks; buffer i then holds piece i of it, and on overflow exactly the first full pieces are kept |
| Serialize.SyncSender.Send | src/packet/serialize.rs:45-48 | a datagram goes into the channel iff the receiver is still there |
| Serialize.ChannelPacketSerializer.Write | src/packet/serialize.rs:120-139 | what went into the channel is the finished pieces in order, those of the first pass skipped; fails iff the receiver takes fewer pieces than are finished, and then all it takes went in; every buffer passed to `next` is full |
| Serialize.SerializeInMemory | src/packet/serialize.rs:24-40 | all datagrams of the stream iff they are at most the threshold, else the first full ones |
| Serialize.PassOn | src/packet/serialize.rs:43-48 | the datagrams of the first pass go into the channel unless the receiver is dropped before |
| Serialize.SecondPass | src/packet/serialize.rs:50-60 | writes the whole stream once more, or stops with exactly what the receiver takes |
| Serialize.SerializeInBackground | src/packet/serialize.rs:42-61 | what goes into the channel is all datagrams of the stream, or exactly as many of the first ones as the receiver takes before it is dropped; the skip count ends at zero |
| Serialize.SerializePacket | src/packet/serialize.rs:19-63 | for every threshold and every cut into write calls the result is plain chunking of the bytes, in memory iff the chunks are within the threshold |
| Sockets.Socket.Send | src/packet.rs:759-765 | one attempt uses up one outcome and logs the datagram iff it was accepted |
| SendRefinement.OpenIsAscending | src/packet/send.rs:232-248 | the reference enumeration holds exactly the unacked indices, ascending |
| SendRefinement.FillKeepsWindow | src/packet/send.rs:232-242 | pulling from the channel keeps deque plus channel equal to the list and the acked set, and stops with enough unacked packets or an exhausted channel |
| SendRefinement.FillPullsNoMore | src/packet/send.rs:232-242 | pulling stops at the batch size, and nothing is pulled if enough unacked packets are there |
| SendRefinement.BatchIsLowestOpen | src/packet/send.rs:232-248 | every batch is the lowest-numbered unacked datagrams of the whole list, in order, up to the batch size |
| SendRefinement.EmptyBatchMeansAllAcked | src/packet/send.rs:211-216 | a batch is empty iff all datagrams are acked, iff the deque is empty and the channel exhausted |
| SendRefinement.AckPositionAcksOne | src/packet/send.rs:251-269 | marking a position acks the index `first_unacked` plus position, drains only acked entries and keeps the front unacked |
| SendRefinement.DocumentedAckIsExact | src/packet/send.rs:182-193 | with the documented offset an ack acks exactly its index, is a duplicate iff it was acked, and an error iff it is beyond what was loaded |
| SendRefinement.AsBuiltAckIsShifted | src/packet/send.rs:250-269 | as built an ack acks the index `first_unacked` further on and is an error iff it is at least the length of the deque |
| SendRefinement.AckAgreesExactly | src/packet/send.rs:250-269 | the two lookups agree on an ack iff nothing was drained, or the index is beyond what was loaded, or the wrong entry happens to be acked as well as the right one |
| Send.PacketQueue.PullUnacked | src/packet/send.rs:232-248 | one at a time from the channel; new state and batch are those of the specification |
| Send.PacketQueue.SendUnacked | src/packet/send.rs:217-230 | the accepted prefix of the batch is on the socket; the result counts it and tells whether nothing would have blocked |
| Send.PacketQueue.Ack | src/packet/send.rs:251-269 | new state and result are those of the specification, for either lookup |
| Send.PacketOut.Start | src/packet/send.rs:49-64 | state and datagrams of the first batch, nothing on a hard error |
| Send.PacketOut.Ack | src/packet/send.rs:67-76 | missed acks reset by every ack, fresh acks counted up to the width of the counter |
| Send.PacketOut.SendPending | src/packet/send.rs:82-110 | new state, result, datagrams and socket use of a resend round, `Done` for a canceled or fully acked packet |
| Send.PacketOut.Cancel | src/packet/send.rs:115-117 | only `last_send` is cleared |
| Pacing.StartsExactly | src/packet/send.rs:49-64 | the first batch is the first datagrams up to the first that is not accepted; a hard error keeps nothing, a blocked send leaves no time of a last send, and the counters start as stated |
| Pacing.EarlyResendDoesNothing | src/packet/send.rs:92-94 | before the resend delay has passed since the last send nothing changes and the socket is not used |
| Pacing.DueResendGoesOut | src/packet/send.rs:96-109 | once the delay has passed: the lowest unacked datagrams up to the first that is not accepted, the missing acks of the last batch counted, the time and the counters set, or all left alone by a hard error; `Done` is tried if nothing is left |
| Pacing.DueResendSends | src/packet/send.rs:96-109 | with something unacked and nothing blocking, a due resend puts parts on the socket and sets the time |
| Pacing.BatchSizeFollows | src/packet/send.rs:149-178 | a fully acked last batch of k allows up to 2k, capped at 65535, and never lowers the size; otherwise it is halved, but at least one |
| Pacing.CanceledTriesDone | src/packet/send.rs:112-117 | a canceled packet only tries `Done`, at any time and whatever is acked |
| Pacing.ResendsAreSpaced | src/packet/send.rs:92-94 | in every run a resend that puts parts on the network comes at least its delay after every earlier send of the packet that hit no hard error, unless the clock goes back |
| SendRefinement.LookupsAgree | src/packet/send.rs:250-269 | in a packet of at most one datagram an ack of what is not acked is treated alike by both lookups |
| SendLaws.QueueRefinesList | src/packet/send.rs:195-270 | with the documented offset, for all operations that ack only what the queue sent, the queue shows the same datagrams and results as a plain list with an acked set, whatever has been pulled |
| SendLaws.QueuesAgree | src/packet/send.rs:232-270 | with an exact lookup two queues with the same acked set show the same for all such operations, whatever each has pulled |
| SendLaws.AckedTwiceShows | src/packet/send.rs:250-269 | as built, for every non-empty packet: one datagram sent and acked twice is an error on the lazy queue and a duplicate for the list; with two or more datagrams in memory it acks the next one |
| SendLaws.RefinesExactly | src/packet/send.rs:195-270 | the channel-backed queue shows what the list shows, for all operations that ack only what it sent, iff the offset is used or the packet is empty |
| SendLaws.LazinessHiddenExactly | src/packet/send.rs:196-209 | a channel-backed queue and one in memory show the same, for all operations that ack only what was sent, iff the offset is used or there is at most one datagram |
| SendLaws.AckConserves | src/packet/send.rs:251-269 | a fresh ack takes exactly one off the pending packets, other acks none |
| SendLaws.AcksAreConserved | src/packet/send.rs:33-45 | between two sends pending now plus fresh acks equals pending after the send, and the counter is the fresh acks up to 65535 |
| SendLaws.RunKeepsAccount | src/packet/send.rs:66-110 | in every run the last batch is covered by its acks plus what is pending |
| SendLaws.AckedPacketIsNeverSlowed | src/packet/send.rs:149-178 | in every run a fully acked packet has at least as many acks as its last batch, so the batch size is cut only while something is pending |
| Transfer.LosslessRoundAcks | src/packet/send.rs:82-110 | with an exact lookup (the offset, or at most one datagram) a round without loss acks exactly the next stretch, whatever the order of the acks |
| Transfer.GrowthLaw | src/packet/send.rs:149-178 | with an exact lookup, without loss, the first batch and k more rounds ack exactly the first min(n, b(2^(k+1)-1)) datagrams while b 2^k fits `u16` |
| Transfer.TransferFinishes | src/packet/send.rs:78-110 | with an exact lookup, without loss, the due send after at most n rounds is `Done` |
| AsBuiltTransfers.NeverFinishes | src/packet/send.rs:250-269 | as built, with two or more datagrams and chunk 0 acked first, no number of rounds without loss acks chunk 1, no send after them finishes the packet, and it stays within every limit of missed acks |
| AsBuiltTransfers.AscendingCourse | src/packet/send.rs:78-110 | every packet has, for every first batch size, a transfer without loss of any length whose acks ascend in every round, from chunk 0 in the first |
| AsBuiltTransfers.TransferFinishesExactly | src/packet/send.rs:250-269 | all transfers without loss, in all ack orders, finish in time iff the offset is used or there is at most one datagram |
| AsBuiltTransfers.GrowthExactly | src/packet/send.rs:250-269 | the growth equation holds in all transfers without loss iff the offset is used or there is at most one datagram |
| Transfer.SilenceMisses | src/packet/send.rs:99-108 | every unanswered due resend adds at least one missed ack, but for the first after a fully acked batch |
| Transfer.SilenceExceedsLimit | src/packet/send.rs:99-108 | after `max_missed_acks + 1` unanswered resends, one more after a fully acked batch, more acks are missed than the limit |
| Updates.SilentPeerIsDropped | src/packet.rs:494-498 | the update after that many unanswered resends drops the packet of a silent peer, whatever else it does |
| Updates.KeepsWithinLimit | src/packet.rs:494-498 | the timeout keeps exactly the packets with at most the limit of missed acks, unchanged; without a limit all |
| Updates.KeepsHeardOf | src/packet.rs:677-680 | the timeout keeps exactly the entries last heard of less than the timeout ago, unchanged; without a timeout all |
| Updates.DroppedExactly | src/packet.rs:295-305 | an update drops a packet for missed acks beyond the limit, and otherwise only if its `Done` went out in this pass |
| Updates.AverageIsExact | src/packet.rs:448-472 | a pass over no packets leaves the batch size for new ones; otherwise it is the average of the sizes before the pass, rounded down, over all packets, those after an error included |
| Transfer.SilenceHalves | src/packet/send.rs:168-177 | every unanswered resend halves the batch size |
| Transfer.HalvedIsQuotient | src/packet/send.rs:168-177 | k cuts divide the batch size by 2^k rounded down, never below one |
| Transfer.MissedAcksCountResendsExactly | src/config.rs:14-15 | missed acks equal the number of resends for all silent runs iff the first batch is a single datagram; the first resend counts the whole first batch |
| Transfer.BlockedFirstBatchCancels | src/packet/send.rs:49-64 | a new packet counts as canceled iff its first batch would block, iff the next round finishes it |
| Receive.ReassembledPacket.Receive | src/packet/receive.rs:28-70 | new fields and outcome are those of the specification, the overflow and underflow cases included |
| ReassemblyLaws.FreshChunkIsAdded | src/packet/receive.rs:38-54 | a new chunk adds exactly itself to the set the window stands for, and the window starts at the first block of 256 that is not complete |
| ReassemblyLaws.KnownChunkIsRejected | src/packet/receive.rs:38-46 | a known chunk changes nothing but the known end; it is a duplicate, or underflows iff there is no guard and its block and all before it are complete |
| ReassemblyLaws.ArrivalFollowsSet | src/packet/receive.rs:28-70 | the set of received chunks alone decides the outcome of an arrival, and the state stays consistent |
| ReassemblyLaws.CompletionIsExact | src/packet/receive.rs:63-69 | in any order with any duplicates, up to a panic and with the guard throughout, reassembled comes exactly with the last missing chunk and carries the concatenation of the chunks |
| ReassemblyLaws.ReassembledOnce | src/packet/receive.rs:44-46 | after reassembled every further arrival is a duplicate or underflows |
| ReassemblyLaws.UnderflowExactly | src/packet/receive.rs:38-39 | no order of arrival underflows iff there is a guard or the packet has fewer than 256 chunks |
| ReassemblyLaws.LateDuplicateUnderflows | src/packet/receive.rs:38-39 | without a guard the first 256 chunks in order and the first one again panic |
| ReassemblyLaws.OverflowExactly | src/packet/receive.rs:15-20 | no order without duplicates overflows a counter iff the packet has fewer than 2^32 chunks |
| BufferSpec.SweepIsPerPacket | src/packet.rs:448-472 | a pass gives every packet its own resend step, with the socket where the packets before it left it, and removes it iff it finished; the packets after the first error in the order are untouched and nothing is sent for them |
| BufferSpec.SweepAddsOnly | src/packet.rs:448-472 | a pass changes no packet outside its order, takes back no datagram, and does nothing once it has failed |
| BufferSpec.AverageIsBetween | src/packet.rs:467-470 | the batch size for new packets lies between the smallest and the largest of the pass |
| Buffers.ReceivePacketBuffer.ReceivePart | src/packet.rs:611-661 | map, outcome and ack of a part, for single and several chunks, mismatches and hard errors |
| Buffers.ReceivePacketBuffer.Done | src/packet.rs:668-670 | the id is forgotten and reported as known iff it was |
| Buffers.ReceivePacketBuffer.Handle | src/packet.rs:557-608 | dispatch of a datagram at the receiving buffer |
| Buffers.ReceivePacketBuffer.TimeoutPackets | src/packet.rs:677-680 | exactly the entries heard of within the timeout stay |
| Buffers.SendPacketBuffer.Handle | src/packet.rs:389-426 | dispatch of a datagram at the sending buffer |
| Buffers.SendPacketBuffer.Ack | src/packet.rs:486-492 | only the packet of the id changes; an unknown id is an error |
| Buffers.SendPacketBuffer.Send | src/packet.rs:429-445 | the serialized packet is started with the current batch size and stored unless the socket failed |
| Buffers.SendPacketBuffer.SendPending | src/packet.rs:448-472 | the whole pass: packets, datagrams, error and the average batch size |
| Buffers.SendPacketBuffer.TimeoutPackets | src/packet.rs:495-498 | exactly the packets within the limit of missed acks stay |
| Buffers.PacketBuffers.Handle | src/packet.rs:307-332 | at most one of the two buffers claims a datagram, the other is left as it was, and what neither claims is reported; a done forgets its id and is known iff the id was |
| Handling.MismatchExactly | src/packet.rs:611-661 | a part is a mismatch iff it and the entry of its id disagree on being a single chunk; it is then neither stored nor acked, and no part changes another entry |
| Handling.AnsweredExactly | src/packet.rs:611-661 | any part that fits is acked if the socket takes it, and an error iff the socket fails |
| Handling.DoneIsReported | src/packet.rs:594-596 | what starts with a printed done forgets that id only and is reported as known iff it was |
| Handling.AckIsHandled | src/packet.rs:486-492 | what starts with a printed ack changes the packet of its id only; an unknown id is reported |
| Handling.ShortOrForeign | src/packet.rs:389-426 | short datagrams of a handled kind are malformed and change nothing, other kinds are left alone |
| Handling.StoredUnlessFailed | src/packet.rs:429-445 | a new packet is stored under its id unless the socket failed |
| Buffers.PacketBuffers.Update | src/packet.rs:295-305 | timeouts first, then one pass over what is left |
| Passes.UpdateIsRun | src/packet.rs:295-305 | an update has the effect of a run of the protocol, in packets and datagrams: the timeout and one resend for each packet up to the first error |
| Passes.HandleIsStep | src/packet.rs:307-332 | handling a datagram from the network is the matching step: at the receiver its entries and its answer, or a panic; at the sender its packets; never both |
| ProtocolBase.PartFollowsSet | src/packet.rs:611-661 | the outcome of a genuine part is decided by the set of chunks received, in the single-chunk and the multi-chunk form alike; it is never a mismatch and touches no other id |
| ProtocolBase.PartRefreshesEntry | src/packet.rs:619-648 | an entry survives the timeout counted from its last part, or from its creation for a packet of a single chunk |
| ProtocolSteps.StepKeepsBase | src/packet.rs:276-350 | every action keeps all datagrams genuine and both parties consistent with the streams that were serialized |
| ProtocolSteps.Integrity | src/packet.rs:611-661 | in every run every payload that completes under an id is exactly the stream serialized under it |
| ProtocolSafety.AckSoundness | src/packet/send.rs:66-76 | in every run with the offset, and as built for a single chunk, a chunk held as acked is in the receiver's set, unless the packet was canceled or timed out by the receiver |
| ProtocolSafety.DoneSoundness | src/packet.rs:793-799 | in every run with the offset, and as built for a single chunk, `Done` is emitted only after the whole packet has arrived, unless it was canceled or timed out by the receiver |
| ProtocolSafety.NothingIsMalformed | src/packet.rs:389-426 | in every run no datagram on the network is empty or malformed for either party |
| ProtocolSafety.EveryPartIsAnswered | src/packet.rs:611-661 | in every run a part from the network has the outcome the received set demands and is acked, duplicates included, unless it panics |
| ProtocolCounts.AtMostOncePerCreation | src/packet.rs:663-680 | over every stretch of every run in which the receiver does not forget an id, the id completes exactly when the receiver comes to have all of it: at most once, and not at all if it had it all at the start |
| ProtocolCounts.CompletionsAreBounded | src/packet.rs:663-680 | over a whole run an id completes at most once more often than the receiver forgot it |
| AsBuiltAcks.AckOfUnseen | src/packet/send.rs:250-269 | the run of the built code, for any packet of more than one chunk, in which two copies of one ack make the sender hold a chunk as acked that the receiver never got |
| AsBuiltAcks.AckSoundExactly | src/packet/send.rs:250-269 | acks are sound in all runs of a stream iff the offset is used or the stream has at most 491 bytes |
| AsBuiltAcks.DoneTooEarly | src/packet/send.rs:250-269 | the run of the built code, for any packet of more than one chunk, in which copies of one ack make the sender declare it done while the receiver has a single chunk |
| AsBuiltAcks.DoneSoundExactly | src/packet/send.rs:250-269 | `Done` is sound in all runs of a stream iff the offset is used or the stream has at most 491 bytes |
| AsBuiltAcks.NeverAckedBeforeSent | src/packet.rs:737-741 | with the offset no reachable ack is reported as acked before sent |
| AsBuiltAcks.UnsentReportedExactly | src/packet.rs:737-741 | for every stream some run reports an ack before its send iff the lookup is the built one |
| Delivery.EveryPacketCanBeDelivered | src/packet.rs:276-350 | in every variant every packet below 2^32 chunks has a run that hands it over exactly once and ends with its `Done`; as built through copies of the ack of chunk 0 |
| LostPayloads.HandedOverExactly | src/packet.rs:611-661 | in every reachable world an action adds a completion iff it is the arrival of a last missing chunk, and the payload is handed over iff the ack does not fail |
| LostPayloads.AllHandedOverExactly | src/packet.rs:611-661 | in every run all completed payloads are handed over iff at no arrival of a last missing chunk the ack failed |
| LostPayloads.PayloadIsLost | src/packet.rs:626-652 | the run that completes a packet without handing it over and ends with its `Done`, for every variant and stream that allow it |
| LostPayloads.FullBlocksAreNotLost | src/packet/receive.rs:38-39 | with the offset and no guard, a packet of full blocks is done only after its payload was handed over, unless it was canceled or timed out by the receiver |
| LostPayloads.PayloadLostExactly | src/packet.rs:626-652 | some run ends with a completed packet done but never handed over iff there are fewer than 2^32 chunks and the lookup is the built one, or there is a guard, or the chunks do not fill whole blocks of 256 |
| LostPayloads.FullLengthNeverCompletes | src/packet/receive.rs:15-20 | in no run does a packet of 2^32 chunks complete |
| Panics.ReachPanic | src/packet/receive.rs:38-39 | the run that ends in a panic: a late duplicate of a complete block without a guard, or the last of 2^32 chunks |
| Panics.PanicExactly | src/packet/receive.rs:15-39 | some run of a stream panics iff there is no guard and it has 256 chunks or more, or it has 2^32 chunks |
| Progress.ReachDone | src/packet.rs:276-350 | with an exact lookup, from every sound world in which a packet that cannot panic is underway, a continuation completes it and ends with its `Done` |
| Progress.FinishableExactly | src/packet.rs:276-350 | from every reachable world a packet that is neither done, canceled nor timed out by the receiver can be completed and done iff the offset is used or it is a single chunk, and it has fewer than 2^32 chunks with a guard, fewer than 256 without |
| Server.Server.Unlisten | src/net/server.rs:65-78 | removes a listener, refuses a connected client |
| Server.Server.UnlistenAll | src/net/server.rs:80-82 | removes all listeners and nothing else |
| Server.Server.FindClient | src/net/server.rs:151-155 | the slot of an address, if it has one |
| Server.Server.GetOrAddFreeSlot | src/net/server.rs:297-304 | the lowest free slot, appended only if there is none |
| Server.Server.UpdateBuffers | src/net/server.rs:110-131 | every client updated in place, failed ones cleared, unused slots at the end dropped |
| Server.Server.HandleVersionRequest | src/net/server.rs:306-336 | the listener that a version request adds |
| Server.Server.HandleDatagram | src/net/server.rs:134-295 | what one datagram does to listeners and clients |
| Server.Server.SendPings | src/net/server.rs:411-462 | what one ping round does to all slots |
| ServerLaws.EveryRunKeepsTable | src/net/server.rs:31-43 | in every run listeners and clients are disjoint and no address has two slots |
| ServerLaws.SlotStaysThroughRun | src/net/server.rs:37-43 | a client keeps its slot for as long as it stays connected, through truncation and reuse of slots |
| ServerLaws.ClearedOnlyByItsOwn | src/net/server.rs:110-128 | a slot is cleared only by the client's own failed update, its own ping, or its own datagram |
| ServerLaws.UpdateReachesEveryClient | src/net/server.rs:110-131 | an update changes each client's buffers in its slot and drops only unused slots |
| ServerLaws.DisconnectedExactly | src/net/server.rs:187-222 | a client is moved back to the listeners iff it asks to connect or disconnect, or the answer to its query fails |
| ServerLaws.AcceptedExactly | src/net/server.rs:249-268 | a listener becomes a client iff it is accepted and the acceptance is sent; it takes the lowest free slot with a fresh ping state |
| ServerLaws.ListenerIsAnswered | src/net/server.rs:224-290 | from a listener a query and every connect, accepted or rejected, are answered through its buffers and nothing else is; only an accepted connect whose answer went out makes it a client |
| ServerLaws.ClientIsAnswered | src/net/server.rs:180-222 | from a client only a query is answered; it becomes a listener again, with its buffers, iff it connects, disconnects or its answer fails |
| ServerLaws.PongExactly | src/net/server.rs:158-178 | a ping answer counts iff a client names its ping on its way; it then resets the missed pongs at this time, and does nothing otherwise |
| ServerLaws.UnlistenExactly | src/net/server.rs:65-82 | `true` iff it was a listener, an error iff it is only a connected client; the listener is gone and nothing else changed |
| ServerLaws.ListensExactly | src/net/server.rs:306-327 | after a version request an unconnected address listens iff it did or the answer went out |
| ServerLaws.ListenerLeavesOnly | src/net/server.rs:65-82 | a listener leaves only by being unlistened or accepted |
| ServerLaws.ArrivalMovesBuffersIntact | src/net/server.rs:219-222 | a datagram changes the buffers of its sender only by handling and answering it, whether the client moves between the tables or not, and no others |
| ServerLaws.StepMovesBuffers | src/net/server.rs:65-131 | for every event: the buffers of an address after it, touched only by its own update, its own datagram, its own version request or its removal |
| ServerLaws.UntouchedBuffersStay | src/net/server.rs:31-43 | over every run in which nothing touches them, the buffers of an address are as they were, or gone with it |
| Pings.MissedPongsIsExact | src/net/server.rs:735-738 | in every history of a connection the counter is the number of pings that went out and expired unanswered since the last valid answer or the connection |
| Pings.ClearedExactly | src/net/server.rs:423-460 | the ping round clears a slot iff the client times out or the socket fails |
| Pings.NoEarlyTimeout | src/config.rs:53-60 | in every history of a connection no client is timed out earlier than `max_missed_pongs + 1` delays after its last valid answer or its connection |
| Pings.TimeoutBoundIsTight | src/config.rs:53-60 | a client that never answers is timed out at exactly that time |
| Pings.TableVisitIsCheck | src/net/server.rs:411-462 | a ping round over the table is a check of every client on its own |
| Pings.ArrivalIsAnswer | src/net/server.rs:158-178 | a datagram changes the ping state of a client that stays only as an answer of that client |
| PingTable.StepTracks | src/net/server.rs:110-131 | every event of the table, updates, version requests and unlistening included, does to the pings of a client that stays connected just what its own check or answer does |
| PingTable.EntersFresh | src/net/server.rs:249-268 | whoever becomes connected in a step does so by a datagram of its own, with a fresh ping state |
| PingTable.MissedPongsInTable | src/net/server.rs:735-738 | in every run of the server, for every client from its acceptance on, the counter is the number of pings that went out to it and expired unanswered since its last valid answer or its acceptance |
| PingTable.NoEarlyTimeoutInTable | src/config.rs:53-60 | in every run of the server no client is timed out earlier than `max_missed_pongs + 1` delays after its last valid answer or its acceptance |

## Left out

- rkyv archiving and validation: a packet is an arbitrary sequence of write calls; both passes make the same ones.
- Threads and blocking of the rendezvous channel: the channel is a queue with an end, and a receiver takes all or so many datagrams.
- UDP sockets, address resolution and operating-system errors: outcomes of sends and the set of datagrams replace them.
- UUID generation: a new packet id is one that was not used before; ping ids are arbitrary.
- Memory: allocation for chunks with very large indices always succeeds.
- `usize` counters (`missed_acks`, `missed_pongs`, the sum of batch sizes in a pass): unbounded numbers, without saturation.
- SerializePacket: asks for at most 2^32 chunks, since beyond that the sequence index overflows.
- Buffers.SendPacketBuffer.SendPending: the pass may visit the packets in any order without repetition, of which the order of ids in the map is one.
- AtMostOncePerCreation: a second delivery after the receiver forgot an id is possible, since delayed parts can create it again.
- Protocol runs: one direction of a connection; the other one is the same with the parties exchanged, and no datagram is claimed by both buffers of a party.
- PacketBuffer: the `acked` flag of a buffer is kept beside its finished datagram in the deque, not in the class.
- Server: one datagram per call instead of the receive loop; packet buffers are an arbitrary type with arbitrary results; handler callbacks and version contents are not modelled.
- src/net/client.rs: its rule that the connected server is the first entry is not kept by its own `connect`, so nothing deep holds of it.
- Update packets, `stats`, throughput, `Debug` output, examples: unimplemented or without state.
