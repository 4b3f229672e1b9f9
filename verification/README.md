# The protocol and audio core of the TeamSpeak client libraries

This project models the parts of the repository whose correctness depends on many steps playing
together, and proves what they keep. `dafny verify dfyconfig.toml` checks all of it.

The centre is the **reliable, ordered command channel** of `tsproto`: commands are compressed, split
into packets of at most 500 bytes, numbered with 16-bit ids and 32-bit generations, kept by the
sender until they are acknowledged, sent over a network that may lose, delay, duplicate and reorder
them, put back in order by the receiver and reassembled. `Protocol` composes the sender, the network
and the receiver into a state machine and proves, for every run, that nothing is lost and that what
is delivered is a prefix of what was submitted. `Session` puts the resender, with its heap, cursors and
poll loop, in the place of the abstract sender of both channels, and proves that every session is a run
of the protocol. `Stall` and `StallRun` prove that such a session can nevertheless come to a standstill.

| file | what it models |
|---|---|
| `PacketIds.dfy` | packet ids, their arithmetic and order, the receive window, tracking of the next expected id |
| `KeyCache.dfy` | derivation of the key of a packet, with its cache |
| `Fragments.dfy` | compressing and splitting a command, and the receiver's fragment buffer |
| `Numbering.dfy` | numbering of pieces, the keys they are filed under, which record an acknowledgement names |
| `Receiver.dfy`, `Reorder.dfy` | the receiver's loop over packets and its reorder queue |
| `Stream.dfy` | what the receiver does to a numbered stream, of which any packet may arrive any number of times |
| `Protocol.dfy`, `Announcements.dfy` | both parties and the network, invariants over every run, what acknowledgements mean |
| `Scenarios.dfy`, `Limits.dfy` | runs written out, and where the promises of the protocol end: the exact in-flight bound, false announcements, blocked and late acknowledgements |
| `Resend.dfy` | the queues of the resender: records by id, the heap, the cursors, and the poll loop |
| `ResendRuns.dfy`, `ResendLimits.dfy` | runs of the resender, wraps of the ids included, what polling achieves, and runs in which the last id of a generation is overtaken, starves, or is queued twice |
| `FillOrder.dfy` | which records of several types the heap takes |
| `Session.dfy` | both channels with the resender as their sender |
| `Stall.dfy`, `StallRun.dfy` | how a channel comes to a standstill, and a session in which it does |
| `ChannelOrder.dfy` | the list of channels, stored as "the channel above me" |
| `SlidingWindow.dfy`, `JitterQueue.dfy` | the audio queue: sliding minimum, insertion, sample accounts, playback |
| `Commands.dfy` | the text format of commands: parser and writer |
| `BigEndian.dfy`, `Voice.dfy` | voice packets: printer and parser |
| `License.dfy`, `LicenseBytes.dfy` | license chains: parser and builder, and what both mean for the bytes |
| `Wrappers.dfy` | bytes, directions, `Option`, `Result` |

## How the model is built

Objects that the program changes in place are classes, and each of their methods is proved equal to a
function of the old state; the properties are lemmas about these functions. Calls into code that is
not modelled are parameters: the QuickLZ pair (`QuickLz`, inverse where a round trip needs it), the
hash of the key derivation, and the opus decoder (any results at all, for any sequence of calls). The
position of a heap entry, and which of several matches a hash map yields first, are left open, so the
proofs hold for every order. Clock, congestion window, socket and timers are inputs of each round.

The proofs about the channel use unbounded packet numbers: `generation * 65536 + id`. A step of the
network delivers any packet that was ever sent, at any time and any number of times.

## Hypotheses of the theorems about runs

A run may lose, delay, reorder and duplicate packets and acknowledgements at will, with these limits:

* Copies of packets that wait in the receiver's queue may arrive again and again. When the next packet
  of the stream arrives, the copies must be `InOrder` (`Enabled`, case `Deliver`): no copy that is left
  from a cycle of ids ago stands in front of the packet with the same id that is to be released. The
  queue is never searched for duplicates (tsproto/src/packet_codec.rs:346), so such a copy would be
  taken. The condition is exact: `RunRightExactly` proves that a packet releases the right stretch of
  the stream if and only if it holds. It always holds in the first cycle (`FirstCycleIsInOrder`) and
  while no copy is a cycle old (`FreshIsInOrder`). `DuplicateIsDeliveredAgain` is an input where it
  fails.
* An acknowledgement names one packet with 16 bits. It may arrive at any time when no record of
  another packet with the same 16 bits lies within a cycle of the first record (`Enabled`, case
  `Acknowledge`). The condition is exact: `AckRemovesOnlyOwnExactly`. `AmbiguousAckLoses` proves that
  a packet is lost where it fails, and `LateAckLoses` is a run that leads there. However many records
  there are, the acknowledgement of the first is never excluded (`FirstAckIsNeverAmbiguous`).
* A record is transmitted if at most 32568 records are numbered up to it. The bound is exact:
  `InFlightBoundIsExact` gives, for 32569 records, a run after which the packet is half a cycle ahead of
  the receiver, and `FarTransmissionLoses` proves that it is then acknowledged unread and lost. The
  window of the source may reach 32767 (tsproto/src/resend.rs:620-633), which is too much. For sessions
  this is no hypothesis: `SessionIsProtocolRun` proves that with windows of at most 32567 whatever the
  resender sends meets it.
* For the resender (`Moves`): the numbers of the packets of a command type increase, and the clock does
  not run backwards. Runs cross the last id of a generation, where the keys do not increase.
* Packet numbers stay below 2^48, and commands fit the limits of the receiver (`Sendable`).
* Packets are authentic: one whose generation the receiver does not guess is rejected. Each of the two
  command types is one instance of the model.

## What does not hold, and exactly when

* A sender announces "every id up to X is acknowledged". `AnnouncementTrueExactly`: this is true if
  and only if the oldest record that remains is not the last id of a generation. The reason is that
  the generation is read after the increment (tsproto/src/packet_codec.rs:452-456), which files id
  65535 one generation too high. `FalseAnnouncement` is a state in which it is false. For the same
  reason an acknowledgement of id 65535 has no effect while the oldest record is of the same generation
  (`AckTakesEffectExactly`, with the state `BlockedAck`).
* For the same reason the packet after the last id of a generation is filed below it. That lowers the
  cursor and puts the last id into the send queue twice (`LastIdIsFiledAboveItsSuccessor`,
  `LoweredCursorQueuesTwice`, and the run `LastIdIsQueuedTwice`; `InsertKeepsValidExactly` is the exact
  condition). What polling promises survives this (`RunKeepsInv`), but three things do not:
  * Packets are not always sent in the order of their numbers. `FirstSendsInOrderExactly`: when a packet
    is sent for the first time, all below it were sent before if and only if it is the last id of its
    generation itself, or that one does not wait unsent. `LastIdIsOvertaken` is a run in which packet
    65536 is sent and packet 65535 was not.
  * The record with the lowest number may stay outside the send queue. `OldestIsTakenExactly`: it is in a
    rebuilt queue if and only if fewer records than the window enter before it, and of its own type only
    the successors of the last id of a generation do. `StarvingRun` and `LastIdStarves` are a run in which
    that one is never sent, and all its continuations until an acknowledgement arrives.
  * A channel may come to a standstill. `StallStays`: when the packet the receiver waits for was never sent
    and is not in the heap, and as many records as the window holds lie below it that the receiver refuses
    before that packet, then nothing further is delivered, whatever is sent, arrives or is acknowledged,
    while the window does not grow. `StallingSession` is a session that gets there without any loss.
    Then only the timeout of the connection ends it.
* An acknowledgement means that the packet arrived, within a cycle of ids, if and only if the packet
  was less than half a cycle ahead of the receiver (`AckMeansReceivedExactly`).
* The difference of two ids is one short for every generation crossed (`DiffExactWithinGeneration`).
* A command whose first pieces exceed the fragment buffer is lost; `ReassemblyUndoesSplit` states the
  bound exactly.
* In a release build `AudioQueue.GetNextData` panics if and only if it is not buffering and the position
  read so far lies behind the end of the buffer, which only a call that failed or ended the stream
  leaves behind, or the decoder returns no frame. In a debug build it also asserts that the packet it
  takes is less than 50 ids ahead (tsclientlib/src/audio.rs:387-392). A packet exactly 50 ahead is
  accepted and fails that assertion when it is the only one (`AssertionFailsExactly`).
* A voice packet that was accepted may never be played, even if it is next: apart from a queue that is cut
  because it is far too long, and from the end of the stream, the packet behind a gap is dropped when the
  decoder fails to make up for the missing one (tsclientlib/src/audio.rs:376-402 takes it from the queue
  and puts it back only after the call). Every other accepted packet that left the queue was given to the
  decoder exactly once, in order (`GetNextData`).
* A client voice packet of 3 or 4 bytes with an unknown codec panics while the error is built
  (`BadCodecPanics`). Voice data is carried unless a list has more than 255 entries, or the new
  whisper form has no data (`VoiceRoundTrip`).
* A written command that begins with a part separator does not give back its name (`RoundTrip`).
* Adding or moving a channel keeps one chain per parent if and only if the new order is 0 or another
  child of the parent (`AddKeepsChainsExactly`, `MoveKeepsChainsExactly`). A channel that is added
  while its id is in the map must also have no channel below it, or keep its place: its former place
  is not closed.
* A time reads back from a license block if and only if it lies within 2^32 seconds of the offset
  (`TimeReadsBackExactly`).

## Model

| member | source | states |
|---|---|---|
| PacketIds.OrderIsNumeric | tsproto/src/resend.rs:269-279 | the lexicographic order of ids is the order of the numbers they stand for |
| PacketIds.AddSubExact | tsproto/src/resend.rs:281-309 | adding and subtracting are exact modulo 2^48 and undo each other |
| PacketIds.DiffExactWithinGeneration | tsproto/src/resend.rs:311-319 | the difference of two ids is their distance exactly within one generation |
| PacketIds.WindowAcceptsHalfCycle | tsproto/src/connection.rs:189-209 | the receive window accepts exactly the ids less than 32767 ahead, going around the cycle |
| PacketIds.WindowRecoversGeneration | tsproto/src/connection.rs:189-209 | for every number in [N-32769, N+32767) the window finds its generation from 16 bits, and accepts it if and only if it is not below N |
| PacketIds.RangeIsOneCycle | tsproto/src/connection.rs:189-209 | each 16-bit id stands for exactly one number of that range |
| PacketIds.TrackedIdIsLastPlusOne | tsproto/src/packet_codec.rs:177-183 | over a whole run of packets in range, the tracked id is one past the last packet that counts |
| KeyCache.CacheIsTransparent | tsproto/src/algorithms.rs:115-146 | for every run of calls with generations below the reserved one, the cached key is the computed one |
| KeyCache.KeyAgreement | tsproto/src/algorithms.rs:115-146 | for every packet in range the receiver derives the key the sender used, across wraps of the id |
| KeyCache.MessageBytes | tsproto/src/algorithms.rs:123-133 | the 70 hashed bytes: 0x31 from the client and 0x30 from the server, the type, four bytes of generation, the iv |
| KeyCache.MessageInjective | tsproto/src/algorithms.rs:123-133 | equal messages have equal direction, type, generation and iv |
| KeyCache.MixIdBytes | tsproto/src/algorithms.rs:142-145 | bytes 0 and 1 of the key are xored with the high and the low byte of the id, all else stays, and no two ids have the same key |
| KeyCache.Cache.CreateKeyNonce | tsproto/src/algorithms.rs:115-146 | the method on the array of cached keys gives the key of the message with the id mixed in, and refreshes one slot only |
| Fragments.SplitData | tsproto/src/algorithms.rs:74-87 | the loop yields the chunks of the data |
| Fragments.CompressAndSplit | tsproto/src/algorithms.rs:46-113 | the method yields the pieces of the splitting function: content, flags and type of each |
| Fragments.ChunksCover | tsproto/src/algorithms.rs:74-87 | chunks concatenate to the data, all but the last are full, and their number is the ceiling of the division |
| Fragments.SplitFitsAndCovers | tsproto/src/algorithms.rs:46-113 | every piece of a command is at most 500 bytes, they concatenate to the payload, exactly the first and last of several are marked |
| Fragments.SendsTheShorter | tsproto/src/algorithms.rs:46-113 | content that does not fit is sent compressed if and only if that is not longer; the number of pieces is the ceiling for the shorter form, and the flags of every piece are exact |
| Fragments.FeedFailsExactly | tsproto/src/packet_codec.rs:276-324 | when a fragment completes a command, and when it fails for which reason |
| Fragments.ReassemblyUndoesSplit | tsproto/src/packet_codec.rs:276-324 | the fragment buffer and decompression give back the command and leave the buffer empty, if and only if the buffer limit admits it |
| Fragments.ReassembleAll | tsproto/src/packet_codec.rs:276-324 | any list of sendable commands, one after the other, is given back |
| Fragments.PrefixDelivered | tsproto/src/packet_codec.rs:276-324 | any prefix of their packets gives a prefix of the commands |
| Numbering.Encoder.Number | tsproto/src/packet_codec.rs:426-460 | pieces get consecutive ids, each filed under the generation after the increment |
| Numbering.Encoder.EncodePacket | tsproto/src/packet_codec.rs:354-460 | encoding splits the command and numbers its pieces |
| Numbering.PiecesAreNumbered | tsproto/src/packet_codec.rs:426-460 | piece k gets number start + k, and is filed under the key of that number |
| Numbering.NumberInjective | tsproto/src/packet_codec.rs:452-456 | despite the shift of the last id, keys and numbers correspond one to one |
| Receiver.CommandReceiver.HandleCommandPacket | tsproto/src/packet_codec.rs:255-352 | the loop over the queue yields the state and packets of the recursive specification, errors included |
| Reorder.RunIsContiguous | tsproto/src/packet_codec.rs:326-336 | what one packet releases is exactly the contiguous run of ids behind it |
| Reorder.RunIsShort | tsproto/src/packet_codec.rs:326-336 | fewer packets than the queue length are released |
| Reorder.DrainKeepsAll | tsproto/src/packet_codec.rs:326-336 | nothing is lost or made up: released and waiting packets are those that waited |
| Reorder.RestIsWaiting | tsproto/src/packet_codec.rs:326-336 | what is left is distinct, strictly between N and N+200, and N itself does not wait |
| Reorder.HandleIsDrainThenFeed | tsproto/src/packet_codec.rs:255-352 | handling a packet is releasing the run and reassembling it |
| Reorder.OrderKeptUnlessDuplicate | tsproto/src/packet_codec.rs:341-350 | handling a packet keeps the ids in the queue distinct and close if and only if it does not queue a copy |
| Reorder.DuplicateIsDeliveredAgain | tsproto/src/packet_codec.rs:341-350 | a queued copy stays behind, and a cycle of ids later it is delivered instead of another packet |
| Stream.RunRightExactly | tsproto/src/packet_codec.rs:326-350 | the packets released are the next stretch of the stream if and only if, for each id released, the first packet with it in the queue is that of the stream |
| Stream.FreshIsInOrder | tsproto/src/packet_codec.rs:341-350 | that is so for any number of copies of any packets less than a cycle old |
| Stream.FirstCycleIsInOrder | tsproto/src/packet_codec.rs:341-350 | and always in the first cycle of ids |
| Stream.HandleNext | tsproto/src/packet_codec.rs:255-352 | with any copies in the queue, the next packet consumes a stretch of the stream, reassembles exactly that, and takes exactly it from the queue |
| Stream.HandleLater | tsproto/src/packet_codec.rs:341-350 | a later packet, or another copy of one that waits, is queued if it is less than 200 ahead and refused otherwise |
| Stream.NextIsNotQueued | tsproto/src/packet_codec.rs:269-351 | the next packet never waits in the queue, so nothing deliverable waits |
| Stream.OldPacketIsHarmless | tsproto/src/packet_codec.rs:230-247 | a packet that was consumed before changes nothing, and is acknowledged again if and only if it is outside the window |
| Stream.NewPacketIsHandled | tsproto/src/packet_codec.rs:106-131 | a packet in the window is decrypted for the generation it was encrypted for, and handled |
| Stream.ReceiveProgress | tsproto/src/packet_codec.rs:230-352 | whatever packet of the stream arrives, new or a copy, the receiver has consumed and reassembled a longer or the same prefix; the packet is received if and only if it was less than 200 ahead |
| Stream.FarPacketIsLost | tsproto/src/packet_codec.rs:230-247 | a packet half a cycle ahead or more, up to a cycle, is acknowledged, thrown away and not received |
| Stream.AckMeansReceivedExactly | tsproto/src/packet_codec.rs:230-247 | within a cycle, an acknowledged packet is received if and only if it was less than half a cycle ahead |
| Protocol.TransmitStaysInWindow | tsproto/src/resend.rs:708-719 | what the sender transmits is less than half a cycle ahead of the receiver |
| Protocol.FilingKeepsSender | tsproto/src/resend.rs:648-666 | filing the packets of a command keeps every record under the key of its number |
| Protocol.AckRemovesOnlyOwnExactly | tsproto/src/resend.rs:434-461 | an acknowledgement removes no record but that of its packet, if and only if no other record within a cycle of the first one has its 16 bits |
| Protocol.AmbiguousAckLoses | tsproto/src/resend.rs:434-461 | otherwise the record it removes may be the last trace of a packet that has not arrived |
| Protocol.StepKeepsInv | tsproto/src/resend.rs:424-473 | every step of sender, network and receiver, with any duplicates, keeps the invariant of the channel |
| Protocol.NothingIsLost | tsproto/src/resend.rs:424-473 | in every run a packet ever sent has its record, has been consumed, or waits at the receiver |
| Protocol.DeliveredInOrder | tsproto/src/packet_codec.rs:255-352 | in every run the delivered commands are a prefix of the submitted ones |
| Protocol.AckedMeansConsumed | tsproto/src/resend.rs:424-473 | if the first n packets have no record any more, the receiver has consumed them all |
| Protocol.NothingOutstandingMeansAllDelivered | tsproto/src/resend.rs:563-563 | when no record is left, every command has been delivered, the fragment buffer is empty, and only copies are left in the queue |
| Protocol.AllArrivedMeansAllDelivered | tsproto/src/packet_codec.rs:255-352 | in every run: if each packet arrived at least once while it was less than 200 ahead of the next one, in whatever order and however often, every command has been delivered |
| Announcements.AnnouncementTrueExactly | tsproto/src/resend.rs:434-449 | for any number of records, the announced "all up to X" is true if and only if the oldest remaining record is not the last id of a generation; if true the receiver has consumed all up to X |
| Announcements.AnnouncedIsConsumed | tsproto/src/resend.rs:434-449 | in every run, when "all up to X" is announced and the oldest remaining record is not the last id of a generation, the receiver has consumed every packet up to X |
| Announcements.AckTakesEffectExactly | tsproto/src/resend.rs:450-461 | an acknowledgement removes the record of its packet if and only if that lies within a cycle of the first; within a cycle of numbers only the last id of the generation of the first record is left out |
| Announcements.OldestAckTakesEffect | tsproto/src/resend.rs:434-461 | the acknowledgement of the packet with the lowest number removes exactly its record, whatever else is outstanding |
| Announcements.FirstAckIsNeverAmbiguous | tsproto/src/resend.rs:434-461 | with any number of records, the acknowledgement of the first key removes exactly that record |
| Limits.InFlightBoundIsExact | tsproto/src/resend.rs:620-633 | in every state of every run, the packet of a record with at most 32568 records numbered up to it is less than half a cycle ahead of the receiver; no larger bound ensures that |
| Limits.FarTransmissionLoses | tsproto/src/packet_codec.rs:230-247 | a packet sent further ahead is acknowledged unread and its record removed |
| Limits.FalseAnnouncement | tsproto/src/resend.rs:434-449 | a run after which, with packets 65534, 65535 and 65536 outstanding, the acknowledgement of the first announces 65535, for which the receiver still waits |
| Limits.BlockedAck | tsproto/src/resend.rs:450-461 | a run after which, with packets 65534 and 65535 outstanding, the acknowledgement of the second removes nothing |
| Limits.LateAckLoses | tsproto/src/resend.rs:450-461 | a run after which the acknowledgement of packet 5, when it comes again, removes the record of packet 65541, which has not arrived |
| Resend.UrgencyIsTotal | tsproto/src/resend.rs:353-368 | the order of the heap is a total preorder |
| Resend.PickIsUnique | tsproto/src/resend.rs:587-598 | the type that is filled in next is determined: latest submission, then lowest type |
| Resend.PushKeepsValid | tsproto/src/resend.rs:600-603 | putting the next record into the heap keeps: live record in the heap, once and unchanged, if and only if below the cursor |
| Resend.FillUpReachesWindow | tsproto/src/resend.rs:576-615 | filling up keeps every live record below the cursors in the heap, and ends with as many entries as the window or with every live record in the heap |
| Resend.InsertKeepsSound | tsproto/src/resend.rs:658-663 | whatever key a new record has, lowering the cursor leaves every live record below the cursors in the heap |
| Resend.PollKeepsSound | tsproto/src/resend.rs:677-780 | so does every round of the poll loop, also when an id is in the heap twice |
| Resend.RebuildMakesValid | tsproto/src/resend.rs:569-573 | rebuilding any queues makes the cursors exact, and fills the window or takes every live record |
| Resend.InsertKeepsValidExactly | tsproto/src/resend.rs:658-663 | lowering the cursor for a new record keeps the cursors exact if and only if no entry of its type lies at or above it |
| Resend.RemoveKeepsValid | tsproto/src/resend.rs:461-461 | acknowledged records leave the cursors exact |
| Resend.PopKeepsValid | tsproto/src/resend.rs:695-706 | taking a stale entry from the heap leaves the cursors exact |
| Resend.TouchKeepsValid | tsproto/src/resend.rs:752-755 | a resent entry and its record stay equal |
| Resend.PollKeepsValid | tsproto/src/resend.rs:677-780 | every round of the poll loop leaves the cursors exact |
| Resend.PollMeansExactly | tsproto/src/resend.rs:677-780 | a round looks at an unsent or earliest entry: it reports a timeout if and only if that packet is live, due and older than the timeout, waits if it is not due, else sends it, and then entry and record hold the time and one try more; the same for every other outcome |
| ResendRuns.RunKeepsInv | tsproto/src/resend.rs:217-220 | in every state of every run of submissions, acknowledgements and poll rounds, across wraps of the ids, each live record below its cursor is in the heap, an empty heap means that nothing is live, and entries above a cursor are those of the last id of its generation |
| ResendRuns.OrderlyRunKeepsValid | tsproto/src/resend.rs:217-220 | while submissions have increasing keys, the heap holds exactly the records below the cursors, each once |
| ResendRuns.StopMeansNothingDue | tsproto/src/resend.rs:708-719 | when polling stops because the top is not due, no entry, and no live record below the cursors, is unsent or overdue |
| ResendRuns.FirstSendsInOrder | tsproto/src/resend.rs:353-368 | packets of a command type are sent for the first time in the order of their numbers; only the last id filed under the generation of the packet sent may be overtaken |
| ResendRuns.FirstSendsInOrderExactly | tsproto/src/resend.rs:353-368 | when a packet is sent for the first time, all numbered below it were sent before if and only if that last id does not wait unsent, or is the packet itself |
| ResendLimits.LastIdIsOvertaken | tsproto/src/resend.rs:576-615 | a run in which packet 65536 is sent while packet 65535 was never sent |
| ResendRuns.SendsAmongTheOldest | tsproto/src/resend.rs:687-737 | in every run with windows of at most W, what is sent is a live record, and at most W + 1 records of its type have its number or a lower one, W without the last id of the generation |
| ResendRuns.IdleMeansAllAcknowledged | tsproto/src/resend.rs:687-691 | in every run, polling finds the heap empty if and only if nothing is unacknowledged and no entry is left |
| ResendRuns.RebuildTakesLowest | tsproto/src/resend.rs:569-615 | a live record is in a rebuilt heap if and only if fewer live records of its type lie below it than the heap holds of the type |
| FillOrder.RebuildTakesExactly | tsproto/src/resend.rs:569-615 | with records of any types, a live record is in a rebuilt heap if and only if fewer records than the window precede it; one of another type precedes it when that and all before it are newer than some record it has to wait for |
| FillOrder.OldestIsTakenExactly | tsproto/src/resend.rs:569-615 | the same for the record with the lowest number of its type, which of its own type only the successors of the last id of a generation precede |
| ResendRuns.StarvesWhileCrowded | tsproto/src/resend.rs:569-615 | in every run a record outside the heap stays outside while at least as many live records lie below it as the window holds |
| ResendRuns.StarvesUntilAcked | tsproto/src/resend.rs:569-615 | so it does, once that many lie below it, until one is acknowledged or the window grows |
| ResendLimits.LastIdStarves | tsproto/src/resend.rs:569-615 | packet 65535, with the lowest number of all that wait, stays outside the heap in every continuation of a run by poll rounds |
| ResendLimits.StarvingRun | tsproto/src/resend.rs:569-615 | such a run, in which packet 65536 is sent twice and packet 65535 never |
| ResendRuns.LoweredCursorQueuesTwice | tsproto/src/resend.rs:658-664 | a record above the one just sent that is in the heap enters it a second time |
| ResendLimits.LastIdIsQueuedTwice | tsproto/src/resend.rs:658-664 | a run after which packet 65535 is in the heap twice |
| ResendRuns.LastIdIsFiledAboveItsSuccessor | tsproto/src/packet_codec.rs:452-456 | the packet after the last id of a generation is filed below it |
| Session.EventIsProtocolStep | tsproto/src/resend.rs:670-784 | with windows of at most 32567, whatever happens to the resender and the receivers is for each channel nothing or an enabled step of the protocol, and the resender's records stay those of the protocol |
| Session.SentMayBeTransmitted | tsproto/src/resend.rs:708-755 | what a poll round sends is a transmission the protocol enables, of the packet recorded there |
| Session.SessionIsProtocolRun | tsproto/src/resend.rs:670-784 | every session is, at each channel, a run of the protocol, so all that holds of these holds of the resender |
| Session.ResenderLosesNothing | tsproto/src/resend.rs:648-784 | in every session, each packet handed out is in a live record of the resender or has reached the receiver |
| Session.IdleMeansAllDelivered | tsproto/src/resend.rs:687-691 | in every session, when the heap is empty every command of both channels was delivered |
| Stall.StallStays | tsproto/src/resend.rs:576-615 | a stalled channel stays stalled and delivers nothing, whatever happens, while the windows do not grow |
| Stall.StallLasts | tsproto/src/resend.rs:576-615 | the same for the rest of any session |
| StallRun.StallingSession | tsproto/src/resend.rs:576-615 | a session with a window of one packet and no loss that stalls with commands undelivered |
| Resend.Resender.constructor | tsproto/src/resend.rs:383-391 | a new resender has empty queues |
| Resend.Resender.Peek | tsproto/src/resend.rs:577-585 | the iterator of a type stands at its lowest record that is not in the heap |
| Resend.Resender.PickNext | tsproto/src/resend.rs:588-598 | the loop over the types finds the type to fill in next |
| Resend.Resender.FillUpSendQueue | tsproto/src/resend.rs:576-615 | filling up yields exactly the queues of the specification |
| Resend.Resender.RebuildSendQueue | tsproto/src/resend.rs:569-573 | clearing, resetting the cursors and filling up |
| Resend.Resender.SendPacket | tsproto/src/resend.rs:648-667 | a new record with the time and no tries is inserted and all others stay, the cursor is lowered if necessary, and the heap filled up |
| Resend.Resender.AckPacket | tsproto/src/resend.rs:424-473 | exactly the record the acknowledgement names is removed, and what is announced |
| Resend.Resender.PollRound | tsproto/src/resend.rs:677-780 | one round does exactly what `PollMeansExactly` says, in terms of the entry and its record |
| Resend.Resender.PollResend | tsproto/src/resend.rs:670-784 | the loop is a sequence of such rounds, of which only the last does not ask for another, sends the packets of these rounds, and leaves the live records below the cursors in the heap |
| ChannelOrder.SlotIsUnique | utils/ts-bookkeeping/src/data.rs:636-649 | the first match of the scan for a place is the only one: the channel that is there now |
| ChannelOrder.BelowIsUnique | utils/ts-bookkeeping/src/data.rs:610-623 | the first match of the scan for the channel below is the only one |
| ChannelOrder.InsertRefines | utils/ts-bookkeeping/src/data.rs:626-649 | inserting a channel is inserting it into the list of its parent behind the channel named |
| ChannelOrder.DeleteRefines | utils/ts-bookkeeping/src/data.rs:604-624 | removing a channel is deleting it from its list |
| ChannelOrder.MoveIsDeleteThenInsert | utils/ts-bookkeeping/src/data.rs:670-700 | a move changes the channels exactly as a removal and an insertion do |
| ChannelOrder.MoveRefines | utils/ts-bookkeeping/src/data.rs:670-700 | a move, to the same or another parent, is a deletion from one list and an insertion into the other |
| ChannelOrder.AddKeepsChainsExactly | utils/ts-bookkeeping/src/data.rs:278-283 | after adding any channel the orders encode chains if and only if its order is 0 or a sibling and, when its id is in the map already, no channel is below it or its place is the same |
| ChannelOrder.MoveKeepsChainsExactly | utils/ts-bookkeeping/src/data.rs:670-700 | the same for a move, where the channel itself is no place |
| ChannelOrder.SecondInsertDoesNothing | utils/ts-bookkeeping/src/data.rs:651-656 | the scan made for a created channel, and again when it is added, changes nothing the second time |
| ChannelOrder.ChannelTree.ChannelOrderRemove | utils/ts-bookkeeping/src/data.rs:604-624 | one matching channel, if there is one, gets the given order, and nothing else changes |
| ChannelOrder.ChannelTree.ChannelOrderInsert | utils/ts-bookkeeping/src/data.rs:626-649 | one matching channel, if there is one, gets the new channel as its order, and nothing else changes |
| ChannelOrder.ChannelTree.AddChannel | utils/ts-bookkeeping/src/data.rs:278-283 | the scan, then the map insertion; on consistent orders an insertion into the list, and for an id in the map already exactly when the orders stay consistent |
| ChannelOrder.ChannelTree.RemoveChannel | utils/ts-bookkeeping/src/data.rs:284-292 | the map removal, then the scan, for any orders; on consistent orders a deletion from the list |
| ChannelOrder.ChannelTree.ChannelOrderMove | utils/ts-bookkeeping/src/data.rs:670-700 | the steps of a move, and the error for an unknown channel, for any orders |
| ChannelOrder.ChannelTree.MoveChannel | utils/ts-bookkeeping/src/data.rs:658-700 | the steps of a move with the parent set afterwards, for any orders; on consistent orders, and to a place, a deletion and an insertion |
| SlidingWindow.FrontIsMinimum | tsclientlib/src/audio.rs:160-160 | the front of the queue is the minimum of the last values |
| SlidingWindow.SlidingWindowMinimum.Push | tsclientlib/src/audio.rs:143-158 | despite the wrapping clock the queue holds the minima of the window; all pops together are no more than the pushes |
| SlidingWindow.SlidingWindowMinimum.GetMin | tsclientlib/src/audio.rs:160-160 | the minimum of the last `size` values pushed |
| JitterQueue.CloseIsNotBefore | tsclientlib/src/audio.rs:250-261 | near the next id the wrapping comparison of two ids is the comparison of their distances |
| JitterQueue.InsertKeepsConsistent | tsclientlib/src/audio.rs:270-284 | insertion keeps the order of wrapping distances, their bound, the number of packets and the sum of samples |
| JitterQueue.PopKeepsConsistent | tsclientlib/src/audio.rs:377-405 | so does taking the first packet and advancing the next id |
| JitterQueue.DropKeepsConsistent | tsclientlib/src/audio.rs:432-437 | so does throwing packets away |
| JitterQueue.BufferedIsNatural | tsclientlib/src/audio.rs:326-340 | the number of lost packets never underflows |
| JitterQueue.BufferedIsWhatFollows | tsclientlib/src/audio.rs:326-340 | the size of the buffer is what the packets up to the last one will yield, where a missing one counts with the last length |
| JitterQueue.RefusedExactly | tsclientlib/src/audio.rs:229-268 | for each reason when a packet is refused, and when it is taken |
| JitterQueue.BuffersLess | tsclientlib/src/audio.rs:271-280 | the buffering counter goes down by the samples of a packet at the end and by the last length for every id missing before it |
| JitterQueue.FindSlot | tsclientlib/src/audio.rs:254-268 | the scan from the back finds where an id belongs, and a packet with the same id if there is one |
| JitterQueue.SpedUpKeeps | tsclientlib/src/audio.rs:439-452 | a speed-up removes exactly frames 0, 100, 200, ... of the full blocks and keeps all others in order |
| JitterQueue.KeepFrom | tsclientlib/src/audio.rs:422-432 | the packets kept are the longest end of the queue with few enough samples |
| JitterQueue.CutKeepsLongest | tsclientlib/src/audio.rs:421-432 | what a cut keeps is the longest end of the queue with few enough samples |
| JitterQueue.AudioQueue.AddBufferSize | tsclientlib/src/audio.rs:213-220 | a size goes into both windows, or into neither if it does not fit a byte |
| JitterQueue.AudioQueue.GetDeviation | tsclientlib/src/audio.rs:223-227 | the exact spread of the last sizes, which is never negative and fits a byte |
| JitterQueue.AudioQueue.AddPacket | tsclientlib/src/audio.rs:229-284 | a packet is inserted in its place, or refused for the reason stated; the buffering counter |
| JitterQueue.AudioQueue.New | tsclientlib/src/audio.rs:164-207 | a queue starts with its first packet, or is refused |
| JitterQueue.AudioQueue.DecodePacket | tsclientlib/src/audio.rs:286-343 | the decoded samples are appended and the sizes updated with the exact count; on failure zeros stay behind |
| JitterQueue.AudioQueue.DecodeNext | tsclientlib/src/audio.rs:376-410 | the next packet is decoded and used up; the one after a single lost one restores that and stays; else the decoder makes up for the loss; a failure drops the packet |
| JitterQueue.AudioQueue.Truncate | tsclientlib/src/audio.rs:419-437 | only the last packets stay, and the next id is that of the first of them |
| JitterQueue.AudioQueue.SpeedUp | tsclientlib/src/audio.rs:447-451 | the in-place loop does to the last packet what the specification says, every index in bounds |
| JitterQueue.AudioQueue.Adapt | tsclientlib/src/audio.rs:417-453 | the queue is cut if and only if the smallest of the last sizes exceeds 25, and else the packet is sped up if and only if it exceeds their spread |
| JitterQueue.RecordCall | tsclientlib/src/audio.rs:373-453 | a call of the decoder keeps: what it got in turn are the packets given to it, each once, in the order of their turns |
| JitterQueue.AudioQueue.FillTo | tsclientlib/src/audio.rs:373-453 | the loop ends, what it adds to the buffer is what was decoded, and no packet is lost without a reason |
| JitterQueue.AudioQueue.GetNextData | tsclientlib/src/audio.rs:349-457 | decoded samples are returned once and in order, as many as asked for; every packet that left the queue was given to the decoder once, in its turn, or thrown away, dropped or the end for a reason; the queue adapts to the sizes known; exactly when a release build panics, which for a decoder that never returns nothing depends on the state before the call only |
| JitterQueue.AssertionFailsExactly | tsclientlib/src/audio.rs:386-392 | the debug assertion fails exactly for a single packet 50 ids ahead, and such a packet is accepted |
| Commands.UnescapedLength | utils/tsproto-packets/src/commands.rs:122-147 | unescaping shortens a value by one byte for every escape sequence |
| Commands.UnescapeUndoesEscape | utils/tsproto-packets/src/packets.rs:966-984 | unescaping undoes escaping, for any bytes |
| Commands.EscapeTable | utils/tsproto-packets/src/packets.rs:966-984 | the escape sequences of every byte, and what each sequence stands for |
| Commands.Value.DoUnescape | utils/tsproto-packets/src/commands.rs:122-147 | the loop is the recursive unescape |
| Commands.Value.Get | utils/tsproto-packets/src/commands.rs:152-154 | with and without the fast path the value is the unescaped one |
| Commands.NextItem | utils/tsproto-packets/src/commands.rs:66-111 | every item leaves a strictly shorter text, so reading ends |
| Commands.ReadsEndOrPipe | utils/tsproto-packets/src/commands.rs:66-76 | behind white space: the end, or a pipe that starts a new part |
| Commands.ReadsArgument | utils/tsproto-packets/src/commands.rs:77-110 | by position: the name ends at the first space, equals sign or pipe, the value at the first white space or pipe |
| Commands.CommandNameEndsAt | utils/tsproto-packets/src/commands.rs:36-51 | the first byte that is neither digit nor letter ends the name if it is a space, and else there is none |
| Commands.FastPathAgrees | utils/tsproto-packets/src/commands.rs:66-154 | for every argument of every text the fast path and the full unescape agree, and the number of escapes is exact |
| Commands.CommandParser.constructor | utils/tsproto-packets/src/commands.rs:36-51 | the command name is the letters and digits up to a space or the end, else empty |
| Commands.CommandParser.Next | utils/tsproto-packets/src/commands.rs:66-111 | the cursor loops read the item of the specification and stop behind it |
| Commands.ScanValue | utils/tsproto-packets/src/commands.rs:89-106 | where a value ends and how many escape sequences it has |
| Commands.OutCommand.WriteEscaped | utils/tsproto-packets/src/packets.rs:966-984 | the writer appends the escaped bytes |
| Commands.OutCommand.WriteBinArg | utils/tsproto-packets/src/packets.rs:1001-1010 | separator, name and escaped value; no equals sign without a value |
| Commands.OutCommand.WriteArg | utils/tsproto-packets/src/packets.rs:1014-1026 | the same text, by writing the equals sign and taking it back |
| Commands.ReadArgument | utils/tsproto-packets/src/commands.rs:77-110 | an argument is read as it was written, up to the separator behind it |
| Commands.ReadMeansWritten | utils/tsproto-packets/src/commands.rs:152-154 | what is read means the name and value that were written |
| Commands.RoundTrip | utils/tsproto-packets/src/packets.rs:990-1031 | parsing a written command gives back name and items if and only if it does not begin with a part separator |
| BigEndian.BeRoundTrip | utils/tsproto-packets/src/packets.rs:1147-1149 | a number written in n bytes reads back |
| BigEndian.ReadBeInjective | utils/tsproto-packets/src/packets.rs:639-643 | equally many bytes that read as the same number are the same |
| BigEndian.FirstCountsMost | utils/tsproto-packets/src/packets.rs:1147-1149 | the first byte counts most |
| Voice.HeaderByteRoundTrip | utils/tsproto-packets/src/packets.rs:573-579 | flags and type read back from the header byte |
| Voice.HeaderByteBits | utils/tsproto-packets/src/packets.rs:41-46 | the bit of each flag, and the type in the lower half |
| Voice.OutPacket.constructor | utils/tsproto-packets/src/packets.rs:869-880 | an empty packet with the given flags and type |
| Voice.OutPacket.SetFlags | utils/tsproto-packets/src/packets.rs:930-933 | the flags change, the type and all other bytes stay |
| Voice.OutPacket.SetPacketType | utils/tsproto-packets/src/packets.rs:935-938 | the type changes, the flags and all other bytes stay |
| Voice.OutPacket.SetPacketId | utils/tsproto-packets/src/packets.rs:917-919 | bytes 8 and 9 are the id, high byte first; the header byte stays |
| Voice.OutAudio | utils/tsproto-packets/src/packets.rs:1145-1185 | the packet is header and content of the specification; byte 10 or 12 has the type and, for the new whisper form, its flag |
| Voice.VoiceRoundTrip | utils/tsproto-packets/src/packets.rs:639-721 | for all five forms, parsing the printed packet gives the same value if and only if the format can carry it |
| Voice.ContentBytes | utils/tsproto-packets/src/packets.rs:1145-1185 | the bytes of all five forms, by position |
| Voice.ListBytes64 | utils/tsproto-packets/src/packets.rs:1162-1164 | entry k of the list of channels is its eight bytes, first byte high |
| Voice.ListBytes16 | utils/tsproto-packets/src/packets.rs:1165-1167 | entry k of the list of clients is its two bytes |
| Voice.AcceptsExactlyPrinted | utils/tsproto-packets/src/packets.rs:639-721 | under every header, the parser accepts exactly the printed contents of the values that the format can carry and the header announces |
| Voice.RejectedFor | utils/tsproto-packets/src/packets.rs:639-721 | the error for content that is not accepted |
| Voice.HeaderRejectedFor | utils/tsproto-packets/src/packets.rs:275-288 | a packet without the byte at 10 or 12, or with a type above 8 there, is rejected first |
| License.FindZero | tsproto/src/license.rs:359-363 | the first zero, or none |
| License.ReadLicense | tsproto/src/license.rs:336-421 | the length of a block of any type, or the error |
| License.ReadBlock | tsproto/src/license.rs:195-224 | a block whose time in bytes 34 to 42 lies inside the outer bounds and, if checked, contains now; or the error |
| License.ReadBlocks | tsproto/src/license.rs:174-193 | the loop over the blocks yields those of the specification |
| License.ParseInternal | tsproto/src/license.rs:167-194 | parsing a whole license |
| License.ParsesExactlyChains | tsproto/src/license.rs:174-224 | parsing succeeds if and only if the data is a chain of at most 8 blocks, each valid only while every earlier one is |
| License.BlocksPartition | tsproto/src/license.rs:174-193 | the blocks cover the data without gap or overlap |
| License.LicenseParsesExactly | tsproto/src/license.rs:167-224 | the same for a whole license, with the version and the check of the current time |
| LicenseBytes.ParsesBlockExactly | tsproto/src/license.rs:336-421 | a block of a length is found if and only if its bytes are one of the four forms that are parsed |
| LicenseBytes.RejectsBlockFor | tsproto/src/license.rs:336-421 | the error for bytes that are no block |
| LicenseBytes.ParsesBytesExactly | tsproto/src/license.rs:167-224 | a license parses if and only if its bytes are at most 8 blocks up to the end, each with a start and end around now, if that is checked, and within those of the block before it |
| LicenseBytes.RefusesExpired | tsproto/src/license.rs:205-211 | behind good blocks, one that is not valid now is the error, with its times |
| LicenseBytes.RefusesOutOfBounds | tsproto/src/license.rs:212-222 | so is one that is valid outside the times of the block before it |
| LicenseBytes.RefusesOther | tsproto/src/license.rs:167-194 | an unknown version, a ninth block, and a block that cannot be read behind good ones |
| License.BuiltBlockParses | tsproto/src/license.rs:336-421 | the parser finds a whole built block, whatever follows it, and its validity |
| License.BuiltBlockReadsBack | tsproto/src/license.rs:423-506 | type, key, validity, issuer, license type and max clients read back as they were set |
| LicenseBytes.BuiltBytes | tsproto/src/license.rs:732-841 | every field that was set, by its position in the block |
| License.TimeReadsBackExactly | tsproto/src/license.rs:748-754 | times read back if and only if they fit 32 bits behind the offset |
| License.BuildGivesBack | tsproto/src/license.rs:270-303 | building gives back exactly the blocks that were built, if and only if there are at most 8 in all and each lies within all before it |
| License.Build | tsproto/src/license.rs:270-303 | the new data is parsed within the validity of the last block |
| License.LicenseBuilder.AddBlock | tsproto/src/license.rs:732-739 | a new block of zeros with its type |
| License.LicenseBuilder.PublicKey | tsproto/src/license.rs:742-746 | only the key of the open block changes |
| License.LicenseBuilder.NotValidBefore | tsproto/src/license.rs:748-758 | only the start of the open block changes |
| License.LicenseBuilder.NotValidAfter | tsproto/src/license.rs:748-762 | only the end of the open block changes |
| License.LicenseBuilder.ServerLicenseType | tsproto/src/license.rs:765-775 | only the license type of the open block changes |
| License.LicenseBuilder.MaxClients | tsproto/src/license.rs:793-811 | only the max clients of the open block change |
| License.LicenseBuilder.SetIssuer | tsproto/src/license.rs:814-841 | only the issuer of the open block changes, and the data grows by its length |

## Left out

- The handshake: the init packets, the puzzle, the packets encrypted with a fixed key, and the acknowledgements that follow from the content of a command. The channel starts after it.
- Acknowledgement, ping and voice packets are modelled only as far as the tracking of their next id; pings have no records.
- Encryption is not modelled: a packet is accepted if the receiver finds the generation the sender used.
- Statistics, round trip times, the congestion window and the timeouts of a connection state are inputs.
- `is_full` compares the number of packet types with the window; nothing is proved of it.
- Events that are reported to listeners, and the polling of sockets and wakers.
- Numbering.Encoder.EncodePacket: the flags set before splitting, the client id and the encryption are not modelled.
- ResendRuns.FirstSendsInOrder: not for init packets, whose ids are not numbers of a sequence; the same holds for FirstSendsInOrderExactly and SendsAmongTheOldest.
- StallRun.StallingSession: the window of the session is one packet; StallStays holds for any window.
- KeyCache.CacheIsTransparent: excludes the largest generation, which marks an empty slot of the cache.
- Commands.RoundTrip: assumes a command name of letters and digits that is not empty, names without separators, and no argument without name and value; the type of text values and their formatting are not modelled.
- JitterQueue.AudioQueue.GetNextData: samples are real numbers, and volume and mixing are left out.
- License.LicenseBuilder.AddBlock: not for website and code blocks, which the builder has no properties for, nor blocks of TeamSpeak 5 servers.
- License.LicenseBuilder.ServerLicenseType: not for blocks of TeamSpeak 5 servers.
- License.LicenseBuilder.MaxClients: not for blocks of TeamSpeak 5 servers.
- License.LicenseBuilder.SetIssuer: not for blocks of TeamSpeak 5 servers.
- License.BuildGivesBack: blocks of TeamSpeak 5 servers, whose properties the accessors slice inconsistently, are parsed but not built.
- License.BuiltBlockReadsBack: the license type is the byte that was set; which bytes are license types is not part of this model.
- Derivation of keys along a license chain, and the validity of public keys.
- Voice.OutAudio: the fields of the header that are filled in later are arbitrary.
- Connections, files, the resolver, generated bookkeeping code other than the channel order.
