# A verified model of the room server

The repository is a game room server: clients connect over a reliable datagram transport, join a
room of at most eight players, move between levels, and exchange snapshots of player and level
state. This project models its four hard parts in Dafny and proves properties of them over all
inputs and all runs.

**Snapshot protocol** (`SnapshotWriter`, `SnapshotReader`, `SnapshotProtocol`, `SnapshotResync`,
`Fnv1a`, `Rle`, `PlayerSnapshotState`, `PlayerStateRelay`, `ElectFrames`). A writer emits raw states
or zero-run-compressed XOR differences against the oldest state it keeps; a reader keeps its own
window. The two are objects whose methods follow the source step by step; each method equals a
function on values, and the theorems are about those functions. The main one, `EveryFrameDecodes`,
is about every interleaving of writes, in-order deliveries and acknowledgements that may be late,
repeated or invented. `PlayerStateRelay` carries it up to the relayed player states of every tick.

**Bit codec** (`BitStreams`, `BinaryWriter`, `BinaryReader`, `Schema`, `NativeIo`, `PlayerState`,
`SlotPositions`, `PlayerNames`, `Utf8`, `PlayerStateCodec`, `PlayerStateRewrite`, `PlayerRanges`,
`PlayerAngles`, `NetLevelData`, `NetAddress`, `Ipv6Text`, `Quantizer`). The source's one traversal that runs over a writer or a reader becomes a layout
(`Schema`) with two readings, `Emit` and `Parse`; `NativeIo` runs them on the real writer and reader
objects. What comes back unchanged is characterised exactly, from a writer's value
(`SurvivesIffCanonical`) and from a reader's (`RereadsIffNoStray`). `PlayerState` adds the multi-pass
slot table and `SlotPositions` its clamp; `PlayerNames` what becomes of names that are not UTF-8; and
`PlayerRanges` and `PlayerAngles` say what the quantizer promises where it is used.

**Level authority** (`Room`, `RoomInvariants`, `RoomRuns`, `RoomHistories`, `RoomNews`,
`RoomCoverage`, `RoomClosed`, `RoomStores`, `RoomServer`). Sessions, players, level authorities, penalties, pending
moves and the messages sent form one state; twelve kinds of event act on it. `RoomRuns.RunKeepsInv`
holds for every sequence of events. `RoomServer` is the imperative form over the shared maps: its
methods, loops and rollbacks are proved equal to the event functions and to keep the invariant.

**Ids and rosters** (`PlayerStore`, `MigrationRosters`, `RosterKeys`, `RosterLeaks`, `RosterRuns`,
`StateBatching`). The three-index player store with its cyclic allocator, the rosters of migrating
groups that borrow its ids, and the batching of player states into frames (`Limits` has its sizes).

## Where the code falls short of the obvious property

- A writer that grows while a byte is half filled loses the bits in it: `BinaryWriters.GrowthIsSafeIffAligned`
  is the exact condition, `FourThenEightBits` an input. Player states are safe all the same: the
  writer starts with the size limit as its capacity, so a writer that grew fails the size check
  (`PlayerStateCodec.Encode`). Growing never ends from capacity 0, and only from there (`DoublingReachesIff`).
- A player that comes back from a move while its level is held is not told who holds it
  (`RoomHistories.ResumeTellsIffNotHeld`); it is then misinformed exactly if the holder changed in the
  meantime (`ComesBackInformedIff`), as in the run `StalePlayer`, until the holder changes again (`RoomNews.ChangeReaches`).
- A level may be held by a session that is already CLOSED: exactly from the moment its holder is
  closed (`RoomClosed.ClosedIff`) until the server revokes it, the holder disconnects, a player comes
  back to the level from a move, or one leaves it by a move or a disconnect without leaving two or more
  behind that are all penalized (`RoomClosed.ReopenedIff`; `ClosedAuthority` is a run).
- A lone player may be without an authority although nobody else could take the place: exactly after
  a step that leaves one of two players of a level without an authority
  (`RoomCoverage.StepUncoversIff`; `LonePlayer` is a run). Its next heartbeat mends it (`HeartbeatMends`).
- When the id allocator throws half way through a migrating group, the ids already reserved leak
  (`MigrationRosters.ClaimLeaksIffExhausted` is the exact condition), and no later step takes them back
  (`RosterLeaks.LeakIsForGood`). A room of eight can come to that by joins the server can receive, each
  with a list of seven (`RosterRuns.EightPlayersCanLeak`).
- Two live rosters may announce one id, because an id is free again once its member has come and left
  (`RosterLeaks.SharesIff` is the exact condition, `RosterRuns.RostersCanShare` a run of such joins).
- The quantizer's half-step error bound fails at and above the pivot when truncation gives a pivot
  above the minimum the code 0 (`Quantizer.ErrorAboveIffExact`). No range of the player state is like
  that where the rotation a frame's angle is measured from is one a reader returned
  (`PlayerRanges.EveryLeafWithinHalfStep`); around other rotations the writer's range is exact from the
  first level of the ten-bit grid on (`PlayerAngles.WriterExactIff`).
- A key frame's angle is written around the rotation as given and read around the decoded one. All
  angles come back within half a step exactly if the two are the same or both on the ten-bit grid
  (`PlayerAngles.AnglesWithinIff`); for every rotation they come back within a step and a half
  (`AngleErrorBound`), and nearly that is reached (`BoundIsNearlyReached`).
- A slot's attached position is shortened to length four before it is written. Codes that were read
  stay as they are exactly if the vector is no longer than that or the clamp moves no coordinate by
  more than half a step (`SlotPositions.ClampedIff`); the corner (4, 4, 4) is moved (`FarCornerMoves`).
- World-quest flags at or past their count are read and not written (`PlayerStateRewrites.StrayQuestFlagIsLost`).
  So a decoded state written again reads back the same exactly if no such flag was set and the clamp
  moves no position (`PlayerStateRewrites.ReencodedDecodesIff`).
- A name that is not valid UTF-8 is read as a longer string, which its field may refuse: a decoded
  state can be written again exactly if its names still fit (`PlayerStateRewrites.ReencodesIff`;
  `LongNameRefused` is a name).
- `writeBits` with a width of 32 accepts safe integers of more than 32 bits and keeps the low bits
  (`BinaryWriters.FieldSurvivesIff`, `WideValueIsLost`).

The four about the player state concern callers of the exported codec: the server's own relay
(src/services/GameMessageService.js:600) encodes decoded states whose fields are unchanged, for which
`preserveRaw` returns the bytes that were read.

## Model

| member | source | states |
|---|---|---|
| SnapshotProtocol.EveryFrameDecodes | src/protocol/snapshot/SnapshotWriter.js:35-86 | in every interleaving of writes, in-order deliveries and arbitrary acks, every delivered frame is accepted and decodes to exactly the bytes written, clamped; nothing is lost or reordered |
| SnapshotProtocol.RunKeepsInv | src/protocol/snapshot/SnapshotWriter.js:35-117 | every run keeps: all frames in flight will be accepted, and after them the writer window is a prefix of the reversed reader window, in number and in data |
| SnapshotProtocol.WriteInStep | src/protocol/snapshot/SnapshotWriter.js:35-71 | any write from a writer in step with a reader yields a frame that reader accepts and decodes to the clamped data, and the two stay in step |
| SnapshotProtocol.AckInStep | src/protocol/snapshot/SnapshotWriter.js:74-86 | any ack whatsoever, accepted or not, leaves writer and reader in step |
| SnapshotProtocol.BaseIsShared | src/protocol/snapshot/SnapshotReader.js:104-112 | the base a writer names is in the window of every reader in step with it, with the same bytes |
| SnapshotProtocol.PushMirrors | src/protocol/snapshot/SnapshotReader.js:142-148 | storing the same new state at both ends keeps the windows mirrored, although the reader de-duplicates and evicts and the writer does not need to |
| SnapshotProtocol.LatestAckSettles | src/protocol/snapshot/SnapshotWriter.js:74-86 | with nothing in flight, acking the number the reader reports as latest is always accepted, leaves that one state as base and ends any resync |
| SnapshotResync.BoundedResync | src/protocol/snapshot/SnapshotWriter.js:39-70 | from a non-resync writer with L states, at most max(1, interval)*(16-L)+1 writes without an accepted ack pass before a raw frame |
| SnapshotResync.BoundIsReached | src/protocol/snapshot/SnapshotWriter.js:39-70 | the bound is attained: writes that always compress produce their first raw frame with the last write it allows |
| SnapshotResync.NonRawCountsDown | src/protocol/snapshot/SnapshotWriter.js:62-69 | each write that emits no raw frame uses up exactly one of the remaining writes |
| SnapshotWriters.StepsKeepValid | src/protocol/snapshot/SnapshotWriter.js:101-117 | writes and acks keep the window a run of 1 to 16 consecutive numbers of the cycle 1..255, newest first, with nextSaveSeq right after the newest |
| SnapshotWriters.AckFilterIsPrefix | src/protocol/snapshot/SnapshotWriter.js:74-86 | across any wrap-around the modulus-256 filter keeps exactly the acked entry and everything newer |
| SnapshotWriters.FilterSeesPosition | src/protocol/snapshot/SnapshotWriter.js:80 | the modular comparison of two window entries decides which of them is newer |
| SnapshotWriters.NextIsFresh | src/protocol/snapshot/SnapshotWriter.js:101-117 | the number allocated next is never in the window, so no stored state is replaced |
| SnapshotWriters.DistinctSequences | src/protocol/snapshot/SnapshotWriter.js:111-117 | two entries of the window never share a number |
| SnapshotWriters.FrameOverhead | src/protocol/snapshot/SnapshotWriter.js:124-181 | no payload is longer than the clamped data, so a frame exceeds it by the three header bytes at most |
| SnapshotWriters.SnapshotWriter.Write | src/protocol/snapshot/SnapshotWriter.js:35-71 | the writer object does one write step on its own state, and keeps its window valid and non-empty |
| SnapshotWriters.SnapshotWriter.Ack | src/protocol/snapshot/SnapshotWriter.js:74-86 | the filter loop leaves the prefix up to the acked entry and ends a resync; an unknown number changes nothing |
| SnapshotWriters.SnapshotWriter.Store | src/protocol/snapshot/SnapshotWriter.js:111-117 | allocating, de-duplicating, unshifting and truncating amount to putting the state in front |
| SnapshotWriters.SnapshotWriter.EmitKeyframe | src/protocol/snapshot/SnapshotWriter.js:138-159 | a stored difference against the oldest entry, or a raw frame and a resync when the difference is longer than the data |
| SnapshotWriters.SnapshotWriter.EmitDelta | src/protocol/snapshot/SnapshotWriter.js:162-181 | the same difference, not stored; the window stays as it is unless the raw fallback is taken |
| SnapshotReaders.AnyFrameKeepsValid | src/protocol/snapshot/SnapshotReader.js:51-148 | any frame, malformed or not, leaves at most 16 distinct nonzero numbers, states within baseSize, and waiting exactly when the window is empty |
| SnapshotReaders.AnyInputKeepsValid | src/protocol/snapshot/SnapshotReader.js:51-148 | the same after any sequence of frames |
| SnapshotReaders.OnlyRawRecovers | src/protocol/snapshot/SnapshotReader.js:85-112 | a waiting reader accepts a frame if and only if it is a valid raw frame; any other frame leaves it unchanged |
| SnapshotReaders.RejectedUntilRaw | src/protocol/snapshot/SnapshotReader.js:98-112 | after missing_base every frame of a run without a valid raw frame is rejected, however long the run |
| SnapshotReaders.CorruptByteRejected | src/protocol/snapshot/SnapshotReader.js:79-82 | changing one payload byte of a frame with a good checksum is rejected as checksum, with window and waiting flag untouched |
| SnapshotReaders.SnapshotReader.Read | src/protocol/snapshot/SnapshotReader.js:51-140 | the reader object does one read step on its own state and stays valid, for every frame |
| SnapshotReaders.SnapshotReader.AddToWindow | src/protocol/snapshot/SnapshotReader.js:142-148 | filter, push and the eviction loop keep the newest 16 entries with the new one last |
| SnapshotReaders.SnapshotReader.ApplyDifference | src/protocol/snapshot/SnapshotReader.js:122-129 | the copy-then-XOR loop over base and difference is the XOR that undoes the writer's |
| SnapshotReaders.SnapshotReader.GetLatestSequence | src/protocol/snapshot/SnapshotReader.js:39-44 | the newest nonzero number in the window, 0 if none |
| SnapshotReaders.SnapshotReader.ForceWaitForKeyframe | src/protocol/snapshot/SnapshotReader.js:32-36 | forgets every state and waits; the reader is valid again |
| Fnv1a.DetectsSingleByteChange | src/protocol/snapshot/fnv1a.js:1-7 | payloads that differ in exactly one byte, at any length and position, have different checksums |
| Fnv1a.MixInjective | src/protocol/snapshot/fnv1a.js:4 | one round is injective in the hash and in the byte: 147 is invertible modulo 256 |
| Fnv1a.HashFromInjective | src/protocol/snapshot/fnv1a.js:1-7 | different hashes stay different over any common suffix |
| Fnv1a.Fnv1a8 | src/protocol/snapshot/fnv1a.js:1-7 | the loop computes the fold the lemmas are about |
| Rle.RoundTrip | src/protocol/snapshot/SnapshotWriter.js:194-207 | decoding an encoding returns the bytes, for every byte string |
| Rle.Shortest | src/protocol/snapshot/SnapshotWriter.js:194-207 | any payload the decoder maps to x is at least as long as the encoding of x |
| Rle.XorWithCancel | src/protocol/snapshot/SnapshotWriter.js:186-192 | XOR against the same base twice returns the data, whatever the two lengths |
| Rle.XorDiff | src/protocol/snapshot/SnapshotWriter.js:186-192 | the loop yields the XOR where both have a byte and the data's own bytes beyond the base |
| Rle.RleEncode | src/protocol/snapshot/SnapshotWriter.js:194-207 | the nested loop yields the greedy encoding |
| Rle.RleDecode | src/protocol/snapshot/SnapshotReader.js:151-166 | the loop yields the decoding, none for a truncated run or a run of length zero |
| PlayerSnapshots.ReadKeepsTracking | src/domain/PlayerSnapshotState.js:35-63 | whatever frame is read, the stored acknowledgement stays the newest stored number |
| PlayerSnapshots.AckNamesLatest | src/services/GameMessageService.js:683-696 | unless the reader waits for a raw frame, the acknowledgement sent names its newest state |
| PlayerSnapshots.PlayerSnapshotState.Read | src/domain/PlayerSnapshotState.js:35-63 | one read step, the raw state and acknowledgement updated or dropped as the outcome says |
| PlayerSnapshots.PlayerSnapshotState.Write | src/domain/PlayerSnapshotState.js:65-86 | one write step of the owned writer, the reader side untouched |
| PlayerSnapshots.PlayerSnapshotState.Reset | src/domain/PlayerSnapshotState.js:96-113 | a fresh reader and writer, no raw state, no acknowledgement |
| PlayerStateRelay.EveryStateArrives | src/services/GameMessageService.js:548-622 | end to end, over every run of ticks, deliveries and acks: with nothing in flight the target has parsed every announced state of every tick, whole, in order, each once |
| PlayerStateRelay.EveryBatchArrives | src/services/GameMessageService.js:548-622 | the i-th frame read parses to exactly the i-th batch written |
| PlayerStateRelay.SentIsSendable | src/services/GameMessageService.js:606-617 | a tick's batches need no clamping and together are its entries |
| ElectFrames.ElectArrives | src/services/GameMessageService.js:425-477 | the frame of an elect, made by a fresh writer, is accepted by a fresh reader and decodes to the level message itself |
| StateBatching.GreedyPartitions | src/services/GameMessageService.js:594-619 | the batches are an in-order partition of all entries, each exactly once, none empty and none above 0x2100 bytes |
| StateBatching.GreedyOptimal | src/services/GameMessageService.js:594-619 | no order-preserving partition into frames that fit has fewer batches |
| StateBatching.GreedyMonotone | src/services/GameMessageService.js:615-617 | an emptier open batch never needs more frames, and a fuller one at most one more |
| StateBatching.AtMostTwoFrames | src/services/GameMessageService.js:548-622 | the states of seven peers always fit two frames |
| StateBatching.SerializeRoundTrip | src/services/GameMessageService.js:557-563 | the concatenation of id, length and bytes parses back to exactly the batch |
| StateBatching.BatchFor | src/services/GameMessageService.js:594-619 | the loop with its flush closure sends exactly those batches |
| StateBatching.WriteBatch | src/services/GameMessageService.js:557-564 | writing through a BinaryWriter of the batch's own size yields the serialized bytes, without growth |
| Schemas.RoundTrip | src/protocol/binary/BinaryWriter.js:118-174 | any sequence of bit, bool, bounded, compressed, integer, byte-block and pad writes, nested and counted, is read back with the same shape: every value returns and the reader stops exactly where the writer did |
| Schemas.SurvivesIffCanonical | src/protocol/binary/BinaryWriter.js:118-174 | of the values a writer accepts, exactly the canonical ones come back unchanged: integers within their width, flags past a count unset |
| Schemas.BufferRoundTrip | src/protocol/binary/BinaryWriter.js:133-136 | reading a finished buffer leaves no byte over and finds the padding of the last byte |
| Schemas.ParsedIsRewritable | src/protocol/binary/BinaryReader.js:110-181 | whatever a reader returns, a writer accepts again and writes in exactly as many bits as it was read from |
| Schemas.RereadsIffNoStray | src/protocol/binary/BinaryReader.js:110-181 | read, written again and read again, a value and its extent stay the same if and only if no flag at or past a count was set on the wire |
| NativeIos.WriteValue | src/protocol/types/PlayerState.js:59-116 | the writing mode of the traversal appends exactly the layout's bits, or fails exactly where the source throws |
| NativeIos.ReadValue | src/protocol/types/PlayerState.js:59-116 | the reading mode returns what parsing the layout at the cursor returns, and stops there |
| NativeIos.WriteText | src/protocol/types/PlayerState.js:112-114 | the length counts the NUL, and text too long for its room is refused |
| NativeIos.ReadText | src/protocol/types/PlayerState.js:105-110 | the length must lie in 1..room and the last byte must be NUL |
| BinaryWriters.BinaryWriter.constructor | src/protocol/binary/BinaryWriter.js:2-6 | an empty buffer of the capacity asked for, 0 included, with nothing written; valid from capacity 1 on |
| BinaryWriters.BinaryWriter.WriteBits | src/protocol/binary/BinaryWriter.js:138-159 | accepts exactly the values that fit and changes nothing otherwise; the buffer ends as the bit loop leaves it, on the old buffer or, after growing, on its whole bytes followed by some fresh memory |
| BinaryWriters.BinaryWriter.Ensure | src/protocol/binary/BinaryWriter.js:15-29 | the buffer is replaced exactly when the request does not fit; then it holds the whole bytes before the offset and arbitrary memory from there on, so the byte being filled, if any, joins those that were torn, and no other does |
| BinaryWriters.GrowthIsSafeIffAligned | src/protocol/binary/BinaryWriter.js:15-29 | growing and then writing any further bits leaves the stream in the buffer for every content of the fresh memory if and only if no byte is half filled when it grows |
| BinaryWriters.FourThenEightBits | src/protocol/binary/BinaryWriter.js:138-159 | a writer of capacity 1 that takes four set bits and then eight grows in between; over zeroed memory it ends with 0xf0 0x0f instead of 0xff 0x0f |
| BinaryWriters.DoublingReachesIff | src/protocol/binary/BinaryWriter.js:21-24 | doubling reaches the required size if and only if the capacity is not 0 or nothing is required |
| BinaryWriters.FieldSurvivesIff | src/protocol/binary/BinaryWriter.js:138-159 | of what writeBits accepts, exactly the values that fit their field are read back; the others are 32 bits wide |
| BinaryWriters.WideValueIsLost | src/protocol/binary/BinaryWriter.js:138-159 | 0x100000000 is accepted in 32 bits and read back as 0 |
| BinaryWriters.BinaryWriter.AlignToByte | src/protocol/binary/BinaryWriter.js:8-13 | the skipped bits are zero |
| BinaryWriters.BinaryWriter.WriteBounded | src/protocol/binary/BinaryWriter.js:92-99 | accepts exactly min <= value <= max over a range of at most 32 bits, in the fewest bits the range needs |
| BinaryWriters.BinaryWriter.WriteCompressed | src/protocol/binary/BinaryWriter.js:165-174 | the same with minimum 0; maximum 0 takes no bits |
| BinaryWriters.BinaryWriter.WriteUInt | src/protocol/binary/BinaryWriter.js:31-69 | aligns, masks to the width and appends little-endian bytes; a value outside 64 bits is refused by the eight-byte form once it has aligned |
| BinaryWriters.BinaryWriter.WriteBytes | src/protocol/binary/BinaryWriter.js:118-124 | aligns and appends the block |
| BinaryWriters.BinaryWriter.Pad | src/protocol/binary/BinaryWriter.js:126-131 | aligns and appends zero bytes |
| BinaryWriters.BinaryWriter.ToBuffer | src/protocol/binary/BinaryWriter.js:133-136 | the written bits and zero padding, but for exactly the bytes torn by growth; and a result with a torn byte is longer than the initial capacity |
| BinaryReaders.BinaryReader.ReadBits | src/protocol/binary/BinaryReader.js:141-164 | the number spelled by the next bits; refused, with nothing consumed, when fewer remain |
| BinaryReaders.BinaryReader.ReadBounded | src/protocol/binary/BinaryReader.js:110-121 | an encoded number above the range is refused |
| BinaryReaders.BinaryReader.ReadCompressed | src/protocol/binary/BinaryReader.js:171-181 | the same with minimum 0 |
| BinaryReaders.BinaryReader.ReadUInt | src/protocol/binary/BinaryReader.js:42-84 | aligns and reads a little-endian integer; refused when too few bytes remain |
| BinaryReaders.BinaryReader.ReadBytes | src/protocol/binary/BinaryReader.js:133-139 | aligns and returns the block |
| BinaryReaders.BinaryReader.AlignToByte | src/protocol/binary/BinaryReader.js:18-23 | moves to the next byte boundary and nowhere else |
| PlayerStateCodec.StateRoundTrip | src/protocol/types/PlayerState.js:118-314 | the traversal run as writer and then as reader consumes exactly the same bits and returns the same field tree, counts and the multi-pass slot table included, but for the attached positions the writer shortened; the tree is the same if and only if it moved none |
| PlayerStateCodec.EncodedDecodes | src/protocol/types/PlayerState.js:28-57 | every buffer encodePlayerState returns for canonical fields whose names are strings decodes to those fields as clamped, with no trailing data, and so to the fields themselves if and only if no position is moved |
| PlayerStateCodec.Encode | src/protocol/types/PlayerState.js:41-57 | succeeds exactly when the fields, positions clamped, encode within 0x4b5 bytes; then the bytes are the traversal's bits, zero-padded, although the writer may have had to grow |
| PlayerStateCodec.DecodeBuffer | src/protocol/types/PlayerState.js:28-39 | none for an oversized, malformed or trailing buffer, else the parsed tree with its names as the strings they are read as |
| PlayerStateRewrites.ReencodedDecodesIff | src/protocol/types/PlayerState.js:28-57 | a decoded state that is encoded again without its raw bytes decodes to the same fields if and only if no world-quest flag at or past the count was set and the clamp moves no attached position |
| PlayerStateRewrites.ReencodesIff | src/protocol/types/PlayerState.js:104-115 | a decoded state can be encoded again if and only if each name, as the string it was read as, still fits its field, within the size limit; with names in valid UTF-8 it can, in as many bytes |
| PlayerStateRewrites.StrayQuestFlagIsLost | src/protocol/types/PlayerState.js:280-288 | the first quest flag set with a count of none is read as set, written as unset, and does not come back |
| PlayerStateRewrites.LongNameRefused | src/protocol/types/PlayerState.js:104-115 | a name of thirty bytes that spell no character is accepted by the reader and refused by the writer |
| PlayerStateRewrites.EncodedDecodesIff | src/protocol/types/PlayerState.js:28-57 | of the states the encoder accepts, names being strings, exactly the canonical ones whose positions the clamp does not move decode to what was encoded |
| PlayerStateRewrites.TableRewrites | src/protocol/types/PlayerState.js:291-314 | a slot table read column by column deals into slots that can be written back in as many bits; the codes written differ from those read only by the clamp, and not at all if and only if it moves no position |
| SlotPositions.ClampIsScaled | src/protocol/types/PlayerState.js:307-310 | with the scale four over the length, the codes of a clamped vector are the quantizer's codes of the scaled coordinates |
| SlotPositions.ClampedIff | src/protocol/types/PlayerState.js:319-324 | codes that were read are written again unchanged if and only if their vector is no longer than four or the clamp pulls no coordinate by more than half a step; longer vectors included |
| SlotPositions.FarCornerMoves | src/protocol/types/PlayerState.js:307-310 | the codes 63, 63, 63 are written again as 49, 49, 49 |
| SlotPositions.LittleLongerStays | src/protocol/types/PlayerState.js:319-324 | a vector a little longer than four is clamped and keeps its codes |
| Utf8.RespelledIff | src/protocol/types/PlayerState.js:110 | bytes survive Buffer.toString and Buffer.from if and only if they are well-formed UTF-8 (section 3.9 of the Unicode standard) |
| Utf8.RespelledIsWellFormed | src/protocol/types/PlayerState.js:110 | what toString made of any bytes is well-formed, so a second reading changes nothing |
| Utf8.OnesTriple | src/protocol/types/PlayerState.js:110 | bytes that begin no character become three bytes each |
| PlayerNames.SpelledEmitsIff | src/protocol/types/PlayerState.js:104-115 | a tree that was written once can be written with its texts as they are read if and only if each fits its room |
| PlayerNames.WrittenReads | src/protocol/types/PlayerState.js:98-115 | reading any layout where a value of it was written succeeds, stops where the writer did, and returns no stray flag |
| PlayerStates.TableRoundTrip | src/protocol/types/PlayerState.js:291-314 | the table written column by column, each pass skipping the slots earlier passes rule out, reads back to the same slots with their attached positions shortened to length four, and to the very same if and only if that moves none |
| PlayerStates.ClampKeepsSize | src/protocol/types/PlayerState.js:303-311 | a table with clamped positions is accepted exactly when it would be with its codes as they stand, and takes as many bits |
| PlayerStates.JoinSplitA | src/protocol/types/PlayerState.js:295-312 | splitting slots into columns and dealing the columns back loses nothing |
| PlayerStates.ColumnLengthsA | src/protocol/types/PlayerState.js:295-312 | each column has as many cells as the earlier columns announce |
| PlayerStates.PassAnnounced | src/protocol/types/PlayerState.js:295-312 | the reader derives each pass's layout and length from the passes before it |
| NetLevelData.MsgRoundTrip | src/protocol/types/NetLevelDataMsg.js:6-64 | decoding an encoded level message returns it, with no trailing byte |
| NetLevelData.MsgFitsSnapshot | src/services/GameMessageService.js:425-430 | no encodable level message exceeds the snapshot limit, so an elect is never skipped for its size |
| NetLevelData.EncodeMsg | src/protocol/types/NetLevelDataMsg.js:31-64 | refuses only data above 0x2000 bytes; the writer never grows |
| NetLevelData.DecodeBuffer | src/protocol/types/NetLevelDataMsg.js:6-29 | what decoding the layout and then the announced data yields |
| Quantizer.CodesInRange | src/protocol/binary/BinaryWriter.js:181-192 | every code lies in 0..2^bits-1 |
| Quantizer.CodeSurvives | src/protocol/binary/BinaryReader.js:188-196 | encoding a decoded code returns the code |
| Quantizer.EncodeMonotone | src/protocol/binary/BinaryWriter.js:181-192 | a larger value never gets a smaller code |
| Quantizer.DecodeStrictlyMonotone | src/protocol/binary/BinaryReader.js:188-196 | different codes decode to different values, in order |
| Quantizer.ErrorBelow | src/protocol/binary/BinaryWriter.js:186-188 | below the pivot decoding is within half that side's step |
| Quantizer.ErrorAboveIffExact | src/protocol/binary/BinaryWriter.js:189-191 | the half-step bound holds for every value from the pivot up if and only if the pivot's code is not 0, or the pivot is the minimum |
| Quantizer.InexactPivotFails | src/protocol/binary/BinaryReader.js:188-196 | where it is not, a concrete value breaks the bound |
| PlayerRanges.EveryLeafWithinHalfStep | src/protocol/types/PlayerState.js:118-314 | every range of the traversal, the energy bounded by its maximum and a frame's angle around a rotation that a reader returned included, has an exact pivot, and each of its values decodes to within half the step of its side |
| PlayerRanges.AngleIsExact | src/protocol/types/PlayerState.js:231-242 | each of the 64 rotations a reader can return is an exact pivot for a frame's angle |
| PlayerRanges.InexactRange | src/protocol/binary/BinaryWriter.js:181-192 | an inexact range exists, 0 to 1 around 0.1 in one bit, and the traversal does not use it |
| PlayerAngles.WriterExactIff | src/protocol/types/PlayerState.js:242 | around a rotation as given the writer's pivot is exact if and only if the rotation is the start of the turn or at least one level of the ten-bit grid above it |
| PlayerAngles.PivotsAgreeIff | src/protocol/types/PlayerState.js:128-131 | the writer, which quantizes a frame's angle around the rotation as given, and the reader, which does so around the decoded one, use the same pivot if and only if a reader can return that rotation |
| PlayerAngles.AnglesWithinIff | src/protocol/types/PlayerState.js:231-242 | for every rotation of a turn: all angles come back within half the step of their side if and only if a reader can return the rotation, or it and the one the reader returns both lie on the ten-bit grid |
| PlayerAngles.ReadOnGridIff | src/protocol/types/PlayerState.js:224 | of the 64 rotations a reader can return, those on the ten-bit grid have the even codes below 31, or the code 63 |
| PlayerAngles.AngleErrorBound | src/protocol/types/PlayerState.js:242 | for every rotation and angle of a turn the angle comes back within one and a half ten-bit steps |
| PlayerAngles.BoundIsNearlyReached | src/protocol/types/PlayerState.js:242 | a rotation and an angle that comes back off by more than 1.498 steps, and by more than three half steps of its side |
| PlayerAngles.FirstLevelIsHarmless | src/protocol/types/PlayerState.js:242 | a rotation that no reader returns, read as another, under which all angles still come back within half a step |
| PlayerRanges.PointWithinBothHalfSteps | src/protocol/types/PlayerState.js:234-241 | a position relative to a base both ends have is within half a step, and a point relative to that position within its own half step and the position's |
| Ipv6Text.FormatRoundTrip | src/protocol/types/NetAddress.js:3-30 | parsing the printed text of any eight-group address returns its groups |
| Ipv6Text.BestIsFirstLongest | src/protocol/types/NetAddress.js:17-25 | the run the scan chooses is the first of the longest zero runs (section 4.2.3 of RFC 5952) |
| Ipv6Text.ShortensIffTwoZeros | src/protocol/types/NetAddress.js:26-29 | the text contains a double colon if and only if two zero groups stand together (sections 4.2.1 and 4.2.2 of RFC 5952) |
| Ipv6Text.ParseIsAddress | src/protocol/types/NetAddress.js:3-13 | whatever text is accepted, the result is eight 16-bit groups |
| Ipv6Text.HexRoundTrip | src/protocol/types/NetAddress.js:16 | a group prints without leading zeros, in lower case, and reads back |
| Ipv6Text.FormatIpv6 | src/protocol/types/NetAddress.js:15-30 | the scan loop prints exactly that text: a run of two or more is shortened, a single zero is not |
| NetAddresses.TypedRoundTrip | src/protocol/types/NetAddress.js:50-76 | reading a written address returns its type, host and port and consumes exactly its bits; an IPv6 host returns in canonical text |
| NetAddresses.TypedAlwaysEncodes | src/protocol/types/NetAddress.js:91-125 | encoding fails exactly for an invalid host or a port outside 0..65535 |
| NetAddresses.SwapRoundTrip | src/protocol/types/NetAddress.js:62-65 | the byte-swapped words give back both groups |
| NetAddresses.GroupsInNetworkOrder | src/protocol/types/NetAddress.js:108-117 | an IPv6 address travels in network byte order, the high byte of each group first |
| NetAddresses.WordOnWire | src/protocol/types/NetAddress.js:102 | the four parts of an IPv4 address travel in the order they are written |
| NetAddresses.FormattedHostUnchanged | src/protocol/types/NetAddress.js:104-117 | a host the formatter printed returns character for character |
| NetAddresses.EncodeTyped | src/protocol/types/NetAddress.js:91-125 | appends exactly those bits, or fails where the source throws |
| NetAddresses.DecodeTyped | src/protocol/types/NetAddress.js:50-76 | what parsing the typed layout at the cursor yields |
| PlayerStores.FailsOnlyWhenNoneFree | src/domain/PlayerStore.js:40-55 | allocation fails if and only if no id of 1..255 is free, and otherwise returns a free one |
| PlayerStores.AllocatesFirstInCycle | src/domain/PlayerStore.js:43-51 | of the free ids, the one allocated comes first in cyclic order from the counter |
| PlayerStores.NotReusedSoon | src/domain/PlayerStore.js:43-51 | an id just handed out is handed out again at once only when no other id is free |
| PlayerStores.AddKeepsValid | src/domain/PlayerStore.js:18-38 | a successful add keeps the three maps indexing one player set of at most maxPlayers, ids in 1..255 and disjoint from the reserved |
| PlayerStores.RemoveKeepsValid | src/domain/PlayerStore.js:88-107 | a removal keeps the same invariant and the session is gone from every index |
| PlayerStores.RemoveUndoesAdd | src/domain/PlayerStore.js:88-107 | removing what was just added restores the player set exactly |
| PlayerStores.IdStepsKeepValid | src/domain/PlayerStore.js:57-78 | reserving, releasing and allocating keep the invariant |
| PlayerStores.PlayerStore.AddPlayer | src/domain/PlayerStore.js:18-38 | adds as specified, or reports the source's error and leaves the store as it was |
| PlayerStores.PlayerStore.Allocate | src/domain/PlayerStore.js:40-55 | the cyclic scan loop finds that id |
| PlayerStores.PlayerStore.Remove | src/domain/PlayerStore.js:88-107 | removes from all three maps, or nothing for an unknown session |
| MigrationRosters.RunKeeps | src/session/RoomServer.js:310-375 | in every run that never runs out of ids half way, the indexes agree and every reserved id is announced by a live roster |
| MigrationRosters.ClaimLeaksIffExhausted | src/session/RoomServer.js:333-351 | a claim leaks reserved ids if and only if the group outnumbers the free ids while some free id is announced by no live roster |
| RosterLeaks.StepKeepsLeak | src/session/RoomServer.js:310-375 | an id reserved and announced by no live roster stays so through every claim, join, rollback, completion, leave and expiry |
| RosterLeaks.LeakIsForGood | src/session/RoomServer.js:310-375 | and through every run of them |
| RosterLeaks.GroupTakesFirstFree | src/domain/PlayerStore.js:43-51 | a group that is given ids gets exactly the first free ones in cyclic order from the counter, as many as it has members |
| RosterLeaks.SharesIff | src/session/RoomServer.js:333-351 | what is reserved for a group includes an id that a live roster announces if and only if an announced id that is free again is among the first free ones, as many as the group has members |
| RosterRuns.EightPlayersCanLeak | src/session/RoomServer.js:32 | a room of eight players leaks: after 42 groups of seven, each with uuids of its own and one member that came and left, the next group of seven exhausts the ids and leaves id 1 reserved through whatever follows; every join of the run is one the packet decoder yields, with the key its own list gives |
| RosterRuns.RostersCanShare | src/session/RoomServer.js:333-351 | in a room of eight players 37 such groups are enough for two live rosters to announce the same id |
| RosterRuns.ArriveIsReceivable | src/protocol/packets/client/JoinGamePacket.js:10-20 | the join of each of those groups lists seven uuids, its own among them, and is keyed by the list |
| RosterRuns.KeysDiffer | src/session/RoomServer.js:331 | different groups bring different keys |
| RosterKeys.KeysAgreeIff | src/session/RoomServer.js:331 | without a reservation two joins get the same roster key if and only if they list the same uuids, in any order and each as often, for uuids without commas |
| RosterKeys.ChooseKey | src/session/RoomServer.js:310-331 | no key without a player list, without the own uuid in it, or for a join that neither moves nor has a reservation; else the first reservation that names everyone, or the sorted uuids |
| RosterKeys.SortedIsOrdered | src/session/RoomServer.js:331 | the sorted uuids are in code-unit order and the same uuids as often |
| MigrationRosters.RosterBook.ClaimFor | src/session/RoomServer.js:310-354 | the claim of a payload: nothing happens unless it has a key, else the claim under that key for the uuids listed |
| MigrationRosters.ReserveForMeaning | src/session/RoomServer.js:339-348 | reserving for a group succeeds exactly when enough ids are free, each member getting a free id of its own; otherwise every free id ends up reserved |
| MigrationRosters.DropKeepsNoLeak | src/session/RoomServer.js:356-375 | completing or expiring a roster frees all its ids and leaks none of another's |
| MigrationRosters.ReservationNeedsRoster | src/session/RoomServer.js:356-375 | without a live roster no id stays reserved |
| MigrationRosters.AllocatedIdIsUnused | src/session/RoomServer.js:340-344 | the retry loop for ids in use never turns |
| MigrationRosters.StepKeeps | src/services/JoinService.js:15-60 | claiming, joining, rolling back, completing and expiring each keep the invariant |
| MigrationRosters.RosterBook.Claim | src/session/RoomServer.js:332-354 | the claim under a given key, the partial reservations of a throw included |
| MigrationRosters.RosterBook.CompleteRoster | src/session/RoomServer.js:356-367 | drops a roster only when every member has joined |
| MigrationRosters.RosterBook.ExpireRosters | src/session/RoomServer.js:369-375 | every overdue roster goes, in whatever order the map is walked |
| RoomRuns.RunKeepsInv | src/services/LevelService.js:11-108 | every reachable room keeps the whole invariant: people, authorities, penalties, coverage, agreement and pending moves |
| RoomRuns.StepKeepsInv | src/services/MoveService.js:17-253 | each of the twelve kinds of event keeps it, whatever its arguments and whichever MoveGame, CancelMove or EnterGame send throws |
| RoomRuns.AuthorityIsPresent | src/domain/LevelStateStore.js:23-99 | in every reachable room a level's authority is a stored player of that level, ACTIVE or CLOSED awaiting disconnect and not penalized there; every penalty names a stored player of its level that is not MOVING |
| RoomRuns.NoLevelWithoutAuthority | src/services/LevelService.js:24-108 | in every reachable room the level of an unpenalized active player has an authority |
| RoomCoverage.StepUncoversIff | src/services/LevelService.js:11-32 | a level comes to have one active player and no authority exactly by a step in which one of two active players of a level without an authority changes level or is closed |
| RoomCoverage.HeartbeatMends | src/services/GameMessageService.js:281-299 | a heartbeat of such a player forgives it and makes it the authority |
| RoomCoverage.LonePlayer | src/services/LevelService.js:11-32 | a run of two players that revoke in turn, one then leaving, after which the other is alone, penalized and without an authority |
| RoomRuns.PlayersAgree | src/session/RoomServer.js:242-253 | in every reachable room the last authority message of each active player is an elect naming its level's authority, unless its coming back from a move is more recent |
| RoomHistories.ResumeTellsIffNotHeld | src/services/LevelService.js:76-108 | a player back from a move is sent an elect of its level's holder, once, if the level is not held by an active player at that moment, and otherwise nothing, and the holder stays |
| RoomHistories.ComesBackInformedIff | src/services/MoveService.js:224-227 | a player back from a move last heard of the present holder if and only if it already had, or the level is not held by an active player |
| RoomNews.ChangeReaches | src/session/RoomServer.js:242-253 | whoever is active in a level before and after a step that changes its holder is sent an elect of the new one in that step, so a player that came back uninformed stays so only while the holder does not change |
| RoomHistories.StalePlayer | src/services/MoveService.js:207-236 | a run of three players that leaves one active in a level believing in a holder that is not the present one |
| RoomClosed.ClosedIff | src/session/PeerEventHandler.js:149-158 | in every reachable room a level comes to be held by a CLOSED session exactly by the closing of its holder |
| RoomClosed.ReopenedIff | src/services/LevelService.js:60-108 | and ceases to be exactly by a server revoke, the holder's disconnect, a player's return to the level from a move, or a departure from it by move or disconnect, one of a group's included, that does not leave two or more behind who are all penalized |
| RoomClosed.ClosedAuthority | src/session/PeerEventHandler.js:149-158 | a run after which a level's authority is CLOSED, and its disconnect ends that |
| RoomRuns.PendingMovesOwned | src/services/MoveService.js:17-253 | in every reachable room a pending move names one stored player, MOVING or CLOSED, and no player has two |
| RoomRuns.StepTransitionsAllowed | src/session/ConnectionSession.js:13-19 | no step of a reachable room asks a session for a transition its table refuses |
| RoomRuns.ServerRevokeSends | src/session/AuthorityElectionCoordinator.js:20-46 | a server revoke sends each active player of the level exactly one revoke, then exactly one elect if there is a successor, and nobody else anything |
| RoomRuns.GateOnlySilences | src/session/AuthorityElectionCoordinator.js:1-18 | behind the gate an election does the same to authorities and penalties and sends nothing |
| RoomRuns.GroupMoveCommits | src/services/MoveService.js:71-139 | a committed group move: every eligible member MOVING with its own pending move, every other session and pending move as before |
| RoomRuns.GroupMoveRollsBack | src/services/MoveService.js:108-127 | a group move in which a send throws changes no session, level or pending move, and exactly the members told to move are told to cancel |
| RoomRuns.OutcomeAccounts | src/services/MoveService.js:72-83 | a group move that is accepted reports every member exactly once, as moved if it was movable and as failed otherwise; it is accepted exactly for one to seven different members of whom one is movable, with no send throwing |
| RoomRuns.ClientRevokeKeepsCore | src/services/GameMessageService.js:348-375 | a client's revoke leaves its level with an authority or with penalized players only, and everyone told |
| RoomRuns.HeartbeatKeepsCore | src/services/GameMessageService.js:281-299 | a heartbeat in a level without an authority restores coverage and agreement |
| RoomRuns.DisconnectPlayerKeepsCore | src/session/PeerEventHandler.js:102-117 | a disconnect removes the player everywhere and its level is right again |
| RoomRuns.ResumeKeepsCore | src/services/MoveService.js:186-189 | a player back from a move finds or becomes its level's authority |
| RoomRuns.RebalanceElectsEarliest | src/services/LevelService.js:76-108 | rebalancing keeps a present unpenalized authority and says nothing; otherwise it elects the earliest active player without a penalty, or forgives the only one, and clears an empty level |
| RoomRuns.SelectElectsEarliest | src/services/GameMessageService.js:377-385 | selection elects the earliest active player without a penalty, or forgives the only one, and drops the penalties of players no longer active |
| RoomRuns.ClientRevokeReplaces | src/services/GameMessageService.js:348-375 | a client that revokes loses its place to the earliest other player without a penalty and stays penalized; alone it keeps the place; among penalized players only, nobody holds the level |
| RoomRuns.ClientRevokeSends | src/services/GameMessageService.js:358-374 | a client's revoke sends each active player of the level exactly one revoke, then exactly one elect of whoever holds the level next, and nobody else anything |
| RoomInvariants.RebalanceEstablishes | src/services/LevelService.js:76-108 | rebalancing makes its level right from any state, and touches no other level |
| RoomInvariants.SelectEstablishes | src/services/GameMessageService.js:377-385 | selecting and electing does the same in a level without an authority |
| RoomInvariants.SetAuthorityTells | src/domain/LevelStateStore.js:23-49 | a change of authority is announced to every active player of the level and to nobody else |
| RoomInvariants.JoinKeepsCore | src/services/JoinService.js:63-84 | a join elects the first player of a level or tells the joiner who holds it |
| RoomStores.AddIsJoin | src/domain/PlayerStore.js:18-38 | the player store accepts a join only where the room does, with an id of 1..255, and then both add the same player; it refuses one only where the room refuses it or the id wanted, or any id, is not to be had |
| RoomStores.RemoveIsDisconnect | src/session/PeerEventHandler.js:102-117 | a disconnect removes the same player from room and store |
| RoomStores.OthersKeepIdentities | src/domain/PlayerStore.js:18-107 | no other step changes who is in the room, or under which id and uuid |
| RoomStores.TogetherMirrors | src/domain/PlayerStore.js:18-107 | room and store run side by side hold the same players after every step, and the room's step is one the invariant is proved for |
| RoomInvariants.ChangeLevelKeepsCore | src/services/LevelService.js:11-32 | a level change leaves both the old and the new level right |
| RoomInvariants.CloseKeepsCore | src/session/PeerEventHandler.js:149-158 | closing a session at the bad-packet limit keeps every level right although its player stays stored |
| RoomServers.RoomServer.RebalanceAuthority | src/services/LevelService.js:76-108 | the imperative rebalance computes exactly the specified room |
| RoomServers.RoomServer.SetAuthority | src/domain/LevelStateStore.js:23-49 | refuses a player outside the level; a change runs the handlers, a repetition does not |
| RoomServers.RoomServer.HandleAuthorityElected | src/session/RoomServer.js:242-253 | the handler loop sends one elect per active player of the level, or one to the given target, or none behind the gate |
| RoomServers.RoomServer.ListActiveInLevel | src/domain/PlayerStore.js:121-123 | the active players of the level in join order |
| RoomServers.RoomServer.PickCandidate | src/services/GameMessageService.js:377-385 | the first unpenalized active player, or the only one with its penalty lifted |
| RoomServers.RoomServer.ChangeLevel | src/services/LevelService.js:11-32 | keeps the invariant; exactly the specified change |
| RoomServers.RoomServer.Join | src/services/JoinService.js:15-84 | keeps the invariant; joined exactly if the session may join, id and uuid are new, there is room and the EnterGame send does not throw; else the room is exactly as it was |
| RoomServers.RoomServer.Heartbeat | src/services/GameMessageService.js:281-299 | keeps the invariant; acts only for the sender's own level and only without an authority |
| RoomServers.RoomServer.PenalizeAuthorityRevokeAttempt | src/services/GameMessageService.js:348-375 | keeps the invariant; acts only for the authority itself |
| RoomServers.RoomServer.RevokeLevelAuthority | src/session/RoomServer.js:230-240 | keeps the invariant; election behind the gate, then revoke and elect per player; false without an authority |
| RoomServers.RoomServer.SendRevokeAndElect | src/services/GameMessageService.js:391-410 | per active player the revoke, then the elect of the successor if any |
| RoomServers.RoomServer.MovePlayer | src/services/MoveService.js:17-69 | keeps the invariant; a throwing send leaves the room exactly as it was |
| RoomServers.RoomServer.MovePlayersAtomic | src/services/MoveService.js:71-139 | keeps the invariant; prepare, send and commit loops with the rollback amount to all or nothing, and the result gives the members moved and the members refused, or the reason and whom it failed for |
| RoomServers.RoomServer.PrepareMoves | src/services/MoveService.js:96-100 | one new key per member, none of them taken before |
| RoomServers.RoomServer.RollBack | src/services/MoveService.js:108-127 | deleting the prepared keys restores the pending moves exactly; everyone told is told to cancel |
| RoomServers.RoomServer.CancelPlayerMove | src/services/MoveService.js:175-205 | keeps the invariant; the player is active again and has no pending move |
| RoomServers.RoomServer.HandleMoveResult | src/services/MoveService.js:207-236 | keeps the invariant; deleting the one match leaves the player no pending move |
| RoomServers.RoomServer.ForgetPlayerMoves | src/services/MoveService.js:238-253 | every pending move of the player goes and no other, with their number returned |
| RoomServers.RoomServer.FindPendingByPlayer | src/services/MoveService.js:267-275 | a pending move of the player if it has one |
| RoomServers.RoomServer.Transition | src/session/ConnectionSession.js:57-71 | staying is always allowed, otherwise exactly the table's transitions; a refused one changes nothing |
| RoomServers.RoomServer.OnConnect | src/session/PeerEventHandler.js:20-35 | keeps the invariant; a new PENDING session unless the room is full of peers |
| RoomServers.RoomServer.OnDisconnect | src/session/PeerEventHandler.js:102-117 | keeps the invariant; session, player, pending moves, penalty and authority are all gone |
| RoomServers.RoomServer.RejectSessionPacket | src/session/PeerEventHandler.js:149-158 | keeps the invariant; counts the packet and closes the session from the limit on |
| RoomServers.LevelStateStore.PruneAuthorityCandidatePenalties | src/domain/LevelStateStore.js:91-99 | exactly the penalties of players no longer active go; an empty set is not kept |
| RoomServers.LevelStateStore.ClearAuthorityPenalty | src/domain/LevelStateStore.js:80-85 | one penalty goes; an empty set is not kept |
| RoomServers.LevelStateStore.Reset | src/domain/LevelStateStore.js:124-135 | authority and penalties of the one level go |

## Left out

- SnapshotProtocol.EveryFrameDecodes: assumes the reliable in-order delivery the server sends with (src/services/BroadcastService.js:9, src/transport/EnetServer.js:71); with a lost raw frame the reset of the sequence numbers would make it false.
- RoomRuns.PlayersAgree: says nothing of a player whose coming back from a move is its latest entry in the history (`Resumed` marks that moment and is no message); `RoomHistories.ComesBackInformedIff` says exactly what such a player knows.
- RoomRuns.StepKeepsInv: an elect or revoke is taken never to throw while it is sent; a throw inside the handler loop of setAuthority would leave the players after it untold.
- MigrationRosters.RunKeeps: assumes that no claim of the run exhausts the ids as described above, and claims only that each reserved id is announced, not that it is announced once.
- Quantizer.ErrorBelow: over the reals, for a side with at least one level; IEEE rounding and non-finite input are not modelled.
- PlayerStateCodec.StateRoundTrip: quantized leaves are their codes, which stand for the values a reader returns; floats are their 32-bit patterns (no NaN is rewritten) and strings their UTF-8 bytes. Sums and differences of positions are exact, as over the reals: a position so far out, or not finite, that a float swallows the offset is not modelled. Defaults of missing fields and scoped error details are not modelled. The number of A slots stands for `wireCountA`, and an idle slot carries no data by its type.
- SlotPositions.ClampIsScaled: over the reals; the codes are compared by squares, as no square root need exist among the rationals.
- PlayerAngles.AnglesWithinIff: over the reals and for rotations within a turn; the writer takes others too.
- PlayerStateRewrites.ReencodedDecodesIff: is about encoding the fields; with `preserveRaw` a state whose fields are unchanged keeps its raw bytes, stray flags and long positions included.
- RoomServers.RoomServer.Join: takes the id as a parameter, of which only that no stored player has it is used; `RoomStores` shows the store's choice to be such an id. The roster of a migrating join is not part of the room's state.
- RoomServers.RoomServer.MovePlayersAtomic: a cancel message whose send throws as well counts as sent; the source ignores that failure. The target room is always there, the text of a thrown error is not kept, and members are sessions where the source reports their uuids.
- Players and sessions are values keyed by the session's id, so aliasing between a session and its player is not captured.
- Move ids have two textual shapes, and texts of the two shapes, or of different players, are taken to differ.
- Level data caching, move history, timestamps and nonces, and the writer's `pendingAckSeq`, which is written and never read.
- `forceNextKeyframe`, `forceKeyframe` and `Snapshot.applyDelta`/`createDelta`, which nothing in the server uses, and the status callbacks.
- The byte-buffer form of a frame with its `too_short` error; the object form is modelled.
- The write counter has no upper limit here; in the source it loses precision beyond 2^53.
- The untyped network address and the parsing of IPv4 text by `Number`; a V4 host is its four parts.
- How the room directory's reservations come, are used up and expire: a claim takes the list of them as it stands.
- RosterKeys.KeysAgreeIff: for uuids that are not empty and hold no comma, as uuids do; a reservation named like a key of sorted uuids would share its roster.
- RosterRuns.EightPlayersCanLeak: the groups come within the fifteen seconds that a roster lasts; no expiry falls into the run.
- BinaryWriters.BinaryWriter.constructor: every write asks for capacity 1 or more; on capacity 0 the source never returns.
- Broadcasts that carry no authority (EnterGame, PlayerChangedLevel, PlayerLeft), kicks, gift RPC, audience, music and ping: relays and fixed layouts that would add only easy members.
- The ENet transport, the HTTP interface, configuration, logging, metrics and the tick loop: input and output.
