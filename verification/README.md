# Godworks in Dafny: logs, commands, frames, partitions, codecs and workers

This project models the parts of Godworks that decide what survives a crash, a retry, a reconnect or a
handoff, and proves what each of them promises over every input and every run.

- **Write-ahead log** (`crc32`, `wal`, `wal_recovery`, `wal_durability`, `wal_append`, `wal_reader`,
  `wal_tail`, `wal_witness`, `wal_legacy`): the CRC-32 of section 3.2.9 of IEEE 802.3 as a shift register and as the
  table loop, and the reader that splits a byte log into lines, takes the bare lines of older logs, drops
  a corrupt tail, refuses corruption in the middle and stops at an offset.
- **Command protocol** (`commands`, `command_invariants`, `command_theorems`, `command_queue`,
  `command_bound`, `command_witnesses`, `command_answers`, `command_sweep`, `command_server`): the
  in-flight, queue, retry, timeout, eviction and owner-change rules of the agar server, as a state machine
  and as the object that takes its steps.
- **Frames** (`frames`, `sdk_frames`): the incremental parser and the blocking reader and writer of
  length-prefixed frames, over the same bytes.
- **Shard monitor** (`shard_ranges`, `shard_grid`, `shard_monitor`, `shard_balance`): the load-balancing
  partitioner, when it rebalances, and its two views of the same grid.
- **Protocol codec and partition map** (`wire_names`, `protocol`, `protocol_stable`, `protocol_reads`,
  `protocol_writes`, `partition_map`, `partition_reads`): the typed operations with their aliases,
  defaults and three batch encodings, and the map contract.
- **Client cache** (`client_state`, `client_theorems`, `client_content`, `client_cache`).
- **Workers** (`agar_tick`, `agar_safety`, `agar_report`, `agar_worker`, `zone_worker`, `zone_content`):
  the eating tick of the agar worker and what it reports, and the life, motion and writes of rigid bodies
  in the physics worker.

`json`, `text` and `wrappers` hold what several of them share. Where the source updates objects in place
there is a class whose methods are proved equal to functions on its state; the theorems are about those
functions. `dafny verify dfyconfig.toml` checks everything.

What stays outside is a parameter: the JSON text codec and UTF-8 repair (`Wal.Codec`, `Frames.Parser`,
`SdkFrames.Codec`), the clock, the order in which timers fire, the physics of moving bodies
(`AgarTick.Physics`, the motion given to `ZoneWorker.Worker.RunTick`). The log theorems name the facts
they need of the text codec: a printed value parses back, contains no line ending, and no proper
non-empty prefix of one parses; and, where a line feed is missing (`GluedFails`), text that parses no
longer does with a printed envelope behind it. One codec meets them all (`WalWitness.FactsConsistent`).

## Where the code does less than one might expect

Each of these is proved: with the exact condition under which it happens, or, for the loss of mass in the
last entry, with one condition that rules it out and one that forces it.

- Recovery can end in a record without a final line feed. An event appended to such a prefix shares its
  line: it is lost together with the last old event (`WalAppend.AppendRecoversIff`). Every log cut just
  before its last line feed is such a prefix (`WalWitness.CutLineFeedLosesTwo`).
- What becomes of a queued target is settled for every event (`CommandQueue.QueueFate`,
  `CommandQueue.StrandsIff`). A newer one can be
  - replaced by the older target of a retryable reject (`CommandQueue.ResponseKeepsQueueIff`) or of a
    timer that an owner change set (`CommandWitnesses.OwnerChangeOverwritesExample`);
  - left with nothing to send it, by a final reject (`CommandQueue.FinalRejectStrands`) and by the last
    timeout (`CommandQueue.TimeoutStrandsIff`); it then waits for the player's next move
    (`CommandQueue.StrandedUntilInput`) and may go out after that one
    (`CommandWitnesses.StrandedTargetSentLateExample`);
  - dropped without being sent, when its timer fires while the entity is missing
    (`CommandWitnesses.MissingEntityDropsExample`).
- A command evicted from the pending map leaves its player's in-flight mark set for good
  (`CommandTheorems.StuckIffNotPending`). No command is evicted up to 1024 connections
  (`CommandTheorems.NoEvictionWhileSmall`), and with more one can be (`CommandWitnesses.CrowdEvicts`).
- The cell at each cut is not accumulated, so the p-th cut can exceed its share by more than one cell: by
  at most p heaviest cells (`ShardRanges.BalancedCutsAreFair`), and on equal cells by at least p - 1 of
  them (`ShardRanges.SlackGrows`). With fewer cells than parts the ranges no longer tile the line
  (`ShardRanges.SanitizedTilesIff`).
- A rejection without any field gains an empty reason when re-encoded (`ProtocolStable.DecodeIsStable`,
  `ProtocolStable.BareRejectionExample`); a box area of interest is not read back
  (`ProtocolStable.InterestComesBack`).
- The strip constructor takes splits on trust, so a strip with an invalid split does not come back from
  its printed form (`PartitionMap.StripRoundTripIff`, `PartitionMap.StripWithBadSplitExample`).
- A ghost frame without an owner clears the row's owner region but not the component
  (`ClientTheorems.OwnerAgreesIff`), and until the row is rewritten they disagree
  (`ClientTheorems.OwnerLostIff`).
- A player eaten earlier in a tick still takes its turn; what it eats then is lost
  (`AgarTick.NeverGains`, `AgarSafety.DoomedTickLoses`). Zones in which this cannot happen are
  recognised before the tick (`AgarSafety.SafeTickConserves`); between these two conditions, whether a
  tick loses mass depends on who eats what on the way, and only the record of its meals says so.

## Model

| member | source | states |
|---|---|---|
| `Crc32.Crc32Ieee` | src/wal.rs:37-64 | the table-driven loop returns, for every byte string, the value of the bit-at-a-time shift register (initial and final complement included) |
| `Crc32.BuildTable` | src/wal.rs:40-58 | entry i of the 256-entry table is eight register shifts of i |
| `Crc32.TableLookup` | src/wal.rs:59-62 | one loop step is the register fed with the eight bits of one byte |
| `Crc32.StepInvertible` | src/wal.rs:45-53 | a register shift can be undone, and an undone one redone: Unstep(Step(c)) = c = Step(Unstep(c)) |
| `Crc32.ShiftLinear` | src/wal.rs:45-53 | shifting distributes over exclusive or |
| `Crc32.FeedInjective` | src/wal.rs:59-63 | for a fixed message, different registers stay different |
| `Crc32.FeedIsPackedXor` | src/wal.rs:37-64 | feeding up to 32 bits is one exclusive or of the packed bits followed by that many shifts |
| `Crc32.WindowInjective` | src/wal.rs:37-64 | for a fixed start, different bit strings of equal length up to 32 give different registers |
| `Crc32.BurstDetected` | src/wal.rs:37-64 | any change confined to 32 consecutive bits, at any position, changes the final register |
| `Crc32.WindowChangesCrc` | src/wal.rs:37-64 | two payloads that differ only inside one window of at most four bytes never have the same checksum, whatever surrounds the window |
| `Crc32.CheckValue` | src/wal.rs:37-64 | the checksum of the nine bytes "123456789" is 0xCBF43926, the check value of the IEEE CRC-32 |
| `Crc32.Residue` | src/wal.rs:37-64 | every message followed by its own checksum, low byte first, has the checksum 0x2144DF1C |
| `Wal.EnvelopeDecodes` | src/wal.rs:66-96 | a written envelope decodes back to its event |
| `Wal.TamperedIsCorrupt` | src/wal.rs:76-96 | a payload changed inside a window of at most four bytes under its old `_c` decodes to Corrupt |
| `Wal.StoredChecksumWraps` | src/wal.rs:82-84 | an envelope whose `_c` exceeds the checksum by a multiple of 2^32 still decodes: only the low 32 bits count |
| `WalLegacy.LegacyReads` | src/wal.rs:76-96 | a log of bare printed values, one per line, without header or envelopes, reads as those values in order, without error, and its recoverable prefix is the whole file; lines that do not parse are skipped |
| `WalLegacy.LegacyExample` | src/wal.rs:76-96 | a concrete log of two bare events around a garbled line reads as these two events |
| `WalLegacy.UncheckedTailDropped` | src/wal.rs:90-92 | behind a version 1 log one bare event counts as a corrupt tail of its own length, and every event in front of it is recovered |
| `WalTail.TailAddsUp` | src/wal.rs:239-274 | reading a version 1 log without error, the recoverable prefix ends with a line; of the lines behind it none decodes, as many as hold a record are counted as corrupt, and prefix, corrupt tail and the blank or header lines among them are every byte of the file |
| `WalLegacy.NewerRefused` | src/wal.rs:177-202 | a log whose first line announces version n is refused exactly if n is above 1, whatever follows |
| `WalLegacy.TrimDropsEnds` | src/wal.rs:177-219 | a line is read without the whitespace at its two ends and without any other change |
| `WalLegacy.KindRead` | src/wal.rs:98-103 | an event is counted under the string it names as its kind, and under the empty text if it names none |
| `WalLegacy.KnownKinds` | src/wal.rs:105-129 | the event kinds a report does not count as unknown are these twenty |
| `WalRecovery.RefusedExactly` | src/wal.rs:190-298 | a v1 log of supported version is refused exactly when a decodable record follows a corrupt one; otherwise all decodable records come back in order |
| `WalRecovery.OffsetsNest` | src/wal.rs:281-298 | for offsets a <= b the events up to a are a prefix of the events up to b |
| `WalRecovery.OffsetIsCut` | src/wal.rs:281-298 | reading up to an offset gives the events of the file cut at the last line boundary at or below it |
| `WalRecovery.RawPrefix` | src/wal.rs:138-163 | cutting a file after a whole number of lines keeps exactly those lines |
| `WalRecovery.RawConcat` | src/wal.rs:138-163 | lines added behind a complete line leave the earlier lines and their offsets as they were |
| `WalRecovery.MidCorruptIff` | src/wal.rs:239-263 | the scan of the good prefix finds corruption exactly when some decodable record follows a corrupt one |
| `WalDurability.CutRecovers` | src/wal.rs:131-316 | a log written as header and envelopes, cut at any byte, reads without error as exactly the events whose whole envelope text survived |
| `WalDurability.CutHeader` | src/wal.rs:66-68 | a cut inside the header line reads without error as no events |
| `WalAppend.RecoveryIsFixedPoint` | src/wal.rs:264-274 | the recoverable prefix of an error-free v1 log reads back as the same events, with no corrupt tail and the same prefix length |
| `WalAppend.AppendRecoversIff` | src/wal.rs:264-274 | appending an envelope to the recoverable prefix recovers the old events and the new one if and only if that prefix ends in a line feed; otherwise the last old event is lost as well |
| `WalAppend.AppendAfterCorruptTailRefused` | src/wal.rs:236-263 | appending a valid envelope behind an untruncated, line-ended corrupt tail makes the log refused |
| `WalWitness.CutLineFeedLosesTwo` | src/wal.rs:264-274 | every log of at least one event, cut just before its last line feed, still reads as all its events; the next event written behind it is lost together with the last |
| `WalWitness.FactsConsistent` | src/wal.rs:66-96 | one concrete codec meets all the facts the log theorems ask of a codec, and its log of two events shows the loss |
| `WalReader.ReadWalEvents` | src/wal.rs:131-316 | the reader's loops compute the result the recovery theorems speak about, for every file, missing file and offset |
| `WalReader.SplitLines` | src/wal.rs:138-163 | the read-until loop yields each line's text, size and end offset |
| `WalReader.FindVersion` | src/wal.rs:175-188 | the first non-blank line is found and its announced version read |
| `WalReader.DecodeLines` | src/wal.rs:211-234 | the decode loop collects one record per line that is neither blank nor a header record |
| `WalReader.CorruptTail` | src/wal.rs:236-248 | the backward scan counts the corrupt records behind the last decodable one and their bytes |
| `WalReader.SelectAndCount` | src/wal.rs:276-298 | the selection loop keeps the decodable records up to the offset and counts every kind once per event |
| `WalReader.ReportCounts` | src/wal.rs:276-316 | the counts of all kinds sum to the number of selected events, and each kind's count is its number of occurrences |
| `CommandInvariants.StepInv` | examples/agar_mit_clone/gw_authoritative_server.js:162-390 | every event keeps the tables consistent and every issued id in exactly one book |
| `CommandTheorems.InFlightIsPending` | examples/agar_mit_clone/gw_authoritative_server.js:335-359 | in every reachable state a player has at most one pending command, and a connected player's in-flight id that was not evicted is exactly that command |
| `CommandTheorems.EveryIdAccounted` | examples/agar_mit_clone/gw_authoritative_server.js:162-195 | every issued id is exactly one of pending, answered, timed out or evicted |
| `CommandTheorems.LateResponseHarmless` | examples/agar_mit_clone/gw_authoritative_server.js:165-170 | a response clears the in-flight mark of the connected player that sent this command and no other |
| `CommandTheorems.PendingFewerThanPlayers` | examples/agar_mit_clone/gw_authoritative_server.js:190-194 | there are never more pending commands than connections ever made |
| `CommandTheorems.NoEvictionWhileSmall` | examples/agar_mit_clone/gw_authoritative_server.js:190-194 | no command is evicted while there have been at most 1024 connections |
| `CommandTheorems.StuckIffNotPending` | examples/agar_mit_clone/gw_authoritative_server.js:190-194 | a connected player's in-flight command blocks it in every future exactly when that command is no longer pending; otherwise the sweep frees it |
| `CommandTheorems.OrphansAreEvicted` | examples/agar_mit_clone/gw_authoritative_server.js:190-194 | a connected player's in-flight command is no longer pending exactly when it was evicted |
| `CommandTheorems.OrphanNeverSends` | examples/agar_mit_clone/gw_authoritative_server.js:335-359 | while its in-flight id is not pending a player never has a command pending again |
| `CommandTheorems.GoneForever` | examples/agar_mit_clone/gw_authoritative_server.js:190-194 | a player's in-flight id that is no longer pending stays in flight, and not pending, in every future |
| `CommandQueue.QueueFate` | examples/agar_mit_clone/gw_authoritative_server.js:162-390 | for every event, in every state that keeps the invariant, a queued target stays, is sent as a new command, is replaced or is dropped, as the guard on the state before says |
| `CommandQueue.StrandsIff` | examples/agar_mit_clone/gw_authoritative_server.js:162-390 | for every event a connected player's queued target is left with no command in flight and no timer exactly under a condition on the state before |
| `CommandQueue.ResponseKeepsQueueIff` | examples/agar_mit_clone/gw_authoritative_server.js:171-185 | a response keeps a newer queued target exactly when it is not a retryable reject of another target |
| `CommandQueue.FinalRejectStrands` | examples/agar_mit_clone/gw_authoritative_server.js:171-189 | answering the in-flight command leaves a queued target without a timer exactly when the answer is a final reject and no timer was set |
| `CommandQueue.TimeoutKeepsQueue` | examples/agar_mit_clone/gw_authoritative_server.js:361-390 | the timeout sweep never takes a target off the queue, though it may leave it without a timer |
| `CommandQueue.TimeoutStrandsIff` | examples/agar_mit_clone/gw_authoritative_server.js:369-389 | the timeout of a command leaves the target queued behind it without a timer exactly when the command is not retried and no timer was set |
| `CommandQueue.StrandedUntilInput` | examples/agar_mit_clone/gw_authoritative_server.js:328-333 | a stranded target is not sent until the player moves again or its entity changes owner |
| `CommandWitnesses.RejectOverwritesExample` | examples/agar_mit_clone/gw_authoritative_server.js:181-182 | a run from the initial state after which a retryable reject has put the older target back over the newer one |
| `CommandWitnesses.FinalRejectExample` | examples/agar_mit_clone/gw_authoritative_server.js:171-189 | a run from the initial state after which a final reject has stranded the newer target |
| `CommandWitnesses.LastSweepExample` | examples/agar_mit_clone/gw_authoritative_server.js:361-390 | whatever the limit on attempts and the timeout, a run from the initial state after which the last sweep has stranded the newer target |
| `CommandWitnesses.MissingEntityDropsExample` | examples/agar_mit_clone/gw_authoritative_server.js:328-336 | a run from the initial state after which the queued target was taken off the queue and never sent, since the entity was missing |
| `CommandWitnesses.OwnerChangeOverwritesExample` | examples/agar_mit_clone/gw_authoritative_server.js:251-264 | a run from the initial state after which a timer set by an owner change has replaced a newer queued target by an older one |
| `CommandWitnesses.StrandedTargetSentLateExample` | examples/agar_mit_clone/gw_authoritative_server.js:328-359 | a run from the initial state in which a stranded target is sent after the command of a later move |
| `CommandWitnesses.CrowdEvicts` | examples/agar_mit_clone/gw_authoritative_server.js:190-194 | for every n above 1024, n connections with one pending command each and one unknown response evict exactly the n - 1024 oldest commands, and the first player is blocked in every future |
| `CommandBound.StepCost` | examples/agar_mit_clone/gw_authoritative_server.js:162-390 | sent commands plus remaining work never grow on an event that brings no target |
| `CommandBound.RetriesAreBounded` | examples/agar_mit_clone/gw_authoritative_server.js:162-390 | without new input and owner changes only finitely many further commands are sent, by an explicit measure |
| `CommandBound.AttemptsBounded` | examples/agar_mit_clone/gw_authoritative_server.js:171-185 | every pending attempt number stays at most max(2, COMMAND_MAX_ATTEMPTS - 1) |
| `Text.ContainsIff` | examples/agar_mit_clone/gw_authoritative_server.js:197-202 | searching the lowered text for a phrase in small letters finds it exactly if the text is a split pre, mid, post with mid spelling the phrase in any case |
| `CommandAnswers.RetryableIff` | examples/agar_mit_clone/gw_authoritative_server.js:197-202 | a reject reason counts as transient exactly if somewhere it says one of the three phrases, in any mixture of small and capital letters |
| `CommandAnswers.PhraseIsTransient` | examples/agar_mit_clone/gw_authoritative_server.js:197-202 | each of the three phrases is enough, whatever stands before and behind it |
| `CommandAnswers.RejectRetriesIff` | examples/agar_mit_clone/gw_authoritative_server.js:171-185 | a reject of a pending command sets a timer for one more attempt, and queues its target again, exactly if the reason is transient, it was at most the second attempt, and the player is connected, spawned and present; any other sets no timer and leaves the queue |
| `CommandAnswers.SuccessFlushesIff` | examples/agar_mit_clone/gw_authoritative_server.js:186-188 | a success sets a timer exactly if its connected player has a target queued, which stays queued |
| `CommandAnswers.InputTaken` | examples/agar_mit_clone/gw_authoritative_server.js:335-359 | a spawned and present player's input is sent at once as a first attempt if nothing is in flight and queued otherwise; any other input does nothing |
| `CommandAnswers.OwnerChangeTaken` | examples/agar_mit_clone/gw_authoritative_server.js:251-264 | a change between two named owners queues the player's last target behind the command in flight, or sets a timer for it; any other change of owner does nothing |
| `CommandSweep.SweepTakesLate` | examples/agar_mit_clone/gw_authoritative_server.js:361-390 | a sweep takes exactly the commands sent at least the timeout ago off the pending map, and retries, in order, exactly those whose player can send and that have an attempt left |
| `CommandSweep.PresenceFollows` | examples/agar_mit_clone/gw_authoritative_server.js:556-611 | who is connected, spawned and present changes only with connections, spawns, disconnects and the broker's announcements of entities; a new player has nothing queued or in flight |
| `CommandSweep.CountersAddUp` | examples/agar_mit_clone/gw_authoritative_server.js:162-390 | in every run each response is counted once, each reject once as transient or final, and each timed-out command once as retried or given up |
| `CommandServer.Server.SendTargetCommand` | examples/agar_mit_clone/gw_authoritative_server.js:335-359 | updating the maps in place is the model's send step |
| `CommandServer.Server.FlushQueuedTarget` | examples/agar_mit_clone/gw_authoritative_server.js:328-333 | updating the maps in place is the model's flush step |
| `CommandServer.Server.HandleClientFrame` | examples/agar_mit_clone/gw_authoritative_server.js:162-195 | the handler takes the model's response step and keeps the invariant |
| `CommandServer.Server.EvictOldest` | examples/agar_mit_clone/gw_authoritative_server.js:190-194 | the eviction loop removes the oldest entries until 1024 remain |
| `CommandServer.Server.ReapCommandTimeouts` | examples/agar_mit_clone/gw_authoritative_server.js:361-390 | the sweep over a snapshot takes the model's sweep step and keeps the invariant |
| `CommandServer.Server.MaybeResendTargetAfterOwnerChange` | examples/agar_mit_clone/gw_authoritative_server.js:251-264 | an owner change queues or schedules the last target exactly as modelled and keeps the invariant |
| `CommandServer.Server.RunTimer` | examples/agar_mit_clone/gw_authoritative_server.js:171-189 | firing any set timer, in any order, keeps the invariant |
| `CommandServer.Server.OnPlayerInput` | examples/agar_mit_clone/gw_authoritative_server.js:598-603 | player input takes the model's send step and keeps the invariant |
| `CommandServer.Server.OnDisconnect` | examples/agar_mit_clone/gw_authoritative_server.js:608-611 | a disconnect removes the player and leaves its pending command accounted for |
| `Frames.MostSignificantFirst` | examples/agar_mit_clone/gw_authoritative_server.js:60-65 | a frame's length is its first four bytes read as a number in base 256, most significant byte first |
| `Frames.DeclaredHeader` | examples/agar_mit_clone/gw_authoritative_server.js:60-65 | the four header bytes of a length read back as that length |
| `Frames.SplitRestores` | examples/agar_mit_clone/gw_authoritative_server.js:100-111 | splitting loses nothing: the frames found and the remainder are the buffer |
| `Frames.SplitStream` | examples/agar_mit_clone/gw_authoritative_server.js:60-111 | frames put in front of any buffer come off again in order and leave that buffer's own split |
| `Frames.SplitLater` | examples/agar_mit_clone/gw_authoritative_server.js:100-111 | splitting early and again when more arrives is splitting at once |
| `Frames.ParseFrames` | examples/agar_mit_clone/gw_authoritative_server.js:100-111 | the shrinking-buffer loop delivers, in order, every payload that parses to anything but null, false, a zero number or the empty string, and returns the incomplete rest |
| `Frames.FrameBuffer.OnData` | examples/agar_mit_clone/gw_authoritative_server.js:113-123 | after any sequence of data events, delivered messages and buffer are those of everything received |
| `Frames.ChunkingIrrelevant` | examples/agar_mit_clone/gw_authoritative_server.js:100-111 | any split of a byte stream into chunks yields the same messages and the same leftover as one read |
| `Frames.SentIsDelivered` | examples/agar_mit_clone/gw_authoritative_server.js:60-111 | values written as frames arrive under any chunking, in order, all but null, false, zero numbers and the empty string, and leave nothing behind |
| `Frames.StructuresArrive` | examples/agar_mit_clone/gw_authoritative_server.js:60-111 | objects and arrays written as frames all arrive, in order, under any chunking |
| `Frames.NoiseSkipped` | examples/agar_mit_clone/gw_authoritative_server.js:104-110 | a frame whose payload does not parse delivers nothing and loses nothing around it |
| `SdkFrames.ByteStream.ReadOp` | crates/godworks-worker-sdk/src/lib.rs:518-540 | the reader consumes one frame, or stops for end of stream, over-long frame, truncated payload or undecodable payload |
| `SdkFrames.ReadsWhatSplitFinds` | crates/godworks-worker-sdk/src/lib.rs:518-540 | on every byte string the SDK reader yields the decoded prefix of the frames the incremental parser finds, up to the first it refuses, and stops for the stated reason |
| `SdkFrames.ReadsWritten` | crates/godworks-worker-sdk/src/lib.rs:493-540 | operations written as frames in front of any stream are read back first |
| `SdkFrames.CutStream` | crates/godworks-worker-sdk/src/lib.rs:518-540 | a connection cut at any byte yields every whole operation, and a clean end exactly if at most three bytes of the next frame came through |
| `SdkFrames.OverlongRefused` | crates/godworks-worker-sdk/src/lib.rs:493-540 | a frame is refused as too large, by reader and writer, exactly above 1048576 bytes of payload |
| `ShardRanges.SanitizeRanges` | examples/agar_mit_clone/gw_shard_monitor.js:101-112 | the loop computes the sanitized ranges |
| `ShardRanges.SanitizedTilesIff` | examples/agar_mit_clone/gw_shard_monitor.js:101-112 | any raw ranges become exactly `parts` ranges, non-empty, contiguous and covering [0, max), if and only if max >= parts |
| `ShardRanges.SanitizedKeeps` | examples/agar_mit_clone/gw_shard_monitor.js:101-112 | ranges that tile the line already, one per part, are left as they are |
| `ShardRanges.BalancedRanges` | examples/agar_mit_clone/gw_shard_monitor.js:83-99 | the nested loops compute the balanced cut |
| `ShardRanges.BalancedCutsAreFair` | examples/agar_mit_clone/gw_shard_monitor.js:83-112 | the weight before cut p is at most p/parts of the total plus p heaviest cells, and at least p/parts plus p - 1 lightest cells unless the cut is as far right as it may be |
| `ShardRanges.SlackGrows` | examples/agar_mit_clone/gw_shard_monitor.js:83-99 | on cells of equal weight, with room behind the cut, cut p exceeds its share by at least p - 1 cells |
| `ShardGrid.MakeGridLoad` | examples/agar_mit_clone/gw_shard_monitor.js:54-68 | cell (x, y) of the grid holds the weight of the entities whose position falls in it |
| `ShardGrid.MakePartition` | examples/agar_mit_clone/gw_shard_monitor.js:70-81 | the partition is the balanced cut of the column weights, each band cut by its own row weights |
| `ShardGrid.PartitionTiles` | examples/agar_mit_clone/gw_shard_monitor.js:70-81 | with a cell for every part, every proposal is nx bands of ny rows that tile the grid |
| `ShardGrid.ProposalIsFair` | examples/agar_mit_clone/gw_shard_monitor.js:70-99 | the entities in the first p bands weigh at most p/nx of the total plus p heaviest columns, and at least p/nx plus p - 1 lightest columns unless capped |
| `ShardGrid.RowsAreFair` | examples/agar_mit_clone/gw_shard_monitor.js:70-99 | inside every band the entities above row cut p weigh at most p/ny of the band plus p heaviest rows, and at least p/ny plus p - 1 lightest rows unless capped |
| `ShardGrid.BlockLoads` | examples/agar_mit_clone/gw_shard_monitor.js:114-126 | the nested sums are the weights of the entities inside each block's rectangle, band by band |
| `ShardMonitor.BlockFor` | examples/agar_mit_clone/gw_shard_monitor.js:145-157 | the nested search returns the first block that holds the entity's cell |
| `ShardMonitor.BlockOfIff` | examples/agar_mit_clone/gw_shard_monitor.js:145-157 | on tiled bands the lookup returns a block exactly when that block's rectangle holds the cell, and never fails |
| `ShardMonitor.LoadsMatchLookup` | examples/agar_mit_clone/gw_shard_monitor.js:30-52 | after any history of frames and rebalances the stored load of each block is the weight of the latest frame's entities the lookup sends there |
| `ShardMonitor.NothingUnknown` | examples/agar_mit_clone/gw_shard_monitor.js:128-157 | no entity of the latest frame is without a block, and the loads sum to the total weight |
| `ShardMonitor.RebalancesApart` | examples/agar_mit_clone/gw_shard_monitor.js:43-48 | any two consecutive rebalances are at least the minimum interval apart |
| `ShardBalance.RebalancesIff` | examples/agar_mit_clone/gw_shard_monitor.js:35-51 | of a monitor that has a partition, a frame raises the rebalance count and puts the frame's proposal in place of the bands exactly if the interval has passed and the entities inside some block's rectangle weigh more than the ratio times the mean over the blocks; otherwise the bands stay |
| `ShardBalance.FirstFrame` | examples/agar_mit_clone/gw_shard_monitor.js:35-38 | the first frame is partitioned by its own proposal, without counting as a rebalance |
| `ShardBalance.WeightOfFrame` | examples/agar_mit_clone/gw_shard_monitor.js:54-68 | what a grid holds in all is four for every player, two for every virus and one for every other entity |
| `ShardBalance.CellHolds` | examples/agar_mit_clone/gw_shard_monitor.js:54-62 | a coordinate inside the frame falls in the cell whose span holds it, one outside in the nearest cell |
| `ShardBalance.EntityPlaced` | examples/agar_mit_clone/gw_shard_monitor.js:54-62 | an entity inside the frame is counted in the column that spans its x and the row that spans its y |
| `ShardMonitor.Monitor.OnFrame` | examples/agar_mit_clone/gw_shard_monitor.js:22-52 | handling a frame in place takes the step whose rebalances `ShardBalance.RebalancesIff` decides, and keeps the invariant |
| `ShardMonitor.Monitor.Snapshot` | examples/agar_mit_clone/gw_shard_monitor.js:128-143 | the served view pairs the stored loads with the lookup of every entity |
| `WireNames.KeysDiffer` | crates/godworks-protocol/src/json.rs:21-613 | no two wire fields share a name |
| `WireNames.Texts1` | crates/godworks-protocol/src/json.rs:21-613 | the names of the fields as they stand on the wire (with `Texts2` to `Texts15`, one group of names each) |
| `ProtocolWrites.KnownOperations` | crates/godworks-protocol/src/json.rs:21-160 | an operation is known exactly if it is one of the twenty with a payload of their own or of the twenty-three that only carry their fields |
| `ProtocolWrites.ConnectionKinds` | crates/godworks-protocol/src/json.rs:24-40 | the connection operations are decoded by the decoders of their own names |
| `ProtocolWrites.LifecycleKinds` | crates/godworks-protocol/src/json.rs:41-65 | the operations on entities are decoded by the decoders of their own names |
| `ProtocolWrites.ComponentKinds` | crates/godworks-protocol/src/json.rs:69-93 | the operations on components and authority are decoded by the decoders of their own names |
| `ProtocolWrites.MeshKinds` | crates/godworks-protocol/src/json.rs:94-157 | rejections, handoffs, acknowledgements and health are decoded by the decoders of their own names |
| `ProtocolWrites.HandoffWritten` | crates/godworks-protocol/src/json.rs:549-571 | a handoff built in memory, without raw fields, is written so that it reads back field by field, position and velocity included |
| `ProtocolWrites.AuthorityChangeWritten` | crates/godworks-protocol/src/json.rs:520-532 | an authority change built in memory, without raw fields, is written so that it reads back field by field |
| `ProtocolWrites.RejectionWritten` | crates/godworks-protocol/src/json.rs:534-547 | a rejection built in memory, without raw fields, is written so that it reads back field by field |
| `ProtocolReads.HandoffReads` | crates/godworks-protocol/src/json.rs:345-362 | an object with `pos` [a, b], `vel` [c, d] and the other fields of a handoff decodes to exactly these, under either name of its regions and epoch |
| `ProtocolReads.HandoffDefaults` | crates/godworks-protocol/src/json.rs:345-362 | a handoff that names only entity and target stands still at the origin |
| `ProtocolReads.HandoffRefused` | crates/godworks-protocol/src/json.rs:345-362 | a handoff without target is refused for the target, else one without entity for the entity |
| `ProtocolReads.AuthorityChangeReads` | crates/godworks-protocol/src/json.rs:331-343 | a full authority change decodes to its fields |
| `ProtocolReads.AuthorityChangeDefaults` | crates/godworks-protocol/src/json.rs:331-343 | an authority change that names only its entity revokes `pos` at epoch 0 |
| `ProtocolReads.RejectionReads` | crates/godworks-protocol/src/json.rs:94-101 | a full rejection decodes to its fields, under either name of the component |
| `ProtocolReads.RejectionDefaults` | crates/godworks-protocol/src/json.rs:94-101 | an empty rejection decodes to no entity, no component and an empty reason |
| `ProtocolReads.ComponentReads` | crates/godworks-protocol/src/json.rs:69-82 | a full add, remove or update of a component decodes to its fields |
| `ProtocolReads.ComponentDefaults` | crates/godworks-protocol/src/json.rs:69-82 | an add or update of a component without a value carries null, and without an epoch none |
| `ProtocolReads.ComponentRefused` | crates/godworks-protocol/src/json.rs:69-82 | an add without an entity is refused for the entity, one with an entity but no component for the component |
| `ProtocolReads.BatchEntryReads` | crates/godworks-protocol/src/json.rs:288-317 | a batch entry is entity, value and epoch, the last two optional; an empty array and a scalar are refused |
| `ProtocolReads.CreateReads` | crates/godworks-protocol/src/json.rs:258-265 | a create decodes to its entity, request, region and component bag |
| `ProtocolReads.BagReads` | crates/godworks-protocol/src/json.rs:601-613 | the bag is the explicit components, or an object of the position and velocity given |
| `ProtocolReads.DeleteReads` | crates/godworks-protocol/src/json.rs:52-56 | a delete decodes to its entity, request and epoch |
| `ProtocolReads.ReserveReads` | crates/godworks-protocol/src/json.rs:60-65 | a reservation counts by `count`, else by `n`, else zero |
| `ProtocolReads.ConnectReads` | crates/godworks-protocol/src/json.rs:214-239 | a connect decodes to its worker, region, version and token |
| `ProtocolReads.ConnectRefused` | crates/godworks-protocol/src/json.rs:214-239 | only version 1 is spoken; the version is looked at first, then the worker, then the region |
| `ProtocolReads.AttributesRead` | crates/godworks-protocol/src/json.rs:228-236 | of the attributes the strings are kept, in order |
| `ProtocolReads.AuthRejectReads` | crates/godworks-protocol/src/json.rs:25-31 | an authentication reject decodes to its fields, with `auth_error` where no error is named |
| `ProtocolReads.InterestReads` | crates/godworks-protocol/src/json.rs:241-256 | a full interest decodes to its fields, under the current names or the older ones |
| `ProtocolReads.InterestDefaults` | crates/godworks-protocol/src/json.rs:241-256 | an empty interest has no area and no radius, rate 1 and grid 0 |
| `ProtocolReads.SmallReads` | crates/godworks-protocol/src/json.rs:33-47 | the operations that only name an entity, a worker or a phase decode to these |
| `ProtocolReads.CoordinatesRead` | crates/godworks-protocol/src/json.rs:644-672 | a number of any form is a coordinate, anything else counts as zero |
| `ProtocolReads.DecodeRefused` | crates/godworks-protocol/src/json.rs:21-160 | an object without an operation is refused for it, one with an unknown operation by its name |
| `ProtocolStable.BareRejectionExample` | crates/godworks-protocol/src/json.rs:534-547 | the object that only names UpdateRejected decodes, and does not survive its first re-encoding |
| `Protocol.DecodeBatchUpdateArray` | crates/godworks-protocol/src/json.rs:288-317 | the loop returns all entries in order or the error of the first bad one |
| `Protocol.CollectFields` | crates/godworks-protocol/src/json.rs:589-599 | inserting field by field yields every field but `op`, in order |
| `Protocol.EncodeJsonFields` | crates/godworks-protocol/src/json.rs:573-581 | inserting field by field yields the name followed by the other fields, in order |
| `ProtocolStable.DecodeIsStable` | crates/godworks-protocol/src/json.rs:21-212 | for every JSON value that decodes, decoding the re-encoded operation gives the same operation exactly unless it is a rejection without fields, and a second pass always does |
| `ProtocolStable.StableUpdateRejected` | crates/godworks-protocol/src/json.rs:534-547 | a rejection with a field survives; a bare one gains an empty reason and from then on survives |
| `ProtocolStable.StableWorkerConnect` | crates/godworks-protocol/src/json.rs:214-239 | a decoded connect survives, attributes, version and token included |
| `ProtocolStable.InterestComesBack` | crates/godworks-protocol/src/json.rs:241-256 | an interest keeps radius, rate, grid and circle; a box area is lost, since no decoder reads it |
| `ProtocolStable.StableCreateEntity` | crates/godworks-protocol/src/json.rs:258-265 | a decoded create survives, whether components were explicit or assembled from pos and vel |
| `ProtocolStable.StableComponentOps` | crates/godworks-protocol/src/json.rs:476-506 | decoded add, remove and update of a component survive, aliases `component` and `epoch` normalised |
| `ProtocolStable.StableBatchUpdate` | crates/godworks-protocol/src/json.rs:276-286 | a decoded batch survives, whatever form its entries had |
| `ProtocolStable.BatchFormsAgree` | crates/godworks-protocol/src/json.rs:288-317 | entries written as arrays, as objects or mixed decode to the same batch |
| `ProtocolStable.MapFormAgrees` | crates/godworks-protocol/src/json.rs:319-329 | a map from entity to value with one shared epoch decodes to the batch of those entries |
| `ProtocolStable.StableAuthorityChange` | crates/godworks-protocol/src/json.rs:331-343 | a decoded authority change survives with all its fields and defaults |
| `ProtocolStable.StableMeshHandoff` | crates/godworks-protocol/src/json.rs:345-362 | a decoded handoff survives under either spelling of its regions |
| `PartitionMap.ValidateSortedFinite` | crates/godworks-core/src/lib.rs:566-580 | the loop stops at the first boundary that is not finite or does not exceed the one before, with the matching error |
| `PartitionMap.ValidateIff` | crates/godworks-core/src/lib.rs:566-580 | boundaries pass exactly when all are finite and strictly increasing |
| `PartitionReads.FirstOffenceReported` | crates/godworks-core/src/lib.rs:566-580 | boundaries are refused exactly if one offends, and for the first that does: as not finite if it is not, as unsorted if it is finite but does not exceed the one before |
| `PartitionReads.GridErrors` | crates/godworks-core/src/lib.rs:468-524 | both grid constructors refuse by one rule: a zero count first, then a cell size that is not finite, then one not positive, then an origin that is not finite |
| `PartitionReads.RegionOrder` | crates/godworks-core/src/lib.rs:464 | splits are ordered by region as names are: a prefix first, else by the first character that differs |
| `PartitionReads.ParsesIff` | crates/godworks-protocol/src/lib.rs:947-1074 | an object parses to a map if and only if it holds its version and denotes its partition: its kind, its counts above zero, positive cells, an origin of exactly as many numbers as the grid has axes, ascending boundaries, and splits that are missing or a list of regions with ascending boundaries |
| `PartitionMap.SortSplitsSorted` | crates/godworks-core/src/lib.rs:459-466 | sorting orders the splits by region and keeps each as often as it was there |
| `PartitionMap.SortSplitsStable` | crates/godworks-core/src/lib.rs:459-466 | splits of one region keep their order |
| `PartitionMap.ConstructedIsValid` | crates/godworks-core/src/lib.rs:459-466 | the strip constructor accepts exactly ascending boundaries, and builds a valid map exactly when the splits it was handed are valid |
| `PartitionMap.ParsedIsValid` | crates/godworks-protocol/src/lib.rs:947-1034 | every map that parses is valid: boundaries strictly increasing in the strip and every split, splits sorted, cells positive, origin finite |
| `PartitionMap.RoundTripIff` | crates/godworks-protocol/src/lib.rs:947-1034 | parse(print(m)) = Some(m) if and only if the map is valid |
| `PartitionMap.StripRoundTripIff` | crates/godworks-protocol/src/lib.rs:947-1034 | a constructed strip comes back if and only if each split passes its own constructor |
| `PartitionMap.StripWithBadSplitExample` | crates/godworks-core/src/lib.rs:459-466 | a strip whose split has falling boundaries is constructed, and does not come back from its printed form |
| `PartitionMap.GridsComeBack` | crates/godworks-core/src/lib.rs:468-524 | every grid a constructor builds comes back from its printed form |
| `PartitionMap.ParsedComesBack` | crates/godworks-protocol/src/lib.rs:947-1034 | what parses re-prints to a value that parses to the same map |
| `ClientTheorems.EntityIsLocal` | crates/godworks-client-sdk/src/lib.rs:330-345 | an entity's row after any stream is the row built from only the operations naming it, batches replaced by single updates |
| `ClientTheorems.BatchIsSingles` | crates/godworks-client-sdk/src/lib.rs:418-428 | a batch is its single updates one after another |
| `ClientTheorems.HistoryIsBaseAndStream` | crates/godworks-client-sdk/src/lib.rs:295-328 | apart from the phase, a cache is what its last reset left followed by the stream since |
| `ClientTheorems.ResyncForgets` | crates/godworks-client-sdk/src/lib.rs:315-324 | two caches with any histories, given the same checkout and the same later events, are equal |
| `ClientTheorems.DepthSinceReset` | crates/godworks-client-sdk/src/lib.rs:453-466 | after any history the critical depth is the running sum of begins and ends since the last reconnect or resync minus its lowest value |
| `ClientTheorems.RejectionsSinceReset` | crates/godworks-client-sdk/src/lib.rs:443-451 | the recorded rejections are those of the stream since the last reset, in order |
| `ClientContent.ComponentIsLastWritten` | crates/godworks-client-sdk/src/lib.rs:330-528 | after any stream a component of an entity has the value of the last operation that wrote it, or none if an erasure came after; batches count as their single updates |
| `ClientContent.GrantIsLast` | crates/godworks-client-sdk/src/lib.rs:389-441 | after any stream the grant of a component is that of the last authority change for it, or none if the component or the entity was removed after |
| `ClientContent.CheckoutComponent` | crates/godworks-client-sdk/src/lib.rs:353-377 | a checked-out row holds the components of its bag and, over them, the five that stand beside it |
| `ClientContent.CheckoutGrants` | crates/godworks-client-sdk/src/lib.rs:530-554 | a checked-out row holds a grant for exactly the components named by an object among its grants, with the epoch under either name |
| `ClientContent.EventTells` | crates/godworks-client-sdk/src/lib.rs:330-501 | the event of an operation names the entity it changed and says what is true of the cache after it; an ignored operation leaves the cache as it was |
| `ClientContent.PhaseWords` | crates/godworks-client-sdk/src/lib.rs:453-466 | a phase ends a critical section if it is one of four words, and begins one if it is one of four others, in any mixture of small and capital letters |
| `ClientContent.PhaseIsLastEntered` | crates/godworks-client-sdk/src/lib.rs:295-328 | after any history the client is in the phase last entered |
| `ClientTheorems.GhostsAlwaysAgree` | crates/godworks-client-sdk/src/lib.rs:556-568 | after any history every row's boolean `ghost` component is its ghost flag |
| `ClientTheorems.OwnerAgreesIff` | crates/godworks-client-sdk/src/lib.rs:330-493 | after any operation, batches included, a row's owner region keeps following its string `owner_region` component exactly unless a ghost frame without an owner meets such a component |
| `ClientTheorems.OwnerLostIff` | crates/godworks-client-sdk/src/lib.rs:295-493 | after any history a row's owner region differs from its owner component exactly when, since the last reset, a ghost frame that lost the owner was the last to rewrite the row |
| `ClientTheorems.OwnerLostExample` | crates/godworks-client-sdk/src/lib.rs:468-493 | a concrete pair of ghost frames after which component and owner region disagree |
| `ClientCacheObject.ClientCache.Apply` | crates/godworks-client-sdk/src/lib.rs:330-345 | dispatching an operation in place takes the model's step and returns its event |
| `ClientCacheObject.ClientCache.ApplyBatchUpdate` | crates/godworks-client-sdk/src/lib.rs:418-428 | the loop sets one component per entry and returns the last event |
| `ClientCacheObject.ClientCache.ApplyMeshGhost` | crates/godworks-client-sdk/src/lib.rs:468-493 | a ghost frame merges its components, marks the row and takes its owner from this frame alone |
| `ClientCacheObject.ClientCache.ApplyCriticalSection` | crates/godworks-client-sdk/src/lib.rs:453-466 | the depth goes up, down to zero at least, or stays, by the phase's name in any case |
| `ClientCacheObject.ClientCache.FinishResyncFromQueryResponse` | crates/godworks-client-sdk/src/lib.rs:315-324 | the loop rebuilds the cache from the checkout rows alone and returns their number |
| `ClientCacheObject.MergeComponentMap` | crates/godworks-client-sdk/src/lib.rs:522-528 | the loop inserts every component and refreshes the row |
| `ClientCacheObject.MergeAuthorityMap` | crates/godworks-client-sdk/src/lib.rs:530-554 | the loop records a grant for every object-valued entry |
| `AgarTick.MassIsAccounted` | examples/agar_mit_clone/gw_authoritative_zone_worker.js:218-263 | the owned mass after a tick plus what eaten players went on to absorb is the owned mass before |
| `AgarTick.NeverGains` | examples/agar_mit_clone/gw_authoritative_zone_worker.js:238-247 | without negative masses a tick never adds mass; with positive masses it conserves mass exactly when no player ate after being eaten |
| `AgarTick.OnlyFoodConserves` | examples/agar_mit_clone/gw_authoritative_zone_worker.js:238-247 | if only food is eaten, mass is conserved |
| `AgarTick.DeletedWereEaten` | examples/agar_mit_clone/gw_authoritative_zone_worker.js:238-247 | an owned entity is gone after a tick exactly when it was eaten, and every eater was more than 1.1 times heavier at that moment |
| `AgarTick.EveryPlayerReports` | examples/agar_mit_clone/gw_authoritative_zone_worker.js:222-250 | the position report lists every player of the snapshot in order, also those eaten earlier in the tick |
| `AgarReport.TurnIs` | examples/agar_mit_clone/gw_authoritative_zone_worker.js:222-254 | a player's turn computed from the bodies at its start alone: where it moves, whom it eats of those it comes across, its mass after, the deletions in order, the position noted, and its mass sent exactly if it ate |
| `AgarReport.ReportedPositions` | examples/agar_mit_clone/gw_authoritative_zone_worker.js:249-256 | the report of a tick is, for every player in order, the position its step leads to from where it was before the tick, under its epoch; that is where the player is after the tick |
| `AgarReport.SentMessages` | examples/agar_mit_clone/gw_authoritative_zone_worker.js:238-256 | a tick sends exactly the mass after the tick of every player that ate, under its epoch, the deletion of everything eaten, under its own epoch or its eater's, and the report last |
| `AgarReport.MassIsGained` | examples/agar_mit_clone/gw_authoritative_zone_worker.js:238-247 | after a tick everything weighs what it weighed before and what it absorbed |
| `AgarSafety.SafeTickConserves` | examples/agar_mit_clone/gw_authoritative_zone_worker.js:222-247 | a tick conserves mass if, before it, every player behind another in the order of turns is out of that one's reach, heavier than all the rest can outgrow, or too light to eat anything |
| `AgarSafety.OnePlayerConserves` | examples/agar_mit_clone/gw_authoritative_zone_worker.js:222-247 | a tick over at most one player conserves mass, whatever the masses |
| `AgarSafety.LikeWeightsConserve` | examples/agar_mit_clone/gw_authoritative_zone_worker.js:238-247 | a tick conserves mass if no player is more than a tenth heavier than anything else |
| `AgarSafety.ApartConserves` | examples/agar_mit_clone/gw_authoritative_zone_worker.js:222-247 | a tick conserves mass if no player starts within reach of one that moves before it |
| `AgarSafety.DoomedTickLoses` | examples/agar_mit_clone/gw_authoritative_zone_worker.js:222-247 | with positive masses a tick loses mass whenever the first player to move catches another that can still eat food nobody else reaches first |
| `AgarSafety.DeadEaterLosesMass` | examples/agar_mit_clone/gw_authoritative_zone_worker.js:222-247 | a concrete zone of two players and one food that loses mass |
| `AgarWorker.Worker.TickOwned` | examples/agar_mit_clone/gw_authoritative_zone_worker.js:218-259 | the nested loops over snapshots take the model's tick |
| `AgarWorker.Worker.TakeTurn` | examples/agar_mit_clone/gw_authoritative_zone_worker.js:222-254 | one iteration of the outer loop, the inner loop included, takes the model's turn |
| `AgarWorker.Worker.DeleteIfOwned` | examples/agar_mit_clone/gw_authoritative_zone_worker.js:99-104 | an entity is dropped, and its deletion sent with its epoch or 1, exactly if it was owned |
| `ZoneWorker.RunInv` | src/bin/zone_worker.rs:642-804 | in every run the bots' handles are pairwise distinct and are exactly the live rigid bodies |
| `ZoneWorker.EpochIsLatestGrant` | src/bin/zone_worker.rs:736-804 | in every run an entity has a body exactly while a grant for it stands, and its epoch is that of the latest grant |
| `ZoneWorker.WritesAreFenced` | src/bin/zone_worker.rs:393-456 | whatever the history, an update is written only while a grant stands and carries the epoch of the latest one |
| `ZoneWorker.FoldTargetIff` | src/bin/zone_worker.rs:517-546 | whatever the cell, a body is handed over exactly when an edge it crossed has a neighbour, and then to the neighbour behind the first such edge |
| `ZoneWorker.InsideStays` | src/bin/zone_worker.rs:517-546 | a body inside its cell is never handed over |
| `ZoneContent.PointRead` | src/bin/zone_worker.rs:806-812 | a value is read as a point exactly if it is a list that starts with the point's two numbers |
| `ZoneContent.ViewIsLatest` | src/bin/zone_worker.rs:668-729 | in every run the worker's view of an entity's position and velocity is the one shown last since the entity was last removed, the origin if there is none |
| `ZoneContent.BodyIsSimulated` | src/bin/zone_worker.rs:736-804 | in every run each entity's body is the one its own history says: adopted at the latest position and velocity shown for it, left in place by a renewed grant, moved by the physics, gone with the grant |
| `ZoneContent.WritesCarryBodies` | src/bin/zone_worker.rs:400-456 | after every run a write is due exactly for the entities with a body: `pos` carries its position, `vel` its velocity, both fenced with the epoch of the latest grant |
| `ZoneContent.LeavesIff` | src/bin/zone_worker.rs:400-413 | a body is handed over exactly if its worker has a cell and the body has crossed an edge of it behind which there is a neighbour |
| `ZoneContent.ConcernsIff` | src/bin/zone_worker.rs:753-760 | an authority change concerns the body exactly if it is about `pos` or no component and does not merely announce a loss |
| `ZoneContent.RejectDropsIff` | src/bin/zone_worker.rs:577-666 | a reject costs an entity its body exactly if it names the entity, is about `pos` or `vel`, and says "not authoritative" in any mixture of small and capital letters |
| `ZoneContent.CountersCount` | src/bin/zone_worker.rs:632-804 | in every run the worker's counters are the number of rejects, gains, losses and announced losses |
| `ZoneWorker.Worker.ApplyAuthorityChange` | src/bin/zone_worker.rs:736-804 | a grant adopts a new body or refreshes the epoch, a loss destroys the body, an imminent loss only counts |
| `ZoneWorker.Worker.DropLocalBodyAfterAuthorityReject` | src/bin/zone_worker.rs:642-666 | a not-authoritative reject of pos or vel, and no other, destroys the local body |
| `ZoneWorker.Worker.ApplyRemoveEntity` | src/bin/zone_worker.rs:712-729 | removal clears the view and destroys the body |
| `ZoneWorker.Worker.RunTick` | src/bin/zone_worker.rs:393-456 | a tick hands over exactly the bodies that left, and writes pos and vel once each for every other, with its bot's epoch |

## Left out

- The broker, `src/main.rs`: leases, authority transfer, mesh and rebalancing are not part of this model.
- Sockets, HTTP, socket.io, async runtimes, file opening, environment parsing and signals: only the bytes and events they deliver are modelled.
- JSON text and UTF-8 repair are parameters with stated facts; their own correctness is not modelled.
- A read error in the middle of a log file, which the reader treats as the end of the file, is not modelled.
- Machine integers: offsets, counts and the critical depth are unbounded here; `u64` is kept where a value is read from or written to JSON.
- Floating point: coordinates, radii, masses and partition cells are real numbers, so rounding, signed zero and not-a-number coordinates are not modelled; partition boundaries do distinguish infinite and not-a-number values.
- The monitor is modelled for frames of non-zero width and height and for configurations with a cell for every part; with fewer cells the program reads outside its grid.
- The diagnostic lists of the agar server (rejected, timed-out and resent commands, capped at sixteen), despawn fallbacks and the visible-entity frames.
- Reject reasons are lowered character by character in ASCII; JavaScript's case folding of other characters is not modelled.
- The agar worker's `view` map, target steering and broker messages other than those a tick sends; positions after a step are a parameter.
- CommandServer.Server.OnConnection: the player's name, hue and socket are not modelled; connections are numbered instead of named by socket id.
- AgarTick.NeverGains: its exact condition is on the meals the tick records; on the state before a tick there are a condition that conserves mass and one that loses it, and between them the order of meals decides.
- AgarWorker.Worker.TickOwned: objects that JavaScript shares by reference are entries of one map from id to body; a body stays in the map after deletion, as the snapshot keeps it reachable.
- ZoneWorker.Worker.RunTick: the order of the writes within one batch is that of a hash map and is not modelled; positions precede velocities by being returned first.
- ZoneWorker.Worker.DropLocalBodyAfterAuthorityReject: the per-class reject counters and log lines are not modelled, only the total.
- The engine bridge's snapshot export, the snapshot-manifest contract and the operation-semantics tables: field-by-field tables that would add easy members.
- `gw_authoritative_monitor.js` repeats the partitioner without its state; gates, load generators, browser pages and model-plane validators are test harnesses and user interface.
