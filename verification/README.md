# A Dafny model of logjet

logjet stores OpenTelemetry records in self-describing blocks, replays them between daemons and bridges, indexes files
for fast queries and removes duplicate log messages. This project models the parts of it that are hardest to get right
and proves what they promise, for all inputs and all runs:

- **Files.** The block format, the writer and the resynchronising reader (`Encoding`, `SyncMarker`, `BlockFormat`,
  `BlockParser`, `BlockReader`, `BlockWriter`, `RoundTrip`).
- **Replay.** Wire frames, the two spools with their cursors, the wake-up of waiting clients, the drain protocol with
  crashes and reconnects, and the bridge's export pipeline (`WireProtocol`, `BufferSpool`, `FileSpool`, `FileReplay`,
  `Wakeup`, `DrainProtocol`, `DrainResume`, `DrainProgress`, `DrainSpool`, `ExportPipeline`).
- **Queries.** Sidecar summaries, when they may be used to skip, how an index is built and what scanning through it
  returns (`IndexSummary`, `IndexPruning`, `IndexBuild`, `IndexedScan`).
- **Deduplication.** The Drain template miner and the staged grouping of log records (`DrainTree`, `DrainMiner`,
  `DrainRepeats`, `DedupGroups`, `DedupStages`, `DedupDrain`).

`dafny verify dfyconfig.toml` covers all files. Every inductive step is written out: all lemmas carry
`{:induction false}`, so no proof rests on automatic induction.

## Conventions

- Checksums, compression, body hashes, canonicalisation, tokenisation, OTLP decoding and payload matchers are
  function-valued parameters (`Primitives`, `Decoder`, `Signing`). Compression is assumed lossless where a round trip is
  claimed (`Lossless`); a hash is assumed collision-free only on the texts of the input (`CollisionFree`), and only where
  that is stated. Whether unchecked sums and shifts panic or wrap is a parameter too (`Overflow`).
- Integers are unbounded; widths that matter (`u16`, `u32`, `u64`, the shift of a varint past bit 63, the saturating
  wake-up generation, the unchecked additions of the index) are written out. Similarities are real numbers.
- Objects whose methods update fields are classes; loops of the source are loops, each proved equal to a specification
  function or relation. Concurrent parts are state machines whose runs are arbitrary interleavings of steps.
- A hash map that the source iterates over is visited in arbitrary order.

## Where a promise has a condition

Some promises do not hold for every input. For each, the model keeps the code as it is and proves exactly when the
promise holds:

- The marker search finds the first marker in every input if and only if the configured marker is self-aligned
  (`ScanExactness`); the default marker is.
- Acknowledged records were delivered on every run if and only if the bridge's resume state is empty or names its stream
  (`DrainExactness`).
- What the bridge has recorded is never posted again, on every run, if and only if it has a state file
  (`ResumeExactness`).
- The cached index of a buffer cursor never changes an answer if and only if no retained record dips below its neighbours
  (`CursorExactness`); increasing sequence numbers exclude that, and out of order a whole session that skips a retained
  record exists (`DipSkips`).
- Consuming from a file spool keeps every record above the mark if and only if none is overtaken: none sits in a file whose
  last record is at or below the mark, or in the write buffer behind such an active file (`ConsumeLoses`). In sequence
  order only the buffer can be overtaken (`OrderedOvertaken`), and there it happens (`AckLosesNext`).
- No wake-up is lost at a generation, on any run that reaches it, if and only if it is below the top of the 64-bit counter
  (`WakeupExactness`); some run gets to the top and strands a client there (`SaturationReached`).
- Skipping by sequence and time is sound for all queries if and only if a block's first and last records bracket the rest
  (`RangePruningExactness`). Skipping by service is sound if and only if the summary is incomplete or every record is
  filtered by a listed name (`ServicePruningExactness`). Skipping by severity is sound if and only if the summary is
  incomplete or every record has a listed severity or an empty one, which no severity filter admits
  (`SeverityPruningExactness`).
- Inserting into the Drain tree never misses its wildcard child if and only if at least one child is allowed or the tree
  has no token level (`PlaceExactness`).
- A message that fits a template opens a new cluster if and only if the threshold is above one and the message has a token
  (`FittingNeverOpens`).
- Equal messages share a Drain cluster on every run if and only if the threshold is zero or below (`RepeatExactness`).
  Below one, a cluster can become more general between two of them until another one is more similar; at one, a template
  with more wildcards can come up; above one, every message with a token opens its own. Up to threshold one a repeated
  message at least never opens a cluster (`RepeatJoins`).
- Grouping by body hash is grouping by body if and only if no two different bodies of the input share a hash
  (`HashGroupingExactness`). The second stage groups by canonical body if and only if bodies that share a hash share a
  canonical body and no two different canonical bodies share a hash (`CanonGroupingExactness`).

Where comments in the source and the code differ, the model follows the code: the header of `ljx/src/dedup/drain3.rs` says
numeric tokens are never sent to wildcards, while the default configuration, which deduplication uses, does send them; the
comment on `collect_exemplar` in `ljx/src/dedup/mod.rs` speaks of three exemplars, while the code keeps at most two.

## Model

| member | source | states |
|---|---|---|
| `Encoding.LittleEndianRoundTrip` | src/format.rs:54-90 | a fixed-width field that was written reads back, for every width and value in range |
| `Encoding.LittleEndianRestores` | src/format.rs:70-90 | reading a field and writing it again restores its bytes, so fields and bytes correspond one to one |
| `Encoding.EncodeVarint` | src/writer.rs:190-199 | the encoding loop appends exactly the varint of the value |
| `Encoding.VarintSpells` | src/writer.rs:190-199 | a varint is a run of continuation bytes closed by a final byte, and its seven-bit groups spell the value |
| `Encoding.VarintFits` | src/writer.rs:190-199 | a 64-bit value takes one to ten bytes |
| `Encoding.ReadVarint` | src/reader.rs:244-264 | the decoding loop computes the specified meaning: at most ten bytes, only the low 64 bits, and its two errors |
| `Encoding.VarintRoundTrip` | src/reader.rs:244-264 | decoding where a value was written gives the value and stops right after it, whatever surrounds it |
| `SyncMarker.ScanIsFirst` | src/reader.rs:108-134 | with a self-aligned marker the byte-wise search finds the first occurrence, and none only if there is none |
| `SyncMarker.ScanMisses` | src/reader.rs:108-134 | a misaligned border of the marker yields an input whose marker the search runs past |
| `SyncMarker.ScanExactness` | src/reader.rs:108-134 | the search is right on every input if and only if the marker is self-aligned |
| `SyncMarker.FreshHeadIsSelfAligned` | src/format.rs:26 | a marker whose first byte does not recur in it is self-aligned, as the default one is |
| `BlockFormat.DecompressRestores` | src/codec.rs:22-58 | decompressing a compressed payload with its true length restores it for every codec |
| `BlockFormat.HeaderRoundTrip` | src/format.rs:53-90 | every header of the current version decodes to itself |
| `BlockFormat.HeaderRestores` | src/format.rs:53-98 | an accepted header re-encodes to the very bytes it came from, so the recomputed checksum covers the stored bytes |
| `BlockFormat.ExtRoundTrip` | src/format.rs:100-116 | the header extension decodes to itself, whatever unknown extension bytes follow |
| `BlockFormat.ExtRestores` | src/format.rs:100-116 | the known part of any extension re-encodes to its bytes |
| `BlockFormat.ReadRecord` | src/reader.rs:212-236 | reading one record step by step gives the specified record, next position or error, including both overflow errors |
| `BlockFormat.ReadRecords` | src/reader.rs:207-242 | the record loop computes the specified list: exactly the announced count, ending exactly at the payload's end |
| `BlockFormat.RecordRoundTrip` | src/reader.rs:212-236 | a record written relative to the block's base parses back anywhere in a payload |
| `BlockFormat.RecordsRoundTrip` | src/reader.rs:207-242 | parsing a packed list of records gives the list back |
| `BlockParser.ParsePrinted` | src/reader.rs:136-197 | the parser's verdict on a well-formed block: accepted with its records exactly when within both limits and its body parses, with the right error otherwise, whatever follows it |
| `BlockParser.ParsedIsPrinted` | src/reader.rs:136-197 | everything the parser accepts is a well-formed block with correct checksums, and its records are those of that block |
| `BlockParser.AcceptedPrefix` | src/reader.rs:136-197 | acceptance does not depend on what follows the block |
| `BlockParser.TornBlockRejected` | src/reader.rs:136-197 | a block cut short anywhere is rejected |
| `BlockReader.NextBlockIsFirst` | src/reader.rs:68-134 | the search by markers, retrying one byte after a bad block, leads to the leftmost offset where a whole block validates |
| `BlockReader.ReadAllIsGreedy` | src/reader.rs:55-197 | for every byte string, reading to the end equals the greedy specification: leftmost valid block, its records, continue after it |
| `BlockReader.LogjetReader.FindNextSync` | src/reader.rs:108-134 | the reading loop positions the reader at the marker the search finds, or at the end of the file |
| `BlockReader.LogjetReader.TryReadBlockAt` | src/reader.rs:136-197 | records, error, final position and byte counters agree with the parser's verdict at that offset |
| `BlockReader.LogjetReader.ReadRest` | src/reader.rs:158-197 | the same for the part after the fixed header |
| `BlockReader.LogjetReader.ScanNextBlock` | src/reader.rs:68-102 | moves past the next block or to the end with the specified counters, and keeps bytes advanced equal to bytes skipped plus accepted extents |
| `BlockReader.LogjetReader.NextRecord` | src/reader.rs:55-66 | hands out the head of what remains, never disturbs the rest or the final counters, ends only when nothing remains, and terminates even on empty blocks |
| `BlockReader.ReadToEnd` | src/reader.rs:55-106 | the consumer's loop returns all records and final counters, and the greedy specification for self-aligned markers; for those the counters too are the greedy ones |
| `BlockReader.TallyCounts` | src/reader.rs:68-102 | a search counts as bad exactly the markers it passes that start no valid block |
| `BlockReader.CountersAreGreedy` | src/reader.rs:55-102 | after any file, good blocks and records are those of the greedy reading, skipped bytes are all others, and bad blocks are the markers passed that start no valid block |
| `BlockWriter.LogjetWriter.Push` | src/writer.rs:59-101 | a push is refused exactly when it lies before its block's base and then leaves no trace; an accepted one extends the accepted records by exactly that record; blocks respect the target size; while the held records and the new one stay below the target nothing is written, a successful push leaves less than the target, and every block closed was filled |
| `BlockWriter.LogjetWriter.CloseFull` | src/writer.rs:96-98 | a block is flushed after a push exactly when its payload has reached the target |
| `BlockWriter.NoRoom` | src/writer.rs:80-92 | a block closed before a push had no room for that record |
| `BlockWriter.LogjetWriter.Extend` | src/writer.rs:62-94 | the encoded record is buffered with the right bases, count and payload |
| `BlockWriter.LogjetWriter.EncodeOne` | src/writer.rs:71-78 | field by field this builds the specified record encoding |
| `BlockWriter.LogjetWriter.FlushBlock` | src/writer.rs:103-163 | succeeds exactly when compression works and lengths fit 32 bits; writes one whole block with zero padding to the alignment; a failure changes nothing |
| `BlockWriter.FileImageAppend` | src/writer.rs:103-163 | flushing appends exactly one block image to the file |
| `RoundTrip.WrittenBlockParses` | src/reader.rs:136-197 | a written block is accepted, whatever follows, if and only if it is within the reader's limits, and then with its own records |
| `RoundTrip.QuietPrefix` | src/reader.rs:68-134 | bytes that cannot start a marker only move the next block further away |
| `RoundTrip.ReadFileImage` | src/writer.rs:103-163 | reading a written file yields its records in order and its counters, then goes on with whatever follows |
| `RoundTrip.CleanCounters` | src/reader.rs:24-33 | a written file counts no bad block, every block and record once, and no skipped byte without padding |
| `RoundTrip.DamageSkipped` | src/reader.rs:68-134 | bytes in which no valid block starts are skipped without disturbing what follows |
| `RoundTrip.SpliceRecovery` | src/reader.rs:68-134 | two written files with such damage between them read as the records of the first, then those of the second |
| `RoundTrip.RoomToFlush` | src/writer.rs:103-163 | whatever the writer can hold in its buffer can be flushed, and takes one more record, provided compression works up to the largest buffer these pushes can leave and that size fits the 32-bit fields |
| `RoundTrip.WriteRun` | src/writer.rs:59-169 | any sequence of pushes and a final flush leaves a file of well-formed, size-limited blocks holding exactly the accepted records; pushes in order are all accepted; nothing fails where compression works up to the largest buffer these pushes can leave; every block but the last has reached the target or has no room for the first record of the next |
| `RoundTrip.AdmittedIsCompatible` | src/reader.rs:200-205 | every block written from given pushes is within the limits of a reader whose limits admit the largest buffer those pushes can leave |
| `RoundTrip.WriteThenRead` | src/reader.rs:55-102 | reading back any such file whose blocks are within the reader's limits, as those of admitted pushes are, gives exactly the accepted records with no bad block; records pushed in order come back unchanged |
| `WireProtocol.WireStream.ReadRecord` | logjetd/src/protocol.rs:44-110 | the successive reads of one frame compute the specified result on the unread bytes (a frame with a right checksum, or which error) and advance past exactly that frame |
| `WireProtocol.FrameRoundTrip` | logjetd/src/protocol.rs:44-152 | a written frame, compressed or not, reads back as its record, whatever follows |
| `WireProtocol.AcceptExactness` | logjetd/src/protocol.rs:44-110 | on every input, a record is read from the first bytes if and only if they are a frame for it: right magic, version, type and length, a right checksum, a stored payload within the limit that restores to the record's |
| `WireProtocol.DamagedFrame` | logjetd/src/protocol.rs:71-91 | a frame whose bytes no longer have the stored checksum is invalid, whatever its header says apart from the length |
| `WireProtocol.AlteredFrame` | logjetd/src/protocol.rs:44-152 | a written frame altered in transit, the length field apart, is refused unless its checksum happens to agree |
| `WireProtocol.CompressesWhenShorter` | logjetd/src/protocol.rs:112-131 | a payload is stored compressed exactly when that was asked for and is shorter, and never takes more than three bytes extra |
| `WireProtocol.CutFrame` | logjetd/src/protocol.rs:44-110 | a frame cut inside its magic is a clean end, cut later it is an unexpected end |
| `WireProtocol.WholeFramesFit` | logjetd/src/protocol.rs:112-152 | the count of whole frames before a cut is the largest that fits |
| `WireProtocol.CutStream` | logjetd/src/protocol.rs:44-152 | a stream cut at any byte reads as exactly the records of its whole frames, then a clean or unexpected end; never a damaged record |
| `WireProtocol.WholeStream` | logjetd/src/protocol.rs:44-152 | the uncut stream returns every record and then ends cleanly |
| `BufferSpool.DroppedFrom` | logjetd/src/spool.rs:230-245 | eviction drops the fewest records that bring the rest within the limit |
| `BufferSpool.TrimSteps` | logjetd/src/spool.rs:186-238 | evicting after every append or once at the end comes to the same |
| `BufferSpool.AppendRetains` | logjetd/src/spool.rs:186-238 | after any append-only history the buffer holds the first kept records plus the longest suffix of the rest within the limit |
| `BufferSpool.Spool.Append` | logjetd/src/spool.rs:186-194 | the appended record, the eviction it causes, an exact byte count and the limit |
| `BufferSpool.Spool.EnforceLimits` | logjetd/src/spool.rs:230-253 | the eviction loop keeps the protected front and the longest admissible suffix |
| `BufferSpool.Spool.ConsumeThrough` | logjetd/src/spool.rs:223-228 | drops exactly the acknowledged front and keeps the byte count exact and the limit |
| `BufferSpool.Spool.NextForCursor` | logjetd/src/spool.rs:201-221 | the cached index or the scan, and the cursor it leaves |
| `BufferSpool.Spool.ReplayCursorAfter` | logjetd/src/spool.rs:196-199 | a cursor at the first record above the requested sequence number: all before it are at or below, it is above |
| `BufferSpool.AppendRun` | logjetd/src/spool.rs:186-253 | any append-only run leaves exactly the retained records, an exact byte count and a tail within the limit; the limit in numbers: at most that many records behind the kept front, or that many bytes |
| `BufferSpool.CursorExactness` | logjetd/src/spool.rs:201-221 | the cached index never changes an answer, for any cursor at all, if and only if no record is a dip |
| `BufferSpool.IncreasingCursor` | logjetd/src/spool.rs:201-221 | with increasing sequence numbers a cursor yields the first retained record above its last one |
| `BufferSpool.DipSkips` | logjetd/src/spool.rs:201-228 | out of order, a session from the empty spool reads past a record that is still retained |
| `BufferSpool.SessionSafety` | logjetd/src/spool.rs:186-238 | over any interleaving of appends, evictions, acknowledgements and reads, a client sees strictly increasing sequence numbers and skips nothing still retained; when a read finds nothing, it has everything retained |
| `FileSpool.SearchLeavesHint` | logjetd/src/spool.rs:349-379 | every file before the hint a search leaves was skipped or held nothing above the floor |
| `FileSpool.FirstAboveIsFirst` | logjetd/src/spool.rs:357-374 | the search of one file gives the first record above the floor |
| `FileSpool.PlainIsFirst` | logjetd/src/spool.rs:349-379 | without a hint a client gets the first record of all files above its position and the consumed mark |
| `FileSpool.HintedSearch` | logjetd/src/spool.rs:349-379 | a sound hint gives the answer of a search through all files |
| `FileSpool.ReadKeepsHint` | logjetd/src/spool.rs:349-379 | a read leaves a sound hint and moves strictly forward |
| `FileSpool.ApplyKeeps` | logjetd/src/spool.rs:312-479 | every write, flush, rotation, retention and consumption keeps all hints sound |
| `FileSpool.HintNeverMatters` | logjetd/src/spool.rs:345-479 | over any interleaving of those operations and reads, whatever the sequence numbers, a client with a hint gets the answers of one without |
| `FileReplay.ApplyBringsIn` | logjetd/src/spool.rs:312-479 | no operation brings in anything but the pushed record, and the consumed mark never falls |
| `FileReplay.ReplaySafety` | logjetd/src/spool.rs:312-479 | over any interleaving of appends in sequence order, flushes, rotations, retention, consumption and reads, a client gets strictly increasing records, none consumed at that moment, misses nothing that is held and not consumed, and has everything in the files when a read finds nothing |
| `FileSpool.ApplyKeepsOrder` | logjetd/src/spool.rs:312-479 | records pushed in sequence order stay in order, through the files and into the buffer, under every operation |
| `FileSpool.ConsumeLoses` | logjetd/src/spool.rs:381-479 | consumption keeps every record above the mark, as often as it was held, if and only if none is overtaken, whatever the sequence numbers |
| `FileSpool.OrderedOvertaken` | logjetd/src/spool.rs:440-479 | in sequence order a record is overtaken exactly when it is buffered above the mark behind a spent active file |
| `FileSpool.Accounting` | logjetd/src/spool.rs:312-479 | over any run, every record ever held is still held, acknowledged, cut by retention or lost, each exactly once; nothing is lost if and only if no acknowledgement overtakes a record |
| `FileSpool.AckLosesNext` | logjetd/src/spool.rs:381-479 | a run from the empty spool (push, spill, push, consume) in which acknowledging the first record loses the second |
| `FileSpool.SpillContents` | logjetd/src/spool.rs:328-335 | moving records from the buffer into a file changes neither what is held nor its order |
| `FileSpool.CleanConserves` | logjetd/src/spool.rs:440-479 | a clean-up removes exactly the spent files, and the buffer behind a spent active file, and keeps everything else |
| `FileSpool.CleanKeepsFile` | logjetd/src/spool.rs:440-460 | a file that is not active stays if and only if it is empty or its last record is above the mark |
| `FileSpool.RetentionCut` | logjetd/src/spool.rs:411-433 | as few of the oldest files go as bring the total within the limit, never the active one |
| `FileSpool.Spool.constructor` | logjetd/src/spool.rs:263-310 | opens any set of files and consumed mark: a full newest file gets a successor, and what is left is exactly the records outside the spent files |
| `FileSpool.Spool.Append` | logjetd/src/spool.rs:312-326 | the record goes behind everything held, at most the oldest records go (none without a size limit), sequence order is kept and every sound hint stays sound |
| `FileSpool.AppendRolls` | logjetd/src/spool.rs:312-326 | an append starts a new file for each of its two size tests that succeeds and for nothing else; the active file and pending bytes are then below a positive target |
| `FileSpool.ActiveBelow` | logjetd/src/spool.rs:270-284 | opening gives a file at or past the target a successor, and no other |
| `FileSpool.Spool.FlushSome` | logjetd/src/spool.rs:328-335 | moves buffered records into the active file; contents, order and hints are kept |
| `FileSpool.Spool.RotateFile` | logjetd/src/spool.rs:391-409 | flushes, opens the next file and enforces retention; at most the oldest records go and hints are kept |
| `FileSpool.Spool.EnforceRetention` | logjetd/src/spool.rs:411-433 | the deletion loop removes exactly the specified oldest files and keeps hints; the rest is within the limit or one file, and keeping one more would have been too much |
| `FileSpool.Spool.ConsumeThrough` | logjetd/src/spool.rs:381-389 | moves the mark and cleans up; keeps order and hints, and every record above the mark if and only if none is overtaken |
| `FileSpool.Spool.CleanUp` | logjetd/src/spool.rs:440-479 | the loop over files deletes every spent one and replaces a spent active one, removing exactly their records and the buffer behind it |
| `FileSpool.Spool.NextForCursor` | logjetd/src/spool.rs:349-379 | the file loop computes the specified search; with a sound hint it gives the first record of all files above the cursor and the consumed mark |
| `FileSpool.CountExcess` | logjetd/src/spool.rs:411-433 | the excess loop stops at the specified number of files |
| `Wakeup.DoKeepsInv` | logjetd/src/daemon.rs:99-117 | every step of publishers, notifiers and clients keeps the invariant |
| `Wakeup.NoLostWakeup` | logjetd/src/daemon.rs:676-709 | in every interleaving before saturation, a client blocked while a record above its cursor is retained is about to be woken |
| `Wakeup.QuietMeansDrained` | logjetd/src/daemon.rs:498-504 | once every publisher has notified, a client still blocked has read everything retained |
| `Wakeup.WakesBounded` | logjetd/src/daemon.rs:106-112 | a connected client wakes at most once for each time the generation moved: it never spins |
| `Wakeup.ReadsIncrease` | logjetd/src/daemon.rs:687-700 | a connected client reads in increasing order from its cursor on and nothing twice |
| `Wakeup.SaturationStrands` | logjetd/src/daemon.rs:99-104 | at the top generation a publication to a blocked client leaves it blocked with work |
| `Wakeup.WakeupExactness` | logjetd/src/daemon.rs:99-117 | for every generation: no run that reaches it strands a client if and only if it is below the top value |
| `Wakeup.SaturationReached` | logjetd/src/daemon.rs:99-117 | some run from the start ends with a client blocked, work retained and nobody left to announce it |
| `DrainProtocol.DoKeepsInv` | logjetd/src/daemon.rs:661-739 | every step of server, bridge, network and crashes, failed state-file writes included, keeps the protocol invariant |
| `DrainSpool.SpoolRefined` | logjetd/src/spool.rs:201-228 | what the protocol sends next and takes out is what the buffer spool's cursor and consumption do on increasing sequence numbers |
| `DrainProtocol.AckSpool` | logjetd/src/daemon.rs:726-736 | everything an acknowledgement takes out of the spool was delivered |
| `DrainProtocol.DrainSafety` | logjetd/src/replay.rs:111-136 | in every run with crashes, reconnects and new stream ids, a record leaves the spool by acknowledgement only after every collector accepted it, and none vanishes except by eviction |
| `DrainProtocol.LegacyStateLoses` | logjetd/src/replay.rs:435-453 | a resume state with a sequence number and no stream id has a run that acknowledges undelivered records |
| `DrainProtocol.DrainExactness` | logjetd/src/replay.rs:435-453 | draining is safe on every run if and only if the resume state is empty or names its stream |
| `DrainProtocol.LegacyRequest` | logjetd/src/replay.rs:435-453 | a number without a stream is kept only on a server that holds nothing or has got as far; otherwise the bridge starts over and never asks beyond what the server holds |
| `DrainResume.DoRuns` | logjetd/src/replay.rs:111-136 | in every run request, record, post, state and acknowledgement of the connection in use follow each other in lockstep |
| `DrainResume.ResumeSafety` | logjetd/src/replay.rs:281-291 | with a state file, on every run with crashes of both sides and reconnects, once the state says a record was posted neither it nor any before it on that stream is posted again |
| `DrainResume.ResumeExactness` | logjetd/src/replay.rs:281-291 | this holds on every run if and only if the bridge has a state file |
| `DrainResume.CrashRepeats` | logjetd/src/replay.rs:368-393 | without one, a run that posts a recorded record again |
| `DrainResume.AcksAreRecorded` | logjetd/src/replay.rs:281-291 | on every run a record is recorded only after it was posted and acknowledged only after that was written |
| `DrainProgress.DrainCompletes` | logjetd/src/daemon.rs:661-739 | from every reachable state, after one more append, the spool can be drained completely and everything it held was then delivered |
| `ExportPipeline.DoKeepsInv` | logjetd/src/replay.rs:138-279 | every step of reader and worker keeps order, queue agreement and earned commits |
| `ExportPipeline.PipelineSafety` | logjetd/src/replay.rs:138-279 | in every interleaving, commits are a prefix of what was read, nothing at or behind a failed export is committed, each commit was delivered or dropped, the queue is bounded and the out-of-order error is unreachable |
| `ExportPipeline.DropsWhenFull` | logjetd/src/replay.rs:179-201 | in every interleaving a record is dropped if and only if it met a full queue when its turn came, in the mode that drops; a dropped record is never exported |
| `ExportPipeline.DoneMeansSettled` | logjetd/src/replay.rs:160-177 | a bridge that ends normally has committed everything it read |
| `ExportPipeline.QueueClosedAtEnd` | logjetd/src/replay.rs:145-177 | on every run the task queue is open exactly while the reader may still use it |
| `ExportPipeline.PipelineCanFinish` | logjetd/src/replay.rs:160-177 | from every reachable state in which the stream has ended and the worker is alive, the pipeline can finish, with everything read committed in order |
| `ExportPipeline.FailedIsLater` | logjetd/src/replay.rs:237-279 | a failed export sits behind everything committed |
| `IndexSummary.InsertTracks` | ljx/src/dataset_index.rs:546-555 | an insert keeps the set faithful: complete exactly when at most 16 distinct values were seen, and then exactly those values |
| `IndexSummary.InsertAllTracks` | ljx/src/dataset_index.rs:546-572 | so does any sequence of inserts |
| `IndexSummary.MergeTracks` | ljx/src/dataset_index.rs:557-572 | merging two faithful sets is faithful to everything either has seen |
| `IndexSummary.MergeInto` | ljx/src/dataset_index.rs:557-572 | the merging loop with its early return computes the specified merge |
| `IndexSummary.SummaryBuilder.Push` | ljx/src/dataset_index.rs:472-487 | the summary describes exactly the records seen plus this one |
| `IndexSummary.SummaryBuilder.Merge` | ljx/src/dataset_index.rs:489-497 | merging a block's summary describes exactly the records of both |
| `IndexSummary.Collect` | ljx/src/dataset_index.rs:520-544 | collecting a payload's services and severities keeps both sets faithful |
| `IndexPruning.MatchesPayload` | ljx/src/predicate.rs:32-68 | the nested loops decide exactly whether every resource is allowed; undecodable payloads are never filtered out |
| `IndexPruning.BracketedPruning` | ljx/src/dataset_index.rs:150-196 | on bracketed records, a skip by type, sequence and time loses no match |
| `IndexPruning.RangePruningExactness` | ljx/src/dataset_index.rs:150-196 | such skips are sound for all queries if and only if the records are bracketed by their first and last |
| `IndexPruning.TypePruningExactness` | ljx/src/dataset_index.rs:150-196 | a block or file is skipped by type if and only if no record of it has the type |
| `IndexPruning.OrderedPruning` | ljx/src/dataset_index.rs:150-214 | with sequence numbers and timestamps that never decrease, a skipped block or file holds no match |
| `IndexPruning.ServicePruningExactness` | ljx/src/dataset_index.rs:150-196 | skips by service are sound for all nonempty filters if and only if the summary is incomplete or every record decodes and is filtered by a listed service |
| `IndexPruning.SeverityPruningExactness` | ljx/src/dataset_index.rs:150-196 | skips by severity are sound for all filters that can be asked for (nonempty, without the empty text) if and only if the summary is incomplete or every record has a listed or an empty severity |
| `IndexBuild.IndexBlockAgrees` | ljx/src/dataset_index.rs:368-441 | wherever the reader accepts a block, the index finds the same records and the same length |
| `IndexBuild.IndexFindsImage` | ljx/src/dataset_index.rs:264-325 | on every written file the index lists exactly the written blocks at their offsets |
| `IndexBuild.IndexMatchesReader` | ljx/src/dataset_index.rs:264-441 | on every written file index and reader list the same blocks with the same records |
| `IndexBuild.FindNextSyncMarker` | ljx/src/dataset_index.rs:296-325 | the chunked search finds what the byte-wise search finds |
| `IndexBuild.SummarisePayload` | ljx/src/dataset_index.rs:412-441 | the parsing loop fails as specified or describes exactly the payload's records |
| `IndexBuild.ReadBlockSummary` | ljx/src/dataset_index.rs:368-410 | nothing, a fault, or the offset, length and faithful summary of the block |
| `IndexBuild.Build` | ljx/src/dataset_index.rs:264-294 | the index covers the specified entries block by block and as a whole; a file without blocks has none |
| `IndexedScan.ScanWithIndex` | ljx/src/commands/view/scan.rs:355-379 | with the file's own index the scan succeeds, and if no skip is unsound for the query it selects exactly the matches among all indexed records; in any case it selects the matches of exactly the blocks the index does not exclude |
| `IndexedScan.OrderedIndexIsSound` | ljx/src/dataset_index.rs:150-214 | on ordered records every query by type, sequence and time may trust the index |
| `IndexedScan.IndexedSearch` | ljx/src/commands/view/scan.rs:143-178 | on an ordered written file, searching through the index selects exactly what reading the whole file selects; a file without an index is read whole |
| `DrainTree.InsertBounded` | ljx/src/dedup/drain3.rs:181-227 | with at least one child allowed, insertion never misses the wildcard child and keeps the child limit at every node |
| `DrainTree.BoundedRun` | ljx/src/dedup/drain3.rs:181-227 | so does every run of insertions from the empty tree |
| `DrainTree.PlaceExactness` | ljx/src/dedup/drain3.rs:203-225 | no run of insertions misses the wildcard child if and only if a child is allowed or the tree has no token level |
| `DrainTree.WordyRun` | ljx/src/dedup/drain3.rs:190-225 | when numeric tokens are generalised, no run of insertions files a message under a token with a digit |
| `DrainTree.OwnChild` | ljx/src/dedup/drain3.rs:190-225 | a token gets a child of its own if and only if it had one, or it is not generalised and there is room beside the wildcard |
| `DrainTree.InsertHolds` | ljx/src/dedup/drain3.rs:181-227 | a cluster is filed where a walk with its own tokens ends |
| `DrainTree.InsertKeepsHeld` | ljx/src/dedup/drain3.rs:181-227 | no later insertion diverts the walk of an earlier cluster |
| `DrainTree.HeldIsFound` | ljx/src/dedup/drain3.rs:133-161 | a walk with a cluster's original tokens ends at the leaf that lists its id |
| `DrainMiner.SeqDistance` | ljx/src/dedup/drain3.rs:239-263 | the counting loop computes similarity and wildcard count |
| `DrainMiner.SimilarityFits` | ljx/src/dedup/drain3.rs:239-263 | similarity lies between zero and one, and with wildcards counted it is one exactly for messages that fit the template |
| `DrainMiner.SimilarityCounts` | ljx/src/dedup/drain3.rs:239-263 | similarity times length is the number of positions where template and message agree, plus the wildcards when counted |
| `DrainMiner.AbsorbGeneralises` | ljx/src/dedup/drain3.rs:267-269 | after absorbing a message the template is again the most specific one of all its messages |
| `DrainMiner.GeneralisesFits` | ljx/src/dedup/drain3.rs:97-109 | every message a cluster absorbed fits its template |
| `DrainMiner.FittingNeverOpens` | ljx/src/dedup/drain3.rs:97-118 | a message that fits a template opens a new cluster if and only if the threshold is above one and it has a token |
| `DrainMiner.CollectIds` | ljx/src/dedup/drain3.rs:229-234 | collects exactly the ids listed in a subtree, in any order of children |
| `DrainMiner.Drain.constructor` | ljx/src/dedup/drain3.rs:81-93 | an empty miner with the derived tree depth |
| `DrainMiner.Drain.FastMatch` | ljx/src/dedup/drain3.rs:163-179 | the best candidate by similarity, then wildcards, then order, or none exactly when all are below the threshold |
| `DrainMiner.Drain.TreeSearch` | ljx/src/dedup/drain3.rs:133-161 | the walk ends at the specified leaf and answers with its best cluster |
| `DrainMiner.Drain.Lookup` | ljx/src/dedup/drain3.rs:97-102 | the tree's answer, else the best cluster of that length; none exactly when no cluster of the length is similar enough, so the tree never decides whether a cluster is opened |
| `DrainMiner.Drain.AddLogMessage` | ljx/src/dedup/drain3.rs:97-118 | joins the chosen cluster or opens the next one, keeps the tree, the templates and the child limit valid, and can panic only when no child is allowed; the new state is the one the mining relation gives |
| `DrainMiner.TurnFits` | ljx/src/dedup/drain3.rs:97-118 | at every turn of every run the clusters are those of the earlier messages, and each of these fits its cluster's template |
| `DrainMiner.AloneFitsNothing` | ljx/src/dedup/drain3.rs:97-118 | up to threshold one, a message left alone fitted no template when its turn came |
| `DrainMiner.RepeatJoins` | ljx/src/dedup/drain3.rs:97-118 | up to threshold one, a repeated message never opens a cluster |
| `DrainRepeats.RepeatsPart` | ljx/src/dedup/drain3.rs:97-118 | strictly between zero and one there is a run that puts equal messages in different clusters |
| `DrainRepeats.RepeatExactness` | ljx/src/dedup/drain3.rs:97-118 | equal messages share a cluster on every run if and only if the threshold is zero or below |
| `DedupGroups.MergeDescribes` | ljx/src/dedup/mod.rs:189-197 | merging two groups describes the records of both: count, first record, earliest and latest timestamp |
| `DedupGroups.RangeCovers` | ljx/src/dedup/mod.rs:189-197 | a group's range covers the time of each of its records, or the time it was observed if it has none |
| `DedupGroups.CountsAddUp` | ljx/src/dedup/mod.rs:243-359 | however disjoint parts are grouped, the counts add up to the number of records |
| `DedupGroups.JoinPartition` | ljx/src/dedup/mod.rs:175-197 | a part whose key is known joins that key's group and keeps the partition |
| `DedupGroups.OpenPartition` | ljx/src/dedup/mod.rs:154-171 | a part with a new key becomes the last group and keeps the partition |
| `DedupGroups.PartitionUnique` | ljx/src/dedup/mod.rs:243-256 | two partitions by the same keys have the same groups in the same order |
| `DedupStages.DedupBucket` | ljx/src/dedup/exact.rs:24-40 | one group per body hash in order of first appearance, each with its count, first record and timestamp range |
| `DedupStages.HashGroupingExactness` | ljx/src/dedup/exact.rs:24-40 | this is grouping by body if and only if no two different bodies share a hash |
| `DedupStages.CanonDedup` | ljx/src/dedup/canon.rs:18-47 | one group per canonical hash over all records, in order of first appearance |
| `DedupStages.MergeKeysRefine` | ljx/src/dedup/canon.rs:18-47 | the keys of that stage are those of the exact groups' representatives, and those of every record when bodies that share a hash share a canonical body |
| `DedupStages.ClassesByText` | ljx/src/dedup/mod.rs:243-256 | groups by key hold exactly the records with their first record's text if and only if keys are equal exactly where texts are |
| `DedupStages.CanonGroupingExactness` | ljx/src/dedup/canon.rs:18-47 | two records have the same key in that stage exactly when they have the same canonical body, for all pairs, if and only if bodies that share a hash share a canonical body and canonical bodies do not collide |
| `DedupDrain.MineResiduals` | ljx/src/dedup/mod.rs:311-327 | every residual goes to exactly one cluster, whose template is the most specific one of its messages; the owners are those of a run of the mining relation |
| `DedupDrain.MergeCluster` | ljx/src/dedup/mod.rs:339-344 | merging a cluster's residuals describes exactly their records |
| `DedupDrain.DedupResiduals` | ljx/src/dedup/mod.rs:277-359 | the output parts are disjoint and complete; each output group is an input group or stands for several single records that all fit its template; larger groups pass unchanged; the parts the single records are in are exactly the clusters of mining them in order, each of several records carrying its cluster's id and last template |
| `DedupDrain.LeftAlone` | ljx/src/dedup/mod.rs:328-349 | up to threshold one, a single record left alone fitted no template when its turn came |
| `DedupDrain.RepeatIsMerged` | ljx/src/dedup/mod.rs:328-349 | up to threshold one, a single record with the tokens of an earlier one is merged with some record |
| `DedupDrain.JoinInjective` | ljx/src/dedup/drain3.rs:49-51 | different templates of tokens without spaces have different texts |
| `DedupDrain.Distinct` | ljx/src/dedup/mod.rs:243-270 | counts always add up to the input; exact mode groups by body if and only if bodies do not collide; canonical mode groups by canonical body if and only if bodies that share a hash share it and canonical bodies do not collide; full mode only merges single records that fit one template, and merges exactly the clusters of mining them in order |

## Left out

- LZ4, Zstd, CRC32C and xxh3 themselves, OTLP decoding, regular expressions and CEL, body-shape detection and
  canonicalisation of one body, and the tokeniser: function-valued parameters.
- TCP, TLS, HTTP, gRPC, fsync, preallocation, clocks and I/O errors of the writer's stream.
- Backpressure together with drain mode, and batching inside the delivery claim: an acknowledgement does not mean delivery
  there.
- Sequence numbering after a restart, stream-id files, and several bridges draining one spool.
- State files left half-written by a crash: a write of the bridge's state either happens or leaves the old file.
- The framing of replay hello, request and acknowledgement messages: small fixed-length frames.
- Collapse mode, exemplar ids, body-shape labels and emission of deduplicated records.
- Bucket keys other than the global one, which is the only one distinct mode uses.
- Caching, freshness and persistence of sidecar indexes, and the order in which summaries list their values.
- CLI, configuration, TUI view, exporters, Parquet, Perfetto, logcat, stress and demo code.
- DrainTree.Insert: the tree is a value rebuilt along the path, so the walk that updates nodes in place is not modelled.
- DrainMiner.Similarity: over the reals, so the rounding of a 64-bit float quotient next to the threshold is not modelled.
- DrainProtocol.DrainSafety: every server life draws a stream id that no resume state names yet; collisions of the random
  generator are not modelled.
- DrainResume.ResumeSafety: likewise, and a state write happens whole or not at all.
- DrainProgress.DrainCompletes: says that a run exists, not that a scheduler finds it.
- ExportPipeline.PipelineSafety: delivered means the worker reported success; with batching that may only mean merged into
  a pending batch.
- FileSpool.Spool.Append: which bytes reach the disk and how large files are comes in as a parameter.
- DedupStages.CanonDedup: stated for the output of the exact stage, the only input it is given.
- DedupDrain.DedupResiduals: stated for the output of the canonical stage, the only input it is given.
- BlockReader.LogjetReader.NextRecord: the 64-bit statistics counters are unbounded here.
