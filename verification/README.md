# Verification model of a sharding PostgreSQL proxy

PgDog sits between clients and sharded PostgreSQL databases. This project models the parts of it
where a mistake loses or corrupts data and proves what they promise, for all inputs and all runs.

* **Two-phase commit with a write-ahead log** (`Wal*`, `TwoPhase*`).
  The log's record framing, group commit with undo, checkpoints, garbage collection and crash
  recovery are modelled byte by byte and record by record. The protocol is a state machine of
  twenty-seven steps: clients, the cleanup monitor, the log writer, shards, crashes at any byte,
  failing disks, damaged files and recovery, in any order and with unbounded message delay.
  Atomicity and durability hold in every state of every run without a hazard (`TwoPhase.Hazard`). A
  hazard is a client interrupted between the manager's memory saying "commit" and the log's answer
  being handled; a commit record that lands although its append is refused; or files damaged, given
  up or deleted such that the recovery after the next one reads a transaction as only begun, some
  shard may commit it, and not all have. It does not matter whether recovery notices: the decision
  may be in a segment set aside as corrupt, or cut off behind what looks like a torn record. The
  condition is exact: with two shards or more, whatever the safe run so far, the next step leaves a
  continuation that splits a transaction if and only if it is a hazard
  (`TwoPhaseHazards.HazardExact`).
* **Wire codecs** (`Numeric*`, `Array*`, `Interval*`). Printers, parsers and binary forms, each as
  the loops the program runs, proved equal to recursive definitions that are proved inverse to each
  other, with the exact condition where they are not.
* **Value order** (`DatumOrder`): the comparison that merges rows of several shards.
* **Id generator** (`UniqueId`): nodes of a cluster with arbitrary clocks.
* **Vector distance and nearest centroids** (`Distance`, `Centroids`), over exact arithmetic.
* **Configuration** (`Configuration`, `ListShards`) and **log positions** (`Lsn`).

`Common`, `Arithmetic`, `Bytes`, `Bits`, `Digits` and `Text` hold shared vocabulary.

## Where the code does less than its comments or names say

* `end_two_pc` remarks that a transaction interrupted after phase one must be committed
  (pgdog/src/frontend/client/query_engine/end_transaction.rs:116). The manager's memory says so
  before the log does, so a crash after the interruption rolls the other shards back.
* A numeric below one with a display scale smaller than its leading zeros comes back with more
  decimals than asked for; a zero loses its scale.
* The text of an array decoded from binary is expected always to exist
  (pgdog-postgres-types/src/datum.rs:164-167). One family of empty arrays has none.
* Interval text carries the sign of a negative time on the hours only, and the reader applies it to
  the hours only.
* `Timestamp::cmp` never calls two infinities of the same sign equal, in either direction.
* `MAX_OFFSET` and `COMPACT_MAX_OFFSET` are zero, so a positive minimum id is always refused.
* The cutover leaves `sharded_schemas` under their old database name.
* Recovery takes a torn record at the end of the last segment for one a crash cut off. Damage to the
  length of an acknowledged record reads the same, and its decision is rolled back.
* A rotation that fails after creating its file leaves that file behind the segment that goes on being
  written, and the next checkpoint deletes the segment that holds it
  (pgdog/src/frontend/client/query_engine/two_pc/wal/writer.rs:355-366).
* Recovery restores nothing undecided after corruption, so as not to invert a decision
  (pgdog/src/frontend/client/query_engine/two_pc/wal/recovery.rs:111-117). The next recovery finds
  no corruption and restores it.

In each case the model follows the code.

## Model

| member | source | states |
|---|---|---|
| `WalRecord.DecodeEncoded` | pgdog/src/frontend/client/query_engine/two_pc/wal/record.rs:144-209 | a framed record followed by any bytes decodes to that record and consumes exactly its frame |
| `WalRecord.DecodeTruncated` | pgdog/src/frontend/client/query_engine/two_pc/wal/record.rs:175-209 | every proper prefix of a frame asks for more bytes; it is never taken for a record or for corruption |
| `WalRecord.DecodeExtend` | pgdog/src/frontend/client/query_engine/two_pc/wal/record.rs:175-209 | an answer once given does not change when more bytes arrive, for every buffer, so chunk boundaries cannot matter |
| `WalRecord.ScanTruncatedStream` | pgdog/src/frontend/client/query_engine/two_pc/wal/segment.rs:191-255 | a log cut at any byte reads back as exactly the records written whole; the rest is a torn tail, never corruption, and the last good offset is where those records end |
| `WalRecord.ScanCutBatch` | pgdog/src/frontend/client/query_engine/two_pc/wal/segment.rs:317-333 | a batch written behind existing records and cut at any byte reads back as the old records and the whole ones of the batch; the tail is torn exactly when the cut falls inside a record |
| `WalRecord.CutReached` | pgdog/src/frontend/client/query_engine/two_pc/wal/segment.rs:317-333 | every such outcome has a byte count: any number of whole records, with or without a torn one |
| `WalRecord.ScanThenStop` | pgdog/src/frontend/client/query_engine/two_pc/wal/segment.rs:191-224 | whole records followed by bytes that do not pass for a record read as those records and an ending the bytes decide |
| `WalRecord.LongLengthReadsTorn` | pgdog/src/frontend/client/query_engine/two_pc/wal/record.rs:175-190 | a record whose length was changed to run past the end of the file reads as a torn tail, not as corruption |
| `WalRecord.EncodeAllAppend` | pgdog/src/frontend/client/query_engine/two_pc/wal/record.rs:144-164 | streams of records concatenate |
| `WalRecord.SegmentReader.constructor` | pgdog/src/frontend/client/query_engine/two_pc/wal/segment.rs:153-183 | a reader starts with the whole file unread |
| `WalRecord.SegmentReader.ReadChunk` | pgdog/src/frontend/client/query_engine/two_pc/wal/segment.rs:259-265 | a chunk extends the buffer by bytes of the file and is empty only at its end |
| `WalRecord.SegmentReader.ReadNext` | pgdog/src/frontend/client/query_engine/two_pc/wal/segment.rs:191-224 | the next record, end, torn tail or corruption is what decoding the whole unread file gives, however it is chunked; offset and LSN advance only over whole records |
| `WalRecord.ReadAll` | pgdog/src/frontend/client/query_engine/two_pc/wal/segment.rs:191-224 | record-by-record chunked reading equals one scan of the file |
| `WalLog.ReplayAppend` | pgdog/src/frontend/client/query_engine/two_pc/wal/recovery.rs:178-214 | replay of a concatenation is replay of the second part on the result of the first |
| `WalLog.CheckpointForgetsPast` | pgdog/src/frontend/client/query_engine/two_pc/wal/recovery.rs:178-214 | after a checkpoint anywhere in a log, replay gives the same table whatever the table was before |
| `WalLog.ApplyInPlace` | pgdog/src/frontend/client/query_engine/two_pc/wal/recovery.rs:178-214 | the recovery loop body computes the replay step of each of the four records |
| `WalLog.ReplayUndo` | pgdog/src/frontend/client/query_engine/two_pc/wal/writer.rs:486-497 | the undo log is applied backwards |
| `WalLog.ApplyToSnapshot` | pgdog/src/frontend/client/query_engine/two_pc/wal/writer.rs:444-482 | the snapshot moves as replay moves, and the extended undo log still leads back to the same old snapshot |
| `WalLog.ListEntries` | pgdog/src/frontend/client/query_engine/two_pc/wal/writer.rs:371-432 | checkpoint entries listed in any hash-map order stand for the same table |
| `WalLog.Writer.constructor` | pgdog/src/frontend/client/query_engine/two_pc/wal/writer.rs:148-184 | a writer starts from a segment file that encodes the recovered records, with their LSN and snapshot |
| `WalLog.Writer.Commit` | pgdog/src/frontend/client/query_engine/two_pc/wal/segment.rs:317-333 | on the bytes of the file, for every behaviour of write, fsync and rewind: reading the file back gives the acknowledged records and the batch, or the acknowledged records alone, or, when the rewind fails, those and some prefix of the batch, perhaps torn but never corrupt; the LSN moves with it |
| `WalLog.Writer.RewindTo` | pgdog/src/frontend/client/query_engine/two_pc/wal/segment.rs:341-357 | a rewind restores length, offset and LSN, or fails and leaves some prefix of what was written |
| `WalLog.Writer.Serve` | pgdog/src/frontend/client/query_engine/two_pc/wal/writer.rs:324-353 | one turn of the writer: a group commit and, when that broke the segment, an empty one under the current LSN or no writer at all; who asked is acknowledged or refused as the commit went |
| `WalLog.Writer.StageOne` | pgdog/src/frontend/client/query_engine/two_pc/wal/writer.rs:371-482 | one request becomes one record, and the snapshot moves over it revertibly |
| `WalLog.Writer.Stage` | pgdog/src/frontend/client/query_engine/two_pc/wal/writer.rs:371-432 | a whole batch is staged in order, or up to its first unencodable record, with an undo log that restores the snapshot exactly |
| `WalLog.Writer.ProcessBatch` | pgdog/src/frontend/client/query_engine/two_pc/wal/writer.rs:371-432 | all-or-nothing group commit: every request acknowledged with its own consecutive LSN and the snapshot equal to replay of the batch, or every request refused and the snapshot unchanged; whatever happens the file reads back as the acknowledged records and a prefix of the batch |
| `WalLog.BatchMirrorsLog` | pgdog/src/frontend/client/query_engine/two_pc/wal/writer.rs:371-482 | for every batch and log, replay of the log moves exactly as the snapshot does, and a checkpoint record changes neither |
| `WalLog.GcBeforeLsn` | pgdog/src/frontend/client/query_engine/two_pc/wal/segment.rs:60-86 | the segments from the one holding the LSN on are kept, and before it exactly the files whose deletion failed |
| `WalLog.LastKept` | pgdog/src/frontend/client/query_engine/two_pc/wal/segment.rs:60-75 | the loop finds the last segment that starts at or before the LSN |
| `WalLog.KeptBeforeCheckpoint` | pgdog/src/frontend/client/query_engine/two_pc/wal/segment.rs:60-86 | garbage collection at a checkpoint LSN keeps the segment holding that checkpoint as its first |
| `WalLog.KeepsCheckpointIff` | pgdog/src/frontend/client/query_engine/two_pc/wal/segment.rs:60-86 | garbage collection keeps the segment holding its checkpoint if and only if no later file is named at or below the checkpoint |
| `WalLog.StrayFileTakesCheckpoint` | pgdog/src/frontend/client/query_engine/two_pc/wal/writer.rs:355-366 | two files, the second left by a failed rotation, of which the next checkpoint deletes the one it is in |
| `WalLog.GcPreservesReplay` | pgdog/src/frontend/client/query_engine/two_pc/wal/segment.rs:60-86 | deleting segments behind a durable checkpoint, whichever deletions fail, does not change what replay of the disk gives |
| `WalRecovery.Restore` | pgdog/src/frontend/client/query_engine/two_pc/wal/recovery.rs:50-149 | decided transactions come back as phase 2, undecided ones as phase 1 or not at all when a segment was corrupt |
| `WalRecovery.Drain` | pgdog/src/frontend/client/query_engine/two_pc/wal/recovery.rs:152-162 | draining a reader is replay |
| `WalRecovery.ReadSegment` | pgdog/src/frontend/client/query_engine/two_pc/wal/segment.rs:153-224 | reading a file gives its header state, records and ending, and cutting it at the good offset gives the same records cleanly |
| `WalRecovery.DrainPrior` | pgdog/src/frontend/client/query_engine/two_pc/wal/recovery.rs:50-149 | earlier segments: working table, corruption flag, next LSN and survivors are those of the disk |
| `WalRecovery.DrainLast` | pgdog/src/frontend/client/query_engine/two_pc/wal/recovery.rs:50-149 | the last segment stays writable, truncated to its whole records, unless it is corrupt |
| `WalRecovery.CreateSegment` | pgdog/src/frontend/client/query_engine/two_pc/wal/segment.rs:285-305 | a new segment is empty and clean, and creation fails exactly when the name is taken |
| `WalRecovery.RecoverTransactions` | pgdog/src/frontend/client/query_engine/two_pc/wal/recovery.rs:50-149 | for every set of files, what is handed back, the snapshot, the files left and the next LSN are the stated functions of the scanned disk; it fails if and only if a new segment is needed whose name survives |
| `WalRecovery.TruncateIsClean` | pgdog/src/frontend/client/query_engine/two_pc/wal/segment.rs:233-255 | for every file, truncation at the last good offset leaves the same records and a clean end |
| `WalRecovery.LoadCut` | pgdog/src/frontend/client/query_engine/two_pc/wal/segment.rs:153-224 | a segment file whose last batch was cut at any byte, as recovery reads it |
| `WalRecovery.CorruptionIsForgotten` | pgdog/src/frontend/client/query_engine/two_pc/wal/recovery.rs:50-176 | whatever was corrupt, the disk a recovery leaves shows no corruption |
| `WalRecovery.SkippedIff` | pgdog/src/frontend/client/query_engine/two_pc/wal/recovery.rs:50-149 | a logged transaction is not handed back if and only if it is undecided and recovery leaves fewer files in place than it found |
| `WalRecovery.RecoveryRepeatable` | pgdog/src/frontend/client/query_engine/two_pc/wal/recovery.rs:50-149 | for every disk, a second recovery hands back the same transactions in the same phases if and only if nothing is corrupt, or the segments that stay carry every decision and nothing undecided |
| `WalRecovery.CleanRecovery` | pgdog/src/frontend/client/query_engine/two_pc/wal/recovery.rs:50-149 | without corruption the files left replay to the same table, everything in it is handed back, and contiguous LSNs stay contiguous |
| `WalRecovery.InvertsIff` | pgdog/src/frontend/client/query_engine/two_pc/wal/recovery.rs:119-149 | a transaction is handed back for commit now and for rollback next time if and only if the whole log decides it and the surviving segments have it undecided |
| `WalRecovery.QuarantineInvertsDecision` | pgdog/src/frontend/client/query_engine/two_pc/wal/recovery.rs:165-176 | a disk with such a transaction: its commit record is in the quarantined segment |
| `WalHistory.UndecidedHasNoDecision` | pgdog/src/frontend/client/query_engine/two_pc/wal/recovery.rs:178-214 | in a log where nothing decided is begun again, a transaction replays as undecided only if no record decides it |
| `WalHistory.SubLogKeeps` | pgdog/src/frontend/client/query_engine/two_pc/wal/recovery.rs:50-176 | losing any records adds no decision and keeps the log in order |
| `WalHistory.InvertedIff` | pgdog/src/frontend/client/query_engine/two_pc/wal/recovery.rs:119-176 | in an ordered log the inverted decisions are those whose every deciding record is in a segment that is gone while the transaction is still in the rest |
| `TwoPhaseDisk.CrashIsACut` | pgdog/src/frontend/client/query_engine/two_pc/wal/segment.rs:317-333 | a process that dies at any byte of a batch leaves the disk of some crash step of the protocol, as recovery reads it |
| `TwoPhaseDisk.DamageIsAStep` | pgdog/src/frontend/client/query_engine/two_pc/wal/segment.rs:153-224 | a file changed behind any of its records so that nothing more passes for a record, or with its header gone, is read by recovery as some damage step of the protocol leaves it |
| `TwoPhaseDisk.DeleteFiles` | pgdog/src/frontend/client/query_engine/two_pc/wal/segment.rs:76-84 | deleting any one file behind a checkpoint changes neither what is read nor the order of names |
| `TwoPhaseSafety.StepKeeps` | pgdog/src/frontend/client/query_engine/two_pc/manager.rs:169-348 | every step of the protocol that is not a hazard keeps the invariant tying memory, queue, clients, log files and shards together |
| `TwoPhaseSafety.RunKeeps` | pgdog/src/frontend/client/query_engine/end_transaction.rs:100-127 | the invariant holds in every state of every safe run, over any number of crashes and recoveries |
| `TwoPhaseSafety.AtomicAlways` | pgdog/src/backend/pool/connection/binding.rs:351-391 | in no state of any safe run is a transaction committed on one shard and rolled back on another |
| `TwoPhaseHazards.HazardExact` | pgdog/src/backend/pool/connection/binding.rs:351-391 | after every safe run and for every step that may follow: some continuation without a further hazard splits a transaction if and only if the step is a hazard and there are at least two shards |
| `TwoPhaseHazards.AbandonSplits` | pgdog/src/frontend/client/query_engine/two_pc/manager.rs:169-221 | from every state of a safe run, a client interrupted while its decision is being logged, or refused and not yet told, leads to a split transaction, unless the log is no longer written and the recoveries to come do not read it as begun |
| `TwoPhaseHazards.LandedSplits` | pgdog/src/frontend/client/query_engine/two_pc/wal/segment.rs:317-357 | so does every commit record that lands although its append is refused |
| `TwoPhaseHazards.BreakBatchSplits` | pgdog/src/frontend/client/query_engine/two_pc/wal/writer.rs:344-353 | so does every segment given up with a torn tail that takes a decision along when it is set aside, whether or not writing goes on in another |
| `TwoPhaseHazards.BitRotSplits` | pgdog/src/frontend/client/query_engine/two_pc/wal/recovery.rs:66-117 | so does damage to a file that leaves a transaction begun for the recovery after the next one while it may still be committed, whether it reads as corrupt, as torn, as shorter or as no segment at all |
| `TwoPhaseHazards.CrashInRecoverySplits` | pgdog/src/frontend/client/query_engine/two_pc/wal/recovery.rs:66-109 | so does a crash between the quarantines of one recovery |
| `TwoPhaseHazards.DeleteSplits` | pgdog/src/frontend/client/query_engine/two_pc/wal/segment.rs:76-84 | so does a deletion that leaves older files behind a torn one |
| `TwoPhaseWitness.InterruptBreaksAtomicity` | pgdog/src/frontend/client/query_engine/two_pc/manager.rs:169-221 | a safe run from the start on two shards after which the interruption is a hazard |
| `TwoPhaseWitness.FailedRewindBreaksAtomicity` | pgdog/src/frontend/client/query_engine/two_pc/wal/segment.rs:317-357 | a safe run after which a failed rewind is a hazard |
| `TwoPhaseWitness.QuarantineBreaksAtomicity` | pgdog/src/frontend/client/query_engine/two_pc/wal/recovery.rs:165-176 | a safe run after which damage to one segment is a hazard |
| `TwoPhaseWitness.UnnoticedDamageBreaksAtomicity` | pgdog/src/frontend/client/query_engine/two_pc/wal/recovery.rs:89-99 | a safe run after which damage to the last segment that recovery does not notice is a hazard |
| `TwoPhaseWitness.TornSegmentBreaksAtomicity` | pgdog/src/frontend/client/query_engine/two_pc/wal/recovery.rs:66-87 | a safe run after which a segment given up with a torn tail is a hazard |
| `TwoPhaseSafety.ReportedIsDurable` | pgdog/src/frontend/client/query_engine/end_transaction.rs:118-124 | once the client is told of the commit, the transaction is committed on every shard in every later state |
| `TwoPhaseSafety.LogCoversInDoubt` | pgdog/src/frontend/client/query_engine/two_pc/manager.rs:169-221 | write-ahead, for every transaction whose log entry was not damaged: prepared work is in the log until every shard is through with it, and a transaction told to commit is logged as decided until every shard committed; for damaged ones too, no recovery rolls back what some shard was told to commit unless all have |
| `TwoPhaseDamage.UndamagedCovers` | pgdog/src/frontend/client/query_engine/two_pc/manager.rs:169-221 | in a run without damaged or torn files the write-ahead rules hold for every transaction and none is told both to commit and to roll back |
| `TwoPhaseSafety.DecisionsHold` | pgdog/src/frontend/client/query_engine/two_pc/manager.rs:311-348 | a transaction is told both to commit and to roll back only if its log entry was damaged after every shard had committed, and a logged decision implies every shard prepared and none told to roll back |
| `TwoPhaseProgress.NeverStuck` | pgdog/src/frontend/client/query_engine/two_pc/manager.rs:259-348 | from every state of a safe run some continuation without a hazard ends with every shard through with every prepared transaction, except those given up on and those whose log entry was damaged |
| `TwoPhaseProgress.LeaksIff` | pgdog/src/frontend/client/query_engine/two_pc/manager.rs:169-257 | an entry stays in memory with no client and no place in the queue if and only if its client left before it held a guard; only a restart ends that |
| `Numeric.EncodeDenotes` | pgdog-postgres-types/src/numeric.rs:327-441 | for every non-zero decimal, the base-10000 digits with their weight denote its unscaled value exactly |
| `NumericDecode.DecodeDenotes` | pgdog-postgres-types/src/numeric.rs:186-301 | for every weight, scale and digit list, the text built denotes the digits shifted by the weight and truncated to the display scale, across the integer, fraction and mixed shapes |
| `NumericWire.ScaleSurvivesIff` | pgdog-postgres-types/src/numeric.rs:253-279 | the decoded number has the display scale of its payload if and only if the zeros the weight implies do not exceed it |
| `NumericWire.ScaleGrows` | pgdog-postgres-types/src/numeric.rs:253-279 | a ten-byte payload displayed with two decimals that decodes to a number with eight |
| `NumericWire.FrameFields` | pgdog-postgres-types/src/numeric.rs:427-441 | header fields and digits are read back as written |
| `NumericWire.DecimalsFit` | pgdog-postgres-types/src/numeric.rs:317-443 | every value of the decimal type fits the 16-bit header fields |
| `NumericWire.NumberRoundTrip` | pgdog-postgres-types/src/numeric.rs:125-443 | decoding the encoding of a non-zero decimal gives the same sign, value and scale |
| `NumericWire.RoundTripIff` | pgdog-postgres-types/src/numeric.rs:125-443 | NaN and numbers come back identical if and only if they are not a zero carrying a scale or a sign; such a zero comes back as plain zero |
| `NumericWire.DecodedValue` | pgdog-postgres-types/src/numeric.rs:125-307 | every payload with a valid header and digits below 10000 decodes to the number its digits denote |
| `NumericWire.Decode` | pgdog-postgres-types/src/numeric.rs:125-307 | the decoding procedure, in 16-bit arithmetic, answers every byte string with the specified value or error; no overflow, short read or bad slice |
| `NumericWire.BuildText` | pgdog-postgres-types/src/numeric.rs:186-301 | the text building loops produce the specified text without 16-bit overflow |
| `NumericWire.BuildInteger` | pgdog-postgres-types/src/numeric.rs:203-238 | integer digit loop and zero-group loop |
| `NumericWire.BuildFraction` | pgdog-postgres-types/src/numeric.rs:240-243 | fraction digit loop |
| `NumericWire.BuildBelowOne` | pgdog-postgres-types/src/numeric.rs:253-279 | leading zeros and remaining places of a number below one |
| `NumericWire.ChunkInteger` | pgdog-postgres-types/src/numeric.rs:352-367 | right-to-left grouping into fours |
| `NumericWire.ChunkFraction` | pgdog-postgres-types/src/numeric.rs:369-389 | left-to-right grouping with padding of the last group |
| `NumericWire.PopTrailingZeros` | pgdog-postgres-types/src/numeric.rs:404-421 | zero groups are popped from the end |
| `NumericWire.EncodeDigits` | pgdog-postgres-types/src/numeric.rs:339-425 | digits and weight of a decimal, from its printed text |
| `NumericWire.Encode` | pgdog-postgres-types/src/numeric.rs:317-443 | the encoding procedure writes the specified frame |
| `ArrayText.TextRoundTrip` | pgdog-postgres-types/src/array.rs:91-347 | printing then parsing gives every well-formed array back for arbitrary element texts, with quotes, backslashes, braces, white space, empty strings and the word NULL |
| `ArrayText.BoundsRoundTrip` | pgdog-postgres-types/src/array.rs:93-107 | printed bounds are read back and checked |
| `ArrayText.ReadPrinted` | pgdog-postgres-types/src/array.rs:113-132 | a printed element, quoted or bare, is read back whatever follows it |
| `ArrayText.PrintsIff` | pgdog-postgres-types/src/array.rs:109-133 | elements print if and only if each non-NULL one can be encoded |
| `ArrayText.DecodedIsWellFormed` | pgdog-postgres-types/src/array.rs:173-347 | whatever text is accepted yields an array that has a text form |
| `ArrayTextProcedures.Encode` | pgdog-postgres-types/src/array.rs:91-136 | the printing loop equals the recursive printer |
| `ArrayTextProcedures.PushQuoted` | pgdog-postgres-types/src/array.rs:118-128 | the escaping loop |
| `ArrayTextProcedures.CollectQuoted` | pgdog-postgres-types/src/array.rs:252-269 | the loop over a quoted element equals the recursive reader, errors included |
| `ArrayTextProcedures.CollectBare` | pgdog-postgres-types/src/array.rs:270-312 | the loop over an unquoted element, with escapes, trimming and nested braces |
| `ArrayTextProcedures.CollectElements` | pgdog-postgres-types/src/array.rs:246-327 | the element loop with separators |
| `ArrayTextProcedures.CollectBounds` | pgdog-postgres-types/src/array.rs:173-213 | the bounds prefix, punctuation skipped unchecked |
| `ArrayTextProcedures.Decode` | pgdog-postgres-types/src/array.rs:173-347 | the parsing procedure equals the recursive parser on every text |
| `ArrayBinary.BinaryRoundTrip` | pgdog-postgres-types/src/array.rs:138-163 | binary decode of binary encode gives every array back, NULLs, empty arrays and other bounds included |
| `ArrayBinary.CrossFormat` | pgdog-postgres-types/src/array.rs:91-425 | an array relayed through the binary form prints as if it had not been |
| `ArrayBinary.ReceivedPrintsIff` | pgdog-postgres-types/src/array.rs:349-425 | an array decoded from binary can be printed if and only if it is not an empty one with the least lower bound |
| `ArrayBinary.UnprintableArrives` | pgdog-postgres-types/src/datum.rs:164-167 | twenty bytes that decode to an array whose text encoding fails |
| `ArrayBinary.Encode` | pgdog-postgres-types/src/array.rs:138-163 | the encoding loop |
| `ArrayBinary.ReadElements` | pgdog-postgres-types/src/array.rs:395-414 | the length-prefixed element loop answers every byte string |
| `ArrayBinary.Decode` | pgdog-postgres-types/src/array.rs:349-425 | header and dimension checks, for every byte string |
| `IntervalBinary.PayloadRoundTrip` | pgdog-postgres-types/src/interval.rs:92-121 | every 16-byte payload decodes to a normal interval and encodes back to the same bytes with no operation wrapping |
| `IntervalBinary.BinaryRoundTripIff` | pgdog-postgres-types/src/interval.rs:210-221 | an interval survives the binary form if and only if its fields are carried up with one sign per group and nothing wraps |
| `IntervalBinary.UnpackExact` | pgdog-postgres-types/src/interval.rs:98-110 | truncating division splits every count of microseconds and months without loss |
| `IntervalText.FormatFractionalMicros` | pgdog-postgres-types/src/interval.rs:77-87 | the padding and popping loop |
| `IntervalText.ParseNumber` | pgdog-postgres-types/src/interval.rs:42-66 | the zero-skipping loop and the parse after it |
| `IntervalText.FractionRoundTrip` | pgdog-postgres-types/src/interval.rs:68-87 | six padded digits with trailing zeros dropped read back as the same microseconds |
| `IntervalText.DecodeTime` | pgdog-postgres-types/src/interval.rs:138-160 | hours, minutes, seconds and fraction with each error case |
| `IntervalText.Decode` | pgdog-postgres-types/src/interval.rs:123-165 | the token loop equals the recursive reader on every text |
| `IntervalText.TextReadsBack` | pgdog-postgres-types/src/interval.rs:123-209 | every field that comes back from the text of any interval |
| `IntervalText.TextRoundTrip` | pgdog-postgres-types/src/interval.rs:123-209 | years, months and days always survive; the time survives if and only if its total is not negative or is whole hours, and otherwise comes back larger by twice the part below the hour |
| `IntervalText.NegativeTimeFlips` | pgdog-postgres-types/src/interval.rs:138-160 | half an hour ago reads back as half an hour ahead |
| `IntervalText.RelayedPayload` | pgdog-postgres-types/src/interval.rs:90-222 | a binary payload relayed through text is the same payload if and only if its microseconds are not negative or whole hours |
| `DatumOrder.CmpTransitive` | pgdog-postgres-types/src/datum.rs:96-144 | comparison is transitive on every triple of datums, through nested arrays and with infinities |
| `DatumOrder.CmpReverseIff` | pgdog-postgres-types/src/timestamp.rs:33-53 | swapping operands reverses the result if and only if two equal infinities do not decide the comparison |
| `DatumOrder.BoundedNeverClashes` | pgdog-postgres-types/src/timestamp.rs:37-51 | that never happens when one side holds no infinite timestamp |
| `DatumOrder.CmpEqualIff` | pgdog-postgres-types/src/array.rs:31-38 | two datums compare equal if and only if they are the same up to timestamp offsets and hold no infinite timestamp |
| `DatumOrder.CmpReflexiveIff` | pgdog-postgres-types/src/timestamp.rs:47-50 | a datum compares equal to itself if and only if it holds no infinite timestamp |
| `DatumOrder.TotalPreorder` | pgdog-postgres-types/src/datum.rs:90-144 | on datums without infinite timestamps comparison is a total preorder that identifies offsets only |
| `DatumOrder.LexByFirstDifference` | pgdog-vector/src/lib.rs:15-19 | sequences order by the first position that does not compare equal, a proper prefix first |
| `DatumOrder.VectorsByFirstNumber` | pgdog-vector/src/lib.rs:15-19 | vectors order by the first number in which they differ, as minus infinity, numbers by value, infinity, NaN, a proper prefix first |
| `DatumOrder.ArraysByElements` | pgdog-postgres-types/src/array.rs:31-38 | arrays order by elements, NULL first, then element type, then size and lower bound |
| `UniqueId.PackIsSum` | pgdog/src/unique_id.rs:87-97 | shifted and or-ed fields never overlap or overflow: the id is their mixed-radix sum and stays under 2^63 - 1, or 2^53 - 1 compact |
| `UniqueId.UnpackPack` | pgdog/src/unique_id.rs:22-42 | shift and mask recover time, node and sequence from every packed id |
| `UniqueId.OnlyZeroOffsetAccepted` | pgdog/src/unique_id.rs:177-208 | both offset limits are zero, so a configuration is accepted if and only if its node number fits and its minimum id is zero |
| `UniqueId.TickAdvances` | pgdog/src/unique_id.rs:68-86 | within a millisecond the sequence goes up by one, a new millisecond restarts it, and it waits exactly when it is exhausted |
| `UniqueId.State.constructor` | pgdog/src/unique_id.rs:47-62 | a fresh generator |
| `UniqueId.State.WaitUntil` | pgdog/src/unique_id.rs:138-149 | the first clock reading that reaches the target |
| `UniqueId.State.NextId` | pgdog/src/unique_id.rs:68-98 | state, id, panic or waiting for every stream of clock readings |
| `UniqueId.ReturnedIsPossible` | pgdog/src/unique_id.rs:68-127 | a call that returns, whatever its clock showed, is a possible call of the cluster with the same state and the same id |
| `UniqueId.PerformKeeps` | pgdog/src/unique_id.rs:102-127 | one call by any node keeps every issued id distinguishable and each node ahead of what it issued |
| `UniqueId.ClusterUnique` | pgdog/src/unique_id.rs:68-149 | in every interleaving of calls by nodes with different numbers and arbitrary clocks, no two ids are equal; each node's ids increase and stay under the ceiling |
| `UniqueId.RateBounded` | pgdog/src/unique_id.rs:68-127 | no node issues more than 4096 ids (64 compact) in a millisecond |
| `Distance.SumToLaws` | pgdog-vector/src/distance_simd_rust.rs:19-28 | the sum of squared differences is symmetric, never negative, and zero only between equal vectors |
| `Distance.Scalar` | pgdog-vector/src/distance_simd_rust.rs:19-28 | the scalar loop |
| `Distance.Sse` | pgdog-vector/src/distance_simd_rust.rs:33-80 | two four-lane accumulators, two shuffles and a scalar tail compute the same sum for every length |
| `Distance.Avx2` | pgdog-vector/src/distance_simd_rust.rs:85-153 | two eight-lane accumulators, added halves, shuffles and tail compute the same sum |
| `Distance.Neon` | pgdog-vector/src/distance_simd_rust.rs:158-203 | two four-lane accumulators, pairwise additions and tail compute the same sum |
| `Distance.ReduceByShuffles` | pgdog-vector/src/distance_simd_rust.rs:65-70 | the two shuffle immediates add all four lanes |
| `Distance.ReduceByPairs` | pgdog-vector/src/distance_simd_rust.rs:190-193 | two pairwise additions add all four lanes |
| `Configuration.SwapField` | pgdog-config/src/util.rs:57-76 | three in-place passes over any list and field |
| `Configuration.Config.Cutover` | pgdog-config/src/core.rs:620-659 | the new configuration, list by list; schema rules unchanged |
| `Configuration.CutoverExchangesIff` | pgdog-config/src/core.rs:620-659 | the whole configuration has the two names exchanged if and only if the temporary name collides with none of its names |
| `Configuration.CutoverRenamesThroughoutIff` | pgdog-config/src/core.rs:620-659 | the cutover renames everything, schema rules included, if and only if moreover no schema rule names either database, or the two names are one |
| `Configuration.CutoverUndone` | pgdog-config/src/core.rs:618-659 | a second cutover in either direction, with its own fresh name, restores the configuration |
| `Configuration.Databases` | pgdog-config/src/core.rs:282-300 | the grouping loop: names present, one list per shard up to the highest, each slot's contents in order |
| `Configuration.SlotSound` | pgdog-config/src/core.rs:282-300 | every entry of a slot is the database at its recorded position, of that name and shard, positions ascending |
| `Configuration.SlotComplete` | pgdog-config/src/core.rs:282-300 | every configured database is in the slot of its name and shard |
| `Configuration.WidthTight` | pgdog-config/src/core.rs:288-290 | a name has exactly as many slots as its highest shard number plus one, and none if it does not occur |
| `Configuration.GroupingFollowsExchange` | pgdog-config/src/core.rs:282-300 | grouping after an exchange is the old grouping of the other name |
| `Configuration.GroupBy` | pgdog-config/src/core.rs:303-314 | tables, mappings and mirrors grouped by key, in order |
| `Configuration.RulesFollowExchange` | pgdog-config/src/core.rs:303-314 | rules of a name after an exchange are the old rules of the other name |
| `Configuration.MappingsFollowExchange` | pgdog-config/src/core.rs:386-404 | mappings of a name, column and table after an exchange are those of the other name |
| `Configuration.MirrorsFollowExchange` | pgdog-config/src/core.rs:599-616 | so are mirrors of a source |
| `ListShards.New` | pgdog-config/src/sharding.rs:361-380 | for every rule list and value, the index answers as a scan would: last list rule holding it, else first default, else none |
| `ListShards.UnrelatedRule` | pgdog-config/src/sharding.rs:361-390 | a range rule or a list rule without the value can be dropped anywhere without changing where the value goes |
| `ListShards.HashIgnoresOrder` | pgdog-config/src/sharding.rs:318-330 | any two enumerations of the same entries hash alike |
| `ListShards.HashMapping` | pgdog-config/src/sharding.rs:318-330 | the XOR loop over a map in any order gives the hash of each of its enumerations |
| `Centroids.OrderAscends` | pgdog-vector/src/lib.rs:142-147 | the sorted order is strictly ascending by distance, ties by position |
| `Centroids.PositionIsRank` | pgdog-vector/src/lib.rs:142-147 | the position of a centroid is the number of centroids ahead of it |
| `Centroids.SelectedIff` | pgdog-vector/src/lib.rs:140-154 | a centroid is probed if and only if fewer than the probe count are ahead of it, and more probes extend the earlier selection |
| `Centroids.Shard` | pgdog-vector/src/lib.rs:140-154 | shard numbers of the probed centroids in order, and exactly when the call panics instead |
| `Lsn.PositionRoundTrip` | pgdog-stats/src/replication.rs:47-72 | printing and parsing give back every 64-bit position |
| `Lsn.TextRoundTripIff` | pgdog-stats/src/replication.rs:47-72 | an LSN of any fields survives text if and only if its halves are not negative and agree with its number |
| `Lsn.ShownOrder` | pgdog-stats/src/replication.rs:10-30 | positions read back from their text order as their numbers if and only if both are on the same side of zero, and then their distance does not overflow and has the sign of the order |

## Left out

- Router, SQL parsing, connection pools, COPY splitting, replication, admin commands, plugins, TOML loading: not part of this model.
- Payload serialisation and the CRC of log records are parameters; records are assumed to deserialise from what they serialise to, and nothing is assumed of the CRC beyond its range.
- I/O errors while recovering, directory fsync and the directory lock: a recovery step reads what is on disk or the process is down.
- Running two-phase commit with the log disabled.
- Transaction identifiers are assumed not to repeat across restarts, and every shard takes part in every transaction; naming of prepared transactions per shard is not modelled.
- Fairness: that the monitor does get round to every queued transaction; that it always can is proved.
- A rotation that fails after creating its file: the protocol's rotations succeed or leave no file.
- A recovery that fails because the name of its new segment is taken runs without a log; the steps that lead there are left out: such damage, such a crash inside a recovery or inside the creation of a segment, and such a half-created successor.
- Damage to a written file is taken to happen while the process is down, since nothing reads the file before the next recovery; damage that still passes the checksum as another record is not modelled.
- NumericWire.Decode: the decimal library's refusal of numbers beyond 96 bits or 28 decimals is not modelled; such payloads decode to the number they denote.
- NumericWire.NumberRoundTrip: decimals are exact; the decimal library's own 96-bit limit and rounding are not modelled, only that its values fit.
- Text decoding of numerics, which is delegated to the decimal library, and the arithmetic of datums.
- Timestamp calendar conversion; only the comparison is modelled. Float and numeric hashing.
- UniqueId.ClusterUnique: within one process lifetime of each node, since the state is not kept across restarts; sleeping between clock readings and the lock around the state are not modelled.
- Distance.Sse: over real numbers; rounding, NaN and the final square root are left out, likewise for the other three forms.
- Centroids.Shard: the library's stable sort is represented by its result, and distances that cannot be compared (NaN) do not occur.
- Configuration.RulesFollowExchange: for the lists keyed by database alone; the key of mappings has a lemma of its own.
- Configuration.Config.Cutover: the random temporary name is a parameter.
- Range rules of sharded mappings and the `Mapping` choice between range and list.
- ListShards.HashMapping: the hash of a single entry is a parameter.
