# Verified model of the croniot device library

This project models the parts of the croniot device library that must survive power cuts, lost messages and bad
updates, and proves what they promise. Every method is proved against a function of the state it changes; the theorems
are about those functions, over every input and every run.

* **The journal.** A durable log per stream: length-prefixed frames in segment files, an index saved only on rotation,
  ack and reclaim, recovery of the open file at boot, reclamation of whole segments (`Frames`, `FrameAccumulator`,
  `JournalCursor`, `SpaceReclaimer`, `Journal*`, `LogRecords`). The class `Journal.Journal` changes its fields as the
  source does; `JournalSteps` says what each method computes; `JournalInvariant`, `JournalRecovery`, `JournalReading`
  and `JournalReclaim` prove what each step keeps; `RetentionRuns` and `GapRuns` what holds over whole runs;
  `SegmentRuns` when segments are closed, `ReclaimMeaning` what a reclaim takes and spares, `ReclaimOrder` when it
  keeps the table in one piece, `OutOfOrder` and `FullTable` runs in which the books go wrong. A power cut keeps any
  byte prefix of the open file that extends what was there when it was last closed; the index is replaced as a whole
  or not at all.
* **The uplink.** Batches read from the journal, sent, resent with backoff, given up and read again, and acks that may
  be lost, repeated or late (`Uplink*`, `RetryPolicy`). `Protocol` is the system of device, network and server, with
  every event at any time, and `ProtocolRuns` and `Progress` what holds over its runs; `UplinkProperties` proves that
  the code's passes and acks are steps of it, and `UplinkRuns` that whole runs of the three journals are runs of it.
  `UplinkService` says who is served when, and `UplinkClocks` what the starvation quotas promise over runs. `Cbor` and
  `BatchEnvelope` are the bytes on the wire and an independent strict decoder.
* **Updates over the air.** The persisted record, its text blob, the controller, and runs in which any image boots at
  any time and the server answers when it likes (`OtaPolicy`, `OtaCodec`, `OtaSteps`, `OtaController`, `OtaRuns`,
  `OtaTheorems`, `OtaNames`, `OtaWatch`, `OtaDecisions`). The theorems compare the record, and what becomes of an
  image or a request, with a history that an observer beside the device writes down.
* **Three smaller cores.** The JSON scanner against the grammar of RFC 8259 and the Wi-Fi file built on it (`Json*`,
  `Wifi*`), the redactor that works in its buffer against its simple form (`Redactor*`), and run compression of log
  lines (`RateLimiter`, `LogRouter`).

`dafny verify dfyconfig.toml` checks everything.

## What turned out not to hold

Each is stated with the exact condition under which the code keeps its promise.

* A payload of more than 65535 bytes is stored under a wrong length (`Frames.FrameRoundTripIff`).
* With a full segment table a rotation sets the size of the open file to 0 while the file goes on. A write that fails
  right then is rolled back to an empty file, and every record in it is gone; after further writes a failed one cuts
  the file to their size (`JournalReclaim.RotationKeepsIff`, `JournalReclaim.FullTableLosesRecords`);
  `FullTable.FullTableIsReached` is a run that gets there.
* Close times are uptimes, so once the device has been up again for the retention window a newer Data segment may be
  reclaimed before an older one; later batches then give old seqs to other records (`ReclaimOrder.ReclaimKeepsIff`,
  `SpaceReclaimer.DeletesOldestFirstIff`, `OutOfOrder.NewerDataCanGoFirst`).
* The comment above `encodeRecord` says names never hold newlines, but `parseManifest` accepts them: the record is
  then lost at the next boot and the release installed again, without end (`OtaTheorems.AttemptsAreBoundedIff`,
  `OtaTheorems.RecordFollowsHistoryIff`).
* A refused version that holds a tab is split elsewhere when the record is read back, so a release that nobody
  requested ends up refused (`OtaNames.OnlyTheGuiltyAreBadIff`).
* After a rollback the bootloader refuses, a pending image is kept but still counted as pending, so no update is taken
  until the next boot (`OtaTheorems.KeptTakesUpdatesIff`, `OtaTheorems.DeadEndIsReached`).
* The scanner reads `\b`, `\f` and `\r` in a string as letters, and `\u` as a letter and four digits
  (`JsonTheorems.ReadsAsMeantIff`).
* Masking brings a secret up again in some line if it begins or ends with a star or holds the whole mask
  (`RedactorTheorems.SecretIsGoneIff`, `RedactorTheorems.SecretIsGoneInPlaceIff`,
  `RedactorTheorems.GoneAmongOthersSimplyIff`); in a full buffer and among others, if it holds any star
  (`RedactorTheorems.GoneAmongOthersIff`).
* The quota of Logs holds against Events only: Data that has waited its own goes first whenever nothing of it is in
  flight, until it is found empty, however often it is served in the meantime (`UplinkClocks.StarvedIsServed`,
  `UplinkClocks.StarvedLogsGoIff`).
* More than 65535 repeats between flushes lose 65536 lines at a time (`LogRouter.LosslessIff`,
  `LogRouter.LinesAreCounted`).

## Model

| member | source | states |
|---|---|---|
| `Frames.FrameRoundTripIff` | components/croniot/src/log/Journal.cpp:92-98 | a frame reads back as its payload if and only if the payload has at most 65535 bytes; the 16-bit prefix loses anything longer |
| `Frames.RoundTrip` | components/croniot/src/log/FrameCodec.h:25-36 | reading what was written gives back every payload, in order, then whatever follows |
| `Frames.Decompose` | components/croniot/src/log/FrameCodec.h:50-56 | every byte string is the encoding of its complete frames followed by a tail that holds no complete frame |
| `Frames.CutFrame` | components/croniot/src/log/Journal.cpp:310-334 | a frame written behind complete frames and cut anywhere leaves exactly the old frames, or the old ones and the new one when nothing is missing |
| `Frames.DropTorn` | components/croniot/src/log/Journal.cpp:336-370 | cutting a file at its valid length keeps every complete frame, and cutting again changes nothing |
| `Frames.ReadNextFrame` | components/croniot/src/log/FrameCodec.h:25-36 | finds the first frame at an offset exactly when a whole one is there, and leaves the offset alone otherwise |
| `Frames.CountFrames` | components/croniot/src/log/FrameCodec.h:44-48 | counts the complete frames |
| `Frames.FrameScanner.Feed` | components/croniot/src/log/FrameCodec.h:59-78 | after any sequence of feeds the fields are those of all bytes fed, concatenated: frame count, valid length, total length |
| `Frames.ScanFile` | components/croniot/src/log/Journal.cpp:336-360 | scanning a file in chunks of any size counts the same frames and finds the same valid length |
| `FrameAccumulator.WalkTakes` | components/croniot/src/log/FrameAccumulator.cpp:13-36 | past the wanted seq the walk takes the longest prefix that fits both limits, appends exactly those payloads, and reports a limit only if something is left |
| `FrameAccumulator.WalkConcat` | components/croniot/src/log/FrameAccumulator.cpp:7-39 | a walk may be cut anywhere and resumed from what it had accumulated |
| `FrameAccumulator.AccumulateFrames` | components/croniot/src/log/FrameAccumulator.cpp:7-39 | the loop computes that walk over the complete frames of the buffer, and what it consumes is exactly the frames taken, with or without a limit |
| `FrameAccumulator.ReadSegment` | components/croniot/src/log/Journal.cpp:692-735 | for every file and every chunk size the append-accumulate-erase loop ends as one walk over the whole file |
| `JournalCursor.JournalCursor.Ack` | components/croniot/src/log/JournalCursor.h:49-56 | acks move forward only and never past the last assigned seq |
| `JournalCursor.JournalCursor.ReclaimTo` | components/croniot/src/log/JournalCursor.h:64-75 | moves the oldest seq and returns a marker for the unacked seqs it jumps over, if any |
| `JournalCursor.MarkersAreExact` | components/croniot/src/log/JournalCursor.h:64-75 | every run of assigns, acks and reclaims keeps the markers ascending, disjoint and covering exactly the seqs reclaimed while unacked |
| `JournalCursor.MarkersOfAFreshCursor` | components/croniot/src/log/JournalCursor.h:26-75 | so they are exact for every run of a new cursor |
| `JournalCursor.AcksAreClamped` | components/croniot/src/log/JournalCursor.h:49-56 | over every such run acks are monotone and stay below nextSeq, whatever was sent |
| `SpaceReclaimer.Reclaim` | components/croniot/src/log/SpaceReclaimer.cpp:7-64 | deletes the shortest prefix of the sacrifice order that reaches the target; says whether it did, whether storage is exhausted, and whether it had to breach the retention window: exactly when the other tiers fall short, space is critical, and some Data is inside its window |
| `SpaceReclaimer.ChoiceIsMinimal` | components/croniot/src/log/SpaceReclaimer.cpp:47-59 | without its last deletion the target is unmet, and if the target stays unmet everything eligible went |
| `SpaceReclaimer.SacrificeOrder` | components/croniot/src/log/SpaceReclaimer.cpp:27-44 | no spared eligible segment ranks before a deleted one: acked, then expired Data, then Logs, then Data in its window; older ids first within a tier |
| `SpaceReclaimer.DeletesOldestFirstIff` | components/croniot/src/log/SpaceReclaimer.cpp:7-64 | Logs always lose a prefix of the table; Data does under every pressure if and only if no segment inside the retention window precedes one past it |
| `ReclaimMeaning.TakesWhatMayGo` | components/croniot/src/log/Journal.cpp:464-522 | a segment leaves the table only when it is closed and space is short; of Data, unless space is critical, only when every one of its records is acked or it was closed longer ago than the retention window |
| `ReclaimMeaning.TakesInOrder` | components/croniot/src/log/SpaceReclaimer.cpp:27-44 | a segment that leaves goes before every one that may go and is spared: whole acked, then expired Data, then Logs, then Data in its window, lower ids first |
| `ReclaimMeaning.AckedGoFirst` | components/croniot/src/log/SpaceReclaimer.cpp:27-44 | while a closed segment whose records are all acked is spared, no segment with an unacked record goes |
| `ReclaimMeaning.EnoughWhenSpared` | components/croniot/src/log/SpaceReclaimer.cpp:47-59 | if a segment that may go is spared, the sizes of those that went bring the free space to the low mark |
| `ReclaimMeaning.NoneTooMany` | components/croniot/src/log/SpaceReclaimer.cpp:47-59 | and without some one of those that went they would not |
| `OutOfOrder.NewerDataCanGoFirst` | components/croniot/src/log/FrameAccumulator.cpp:25-31 | for any four records of fitting sizes, a run from empty flash with one reboot, after which a Data reclaim with the compiled-in limits takes segment 1 and keeps segment 0: the next batch then carries the records of seqs 2 and 3 as seqs 1 and 2, which an earlier batch gave to others, and the gap marker gives up seq 0, which is still held |
| `Journal.Journal.constructor` | components/croniot/src/log/Journal.cpp:131-181 | mounting computes the state of a boot from flash alone |
| `Journal.Journal.LoadIndex` | components/croniot/src/log/Journal.cpp:183-228 | loads the table of the last saved index, or a fresh one when there is none |
| `Journal.Journal.RemoveOrphanSegments` | components/croniot/src/log/Journal.cpp:230-266 | deletes exactly the files that no table entry tracks |
| `Journal.Journal.RecoverOpenSegment` | components/croniot/src/log/Journal.cpp:336-370 | rebuilds the open segment from its file and cuts the torn tail |
| `Journal.Journal.SaveIndex` | components/croniot/src/log/Journal.cpp:268-308 | the index file becomes the current cursor, table and open size, at once |
| `Journal.Journal.WriteFrame` | components/croniot/src/log/Journal.cpp:310-334 | appends one frame, or fails and cuts the file back to its old size |
| `Journal.Journal.Append` | components/croniot/src/log/Journal.cpp:372-420 | assigns a seq exactly when a frame is in the file, then rotates if the segment is full |
| `Journal.Journal.AppendRecord` | components/croniot/src/log/Journal.cpp:524-532 | the record written carries the seq it is assigned |
| `Journal.Journal.RotateIfNeeded` | components/croniot/src/log/Journal.cpp:422-462 | closes a full segment, opens the next one if the table has room, and saves the index |
| `Journal.Journal.Ack` | components/croniot/src/log/Journal.cpp:579-584 | moves the cursor by the clamped ack and saves the index |
| `Journal.Journal.FirstUnackedSeq` | components/croniot/src/log/Journal.cpp:601-605 | one past the acked seq, or 0 |
| `Journal.Journal.ReclaimMount` | components/croniot/src/log/Journal.cpp:464-522 | deletes the chosen segments one by one, reports a gap marker for each, and saves the index if any went |
| `Journal.Journal.ReadFrom` | components/croniot/src/log/Journal.cpp:635-744 | the chunked, segment by segment loop returns the batch and the state of the segment walk; it closes the append handle before it reads the open file |
| `JournalInvariant.FailedWrite` | components/croniot/src/log/Journal.cpp:322-333 | after a failed write, however much of it landed, exactly the same records are held, and no seq and no size has changed |
| `JournalInvariant.WrittenFrame` | components/croniot/src/log/Journal.cpp:383-391 | a successful write keeps the invariant and adds exactly its payload, at position nextSeq |
| `JournalInvariant.RotationKeeps` | components/croniot/src/log/Journal.cpp:422-445 | a rotation with room in the table keeps the invariant and every record, and starts the new segment at nextSeq |
| `SegmentRuns.AppendClosesIff` | components/croniot/src/log/Journal.cpp:372-445 | a successful append puts its frame at the end of the open file and saves nothing, or, if and only if the file has reached 64 KiB, closes the segment at the time of the append, starts an empty one with the next seq, and saves both; the table must have room |
| `SegmentRuns.ClosedWhenFilled` | components/croniot/src/log/Journal.cpp:422-445 | at every moment of every run each closed segment was closed by the append of its newest record, at its close time and with its recorded size of at least 64 KiB |
| `SegmentRuns.FullOnlyAfterACut` | components/croniot/src/log/Journal.cpp:422-430 | over every run a file that has reached 64 KiB stays open only from a power cut to the next successful append |
| `JournalInvariant.HoldsUnique` | components/croniot/src/log/Journal.h:45-52 | a seq is the position of at most one payload, and lies between oldestSeq and nextSeq |
| `JournalReclaim.RotationKeepsIff` | components/croniot/src/log/Journal.cpp:432-443 | a rotation keeps the books of the open segment true if and only if the table has room |
| `JournalReclaim.FullTableLosesRecords` | components/croniot/src/log/Journal.cpp:322-333 | with a full table the next failed write is rolled back to an empty file: every record in it is gone |
| `FullTable.FullTableIsReached` | components/croniot/src/log/Journal.cpp:439-443 | with any record that fills a segment, a run from empty flash fills the table; one more record and the rotation gets the size of the open file wrong |
| `JournalReclaim.ReclaimPicksPrefix` | components/croniot/src/log/Journal.cpp:464-522 | a reclaim removes exactly a prefix of the closed segments, never the open one, and its markers ascend and are exactly the unacked seqs removed: always for Logs, for Data when the ages fall along the table |
| `JournalReclaim.TakesOldestAfterBoot` | components/croniot/src/log/Journal.cpp:475-482 | they do for as long after any boot as the retention window lasts |
| `JournalReclaim.TakesOldestInOneBoot` | components/croniot/src/log/Journal.cpp:475-482 | and at any time when the segments were closed in one boot, oldest first |
| `ReclaimOrder.ReclaimKeepsIff` | components/croniot/src/log/Journal.cpp:464-522 | a reclaim of a consistent stream leaves it consistent under every pressure if and only if they do (always for Logs) |
| `JournalReclaim.AckKeeps` | components/croniot/src/log/Journal.cpp:579-584 | any ack keeps the invariant, and exactly the same records are held |
| `JournalRecovery.RebootKeeps` | components/croniot/src/log/Journal.cpp:183-370 | after a power cut at any byte of any append, rotation or reclaim, a boot restores the invariant and keeps acks and oldestSeq; every closed segment the interrupted reclaim had not deleted has its entry, file and records as before; the open one keeps every durable record; and nothing new is held but possibly the record being written, under its own seq |
| `RetentionRuns.NothingIsMissing` | components/croniot/src/log/Journal.cpp:464-522 | at every moment of every run every seq from oldestSeq to below nextSeq is held, unless a power cut in the middle of a reclaim has taken the file of its segment |
| `RetentionRuns.DurableRecordsStay` | components/croniot/src/log/Journal.cpp:131-181 | over every run a durable record stays, unchanged, until a reclaim moves oldestSeq past it or such a cut takes the file that holds it |
| `RetentionRuns.ReclaimHealsIff` | components/croniot/src/log/Journal.cpp:487-520 | a reclaim that takes k segments leaves nothing missing if and only if the closed segments from the k-th on have their files; those it passes need not |
| `RetentionRuns.AckedLossIsHarmless` | components/croniot/src/log/Journal.cpp:648-650 | when only acked segments have lost their files, the next read finds something exactly when something is unacked |
| `GapRuns.MarkersOverRuns` | components/croniot/src/log/Journal.cpp:487-520 | at every moment of every run, power cuts included, the gap markers ascend, are disjoint, lie below oldestSeq and cover exactly the seqs that some reclaim took unacked |
| `JournalRecovery.RebootWithoutIndex` | components/croniot/src/log/Journal.cpp:183-228 | with the index gone the stream starts over, and what it still serves is served under its old seq |
| `JournalRecovery.RecoveryIsRepeatable` | components/croniot/src/log/Journal.cpp:230-370 | a recovery from arbitrary bytes may itself be cut short: the next one comes up in the same state |
| `JournalRecovery.RecoveryIsIdempotent` | components/croniot/src/log/Journal.cpp:336-370 | booting again changes nothing, and recovery keeps every complete frame and drops only the torn tail |
| `JournalReading.ReadFromSpec` | components/croniot/src/log/Journal.cpp:635-744 | for positive limits and whatever files are missing: something is read exactly when the first wanted surviving seq is held; the batch then starts there and is the longest prefix the limits allow of everything held from there on without a hole |
| `JournalReading.NothingFits` | components/croniot/src/log/Journal.cpp:635-645 | with a limit of zero records or zero bytes nothing is read, and with one of zero records nothing happens at all |
| `JournalReading.ReadIs` | components/croniot/src/log/Journal.cpp:635-744 | with files missing too, the batch is a run of payloads numbered from the first wanted surviving seq |
| `JournalReading.ReadIsHeld` | components/croniot/src/log/Journal.cpp:635-744 | every payload of a batch is the one flash holds for its seq |
| `JournalReading.ReadIsDurable` | components/croniot/src/log/Journal.cpp:652-668 | once a batch has been read no power cut can take any of its records |
| `Cbor.CborWriter.WriteTypeAndLength` | components/croniot/src/log/CborWriter.h:58-74 | writes the head of RFC 8949 section 3 for a major type and argument |
| `Cbor.CborWriter.AppendBigEndian` | components/croniot/src/log/CborWriter.h:76-80 | the byte loop writes the big-endian digits of the value |
| `Cbor.CborWriter.WriteSigned` | components/croniot/src/log/CborWriter.h:25-31 | negative integers go out as major type 1 |
| `Cbor.CborWriter.WriteString` | components/croniot/src/log/CborWriter.h:33-36 | a text string head and its bytes |
| `Cbor.HeadForms` | components/croniot/src/log/CborWriter.h:58-80 | every head byte by byte, as RFC 8949 section 3 lays it out: the initial byte, then the argument in 0, 1, 2, 4 or 8 bytes, the most significant first |
| `Cbor.StandardExamples` | components/croniot/src/log/CborWriter.h:18-82 | four examples of appendix A of RFC 8949, one of each kind, are written as the standard writes them |
| `Cbor.HeadRoundTrip` | components/croniot/src/log/CborWriter.h:58-74 | every head reads back as its major type and argument |
| `Cbor.HeadIsShortest` | components/croniot/src/log/CborWriter.h:58-74 | a strict reader accepts only heads of shortest form (section 4.1), and those are the ones written |
| `Cbor.DecodeEncode` | components/croniot/src/log/CborWriter.h:18-82 | decoding what was written gives the item and leaves exactly what follows |
| `Cbor.EncodeDecode` | components/croniot/src/log/CborWriter.h:18-82 | whatever decodes is the one encoding of what it decodes to |
| `Cbor.PrefixFree` | components/croniot/src/log/CborWriter.h:18-82 | no encoding is a prefix of another |
| `BatchEnvelope.EncodeLogRecord` | components/croniot/src/log/CborWriter.h:86-95 | a record is written as the array of its seq, uptime, level, tag and message |
| `BatchEnvelope.RecordReadsBack` | components/croniot/src/log/CborWriter.h:86-95 | decoding a written record gives, with nothing left over, five items: its seq, its uptime, 0 to 4 for Error to Trace, its tag, its message |
| `BatchEnvelope.RecordFitsAFrame` | components/croniot/src/log/CborWriter.h:86-95 | an encoded record has at most 234 bytes, so it always fits a frame |
| `BatchEnvelope.RecordsArePrefixFree` | components/croniot/src/log/CborWriter.h:86-95 | no encoded record is a prefix of the encoding of a record that differs in more than its repeat count, which is not written |
| `BatchEnvelope.EncodeBatchEnvelope` | components/croniot/src/telemetry/BatchEnvelope.h:24-38 | five heads, then the record bytes verbatim |
| `BatchEnvelope.EnvelopeDecodes` | components/croniot/src/telemetry/BatchEnvelope.h:24-38 | an envelope over stamped records decodes, with nothing left over, to boot, stream, firstSeq, count and records; record i carries seq firstSeq + i and has the seq, uptime, level, tag and message of whatever record payload i holds |
| `ProtocolRuns.NoSilentLoss` | components/croniot/src/telemetry/Uplink.cpp:125-230 | over every run of appends, failed writes, rotations, reclaims, reads, sends, lost, repeated and late batches and acks, and power cuts: every acked seq was in a batch the server received or in a gap marker that a reclaim returned |
| `ProtocolRuns.StartIsBooted` | components/croniot/src/log/Journal.cpp:183-228 | the start of every run is what a boot from empty flash makes |
| `ProtocolRuns.RunInv` | components/croniot/src/log/Journal.h:45-52 | at every moment of every run the journal is consistent, what its index knows is enough to recover it, every batch read is durable and agrees with flash and with every other, and everything confirmed is covered |
| `ProtocolRuns.SeqsAreStableNames` | components/croniot/src/log/Journal.cpp:652-668 | two batches ever read, in any boots, carry the same payload for every seq they share |
| `ProtocolRuns.NextSeqExceedsEverythingRead` | components/croniot/src/log/Journal.cpp:336-370 | at every moment nextSeq exceeds every seq ever read for sending |
| `ProtocolRuns.HonestAcksAreNeverClamped` | components/croniot/src/log/JournalCursor.h:49-56 | an ack the server has issued moves the cursor to exactly the seq it names, unless a later one came first |
| `ProtocolRuns.ServerAgreesWithFlash` | components/croniot/src/log/Journal.cpp:635-744 | what the server received for a seq is what flash holds for it, as long as it holds anything |
| `ProtocolRuns.PublishedBatchesDecode` | components/croniot/src/telemetry/Uplink.cpp:232-256 | every published batch of Logs or Events is one CBOR item whose record i carries seq firstSeq + i and gives back the five fields of the record stored for it |
| `ProtocolRuns.AppendedIsPublished` | components/croniot/src/telemetry/Uplink.cpp:232-256 | over every run: a record that was appended, and whose seq no power cut took back, is the one a reader finds at its place in every published batch that carries the seq |
| `Progress.SendPublishesIff` | components/croniot/src/telemetry/Uplink.cpp:218-230 | at every moment of every run a send publishes a batch if and only if the first unacked seq is held |
| `Progress.OneRound` | components/croniot/src/telemetry/Uplink.cpp:125-230 | while something is unacked, a round of sending, receiving, committing and acking publishes from the first unacked seq on and moves the cursor exactly past that batch |
| `Progress.NothingMustStayUnacked` | components/croniot/src/telemetry/Uplink.cpp:125-230 | from every moment of every run at which lost files had been acked, such rounds alone can go on until nothing is unacked |
| `PositionRuns.PositionInvariant` | components/croniot/src/log/Journal.h:45-52 | over every run, also with arbitrary acks and lost indexes: frame i of a Logs or Events segment is stamped oldestSeq + i, and nextSeq is the open segment's oldestSeq plus its complete frames |
| `PositionRuns.TableInvariant` | components/croniot/src/log/Journal.cpp:422-522 | over every such run: ids rise, each segment starts where the previous one ends, and the cursor's oldestSeq is the first segment's |
| `RetryPolicy.NextDelayMs` | components/croniot/src/telemetry/RetryPolicy.h:22-32 | the doubling loop equals min(cap, base * 2^(attempt-1)) plus a jitter of at most that much, and forms no value beyond 64 bits when twice the cap fits them |
| `RetryPolicy.DelayDoubles` | components/croniot/src/telemetry/RetryPolicy.h:22-28 | without jitter the delay starts at the base and doubles with every attempt after the first, up to the cap |
| `RetryPolicy.JitterAdds` | components/croniot/src/telemetry/RetryPolicy.h:29-32 | jitter adds its fraction of that delay, rounded down: nothing below 0, all of it from 1 on |
| `UplinkScheduler.PickNextIs` | components/croniot/src/telemetry/UplinkScheduler.h:45-73 | somebody is picked exactly when somebody is ready, and it is the one that goes before every other: due retries, then starved Data, then starved Logs, then the rest, and Events before Logs before Data among equals; nobody waiting for an ack is ready early |
| `Uplink.Uplink.Service` | components/croniot/src/telemetry/Uplink.cpp:172-230 | one pass, over the three journals and the slots, is the pure pass |
| `Uplink.Uplink.ServiceInFlight` | components/croniot/src/telemetry/Uplink.cpp:199-216 | a due slot is resent with a later due time, or given up at the attempt limit |
| `Uplink.Uplink.SendFresh` | components/croniot/src/telemetry/Uplink.cpp:218-230 | a fresh batch starts at the first unacked seq and fills the slot with what is sent |
| `Uplink.Uplink.HandleAck` | components/croniot/src/telemetry/Uplink.cpp:125-165 | the journal is acked, and the slot is freed exactly when the ack reaches its batch |
| `UplinkProperties.PassIsProtocolStep` | components/croniot/src/telemetry/Uplink.cpp:172-230 | every pass is, for every stream, one protocol event or none, of which `UplinkRuns` makes whole runs |
| `UplinkRuns.UplinkFollowsProtocol` | components/croniot/src/telemetry/Uplink.cpp:125-230 | over every run of passes, acks, appends, reclaims, power cuts and network events, each of the three streams is where its own protocol run is, and what was published is exactly what that run has sent |
| `UplinkRuns.NoSilentLossOfAnyStream` | components/croniot/src/telemetry/Uplink.cpp:125-230 | so every acked seq of every stream was in a published message the server received or in a gap marker that a reclaim returned |
| `UplinkRuns.PublishedNamesAreStable` | components/croniot/src/telemetry/Uplink.cpp:232-256 | any two published messages of a stream, from whatever boots, carry the same record for every seq they share |
| `UplinkProperties.AckIsProtocolStep` | components/croniot/src/telemetry/Uplink.cpp:125-165 | handling an ack is the protocol's ack event for its stream and nothing for the others |
| `UplinkProperties.RetrySchedule` | components/croniot/src/telemetry/Uplink.cpp:199-230 | while a slot is active every transmission repeats its batch, none comes before it is due, and the wait after the k-th lies between the backoff for k and twice it |
| `UplinkProperties.TransmissionsAreSpaced` | components/croniot/src/telemetry/RetryPolicy.h:22-38 | a batch is sent at most maxAttempts - 1 times, and sends k and k + 1 are at least min(cap, base * 2^(k-1)) apart |
| `UplinkService.PickTable` | components/croniot/src/telemetry/Uplink.cpp:172-197 | who is served, from cursors, slots and clocks: the first due retry in the order Events, Logs, Data; with none due, of the streams with nothing in flight and something unacked, Data if it has waited its quota, else Logs if it has, else Events, Logs, Data |
| `UplinkService.SomebodyIsServedIff` | components/croniot/src/telemetry/Uplink.cpp:172-197 | somebody is served exactly when a retry is due or a stream with nothing in flight has an unacked record |
| `UplinkService.ServesIdle` | components/croniot/src/telemetry/Uplink.cpp:218-230 | serving a stream with nothing in flight publishes from its first unacked record on, exactly when flash holds it |
| `UplinkService.IdlePassPublishes` | components/croniot/src/telemetry/Uplink.cpp:172-230 | with nothing in flight, a pass publishes exactly when some record is unacked, even a single one |
| `UplinkService.LoneStreamIsServed` | components/croniot/src/telemetry/Uplink.cpp:172-230 | the only stream with something unacked is served at once |
| `UplinkService.PassServesTurnOrRetry` | components/croniot/src/telemetry/UplinkScheduler.h:45-73 | a pass in a stream's turn sends it, or serves a due retry of another that is then freed or pushed a whole window ahead |
| `UplinkService.ServedWithinThreePasses` | components/croniot/src/telemetry/UplinkScheduler.h:45-73 | a stream whose turn it is at each of three passes inside one window is sent by one of them, whatever acks and appends come between |
| `UplinkClocks.PendingIff` | components/croniot/src/telemetry/Uplink.cpp:176-180 | at every moment of every run a stream counts as pending exactly when one of its records is unacked |
| `UplinkClocks.ClockIs` | components/croniot/src/telemetry/Uplink.cpp:182-188 | at every moment of every run a backlog clock is 0 if no pass has seen the backlog since the stream was last found empty or power was cut, and else the time of the first pass that has |
| `UplinkClocks.StarvedIsServed` | components/croniot/src/telemetry/UplinkScheduler.h:28-43 | in every run a Data or Logs backlog seen its quota ago, not found empty since, held by flash and with nothing in flight, is served by one of the next three passes inside one window: Data whatever the others do, Logs unless Data has waited its quota too |
| `UplinkClocks.StarvedLogsGoIff` | components/croniot/src/telemetry/UplinkScheduler.h:57-66 | Logs that has waited its quota is served at a pass with no retry due if and only if Data has not waited its own, however often Data was served since |
| `OtaPolicy.OtaRecord.Install` | components/croniot/src/ota/OtaPolicy.cpp:19-28 | counts the attempt, from one for a new request, and names what was installed |
| `OtaPolicy.OtaRecord.Blame` | components/croniot/src/ota/OtaPolicy.cpp:36-40 | puts a release in front of the bad ones, at most four |
| `OtaPolicy.OtaRecord.Booted` | components/croniot/src/ota/OtaPolicy.cpp:42-77 | updates the record for the image that booted and says in what situation it is |
| `OtaPolicy.OtaRecord.Probed` | components/croniot/src/ota/OtaPolicy.cpp:112-119 | ends a probe, and blames the release if its predecessor was in time or its attempts ran out |
| `OtaPolicy.MarkBadKeeps` | components/croniot/src/ota/OtaPolicy.cpp:36-40 | a marked release is on the list, which stays short and without repeats; only the oldest entry is ever dropped, and only from a full list |
| `OtaCodec.EncodeRecord` | components/croniot/src/ota/OtaPolicy.cpp:125-136 | the loop writes the lines of the record |
| `OtaCodec.DecodeRecord` | components/croniot/src/ota/OtaPolicy.cpp:138-167 | the loops split the lines and read the fields, or fall back to the empty record |
| `OtaCodec.RoundTripIff` | components/croniot/src/ota/OtaPolicy.cpp:121-167 | a record decodes to itself if and only if no field holds a newline, no bad version a tab, and at most four releases are bad |
| `OtaCodec.ReadsWhatItSays` | components/croniot/src/ota/OtaPolicy.cpp:138-167 | any blob of whole lines is read as what its lines say, field by field, if it has a version, a phase and as many bad releases as it announces, at most four; otherwise as the empty record |
| `OtaCodec.UnendedIsEmpty` | components/croniot/src/ota/OtaPolicy.cpp:138-146 | a blob whose last line has no end is read as the empty record |
| `OtaCodec.PrefixIsEmpty` | components/croniot/src/ota/OtaPolicy.cpp:138-147 | every strict prefix of an encoding decodes to the empty record |
| `OtaCodec.SurvivesIff` | components/croniot/src/ota/OtaController.cpp:125-150 | a record survives being stored and loaded if and only if it is such a record and holds no NUL |
| `OtaController.Controller.Load` | components/croniot/src/ota/OtaController.cpp:125-137 | the record becomes what the stored blob decodes to |
| `OtaController.Controller.Begin` | components/croniot/src/ota/OtaController.cpp:152-215 | a boot: load, judge the image, accept a pending one that no update put there, save |
| `OtaController.Controller.ServerReachable` | components/croniot/src/ota/OtaController.cpp:244-252 | remembers the uptime of the first answer |
| `OtaController.Controller.Validate` | components/croniot/src/ota/OtaController.cpp:260-319 | self-tests once, then confirm, wait, or roll back; an impossible rollback keeps the image |
| `OtaController.Controller.Probe` | components/croniot/src/ota/OtaController.cpp:321-337 | settles a probe once the server has answered |
| `OtaController.Controller.HandlePendingManifest` | components/croniot/src/ota/OtaController.cpp:339-409 | takes a new request, decides, downloads and installs |
| `OtaController.Controller.Tick` | components/croniot/src/ota/OtaController.cpp:254-258 | validation or probe, then the request |
| `OtaRuns.RecordFollowsHistory` | components/croniot/src/ota/OtaController.cpp:152-409 | over every run whose versions and request names hold no newline and no NUL, with any image booting at any time: the record, in memory and in the store, is what the history of installs, timeouts and confirmations says it should be |
| `OtaTheorems.RecordFollowsHistoryIff` | components/croniot/src/ota/OtaController.cpp:125-150 | for one retained request the record counts its installs over all runs if and only if its names hold neither newline nor NUL |
| `OtaTheorems.AttemptsAreBounded` | components/croniot/src/ota/OtaPolicy.cpp:8-28 | over every run with such names no release is installed more than max(1, maxAttempts) times in a row without a confirmation |
| `OtaTheorems.StreakIsAllInstalls` | components/croniot/src/ota/OtaPolicy.cpp:19-28 | with one request and nothing confirmed those are all its installs |
| `OtaTheorems.ExhaustedIsFinal` | components/croniot/src/ota/OtaPolicy.cpp:8-17 | once they are used up the request is refused in every state, whatever image runs |
| `OtaTheorems.AttemptsAreBoundedIff` | components/croniot/src/ota/OtaController.cpp:125-150 | for one retained request the bound holds over all runs if and only if its names hold neither newline nor NUL |
| `OtaTheorems.UnstorableIsInstalledForever` | components/croniot/src/ota/OtaManifest.cpp:77-80 | for a request whose names hold one, which the manifest parser lets through, there are runs with any number of installs and no confirmation |
| `OtaTheorems.OnlyTheGuiltyAreBad` | components/croniot/src/ota/OtaPolicy.cpp:42-119 | over every run with such names, and no tab in a version, a release is bad only if its image arrived wrong, its attempts ran out, or it ran to the deadline unanswered and another version was answered, after its own boot, within the same deadline |
| `OtaNames.OnlyTheGuiltyAreBadIff` | components/croniot/src/ota/OtaPolicy.cpp:121-167 | for one retained request, whose names do not hold both a newline and a NUL, that holds over all runs if and only if its version has no tab or the store cannot keep its names; otherwise a refusal and two boots put a release on the list that nobody requested |
| `OtaWatch.RecordIsTold` | components/croniot/src/ota/OtaPolicy.cpp:19-119 | over every run with such names and no tab in a version the whole record, list of refused releases included, is a function of the observer's facts |
| `OtaWatch.BlameIsComplete` | components/croniot/src/ota/OtaPolicy.cpp:36-119 | over every such run, whatever speaks against a release lists it: a wrong image, its predecessor's answer within the deadline or with the attempts used up, and a boot of another image once they are |
| `OtaWatch.LeavesOnlyWhenFull` | components/croniot/src/ota/OtaPolicy.cpp:36-40 | a listed release leaves the list only when it is the oldest of four and another one is listed |
| `OtaWatch.ControllerRemembers` | components/croniot/src/ota/OtaController.cpp:244-275 | while it watches an image the controller knows exactly the first self-test from the stability window on and the first answer since the boot |
| `OtaDecisions.KeptIff` | components/croniot/src/ota/OtaPolicy.cpp:79-89 | over every run a tick keeps the image under test if and only if since its boot the self-tests have passed, the server has answered and the stability window is over, or it is lost with nothing to go back to |
| `OtaDecisions.KeptIsSettled` | components/croniot/src/ota/OtaController.cpp:277-319 | a kept image is settled and stored, with no attempts counted, and no longer pending exactly when it had proved itself |
| `OtaDecisions.LostGoesDown` | components/croniot/src/ota/OtaController.cpp:277-319 | an image that failed its self-tests or ran to the deadline unanswered goes down when there is something to go back to: to be probed unless its tests failed |
| `OtaDecisions.UndecidedWaits` | components/croniot/src/ota/OtaPolicy.cpp:79-89 | one that has neither proved itself nor is lost stays under test, and nothing is written |
| `OtaDecisions.ProbeEndsIff` | components/croniot/src/ota/OtaController.cpp:321-337 | a probe ends at the first tick that knows of an answer, with the time of the first answer noted; until then nothing changes |
| `OtaDecisions.BootFinds` | components/croniot/src/ota/OtaPolicy.cpp:42-77 | over every run, in what situation a boot finds the image, by what the facts tell of the update |
| `OtaDecisions.RollbackIsReported` | components/croniot/src/ota/OtaPolicy.cpp:58-68 | after a rollback the boot reports the stored reason, and the release as refused exactly when its attempts are used up |
| `OtaDecisions.RequestTable` | components/croniot/src/ota/OtaController.cpp:339-409 | what becomes of a request in one tick, in every case: dropped, kept for later and until when, refused for its image, or installed |
| `OtaDecisions.NeverWritesWhatItMayNot` | components/croniot/src/ota/OtaPolicy.cpp:8-17 | over every run nothing is installed that is running, or refused, or has its attempts used up, and nothing while an update is being judged |
| `OtaTheorems.KeptTakesUpdatesIff` | components/croniot/src/ota/OtaController.cpp:310-319 | an image that a tick keeps takes an eligible update later in the same boot if and only if it was confirmed or was not pending |
| `OtaTheorems.DeadEndIsReached` | components/croniot/src/ota/OtaController.cpp:310-316 | a run from the first boot into that dead end: install, boot the pending image, fail its self-test, find nothing to go back to |
| `OtaTheorems.ValidationEndsAtDeadlineIff` | components/croniot/src/ota/OtaPolicy.cpp:79-89 | validation never waits past the deadline, in any state, if and only if the stability window ends no later |
| `JsonScanner.JsonScanner.SkipWs` | components/croniot/src/JsonScanner.h:23-25 | skips white space |
| `JsonScanner.JsonScanner.ConsumeChar` | components/croniot/src/JsonScanner.h:27-35 | takes a character behind white space, or fails |
| `JsonScanner.JsonScanner.PeekChar` | components/croniot/src/JsonScanner.h:37-40 | looks at it |
| `JsonScanner.JsonScanner.ParseString` | components/croniot/src/JsonScanner.h:42-71 | reads a string with its escapes, or fails |
| `JsonScanner.JsonScanner.SkipAnyValue` | components/croniot/src/JsonScanner.h:89-134 | skips a string, a balanced container, or up to a delimiter, or fails |
| `JsonTheorems.SkipStopsAtTheEndIff` | components/croniot/src/JsonScanner.h:89-134 | on every well-formed value of RFC 8259, behind any white space, skipValue stops exactly at its end; for a number, true, false or null if and only if a delimiter or the end follows |
| `JsonTheorems.ReadItems` | components/croniot/src/JsonScanner.h:42-71 | on every well-formed string parseString returns its characters and stops behind the closing quote |
| `JsonTheorems.ReadsAsMeantIff` | components/croniot/src/JsonScanner.h:54-60 | that is the meaning RFC 8259 gives the string, in UTF-8, if and only if it uses none of \b, \f, \r and \u |
| `JsonTheorems.SkimStable` | components/croniot/src/JsonScanner.h:100-128 | text behind a container never changes where skipping it stops |
| `WifiCredentials.ParseWifiJson` | components/croniot/src/provision/WifiCredentials.cpp:57-94 | the scanner loop computes the member-by-member reading, and accepts only valid credentials |
| `WifiTheorems.ParseIsWhatItSays` | components/croniot/src/provision/WifiCredentials.cpp:57-94 | on every well-formed object, with anything behind it, the result is what its members say: the last ssid and the last password, if every member of these names is a string and the two may be typed, and none otherwise; unknown members of any type are skipped |
| `WifiTheorems.RoundTripIff` | components/croniot/src/provision/WifiCredentials.cpp:96-98 | a written file reads back as the same credentials if and only if the name has 1 to 32 characters, the password none, 8 to 63, or 64 hexadecimal digits, and neither a control character |
| `WifiTheorems.ProblemsAre` | components/croniot/src/provision/WifiCredentials.cpp:19-55 | which problem is reported for a name and for a password, by its length and characters |
| `WifiTheorems.ReadsBackWithExtras` | components/croniot/src/provision/WifiCredentials.cpp:57-94 | it does so with any unknown members inserted anywhere and any white space |
| `WifiTheorems.CutShortIsRejected` | components/croniot/src/provision/WifiCredentials.cpp:57-94 | no strict prefix of any well-formed object is accepted |
| `WifiTheorems.TruncatedFileIsRejected` | components/croniot/src/provision/WifiCredentials.cpp:96-98 | a written file cut short anywhere reads as not configured |
| `Redactor.Redactor.RegisterSecret` | components/croniot/src/log/Redactor.h:19-25 | adds a secret unless it is empty or known |
| `Redactor.Redactor.Redact` | components/croniot/src/log/Redactor.h:31-44 | the find-and-replace loop computes the simple form |
| `Redactor.Redactor.RedactInPlace` | components/croniot/src/log/Redactor.h:54-83 | the buffer ends up holding the masked line and its terminator; nothing behind its size is touched |
| `Redactor.MaskInPlace` | components/croniot/src/log/Redactor.h:59-81 | one secret's pass: every match from the left is overwritten by as much of the mask as fits, and the tail moved |
| `RedactorTheorems.InPlaceIsSimpleIff` | components/croniot/src/log/Redactor.h:69-74 | for one secret the two forms agree if and only if the simple result fits the buffer |
| `RedactorTheorems.InPlaceIsSimple` | components/croniot/src/log/Redactor.h:54-83 | for several they agree whenever each intermediate result fits |
| `RedactorTheorems.LongSecretsAlwaysFit` | components/croniot/src/log/Redactor.h:50-53 | which is always so for secrets of three characters or more |
| `RedactorTheorems.NoSecretRemains` | components/croniot/src/log/Redactor.h:54-83 | no registered secret without a star is left in the buffer, whatever the other secrets and however short the masks |
| `RedactorTheorems.NoSecretRemainsSimple` | components/croniot/src/log/Redactor.h:31-44 | nor, in the simple result, one that neither begins nor ends with a star and does not hold the whole mask |
| `RedactorTheorems.SecretIsGoneIff` | components/croniot/src/log/Redactor.h:31-44 | one secret is gone from every line it is replaced in if and only if it neither begins nor ends with a star and does not hold the whole mask |
| `RedactorTheorems.SecretIsGoneInPlaceIff` | components/croniot/src/log/Redactor.h:54-83 | the same for the form in place, over every line and every buffer |
| `RedactorTheorems.GoneAmongOthersSimplyIff` | components/croniot/src/log/Redactor.h:31-44 | that condition is also the exact one for the simple form among any other secrets |
| `RedactorTheorems.GoneAmongOthersIff` | components/croniot/src/log/Redactor.h:54-83 | in place, among any other secrets, in any line and any buffer, a secret is gone if and only if it has no star at all: a clamped mask can put a starred one together |
| `RateLimiter.RateLimiter.Feed` | components/croniot/src/log/RateLimiter.h:28-49 | counts a repeat, modulo 2^16, or releases the run before a different line |
| `RateLimiter.RateLimiter.FlushPending` | components/croniot/src/log/RateLimiter.h:54-59 | releases the open run and starts its count again |
| `LogRouter.LogRouter.VprintfHook` | components/croniot/src/log/LogRouter.cpp:93-109 | stamps the line, pushes the summary of the run it ends, then the line itself if it is new, and keeps errors |
| `LogRouter.LogRouter.PushEvent` | components/croniot/src/log/LogRouter.cpp:113-123 | stamps and pushes an event past the limiter |
| `LogRouter.LogRouter.FlushRateLimiterPending` | components/croniot/src/log/LogRouter.cpp:125-132 | pushes the open run |
| `LogRouter.LosslessIff` | components/croniot/src/log/RateLimiter.h:28-59 | over every sequence of lines, flushes and events: expanding the pushed summaries, plus the open run, gives back every line in order if and only if no run exceeds 65535 repeats between flushes |
| `LogRouter.LinesAreCounted` | components/croniot/src/log/RateLimiter.h:22-26 | otherwise exactly 65536 lines are missing for each time the count wraps |
| `LogRouter.EventsPassThrough` | components/croniot/src/log/LogRouter.cpp:113-123 | all events are pushed, in order |
| `LogRouter.NumbersFollow` | components/croniot/src/log/LogRouter.cpp:86-123 | over every sequence of calls each line and event takes the next number |
| `LogRouter.PushedIsLast` | components/croniot/src/log/LogRouter.cpp:93-123 | what a call pushes is its own record under its own number, behind any summary |
| `LogRouter.CriticalIs` | components/croniot/src/log/LogRouter.cpp:100-123 | what is kept for a crash is exactly the events and the errors that were pushed, in order |

## Left out

Stated for less than the source could meet:

- ProtocolRuns.NoSilentLoss: appends are at most 65535 bytes and rotate only with room in the table, and Data is reclaimed only while the ages a reclaim sees fall along its table; `Frames.FrameRoundTripIff`, `JournalReclaim.RotationKeepsIff` and `ReclaimOrder.ReclaimKeepsIff` say why, each with the exact condition. A gap marker is what a reclaim returns: the Events record that the source appends for it is an append like any other, and a power cut before it is durable can take it.
- PositionRuns.PositionInvariant: the same three conditions on runs; also of every other theorem over runs of the journal.
- JournalRecovery.RebootKeeps: saving the index and cutting a file back either succeed or the device loses power; a failed save that is only logged is not modelled.
- Uplink.Uplink.Service: a pass and the handling of an ack are whole steps, although the in-flight slots have no lock; the same for each locked Journal method.
- UplinkProperties.RetrySchedule: jitter is a real number and rounding of doubles is not modelled; due times beyond 64 bits are excluded.
- UplinkClocks.StarvedIsServed: uptimes below 2^64 that do not go back while the device is up.
- SpaceReclaimer.Reclaim: water marks are real percentages, and the sort is a function, not an in-place algorithm.
- OtaRuns.RecordFollowsHistory: runs whose versions and request names hold no newline and no NUL; `OtaTheorems.RecordFollowsHistoryIff` says what happens with one retained request otherwise.
- OtaTheorems.AttemptsAreBounded: the same runs; `OtaTheorems.AttemptsAreBoundedIff` is exact for one retained request.
- OtaTheorems.OnlyTheGuiltyAreBad: the same runs, and no tab in a version; `OtaNames.OnlyTheGuiltyAreBadIff` is exact for one retained request.
- OtaNames.OnlyTheGuiltyAreBadIff: not for names that hold both a newline and a NUL, where it depends on what the text in front of the NUL happens to decode to.
- OtaController.Controller.HandlePendingManifest: setting the boot partition and saving the record are one step; a download is its outcome (written, broken transfer, wrong image), and of a manifest only the names matter.
- OtaController.Controller.Save: a write to the non-volatile store that fails and is only logged is not modelled.
- RedactorTheorems.GoneAmongOthersIff: the secret leaves some character out, as every secret shorter than the alphabet does.
- LogRouter.LosslessIff: order between lines and events is not kept, since an event passes a run still open; each kind is in order.

Not modelled:

- Seqs, sizes and uptimes are unbounded numbers except where 16 bits (frame length, repeat count), 8 bits (attempts) or 64 bits (CBOR arguments, delays) matter; a stream of 2^32 records is out of scope.
- File names, stdio, directory listing, mounting and unmounted streams, the mutex, and the free-space query: segment ids name files, and outcomes and sizes are parameters.
- The index file's bytes and its version check: it is stored and loaded as a value.
- Write accounting, budget warnings, wear estimates, health reports and counters.
- Reading an ack's JSON, batch publishing over MQTT, and link state: an ack is its stream and seq.
- HTTP download, hashing and flashing; the update gate and transport are parameters; `parseManifest` and `parseInt`, which would add only branch-for-branch members.
- Messages shown to the person typing credentials (a name for each stands for the sentence), `classifyDisconnect`, `ConnectVerdict`, `resolve`.
- The rings behind the router, parsing of log lines, level filters, console sinks, sensors, sessions, registration and message routing.
- Fairness: that rounds can complete is proved, not that the network lets them; and anything further once the table is full, where the code promises nothing.
