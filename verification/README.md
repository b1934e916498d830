# A verified model of WDT

WDT copies directory trees over several TCP connections at once.  A transfer survives broken connections, can be
resumed from a log on the receiving side, and can be encrypted.  This project models the parts of WDT whose
correctness is hard to see from the code, in Dafny 4.11, and proves what they promise, for every input, every run
and every interleaving of threads.  `dafny verify dfyconfig.toml` checks all of it.

## What is modelled

**Retry and checkpoints** (`Sources`, `SourceOrder`, `SourceQueues`, `TransferHistory`, `SenderSystem`,
`CheckpointProtocol`, `CheckpointWitnesses`, `Scenarios`).  The class `ThreadTransferHistory` keeps the blocks a sender thread has
sent; a checkpoint truncates it, credits the received part of the first missing block, and returns the rest to the
shared queue.  Its methods are proved against functions on histories.  `SenderSystem` puts any number of such threads
on one queue and proves the books balanced in every reachable state.  `CheckpointProtocol` closes the system:
connections are cut at any byte, both ends notice on their own, and the receiver's checkpoints come back over the same
port or over another one.

**The end of a transfer** (`ReceiverFinish`, `TransferEnd`).  `ReceiverFinish` is how the receiver's threads decide that
one of them may answer DONE.  `TransferEnd` puts it together with the retry protocol: DONE and ERR go back and forth on
the same connections, and what is proved is what the answer DONE means for every port and for every byte.  `Scenarios`
has a lemma for what each step makes of the ports, from which `CheckpointWitnesses` builds its runs.

**Resumption** (`Intervals`, `OrderedMaps`, `LogEntries`, `LogReplay`, `LogLaws`, `LogCompaction`, `LogParsers`,
`Resumption`, `ResumptionLaws`, `ResumptionEndToEnd`, `ResumptionRuns`).  From the bytes of the transfer log, through
replay and the merging of chunks, to the blocks in the sender's queue, which is rebuilt while files are still being
discovered.
The parser and the log file are classes whose loops are proved against `ParseLog` and `Repaired`; the disk is a map
from names to sizes, and the current time is a parameter.  `ResumptionRuns` starts the retry protocol from the rebuilt
queue.

**Wire codec** (`Wire`, `Messages`, `ChunkPages`).  Varints of at most nine bytes, version-dependent messages and the
paged list of chunks.  Encoders also exist as the code that moves an offset through a byte array.

**Receiver buffer** (`ReceiverStream`, `ReceiverBuffers`, `SentStream`, `BlockDelivery`).  The plain parser `Plain` says
what a stream means, for any bytes; the class `Connection` is the buffer with its offset, length and leftover handling,
on a socket that splits the stream as it likes; `SentStream` is what a sender writes, and `BlockDelivery` puts the two
ends together.

**Encrypted stream** (`EncryptedStream`, `EncryptedSockets`).  Tags and initialization vectors (IVs) are put into the
stream at computed positions.  Ciphers are arbitrary functions of which only "decryption undoes encryption" is known.

**Smaller concurrent parts** (`FileAllocation`, `VersionNegotiation`, `Throttling`).  Step systems over any number of
threads, each step being what the program does under one lock or alone.

## Where the code does not do what it promises

Each of these has a lemma with a concrete run or input, beside the condition under which the promise holds, which is
exact unless it says otherwise.

- The checkpoint of a correct receiver can be rejected as a protocol error: `LocalRejectedIff`, `GlobalRejectedIff`,
  with the runs `ProgressAfterNoBytesIsRejected` and `VerifiedBeforeAddedIsRejected`.
- `Sender.cpp:201-202` concludes from one thread that finished correctly that all transferred sources are
  acknowledged.  `DoneMeansReceived` proves it of every port that is not exceptional: whose receiver thread was not
  aborted, whose own DONE has not failed, and whose final checkpoint was not rejected, which nobody reports.
  `LostAtDoneIff` says exactly which bytes are lost when a thread may answer DONE: those that an exceptional port has in
  blocks its receiver has not verified, and that are not on disk.  Each of the three happens: `AbortedBlockIsLost`,
  `BlockIsLostBesideDone`, `RefusedBlockIsLost`; in `EndsWell` no port is exceptional.
- A receiver thread whose DONE did not get through counts as finished while it reads blocks again:
  `DoneOnlyWhenOthersQuiet`, `DoneBesideReader`.
- The comment at `ByteSource.h:37` says that sequence ids start at 1.  After an empty list of chunks the rebuilt queue
  starts at 0: `SeqIdsValidIff`, `EmptyListGivesIdZero`.  A partial checkpoint for id 0 then keeps sources that were never
  acknowledged: `ReturnUnackedKeepsAcked`, `UnackedStayAfterPartialOfIdZero`.
- The page loop neither advances past nor counts an entry that does not fit a page: `ListArrivesIff`,
  `LongNameDoesNotArrive`.
- The size recorded for an id outlives its invalidation, so that growing a later file of the same id can make the log
  invalid: `GrowingReusedIdIff`, `StaleSizeMakesLogInvalid`.
- Compaction empties the log before it writes the header, and does not check that it wrote it.  The compacted log no
  longer replays if the log was empty and no sender is known, or if the header does not fit its buffer:
  `CompactionKeepsFilesIff`, `EmptyLogIsLost`, `LongHeaderIsLost`.
- The read that completes a block header longer than the 256 bytes waited for puts the bytes too far behind:
  `TopUpSafeIff`.  With the rest of another header in the buffer, that other block is read: `HeaderIsMisread`,
  `OtherNameIsRead`.
- Between settings and size commands nothing moves the offset back, so that many of them trip the check of
  `readAtLeast`: `Receive`, `ManySizesHaveNoRoom`.  What a sender writes does not: `OrderlyFits`.  The condition is exact
  before the first block; behind a block, where the offset depends on how the socket split the stream, it is sufficient.
- An unacceptable version offer makes the check for a negotiated version fail: `LeaderFindsVersion`,
  `RefusedOfferLeavesNone`.

## Model

| member | source | states |
|---|---|---|
| `TransferHistory.MarkFailedBalances` | util/ThreadTransferHistory.cpp:181-226 | marking a source as failed changes the thread's counters exactly as the source's, and the positions no longer owed are exactly the credited ones |
| `TransferHistory.FailTailBalances` | util/ThreadTransferHistory.cpp:67-109 | the same for the whole pop loop, summed over the truncated history |
| `TransferHistory.FailTailLength` | util/ThreadTransferHistory.cpp:91-108 | every source behind the checkpoint goes back once, last one first, and only the first missing one is given the checkpoint |
| `TransferHistory.CheckpointConserves` | util/ThreadTransferHistory.cpp:67-109 | a checkpoint, accepted or not, loses no source, keeps both sides of the books equal, and each owed position stays owed or is credited once |
| `TransferHistory.GlobalCheckpointIdempotent` | util/ThreadTransferHistory.cpp:55-65 | handling an accepted global checkpoint again returns nothing, credits nothing and changes nothing |
| `TransferHistory.ReturnUnackedKeepsAcked` | util/ThreadTransferHistory.cpp:129-180 | returning unacknowledged sources keeps exactly the acknowledged ones, if and only if all are acknowledged or no partial checkpoint for position 0 of id 0 is on record for that count |
| `TransferHistory.UnackedStayAfterPartialOfIdZero` | util/ThreadTransferHistory.cpp:129-180 | adding a source, a partial checkpoint for id 0 and adding another one leave a history that keeps the second, which was never acknowledged |
| `TransferHistory.ThreadTransferHistory.constructor` | util/ThreadTransferHistory.cpp:14-19 | a new history is empty |
| `TransferHistory.ThreadTransferHistory.AddSource` | util/ThreadTransferHistory.cpp:34-47 | the source joins the history, or after a global checkpoint goes back to the queue as failed, with the counters that entails |
| `TransferHistory.ThreadTransferHistory.MarkSourceAsFailed` | util/ThreadTransferHistory.cpp:181-226 | the branches on error code and checkpoint compute the failed source and the thread's counters |
| `TransferHistory.ThreadTransferHistory.PopFailedSources` | util/ThreadTransferHistory.cpp:91-106 | the loop leaves the first `n` sources and returns the others as `FailTail` says |
| `TransferHistory.ThreadTransferHistory.SetCheckpointAndReturnToQueue` | util/ThreadTransferHistory.cpp:67-109 | status, history, counters and queue after a checkpoint, including the rejected one |
| `TransferHistory.ThreadTransferHistory.SetLocalCheckpoint` | util/ThreadTransferHistory.cpp:49-53 | the same for a checkpoint of the thread's own port: status, history, counters and queue |
| `TransferHistory.ThreadTransferHistory.MarkAllAcknowledged` | util/ThreadTransferHistory.cpp:124-127 | all sources count as acknowledged, nothing else changes |
| `TransferHistory.ThreadTransferHistory.ReturnUnackedSourcesToQueue` | util/ThreadTransferHistory.cpp:129-134 | history, counters and queue after the checkpoint made of the acknowledged count alone |
| `SenderSystem.StepBalances` | util/ThreadTransferHistory.cpp:34-109 | every step of every thread keeps each audited counter and each owed position balanced |
| `SenderSystem.StepCountsDequeued` | util/DirectorySourceQueue.cpp:422-433 | every step keeps the counter of handed-out blocks equal to blocks in flight plus blocks in histories |
| `SenderSystem.RunKeepsInv` | Sender.cpp:371-408 | the invariant holds in every state of every run of any number of threads |
| `SenderSystem.AuditNeverFails` | Sender.cpp:371-408 | the four sums compared by the final audit are equal in every reachable state |
| `SenderSystem.RangesPartition` | util/ThreadTransferHistory.cpp:181-226 | at every position, credited ranges plus what queue, threads and histories hold add up to what was enqueued |
| `SenderSystem.NeverCreditedTwice` | util/ThreadTransferHistory.cpp:136-180 | however often checkpoints are repeated, no position is credited more often than it was enqueued |
| `SenderSystem.ReturnCheckHolds` | util/DirectorySourceQueue.cpp:429-430 | the check on the counter of handed-out blocks holds whenever sources go back |
| `CheckpointProtocol.StepInside` | util/ThreadTransferHistory.cpp:190-204 | a checkpoint of the receiver never credits more than the block it names, so every protocol step is a step of the sender system |
| `CheckpointProtocol.TruncationExact` | util/ThreadTransferHistory.cpp:67-109 | an accepted checkpoint leaves exactly the verified blocks in the history |
| `CheckpointProtocol.RunKeepsInv` | ReceiverThread.cpp:193-254 | the invariant of sender, connections and receiver holds in every state of every run |
| `CheckpointProtocol.VerifiedIsPrefixOfSent` | SenderThread.cpp:282-314 | on every port the blocks verified by the receiver are the first blocks its sender answers for, in order |
| `CheckpointProtocol.CheckpointExact` | SenderThread.cpp:151-206 | after an accepted checkpoint the history holds exactly the verified blocks, so no unverified block leaves the sender's duty |
| `CheckpointProtocol.LocalRejectedIff` | util/ThreadTransferHistory.cpp:136-180 | a local checkpoint of the receiver is rejected exactly if the previous one named the same block and just one of the two has bytes |
| `CheckpointProtocol.GlobalRejectedIff` | util/ThreadTransferHistory.cpp:55-109 | a global one is rejected in that case, or if its last block is verified but not yet in the history |
| `CheckpointProtocol.NoByteLost` | ReceiverThread.cpp:605-697 | every enqueued byte is on disk, or is queued, failed to open, or still owed by a thread |
| `CheckpointProtocol.CompleteWhenQuiet` | SenderThread.cpp:282-314 | when nothing is queued or under way and all histories are verified, every enqueued byte is on disk |
| `CheckpointWitnesses.ProgressAfterNoBytesIsRejected` | util/ThreadTransferHistory.cpp:155-172 | a reachable state in which the checkpoint of a correct receiver is rejected |
| `CheckpointWitnesses.VerifiedBeforeAddedIsRejected` | util/ThreadTransferHistory.cpp:67-80 | a reachable state in which a global checkpoint is rejected because its last block is not yet in the history |
| `CheckpointWitnesses.RefusedBlockIsLost` | Sender.cpp:197-213 | a reachable state in which a receiver thread may answer DONE and a byte is lost on a port whose final checkpoint was rejected, and which is not exceptional otherwise |
| `CheckpointWitnesses.AbortedBlockIsLost` | Sender.cpp:197-213 | the same on a port whose receiver thread was aborted |
| `CheckpointWitnesses.BlockIsLostBesideDone` | ReceiverThread.cpp:885-914 | the same on a port whose receiver thread could not send its DONE |
| `CheckpointWitnesses.EndsWell` | ReceiverThread.cpp:937-950 | a reachable state in which a receiver thread may answer DONE, no port is exceptional, and the enqueued byte is on disk |
| `TransferEnd.RetryRun` | SenderThread.cpp:685-720 | on its connections every run of the whole is a run of the retry protocol |
| `TransferEnd.FinishRun` | ReceiverThread.cpp:916-989 | among the receiver's threads it is a run of the finish protocol |
| `TransferEnd.SaysDoneKeepsTie` | SenderThread.cpp:466-488 | when DONE is written, everything the port answers for has reached the connection |
| `TransferEnd.ReadsKeepsTie` | ReceiverThread.cpp:483-484 | a FILE or DONE command shows that the sender has handled every checkpoint written to it on this connection |
| `TransferEnd.GlobalCloses` | util/ThreadTransferHistory.cpp:273-284 | a global checkpoint closes the history of its port, unless it is rejected |
| `TransferEnd.RunKeepsInv` | SenderThread.cpp:759-827 | the invariant of senders, connections, receiver threads and their conversation holds in every state of every run |
| `TransferEnd.DoneMeansReceived` | Sender.cpp:197-207 | when a receiver thread may answer DONE, the history of every unexceptional port is, block by block, what its receiver has |
| `TransferEnd.LostAtDoneIff` | Sender.cpp:197-213 | when a receiver thread may answer DONE, an enqueued byte is neither on disk, nor queued, nor failed to open, nor in a sender thread's hands, if and only if it is not on disk and an exceptional port has it in a block that its receiver has not verified |
| `TransferEnd.CompleteAtDone` | Sender.cpp:197-213 | if no port is exceptional then, no byte is lost |
| `SourceQueues.DirectorySourceQueue.constructor` | util/DirectorySourceQueue.h:391-424 | a new queue is the initial state |
| `SourceQueues.DirectorySourceQueue.ReturnToQueue` | util/DirectorySourceQueue.cpp:422-434 | returned sources are queued and the counter drops by their number; requires what its check demands, which `ReturnCheckHolds` proves of every run |
| `SourceQueues.DirectorySourceQueue.GetNextSource` | util/DirectorySourceQueue.cpp:679-721 | sources are taken from the top until one opens: that one is handed out and counted, those before are set aside as failed, the others stay |
| `SourceOrder.NotBeforeTransitive` | util/DirectorySourceQueue.h:341-366 | the comparison of the priority queue is a weak order: what is not before something not before a source is not before it |
| `SourceOrder.BeforeIsStrict` | util/DirectorySourceQueue.h:341-366 | it is strict, and sources it does not tell apart have the same name, offset and size |
| `SourceOrder.NothingBeforeTop` | util/DirectorySourceQueue.cpp:699-702 | nothing in the queue comes before its top |
| `SourceOrder.ServeConserves` | util/DirectorySourceQueue.cpp:679-721 | what failed, what is handed out and what stays are together what was queued |
| `SourceOrder.ServedInOrder` | util/DirectorySourceQueue.cpp:679-721 | sources are tried in the order of the queue: what failed could not be opened, the one handed out can, and nothing left comes before any of them |
| `SourceQueues.DirectorySourceQueue.PushBlocks` | util/DirectorySourceQueue.cpp:537-549 | the do/while loop queues the blocks of one range |
| `SourceQueues.DirectorySourceQueue.PushChunks` | util/DirectorySourceQueue.cpp:537-553 | all missing ranges of a file are queued and counted |
| `SourceQueues.DirectorySourceQueue.CreateIntoQueueInternal` | util/DirectorySourceQueue.cpp:479-555 | queue and counters after one file, in each of its four cases |
| `SourceQueues.DirectorySourceQueue.CreateIntoQueue` | util/DirectorySourceQueue.cpp:442-477 | a discovered file is remembered and queued |
| `SourceQueues.DirectorySourceQueue.EnqueueFilesToBeDeleted` | util/DirectorySourceQueue.cpp:638-677 | once both lists are complete, a deletion is queued for each received name that was not discovered |
| `SourceQueues.DirectorySourceQueue.FinishDiscovery` | util/DirectorySourceQueue.cpp:222-230 | the end of discovery, with the deletions it may bring |
| `SourceQueues.DirectorySourceQueue.SetFileChunksInfo` | Sender.cpp:114-123 | only the first list counts; the queue is then rebuilt from it |
| `SourceQueues.DirectorySourceQueue.SetPreviouslyReceivedChunks` | util/DirectorySourceQueue.cpp:145-168 | the rebuilt queue and the indexed entries |
| `SourceQueues.DirectorySourceQueue.IndexChunks` | util/DirectorySourceQueue.cpp:154-159 | the first entry of each name is kept and the next id lies behind every listed one |
| `SourceQueues.DirectorySourceQueue.RebuildQueue` | util/DirectorySourceQueue.cpp:161-166 | all files seen so far are queued again in order |
| `ResumptionLaws.ArrivalTimeIsIrrelevant` | util/DirectorySourceQueue.cpp:145-168 | for every order of discoveries, lists and the end of discovery, queue and counters are those made in one go from the files and the first list |
| `ResumptionLaws.SeqIdsMatchFiles` | util/DirectorySourceQueue.cpp:497-527 | two queued blocks have the same id exactly if they belong to the same file, deletions included |
| `ResumptionLaws.SeqIdsValidIff` | util/DirectorySourceQueue.cpp:150-159 | all ids are at least 1 if and only if the list was not empty, or nothing is to be sent |
| `ResumptionLaws.EmptyListGivesIdZero` | util/DirectorySourceQueue.cpp:150-159 | a queued block with id 0 |
| `ResumptionLaws.QueueTilesFiles` | util/DirectorySourceQueue.cpp:497-555 | for each discovered file, kept chunks and queued blocks contain each byte exactly once and no other byte, in blocks of at most the block size |
| `ResumptionLaws.QueueOwesFiles` | util/DirectorySourceQueue.cpp:497-555 | the same in the measure by which the sender threads account for positions, so that their runs start from a tiling |
| `ResumptionLaws.QueueConserves` | util/DirectorySourceQueue.cpp:516-553 | bytes to send plus bytes saved are the sizes of all discovered files, and the number of blocks is right |
| `Resumption.Find` | util/DirectorySourceQueue.cpp:502 | an entry of the name if there is one, none otherwise |
| `Intervals.MergeChunks` | Protocol.cpp:74-92 | the loop over the sorted chunks computes `Merge` |
| `Intervals.MergeOk` | Protocol.cpp:74-92 | merged chunks are in order with gaps between them and cover exactly what the chunks covered, touching ends included |
| `Intervals.MergeUnique` | Protocol.cpp:74-92 | there is only one such form of a set of chunks |
| `Intervals.MergeKeepsBytes` | Protocol.cpp:74-92 | merging keeps exactly the bytes of the chunks |
| `Intervals.AnySortMergesAlike` | Protocol.cpp:78 | it does not matter how the sort orders chunks with equal starts |
| `Intervals.MergeWithin` | Protocol.cpp:74-92 | merging stays within the bounds of the chunks |
| `Intervals.GetRemainingChunks` | Protocol.cpp:94-107 | the loop computes `Remaining` |
| `Intervals.RemainingTiles` | Protocol.cpp:94-107 | merged chunks and what remains of the file contain each byte of it exactly once |
| `LogEntries.BodyRoundTrip` | util/TransferLogManager.cpp:38-238 | every log entry decodes to itself and leaves no byte over |
| `LogEntries.EntriesFit` | util/TransferLogManager.h:126-128 | the buffers of the log hold every entry but a header, for any legal path |
| `LogEntries.WriteEntry` | util/TransferLogManager.cpp:38-217 | the encoders write length, type and fields, and fail exactly if the buffer is too small |
| `LogReplay.InvalidationsFit` | util/TransferLogManager.cpp:706-721 | the appended invalidations always fit their buffer |
| `LogLaws.StepKeepsOk` | util/TransferLogManager.cpp:814-1000 | each entry keeps every logged chunk inside the file as it is on disk, and files and invalid ids apart |
| `LogLaws.ParseKeepsOk` | util/TransferLogManager.cpp:1015-1119 | replay of any bytes whatsoever keeps that; the check that a resized file has a recorded size holds |
| `LogLaws.ListingOk` | util/TransferLogManager.cpp:1106-1111 | listed chunks are merged and within the size on disk, with increasing ids |
| `LogLaws.PartIsTail` | util/TransferLogManager.cpp:1020-1063 | part of an entry is never taken for an entry |
| `LogLaws.ParseIsReplay` | util/TransferLogManager.cpp:1015-1119 | replaying the bytes of entries is replaying the entries |
| `LogLaws.CutReplaysWholeEntries` | util/TransferLogManager.cpp:1031-1063 | a log cut at any byte replays as its longest prefix of whole entries, and that prefix is what is kept |
| `LogLaws.ParsePrefix` | util/TransferLogManager.cpp:1015-1104 | what was replayed replays alike in front of anything |
| `LogLaws.InvalidationsReplay` | util/TransferLogManager.cpp:968-998 | the appended invalidations clear exactly what was found missing |
| `LogLaws.RepairIsStable` | util/TransferLogManager.cpp:706-743 | replaying a repaired log on the same disk gives the same files and leaves the log as it is |
| `LogLaws.RepairKeepsStatus` | util/TransferLogManager.cpp:589-610 | a repaired log has the status it had before, whatever that was |
| `LogLaws.RecordedIsLargest` | util/TransferLogManager.cpp:859-998 | in any log that is not invalid, the size recorded for an id is the largest that an entry gave it since the log was last cleared, invalidated or not |
| `LogLaws.GrowingReusedIdIff` | util/TransferLogManager.cpp:859-918 | after any log that replays, growing a file of an id that is free is accepted if and only if the new size reaches every size the log gave that id since it was last cleared |
| `LogLaws.StaleSizeMakesLogInvalid` | util/TransferLogManager.cpp:859-998 | a log that replays up to its last entry and becomes invalid by it |
| `LogCompaction.CompleteIsWhole` | util/TransferLogManager.cpp:643-657 | what passes the checks before compaction is files with one chunk from 0 to their end |
| `LogCompaction.OkHasHeader` | util/TransferLogManager.cpp:768-812 | a log that replays and is not empty has a header |
| `LogCompaction.CompactionKeepsFilesIff` | util/TransferLogManager.cpp:612-693 | the compacted log replays to the same files if and only if its header fits and the log had an entry or a sender is known, or the header does not fit and there are no files |
| `LogCompaction.HeaderlessParses` | util/TransferLogManager.cpp:659-693 | what a log compacted without its header replays to |
| `LogCompaction.EmptyLogIsLost` | util/TransferLogManager.cpp:612-693 | an empty log replays, and is invalid after its compaction |
| `LogCompaction.LongHeaderIsLost` | util/TransferLogManager.cpp:659-693 | a log of one complete file that is invalid after its compaction |
| `LogParsers.LogFile.TruncateExtraBytesAtEnd` | util/TransferLogManager.cpp:723-743 | the log loses its last bytes and writing goes on at the end |
| `LogParsers.LogParser.ProcessHeaderEntry` | util/TransferLogManager.cpp:768-812 | status and state after a header, in the order of the checks |
| `LogParsers.LogParser.ProcessFileCreationEntry` | util/TransferLogManager.cpp:814-869 | status and state after a creation |
| `LogParsers.LogParser.ProcessFileResizeEntry` | util/TransferLogManager.cpp:871-919 | status and state after a resize |
| `LogParsers.LogParser.ProcessBlockWriteEntry` | util/TransferLogManager.cpp:921-966 | status and state after a block |
| `LogParsers.LogParser.ProcessFileInvalidationEntry` | util/TransferLogManager.cpp:968-998 | status and state after an invalidation |
| `LogParsers.LogParser.ReadEntry` | util/TransferLogManager.cpp:1020-1063 | the next entry of the file, a bad length, or its end, from which part of an entry is cut off |
| `LogParsers.LogParser.ReadEntries` | util/TransferLogManager.cpp:1015-1104 | the parse loop computes `ParseLog` and leaves exactly the whole entries in the file |
| `LogParsers.LogParser.MergedFiles` | util/TransferLogManager.cpp:1106-1111 | the list is the files in order of id with merged chunks |
| `LogParsers.LogParser.WriteFileInvalidationEntries` | util/TransferLogManager.cpp:706-721 | one invalidation per missing file is appended, in order of id |
| `LogParsers.LogParser.ParseAndFix` | util/TransferLogManager.cpp:1015-1119 | status, list and file after replay |
| `LogParsers.TransferLogManager.ParseVerifyAndFix` | util/TransferLogManager.cpp:589-610 | the whole repair is `Repaired`, with a directory invalidation if the directory is inconsistent |
| `LogParsers.TransferLogManager.CompactLog` | util/TransferLogManager.cpp:612-693 | the log is rewritten exactly if it replays and lists complete files only, with or without a header as that fits, and is repaired otherwise |
| `LogParsers.TransferLogManager.WriteLogHeader` | util/TransferLogManager.cpp:472-493 | a header is appended if it fits its buffer, and nothing otherwise |
| `LogParsers.TransferLogManager.OnlyComplete` | util/TransferLogManager.cpp:643-657 | the loop accepts exactly the lists of complete files |
| `ResumptionEndToEnd.ReplayedListOk` | util/TransferLogManager.cpp:1106-1111 | what replay lists is a list the sender's queue can take |
| `ResumptionEndToEnd.LoggedTransferResumesExactly` | util/DirectorySourceQueue.cpp:479-555 | whatever bytes the log holds, what is kept and what is queued tile every file, and ids match names |
| `ResumptionRuns.QueueIsApart` | util/DirectorySourceQueue.cpp:479-555 | blocks of the rebuilt queue with the same id do not overlap, and an empty file has one block |
| `ResumptionRuns.ResumptionStartsRun` | util/DirectorySourceQueue.cpp:145-168 | the retry protocol can start from the rebuilt queue |
| `ResumptionRuns.ResumedTransferCompletes` | Sender.cpp:114-123 | when a resumed transfer is quiet, every byte of every discovered file is on disk or was kept from before |
| `ResumptionRuns.ResumedTransferAtDone` | Sender.cpp:197-213 | when a receiver thread may answer DONE to a resumed transfer, a byte of a discovered file that was not kept from before is lost if and only if an exceptional port has it unverified and it is not on disk |
| `Wire.EncodeVarU64` | util/SerializationUtil.h:116-144 | the loop stores the varint and moves the position, or fails for lack of room without touching other bytes |
| `Wire.DecodeVarU64` | util/SerializationUtil.h:175-210 | the loop decodes what `DecodeU64` does and moves the position behind it |
| `Wire.U64RoundTrip` | util/SerializationUtil.h:116-210 | every unsigned 64-bit value comes back, whatever follows it |
| `Wire.UnvarBounds` | util/SerializationUtil.h:175-210 | whatever decodes took one to `k` bytes and lies below their capacity |
| `Wire.CutVarFails` | util/SerializationUtil.h:175-210 | a cut varint does not decode |
| `Wire.ZigZagRoundTrip` | util/SerializationUtil.h:66-75 | signed and unsigned 64-bit values are coded one to one: each coding undoes the other |
| `Wire.StringRoundTrip` | util/SerializationUtil.cpp:158-186 | every string comes back |
| `Wire.PutString` | util/SerializationUtil.cpp:158-172 | the encoder of strings writes length and bytes, or fails exactly for lack of room |
| `Wire.FixedRoundTrip` | util/SerializationUtil.cpp:104-156 | non-negative integers of a fixed length come back |
| `Messages.PutFields` | Protocol.cpp:139-166 | a chain of encoder calls writes the fields one after the other and fails exactly if they do not fit |
| `Messages.HeaderRoundTrip` | Protocol.cpp:139-196 | every block header decodes to what its version carries, and decoding stops behind it |
| `Messages.HeaderFits` | Protocol.h:302-305 | any header with a legal path fits its buffer |
| `Messages.CheckpointsRoundTrip` | Protocol.cpp:198-266 | every list of checkpoints decodes to what its version carries |
| `Messages.LocalCheckpointFits` | Protocol.cpp:121-137 | one checkpoint fits the length reserved for it |
| `Messages.SettingsRoundTrip` | Protocol.cpp:454-521 | version and settings come back, up to flags the version omits |
| `Messages.DoneRoundTrip` | Protocol.cpp:268-287 | the done command comes back, up to the byte count that old versions omit |
| `Messages.FooterRoundTrip` | Protocol.cpp:549-561 | checksums come back, negative ones included |
| `Messages.AbortRoundTrip` | Protocol.cpp:303-338 | the abort command comes back |
| `Messages.FileChunksRoundTrip` | Protocol.cpp:356-407 | every entry of the chunk list comes back |
| `Messages.EncodeLenBound` | Protocol.cpp:409-412 | the estimated length of an entry is an upper bound |
| `ChunkPages.ListRoundTrip` | Protocol.cpp:414-452 | a page decodes to its entries |
| `ChunkPages.TakenInside` | Protocol.cpp:414-436 | what goes into a page fits the buffer |
| `ChunkPages.EncodeFileChunksInfoList` | Protocol.cpp:414-436 | the loop fills a page with the entries that fit, in order |
| `ChunkPages.PutEntry` | Protocol.cpp:429-432 | the ignored result of the encoder is true |
| `ChunkPages.FillPage` | ReceiverThread.cpp:799-813 | a page with its size in front |
| `ChunkPages.SendPages` | ReceiverThread.cpp:796-822 | if every entry fits a page, the loop ends and the sender gets exactly the list |
| `ChunkPages.ReceiveAll` | SenderThread.cpp:568-610 | the reading loop puts any pages together and stops behind the last |
| `ChunkPages.ListArrivesIff` | Protocol.cpp:414-452 | the loop ends and delivers exactly the list if and only if every entry leaves room for itself in a page |
| `ChunkPages.LongNameDoesNotArrive` | Protocol.cpp:414-452 | for every buffer size, a list of one entry that does not arrive |
| `ReceiverStream.CmdExtends` | Protocol.cpp:168-196 | a command that decodes, or is refused from enough bytes, does the same whatever follows it |
| `ReceiverStream.CommandsAreOk` | ReceiverThread.cpp:257-285 | the commands of every version are ones the buffer loop can handle, for any bytes whatsoever |
| `ReceiverStream.WindowDecodes` | ReceiverThread.cpp:260-268 | once the buffer holds enough of a command, it decodes as in the stream |
| `ReceiverStream.ShortIsKnown` | ReceiverThread.cpp:260-268 | the 256 bytes waited for are enough for every command that is not longer |
| `ReceiverStream.TopUpExact` | ReceiverThread.cpp:431-435 | after the read that is to complete a header the buffer is right exactly if the new bytes begin the stale ones and themselves |
| `ReceiverStream.TopUpSafeIff` | ReceiverThread.cpp:431-435 | it is right whatever the buffer held before, if and only if nothing had to be read |
| `SentStream.HeaderIsMisread` | ReceiverThread.cpp:431-449 | if the buffer behind the 256 bytes holds what is left of another header of the same length, the block read is the other one, whatever arrives |
| `SentStream.OtherNameIsRead` | ReceiverThread.cpp:431-449 | for every version, a block of a legal name that is read as one of another legal name |
| `ReceiverBuffers.Connection.TopUpHeader` | ReceiverThread.cpp:431-435 | where that read puts the bytes, and that its check fails exactly if the claimed length does not fit behind what is there |
| `ReceiverBuffers.Connection.ReadAtLeast` | ReceiverThread.cpp:30-61 | the bytes asked for arrive behind those already there, unless the stream ends; its checks are what its callers ask first |
| `ReceiverBuffers.Connection.AwaitCommand` | ReceiverThread.cpp:257-268 | a command is waited for without losing a byte; the check of `readAtLeast` fails exactly if less than 256 bytes are left behind the offset |
| `ReceiverBuffers.Connection.TakeCommand` | ReceiverThread.cpp:270-285 | once the buffer holds enough of it, the command at the offset is the plain parser's, and the offset moves behind it |
| `ReceiverBuffers.Connection.ReadData` | ReceiverThread.cpp:514-580 | the data of a block are the next bytes of the stream, from buffer and socket, with their checksum |
| `ReceiverBuffers.Connection.KeepLeftover` | ReceiverThread.cpp:609-629 | leftover bytes are kept, moved to the front if they are few and far behind |
| `ReceiverBuffers.Connection.ProcessFooter` | ReceiverThread.cpp:630-664 | the block counts only if its footer is there, well-formed and has the checksum of its data |
| `ReceiverBuffers.Connection.ProcessFileCmd` | ReceiverThread.cpp:391-674 | a block command does what the plain parser says |
| `ReceiverBuffers.Connection.ProcessControl` | ReceiverThread.cpp:287-374 | settings, sizes and done commands do what the plain parser says |
| `ReceiverBuffers.Connection.Run` | ReceiverThread.cpp:257-674 | for any bytes, however the socket splits them, the loop yields blocks of the plain parser, all of them and its ending unless it fails; a stream of short commands is never torn, one with room between blocks never trips the check, and before the first block the check fails exactly if the commands in front come within 256 bytes of the end of the buffer |
| `SentStream.SentIsParsed` | SenderThread.cpp:316-480 | whatever settings, sizes and blocks a sender writes, the parser reads those blocks, in order, and the end; lengths and gaps are those of the items |
| `BlockDelivery.Receive` | ReceiverThread.cpp:257-674 | however the socket splits what a sender wrote, the receiver has the first of its blocks, and all of them and the end unless a long command or lack of room stops it |
| `BlockDelivery.OrderlyFits` | SenderThread.cpp:282-296 | settings first and never two sizes in a row always leave room |
| `BlockDelivery.ManySizesHaveNoRoom` | ReceiverThread.cpp:260-262 | for every buffer, a stream of short commands that trips the check before its first block |
| `EncryptedStream.FrameConcat` | util/WdtSocket.cpp:444-523 | how a stream is cut into writes does not change its bytes |
| `EncryptedStream.PrefixArrives` | util/WdtSocket.cpp:254-309 | from any part of the stream the reader gets a prefix of what was written, and all of it from the whole |
| `EncryptedStream.EndsAgree` | util/WdtSocket.cpp:224-309 | after any number of delivered bytes the reader has the writer's total, IV and place in the stream |
| `EncryptedStream.TakeGrows` | util/WdtSocket.cpp:254-309 | what comes in later does not change what was read before |
| `EncryptedStream.IvUseBounded` | util/WdtSocket.cpp:397-421 | no more bytes go through one IV than the larger of tag interval and change interval |
| `EncryptedStream.DefaultsRespectLimit` | WdtOptions.h:358-400 | with the default intervals that is within the plaintext limit of section 5.2.1.1 of NIST SP 800-38D |
| `EncryptedStream.WithoutChangesOneIv` | util/WdtSocket.cpp:397-400 | without IV changes everything goes through the first IV |
| `EncryptedSockets.NextTagIsThere` | util/WdtSocket.cpp:224-234 | the computed offset is where the next tag is due, and none is due before |
| `EncryptedSockets.WritingEnd.constructor` | util/WdtSocket.cpp:100-124 | a new writer has sent nothing |
| `EncryptedSockets.WritingEnd.EncryptAndWrite` | util/WdtSocket.cpp:379-395 | bytes go out encrypted under the current IV |
| `EncryptedSockets.WritingEnd.WriteTagAndChangeIv` | util/WdtSocket.cpp:397-442 | tag and new IV go out as the framing says |
| `EncryptedSockets.WritingEnd.EncryptAndWriteWithTag` | util/WdtSocket.cpp:444-483 | a write of at most an interval puts out its framing |
| `EncryptedSockets.WritingEnd.Write` | util/WdtSocket.cpp:485-523 | so does a write of any size |
| `EncryptedSockets.ReadingEnd.constructor` | util/WdtSocket.cpp:35-98 | a new reader has read nothing |
| `EncryptedSockets.ReadingEnd.ReadAndDecrypt` | util/WdtSocket.cpp:236-252 | a low-level read of any length is decrypted under the current IV |
| `EncryptedSockets.ReadingEnd.ReadTagAndChangeIv` | util/WdtSocket.cpp:171-222 | succeeds only on a right tag and a complete IV, and is then where the framing is behind them |
| `EncryptedSockets.ReadingEnd.ReadAndDecryptWithTag` | util/WdtSocket.cpp:254-309 | a read of at most an interval gives the next bytes of the stream |
| `EncryptedSockets.ReadingEnd.Read` | util/WdtSocket.cpp:311-372 | so does a read of any size, short or not |
| `EncryptedSockets.ReadingEnd.ReadAll` | util/WdtSocket.cpp:311-372 | over any run of arrivals and reads, what is delivered is a prefix of what the arrived bytes stand for |
| `EncryptedSockets.Transfer` | util/WdtSocket.cpp:236-523 | whatever is written, however the network cuts and splits it and however it is read, what is delivered is a prefix of what was written |
| `ReceiverFinish.RunKeepsInv` | ReceiverThread.cpp:916-989 | in every run, aborts included, the threads' checkpoint indices agree with what was said on their connections |
| `ReceiverFinish.DoneOnlyAfterDelivery` | ReceiverThread.cpp:937-950 | a thread is allowed to send DONE only when every published checkpoint was written to its sender and confirmed by a later FILE or DONE command on that connection |
| `ReceiverFinish.DoneOnlyWhenOthersQuiet` | ReceiverThread.cpp:944-949 | at that time another thread is at work if and only if its own DONE has failed and it has not waited since |
| `ReceiverFinish.DoneBesideReader` | ReceiverThread.cpp:885-905 | a run in which such a thread is reading blocks |
| `FileAllocation.StepKeepsInv` | util/FileCreator.cpp:88-168 | every step of every thread keeps statuses, waiting threads and the log consistent |
| `FileAllocation.AllocatedOnceLoggedInOrder` | util/FileCreator.cpp:124-168 | each file's allocation is begun once at most, and the log has a new file's creation before all its blocks |
| `FileAllocation.OneAllocator` | util/FileCreator.cpp:148-154 | no two threads allocate the same file |
| `FileAllocation.OpenOnlyAllocated` | util/FileCreator.cpp:156-168 | nobody opens or writes a file that is not allocated |
| `FileAllocation.SleeperIsNotForgotten` | util/FileCreator.cpp:88-122 | while a thread sleeps, the holder of the mutex, or its allocator if nobody holds it, has a step that wakes it or brings it nearer to waking |
| `FileAllocation.SleeperIsWoken` | util/FileCreator.cpp:88-122 | in every run, at most five steps of these wake whoever sleeps |
| `VersionNegotiation.PickVersion` | SenderThread.cpp:897-912 | the loop finds the common offer, or that two differ |
| `VersionNegotiation.OfferIsSomeones` | SenderThread.cpp:897-912 | there is an offer exactly if some thread was offered a version |
| `VersionNegotiation.StepKeepsInv` | util/ThreadsController.cpp:70-136 | every step keeps barrier, funnel and decision consistent |
| `VersionNegotiation.BarrierOpensExactly` | util/ThreadsController.cpp:104-136 | the barrier is open exactly if each thread has hit it or deregistered |
| `VersionNegotiation.OneLeader` | util/ThreadsController.cpp:70-77 | one thread at most ever leads |
| `VersionNegotiation.CommonVersion` | SenderThread.cpp:913-938 | all threads that go back to work hold the version that was picked |
| `VersionNegotiation.ChecksHold` | SenderThread.cpp:871-883 | no thread meets a failed negotiation, hits an open barrier, or leaves the funnel undecided |
| `VersionNegotiation.LeaderFindsVersion` | SenderThread.cpp:911 | the check for a picked version holds exactly if some thread was offered one, which is so if every offer was acceptable |
| `VersionNegotiation.RefusedOfferLeavesNone` | SenderThread.cpp:853-866 | a run in which it does not hold |
| `Throttling.SleepIsLongEnough` | Throttler.cpp:205-225 | after the sleep the rate allows the progress that was seen |
| `Throttling.AverageRateHolds` | Throttler.cpp:143-155 | in every run the bytes of returned requests never exceed rate times elapsed time |
| `Throttling.TokensBound` | Throttler.cpp:157-166 | truncation forgives a request two bytes at most |
| `Throttling.PeakRateHolds` | Throttler.cpp:157-176 | when the last of any requests charged to the bucket goes on, their bytes are within the peak rate since the start, but for two bytes each |
| `Throttling.Throttler.constructor` | Throttler.cpp:40-67 | no progress at the start |
| `Throttling.Throttler.CalculateSleep` | Throttler.cpp:143-178 | an unregistered transfer is not held up; otherwise the request counts at once and is told how long to sleep, by the average rate first and by the token bucket if that asks for nothing |
| `Throttling.Throttler.TakeTokens` | Throttler.cpp:157-176 | the bucket is filled for the time passed, to its limit, and charged, truncating at each assignment; a debt is slept off |
| `Throttling.Throttler.StartTransfer` | Throttler.cpp:227-242 | the first transfer resets clock, progress and bucket |
| `Throttling.Throttler.Limit` | Throttler.cpp:102-117 | a large request is split into pieces within the limit that add up to it, and each sleeps as the average rate demands of all up to it |

## Left out

- The map of received entries is walked in insertion order, where the program has hash order, and sources that the priority queue does not tell apart are taken in insertion order; no result depends on either except the equality of sequences.
- Checkpoints without sequence ids (protocol versions below 21): the sender trusts them without a check; `CheckpointProtocol` has the receiver of newer versions.
- What is made of a header after a misplaced read, or of settings of which part is missing from the buffer: it depends on stale bytes; `Run` stops there with `Torn`.
- What happens when the check of `readAtLeast` fails, which ends the process: `Run` stops there with `NoRoom`.
- Settings of another protocol version than the receiver's: the loop ends with `OtherVersion`, where the program goes on to negotiate.
- What follows a DONE command or a request for the chunk list in the same stream: whether it is read with the command depends on the socket, and a sender does not send it.
- The check of received path names and the writing of files: they do not affect the buffer loop.
- A read that is repeated after a low-level read failed right behind a consumed tag: the tag would be expected again; a failed low-level read ends the session here.
- `Intervals.RemainingTiles`: for merged chunks within the file, which is what replay lists (`ListingOk`) and what the queue keeps.
- `Messages.EncodeLenBound`: for names below 32 GiB, beyond which a length takes more bytes than the estimate has.
- `VersionNegotiation`, `FileAllocation` and `ReceiverFinish` are step systems rather than classes: the code's objects are shared between threads, and each step is one critical section.
- Finalization tags at the end of an encrypted stream, and the encryption settings in front of it.
- Signed overflow of offset plus block size in a log entry: undefined in the program; such an entry is invalid here.
- Failing system calls on the log, its lock, its writer thread and the parse-only mode.
- The start of the transfer log, before its header is written, and file deletions, in `FileAllocation`.
- `Throttling.Throttler.Limit`: no other thread asks between two pieces, whereas `AverageRateHolds` is about any interleaving; time is a real number and rounding is that of the bucket's integer alone; the conversion of a sleep to clock ticks is not modelled.
- `TransferEnd.DoneMeansReceived`: speaks of the moment at which DONE may be answered, as `LostAtDoneIff` does; a port that breaks off afterwards goes through the protocol again.
- `CheckpointProtocol.CompleteWhenQuiet`: takes the quiet of the transfer for granted; `LostAtDoneIff` says what the answer DONE gives instead.
- `ResumptionRuns.ResumedTransferCompletes`: as above; `ResumedTransferAtDone` is about the answer DONE.
- `FileAllocation.SleeperIsWoken`: those five steps are possible; that the scheduler takes them is not modelled.
- `ReceiverBuffers.Connection.TakeCommand`: says nothing of a command that the buffer does not hold enough of; `Run` stops there with `Torn`.
- `VersionNegotiation.LeaderFindsVersion`: where the check fails the process ends; the model has no step then.
- `SourceQueues.DirectorySourceQueue.SetFileChunksInfo`: takes lists of merged chunks within the file size, which is what replay lists (`ListingOk`).
- `SourceQueues.DirectorySourceQueue.SetPreviouslyReceivedChunks`: as above.
- `SourceQueues.DirectorySourceQueue.IndexChunks`: as above.
- Waiting with timeouts, heart-beats, socket setup, directory walking, real ciphers, statistics reports, URLs, command line, desktop and mobile front ends: input and output, foreign code, or easy.
