# vtop-engine: a verified model of its stateful cores

This project models, in Dafny, the parts of vtop-engine whose correctness is a matter of whole
runs rather than of single calls, and proves what they promise over every run.

| module | what it models |
|---|---|
| `Continuity` | whether a byte position still applies to the file at a path, and the record of which generation each handed-out range was read in |
| `FileSource` | the per-path cursor of the file source, in a world where the file is appended to, truncated, regrown and replaced between reads, late commits and replays |
| `FileCommitted` | whether a file's committed point is the highest byte committed of it |
| `FileDecisions` | when each operation of that cursor acts, told of the world around it |
| `LineReader` | the line-mode read loop and its budgets, and the whole-file read |
| `KafkaAccumulator` | the per-topic demultiplexer of one Kafka poll loop |
| `KafkaPass` | one pass of the Kafka source: sticky assignment, seek on divergence, polling, pausing and cursor advance; its commits and rewinds |
| `KafkaHistory` | whole histories of passes, commits and rewinds |
| `KafkaProgress` | that a pass reads: when its poll loop stops, what it takes, and when its assignment is kept |
| `RetentionLoss` | exactly-once accounting of records retention took before they were read |
| `GroupCommit` | the group-commit coordinator, as threads interleaving step by step |
| `CommittedFloor` | the two-slot committed-floor file: its frames, its handle, one save |
| `FloorDisk` | what that file's bytes read as, and what a completed or interrupted write leaves of them |
| `FloorRuns` | whole runs of opens, saves, failed and interrupted writes, power losses and restarts on that file |
| `FloorOrigins` | where the floors such runs report come from |
| `RetentionStats` | retention statistics under a changing policy, scraped without a lock |
| `Shaping` | the toxiproxy claim, install and remove protocol, several runs at once |
| `Netem` | the netem middlebox install and rollback |
| `RunMatrix` | the order in which a benchmark matrix runs, and when it is refused |

Objects the source mutates are classes, each method proved against a function of the old state;
the runs are state machines over the same functions, and the theorems are about those runs.
`dafny verify dfyconfig.toml` checks everything.

Assumptions, each a parameter or a hypothesis of the statements that need it: a change of file that
no stat can tell from the file already read is excluded (`FileSource.Detectable`), commits find their
range on record and replays name ranges of the adopted file (the same module); while a read has the file
open the file only grows, so it is not truncated between the read's first stat of it and its last;
Kafka's assign and seek succeed, a partition's offsets increase, gaps allowed, its log is fixed, so
retention takes no record before it is first read nor between a hand-out and its re-read after a rewind
(what it does take is the subject of `RetentionLoss`), and the group's stored offset of a partition
nothing was read of resolves to the same offset at every assignment (a reset to the latest offset of a
group that never committed does not); a flush returns one frame per member;
a hash is 32 bytes wide; an interrupted frame write leaves the other slot's bytes as they were, and in its
own slot the old frame, the new one, or none that validates; toxiproxy refuses a name in use, and a request acts when it is sent or not at all; a `tc`
command that fails has no effect; a scenario's row does not depend on when it runs.

Where the code does less than its comments say, the model follows the code and the exact condition
is proved:

- Delete-after-commit destroys unread bytes exactly when the file at the path is no longer the one
  the cursor adopted; a file regrown to the committed range's end is such a one
  (`FileSource.DeletionLosesNothingExactlyWhenJudged`, `FileSource.RegrownFileIsDeletedUnread`).
- A rewind is noted with the byte it went to and holds while the head is there; a read of a new file that
  takes nothing leaves the head there too, and the position is then reported for the old file
  (`FileSource.PositionAnswersForItsFileExactlyWhen`, `FileSource.EmptyReadKeepsTheOldRewind`).
- A file's committed point is called its highest byte committed; a batch that overlaps an earlier one, read
  after a replay and committed last, takes it back
  (`FileCommitted.CommittedIsHighestExactlyWhenInOrder`, `FileCommitted.OverlappingBatchesTakeItBack`).
- A Kafka commit that arrives between a rewind and the next read moves the cursor over what was to be read
  again (`KafkaHistory.CommitSkipsNothingExactlyWhenQuiet`, `KafkaHistory.RewindThenCommit`); what it
  moves over was handed out before, if the commit names a handed-out range
  (`KafkaHistory.NothingIsEverSkipped`).
- A cursor that moves back hides retention loss below the bookmark
  (`RetentionLoss.LedgerMissesNothingExactlyWhen`, `RetentionLoss.PassesCanMissLoss`).
- A floor file reopened after a failed sync, before the machine goes down, may show a frame that was
  never durable; the next save then aims at the frame that was, and a crash in it loses a floor
  already acknowledged (`FloorRuns.UnsafeOpenCanRegress`); waiting for the machine to go down avoids it
  (`FloorRuns.FloorNeverRegressesAcrossReboots`).
- A floor file that cannot be read opens as absent, as its comments say, and the next save writes the first
  slot whatever floor stands there (`FloorRuns.BlindOpenIsSafeExactlyWhen`, `FloorRuns.BlindOpenCanLoseAFloor`).
- Setting a short floor file to its full length can complete a partial frame whose checksum ends in zeros
  (`CommittedFloor.SaveMatchesReopeningExactlyWhen`, `CommittedFloor.PartialFrameComesToLight`), and such a
  frame is then reported though nobody asked for it (`FloorOrigins.LatentFloorIsReported`).
- A retention scrape during which the policy changes can pair one policy's bound with another's size
  (`RetentionStats.ScrapeOfOnePolicy`, `RetentionStats.ChangeMidScrapeCanMix`), and one during which a pass
  records can pair one pass's size with another's blocked state (`RetentionStats.SizeAndBlockedOfOnePass`,
  `RetentionStats.PassMidScrapeCanMix`).
- `clear` of a toxiproxy run tries the lock even after another removal failed, so the claim does not
  always outlive the toxics; the next run's check still refuses them
  (`Shaping.LeftoversStayClaimedExactlyWhen`, `Shaping.LeftoverRefusesTheNextRun`).
- A netem probe that fails is read as a clean interface, kinds that look like the kernel's default are
  not seen, and a runner that raises is not rolled back
  (`Netem.RefusalRestoresExactlyWhen`, `Netem.BrokenApplyStaysClaimed`).

## Model

| member | source | states |
|---|---|---|
| `FileSource.HeadNeverSkips` | crates/vtop-adapters/src/file_source.rs:239-289 | over every run of appends, detectable replacements and truncations, good and failed reads, skips, commits on record and replays: every byte of the adopted file below the read head was handed out since the cursor adopted that file |
| `FileSource.CommittedNeverPassesHead` | crates/vtop-adapters/src/file_source.rs:944-1011 | over every run, with no hypothesis on commits or replays, the committed point never passes the read head |
| `FileCommitted.CommittedIsHighestExactlyWhenInOrder` | crates/vtop-adapters/src/file_source.rs:21-25 | over every run, hypotheses or not, the committed point is at all times the highest byte committed since the cursor last started over if and only if no commit taken ends below the committed point of its time |
| `FileCommitted.CommittedMovesBackExactlyWhen` | crates/vtop-adapters/src/file_source.rs:944-1011 | in any state, the committed point moves back if and only if the cursor starts over past a commit (a read judged another file, or the file was deleted) or a commit is taken that ends below it |
| `FileCommitted.OverlappingBatchesTakeItBack` | crates/vtop-adapters/src/file_source.rs:944-1011 | a concrete admissible run on one unchanged file: two replays make batches overlap, and committing them out of the order of their ends takes the committed point from 20 to 15 |
| `FileSource.NextReadSkipsNothingExactlyWhenJudged` | crates/vtop-adapters/src/file_source.rs:301-337 | the next read leaves no byte of the file at the path unread behind it if and only if that file is the adopted one, or the discontinuity judgement restarts the read, or the head is at byte 0 |
| `FileSource.AdoptedFileIsNeverRestarted` | crates/vtop-adapters/src/continuity.rs:79-104 | the judgement is never spurious: the file the cursor has adopted is never re-read from byte 0 |
| `FileSource.NoLiveRecordAheadOfHead` | crates/vtop-adapters/src/file_source.rs:1049-1100 | no record of the current generation names bytes still to be handed out, so a range a replay makes the reads repeat is on record once |
| `FileSource.DeletionLosesNothingExactlyWhenJudged` | crates/vtop-adapters/src/file_source.rs:1013-1047 | after every admissible run, where a stat can tell the adopted file from another, a commit that deletes the file destroys no unread byte if and only if the continuity check of the file its second stat finds reports nothing, or that file is empty |
| `FileSource.DeletionLosesNothingExactlyWhenAdopted` | crates/vtop-adapters/src/file_source.rs:1013-1047 | the same in terms of the history: if and only if the file about to be deleted is the one the cursor adopted, or empty; a path replaced between the commit's two stats included |
| `FileSource.RegrownFileIsDeletedUnread` | crates/vtop-adapters/src/file_source.rs:1013-1047 | a concrete run in which the condition fails: a file truncated and regrown to exactly the range's end is deleted unread |
| `FileSource.SkipIsAStutter` | crates/vtop-adapters/src/file_source.rs:150-176 | where the stat-before-read shortcut applies, either read mode finds no discontinuity, returns nothing, ends where it started and leaves the whole cursor as it was |
| `FileSource.RecoveryCommitRestartsAtItsEnd` | crates/vtop-adapters/src/file_source.rs:944-1011 | a commit with no record behind it moves the cursor exactly when its range lies in the file and no identity contradicts it; the head then restarts there and is judged by what the batch saw |
| `FileSource.RunKeepsInv` | crates/vtop-adapters/src/file_source.rs:239-289 | every admissible run keeps the invariant tying head, committed point, observed identity and generation records to the file's history |
| `FileSource.Source.ApplySlice` | crates/vtop-adapters/src/file_source.rs:239-268 | folding a read changes the cursor of its own path only, as the cursor function the runs use says |
| `FileSource.Source.ApplyFailedRead` | crates/vtop-adapters/src/file_source.rs:274-289 | a failed read changes the cursor only if the file had already been judged discontinuous, and then restarts it |
| `FileSource.Source.CommitProgress` | crates/vtop-adapters/src/file_source.rs:944-1047 | a commit's whole effect on the map of cursors, judged by the first stat, and its deletion, judged by the second |
| `FileSource.Source.ReplayFromMarker` | crates/vtop-adapters/src/file_source.rs:1049-1100 | a replay is refused exactly on an identity or length contradiction, and otherwise rewinds no lower than the committed point and notes which file it rewound in |
| `FileSource.PositionAnswersForItsFileExactlyWhen` | crates/vtop-adapters/src/file_source.rs:1109-1127 | after every admissible run the cursor reports its position for markers of exactly the file that position is in, if and only if no rewind noted at the same byte has outlived its file |
| `FileSource.EmptyReadKeepsTheOldRewind` | crates/vtop-adapters/src/file_source.rs:1109-1127 | a concrete run in which one has: rewound to byte 0, replaced, and read without taking anything yet, the cursor answers for the old file and not for the one it is in |
| `FileDecisions.DeletesExactlyWhen` | crates/vtop-adapters/src/file_source.rs:1015-1047 | a commit deletes the file if and only if deletion is on and the removal works, the commit is taken for the file the first stat finds, and the second stat finds a file of the very inode the batch names, no longer than the range's end |
| `FileDecisions.ReplacementIsKept` | crates/vtop-adapters/src/file_source.rs:1015-1047 | a file of another inode put at the path between the two stats is never deleted, and stays as it is |
| `FileDecisions.DeletionForgetsTheCursor` | crates/vtop-adapters/src/file_source.rs:1038-1044 | a deletion leaves nothing of the cursor, which a new file under the freed inode could otherwise inherit |
| `FileDecisions.CommitIsTakenExactlyWhen` | crates/vtop-adapters/src/file_source.rs:944-1011 | a commit moves the committed point, to its end, if and only if its range was not read before a discontinuity, lies within the file, and no inode contradicts it; one on record takes the head along only if it is behind, and a commit not taken changes the record of its range alone |
| `FileDecisions.ReplayRewindsExactlyWhen` | crates/vtop-adapters/src/file_source.rs:1049-1102 | a replay changes nothing at all if the file at the path is known to be another, is shorter than when the range was read, or ends before the range; otherwise the head goes to the range's start or the committed point, whichever is higher, the rewind is noted for that file, and exactly the records from there on are forgotten |
| `FileDecisions.ReadStartsOverExactlyWhen` | crates/vtop-adapters/src/file_source.rs:301-337 | a read starts at byte 0 if and only if the file is known to be another than the one last seen, or is shorter than it was then, or than the position |
| `FileDecisions.FailedReadRemembersItsJudgement` | crates/vtop-adapters/src/file_source.rs:274-289 | after a read that judged the file and then failed, the next read starts at byte 0 however much the file has grown meanwhile |
| `FileDecisions.ReadPutsItsRangeOnRecord` | crates/vtop-adapters/src/file_source.rs:239-272 | what a read takes starts where the judgement says and is put on record in the generation it leaves the cursor in |
| `FileDecisions.SkippedExactlyWhen` | crates/vtop-adapters/src/file_source.rs:150-175 | a read is skipped if and only if the stat is the one last seen, its modification time known, and all of the file is read |
| `Continuity.SettleIsTruthful` | crates/vtop-adapters/src/continuity.rs:214-234 | over any history, a commit settles as current only if exactly its range was handed out after the latest discontinuity, and as stale only if it was handed out before one |
| `Continuity.HistoryInvariant` | crates/vtop-adapters/src/continuity.rs:172-234 | over any history, records stay ordered by generation, never exceed 256, and records and settlements together never exceed what was issued |
| `Continuity.SettledAtMostOnce` | crates/vtop-adapters/src/continuity.rs:214-234 | no hand-out is ever settled more often than it was made |
| `Continuity.SettleRemovesExactly` | crates/vtop-adapters/src/continuity.rs:214-234 | settling removes the match and the earlier records of the match's own generation, and nothing else |
| `Continuity.OlderRangeIsJudgedStale` | crates/vtop-adapters/src/continuity.rs:172-234 | a range of an older generation still on record after a newer one settles is judged stale when its commit comes |
| `Continuity.HandedOutStaysOnRecord` | crates/vtop-adapters/src/continuity.rs:159-240 | over any history, the commit of a handed-out range finds a record as long as fewer than 256 more ranges are handed out, no replay goes to or below its start, and no commit named it or a range handed out after it |
| `Continuity.JudgedExactlyWhen` | crates/vtop-adapters/src/continuity.rs:79-104 | a position is judged not to apply if and only if the file is shorter than it, or than when last seen, or known to be another |
| `Continuity.CurrentExactlyWhen` | crates/vtop-adapters/src/continuity.rs:115-130 | a commit is for the file at the path if and only if the file holds its range and no inode contradicts it |
| `Continuity.RetainOthers` | crates/vtop-adapters/src/continuity.rs:222-227 | the counting retain pass keeps exactly the records after the match and those before it of other generations |
| `Continuity.Generations.Discontinuity` | crates/vtop-adapters/src/continuity.rs:175-177 | moves the generation and leaves the records alone |
| `Continuity.Generations.IssueRange` | crates/vtop-adapters/src/continuity.rs:180-192 | records a non-empty range under the present generation, evicting the oldest of 256 |
| `Continuity.Generations.ForgetFrom` | crates/vtop-adapters/src/continuity.rs:195-197 | drops the records starting at or after a position |
| `Continuity.Generations.SettleRange` | crates/vtop-adapters/src/continuity.rs:214-234 | answers for the oldest record of the range, and its effect on the records |
| `LineReader.ReadsCatchUp` | crates/vtop-adapters/src/file_source.rs:390-444 | once a file stops growing, as many reads as lines remain, under any budgets each line fits, return together the one-shot split of the newline-terminated prefix |
| `LineReader.ReadsFormAPrefixOfTheSplit` | crates/vtop-adapters/src/file_source.rs:390-444 | whatever the budgets and however the file grows between reads, what was handed out is a prefix of the one-shot split and byte-exact with the bytes passed |
| `LineReader.ReadIsExact` | crates/vtop-adapters/src/file_source.rs:390-444 | one read's records are the lines of its byte range, byte-exact once re-framed, within both budgets, without a partial tail, and maximal |
| `LineReader.RefusedExactlyWhenTooLong` | crates/vtop-adapters/src/file_source.rs:390-444 | a read is refused if and only if both budgets are positive and the next record, line or unterminated tail, is longer than the byte budget |
| `LineReader.ReadProgresses` | crates/vtop-adapters/src/file_source.rs:390-444 | a read with positive budgets advances whenever a complete line that fits remains |
| `LineReader.FrameOfLines` | crates/vtop-adapters/src/file_source.rs:390-444 | putting newlines back after the split lines gives the terminated bytes again |
| `LineReader.LinesSplit` | crates/vtop-adapters/src/file_source.rs:390-444 | the one-shot split of a stretch is the splits of its two parts at any line boundary |
| `LineReader.ReadLines` | crates/vtop-adapters/src/file_source.rs:390-444 | the loop over lines computes the specified read |
| `LineReader.WholeReadsAreTheFile` | crates/vtop-adapters/src/file_source.rs:352-386 | whatever the budgets and however the file grows, successive whole-file reads archive the file's own bytes in order, none twice, and all of them once the last read fits what it finds |
| `LineReader.WholeReadIsAllOrNothing` | crates/vtop-adapters/src/file_source.rs:352-386 | a whole-file read is refused if and only if what remains exceeds the budget, and otherwise takes all of it as one record |
| `KafkaAccumulator.TopicHoldsItsPrefix` | crates/vtop-adapters/src/kafka_source.rs:243-275 | over every interleaving of pushes and failures, a topic that did not fail holds exactly the kept prefix of what was pushed to it, by partition, and is full exactly when it stopped or reached a budget; a failed one holds nothing |
| `KafkaAccumulator.KeptCountIsTheLongest` | crates/vtop-adapters/src/kafka_source.rs:243-275 | that prefix is the longest one within both budgets of which no shorter one had reached a budget |
| `KafkaAccumulator.EmptyPayloadIsTurnedAway` | crates/vtop-adapters/src/kafka_source.rs:243-275 | it is not the longest within the budgets: once bytes are used up, a message without payload is turned away too |
| `KafkaAccumulator.TopicsDoNotInterfere` | crates/vtop-adapters/src/kafka_source.rs:228-334 | what is accumulated for one topic equals the accumulator run on that topic's events alone |
| `KafkaAccumulator.KeptRangeIsContiguous` | crates/vtop-adapters/src/kafka_source.rs:243-275 | consecutive deliveries leave a contiguous kept offset range per partition |
| `KafkaAccumulator.CountersStayConsistent` | crates/vtop-adapters/src/kafka_source.rs:243-314 | over every run, per-topic usage, totals and the count of full topics equal their values recomputed from what is held, within both budgets |
| `KafkaAccumulator.PushKeepsConsistent` | crates/vtop-adapters/src/kafka_source.rs:243-275 | one push keeps the counters equal to what they count |
| `KafkaAccumulator.FailKeepsConsistent` | crates/vtop-adapters/src/kafka_source.rs:296-314 | a topic's failure keeps the counters equal to what they count |
| `KafkaAccumulator.MultiTopicAcc.constructor` | crates/vtop-adapters/src/kafka_source.rs:229-239 | an accumulator starts with nothing held |
| `KafkaAccumulator.MultiTopicAcc.PushMessage` | crates/vtop-adapters/src/kafka_source.rs:243-275 | a push keeps the message or marks its topic full, and says which |
| `KafkaAccumulator.MultiTopicAcc.FailTopic` | crates/vtop-adapters/src/kafka_source.rs:296-314 | a failed topic gives up all it held and counts as full once |
| `KafkaHistory.NothingIsEverSkipped` | crates/vtop-adapters/src/kafka_source.rs:784-1303 | over any history of passes with rejections, oversized records, poll errors and re-assignments, commits and rewinds that name ranges handed out by this process or one before it: every record from the stored offset to the next offset to read has been handed out at some time |
| `KafkaHistory.HandedOutIsTheLog` | crates/vtop-adapters/src/kafka_source.rs:784-1210 | over any history whose commits are quiet, what a partition handed out since its last rewind or first start is exactly its log up to the next offset, none skipped, none repeated |
| `KafkaHistory.CommitSkipsNothingExactlyWhenQuiet` | crates/vtop-adapters/src/kafka_source.rs:1162-1210 | a commit keeps that so if and only if something was read since the last rewind, or nothing ever was, or no record lies between the cursor's offset and the commit's |
| `KafkaHistory.RewindThenCommit` | crates/vtop-adapters/src/kafka_source.rs:1162-1303 | after any history, a batch of the adapter's own group that is rewound and then commits makes the next read start past it with nothing handed out since the rewind, and that skips nothing if and only if the log holds no record between where the rewind went and there |
| `KafkaHistory.CommitAfterARewindSkips` | crates/vtop-adapters/src/kafka_source.rs:1201-1202 | a concrete history for which it fails: the adapter is given a rewind to 0 and a commit up to 1 of a log of 0, 1 and 2, and its next read starts at 2 |
| `KafkaHistory.TaleIsTrue` | crates/vtop-adapters/src/kafka_source.rs:745-1303 | the adapter's cursor of a partition is the one its results, commits and rewinds alone tell of, and each result holds the log from where that cursor stood |
| `KafkaHistory.PassEffect` | crates/vtop-adapters/src/kafka_source.rs:1083-1099 | a pass leaves each cursor past exactly what it handed out, and a failed pass leaves all where they were |
| `KafkaHistory.PollStartsWhereTheCursorIs` | crates/vtop-adapters/src/kafka_source.rs:784-938 | once a pass has settled its assignment the consumer stands at the offset the cursor wants and holds nothing paused, for every partition of the pass |
| `KafkaHistory.UnreadPartitionHasNothingDelivered` | crates/vtop-adapters/src/kafka_source.rs:784-938 | a never-read partition on a retained assignment still stands at the stored offset and has handed out nothing |
| `KafkaHistory.DeadAssignmentIsRetried` | crates/vtop-adapters/src/kafka_source.rs:1059-1122 | a pass that kept nothing and leaves a partition unread drops the assignment, so the next pass assigns afresh |
| `KafkaHistory.ResultsNameTheirRecords` | crates/vtop-adapters/src/kafka_source.rs:1083-1122 | a result's offsets and records are the log's, from where the cursor stood; a source that failed on its own gets none |
| `KafkaHistory.RewindNeverBelowFrontier` | crates/vtop-adapters/src/kafka_source.rs:1224-1303 | a rewind lands at the asked offset or the committed frontier, whichever is higher, the frontier being the higher of the broker's and the process's; another group's range moves nothing |
| `KafkaHistory.RunKeepsInv` | crates/vtop-adapters/src/kafka_source.rs:784-1122 | every history keeps a retained assignment in step with the consumer and its pauses on record |
| `KafkaProgress.PassTakesAllItCan` | crates/vtop-adapters/src/kafka_source.rs:959-1058 | of every partition whose source is not full at its end, a pass that does not fail hands out exactly as many records as it was polled for, or all the log has from the cursor on if that is fewer |
| `KafkaProgress.FullOnlyForAReason` | crates/vtop-adapters/src/kafka_source.rs:243-314 | a source is full at the end of a pass only if a record of its own exceeds the byte budget, or what it kept reaches a budget, or a record of its own would not fit beside what it kept |
| `KafkaProgress.FirstRecordIsHandedOut` | crates/vtop-adapters/src/kafka_source.rs:959-1058 | a pass polled first for a partition with a fitting record at its next offset hands that record out, for any assigned sources and any record budget, unless the pass or that source fails |
| `KafkaProgress.PollsStopExactlyWhen` | crates/vtop-adapters/src/kafka_source.rs:316-322 | the poll loop uses its polls one by one and stops at the first state in which a poll has failed or as many topics are full as are assigned, and nowhere before |
| `KafkaProgress.PassFailsExactlyWhen` | crates/vtop-adapters/src/kafka_source.rs:1034-1045 | a pass fails if and only if one of the polls it used does, and leaves polls unused only then or when as many topics are full as are assigned |
| `KafkaProgress.OversizedFailsItsSource` | crates/vtop-adapters/src/kafka_source.rs:988-1004 | a record fails a source if and only if it is its own and larger than the byte budget |
| `KafkaProgress.StoppedExactlyWhenFull` | crates/vtop-adapters/src/kafka_source.rs:1018-1032 | through any polls the topics stopped are exactly those that are full |
| `KafkaProgress.FullTopicsArePaused` | crates/vtop-adapters/src/kafka_source.rs:1018-1032 | and all their partitions are paused, if pausing works |
| `KafkaProgress.AssignmentIsKeptExactlyWhen` | crates/vtop-adapters/src/kafka_source.rs:1059-1084 | a pass that does not fail keeps its assignment if and only if it leaves the consumer where the cursors want it and did not come away with nothing while partitions at the stored offset are pending; else it drops it |
| `KafkaProgress.FreshAssignmentPends` | crates/vtop-adapters/src/kafka_source.rs:884-912 | a fresh assignment has pending exactly the partitions with nothing read or committed, and nothing paused |
| `KafkaProgress.RetainedAssignmentStands` | crates/vtop-adapters/src/kafka_source.rs:913-938 | an unchanged assignment is not made anew: what is pending stays pending and no cursor moves |
| `KafkaProgress.AssignedAreCounted` | crates/vtop-adapters/src/kafka_source.rs:784-830 | the metadata phase counts exactly the sources that contribute a partition |
| `KafkaProgress.AssignedAreActive` | crates/vtop-adapters/src/kafka_source.rs:784-830 | which for distinct sources is as many as the pass has partitions of, so that no pass stops while a source it can read is not full |
| `KafkaPass.SettleAligns` | crates/vtop-adapters/src/kafka_source.rs:784-938 | settling leaves cursors alone and puts every consumer position where its cursor wants it |
| `KafkaPass.SettleResumes` | crates/vtop-adapters/src/kafka_source.rs:877-924 | no partition of a pass is left paused by an earlier pass, failed or not |
| `KafkaPass.PollAllKeepsInv` | crates/vtop-adapters/src/kafka_source.rs:959-1058 | through any polls each partition's kept records continue the log, or its topic is full and a re-assignment is due |
| `KafkaPass.FailedTopicKeepsNothing` | crates/vtop-adapters/src/kafka_source.rs:993-1010 | through any polls a source that failed on its own keeps nothing, whatever of it is delivered afterwards |
| `KafkaPass.KafkaSource.SettleAssignment` | crates/vtop-adapters/src/kafka_source.rs:876-938 | assigns afresh exactly when the partition set changed, else resumes what was paused and seeks the diverged |
| `KafkaPass.KafkaSource.SeekDiverged` | crates/vtop-adapters/src/kafka_source.rs:924-938 | the seeking loop moves exactly the partitions whose delivery head diverged |
| `KafkaPass.KafkaSource.ReadSources` | crates/vtop-adapters/src/kafka_source.rs:745-1159 | a whole pass from the broker's metadata on: the metadata loop resolves what to read, a source it fails for is reported failed and the rest is read, and the effect is the pass the histories are made of |
| `KafkaPass.ResolveIsolatesFailures` | crates/vtop-adapters/src/kafka_source.rs:770-830 | a metadata failure costs its own source only: a partition is wanted exactly when some source's answer lists it, a source is failed exactly when it has no answer, and none counts as assigned exactly when nothing is wanted |
| `KafkaPass.KafkaSource.ReadAll` | crates/vtop-adapters/src/kafka_source.rs:859-1122 | the pass after its metadata phase, its poll loop, pauses and per-source failures included, is the pass the histories are made of |
| `KafkaPass.KafkaSource.ClosePass` | crates/vtop-adapters/src/kafka_source.rs:1059-1122 | closing a pass advances cursors over kept records only |
| `KafkaPass.KafkaSource.CommitProgress` | crates/vtop-adapters/src/kafka_source.rs:1162-1210 | a commit records the next offset for its partition alone; another group's range is refused, and neither that nor a commit the broker turns down moves anything |
| `KafkaPass.KafkaSource.ReplayFrom` | crates/vtop-adapters/src/kafka_source.rs:1224-1303 | a replay restarts the partition at the clamped offset, and leaves it alone for another group's range |
| `RetentionLoss.CounterCountsEachOffsetOnce` | crates/vtop-adapters/src/kafka_source.rs:90-133 | over any observations, watermarks that move back included, the offsets fed to the loss counter lie in observed gaps and each is counted once |
| `RetentionLoss.CounterMissesNothing` | crates/vtop-adapters/src/kafka_source.rs:120-133 | when the next offset never moves back, the counter is exactly the number of distinct offsets ever seen to be gone |
| `RetentionLoss.CounterMissesNothingExactlyWhen` | crates/vtop-adapters/src/kafka_source.rs:120-133 | over any observations, the counter misses nothing if and only if each gap, where it lies below the bookmark of its time, had been seen gone before |
| `RetentionLoss.GapExactlyWhen` | crates/vtop-adapters/src/kafka_source.rs:90-118 | there is a gap if and only if offsets from the next one on are gone, and it is as long as they are many |
| `RetentionLoss.NextIsCountedExactlyWhen` | crates/vtop-adapters/src/kafka_source.rs:120-133 | the step of that: from a counter that missed nothing, the next observation is counted in full exactly then |
| `RetentionLoss.MovingBackHidesLoss` | crates/vtop-adapters/src/kafka_source.rs:120-133 | a concrete pair of observations in which a rewound cursor hides loss |
| `RetentionLoss.LossIsConserved` | crates/vtop-adapters/src/kafka_source.rs:471-567 | per topic, loss delivered plus loss pending is all loss ever counted, over failed, successful and empty passes and pruning |
| `RetentionLoss.LedgerMissesNothingExactlyWhen` | crates/vtop-adapters/src/kafka_source.rs:471-657 | over every history, what is counted of a topic, delivered or still owed, is at most the number of distinct offsets seen to be gone, summed over its partitions and the lives pruning gave them; and it is all of them if and only if in no life of any partition a gap reached below the bookmark of its time into offsets not seen gone before |
| `RetentionLoss.PassesCanMissLoss` | crates/vtop-adapters/src/kafka_source.rs:120-133 | two reporting passes for which it is not: the next offset moves back under an unchanged low watermark, every offset from there on is seen gone, and those before the first next offset are never counted |
| `RetentionLoss.LedgerCountsEachOffsetOnce` | crates/vtop-adapters/src/kafka_source.rs:471-567 | that count is the number of distinct offsets counted, summed over the topic's partitions and lives: no offset of a life is counted twice |
| `RetentionLoss.LedgerFollowsEachPartition` | crates/vtop-adapters/src/kafka_source.rs:471-551 | the ledger's bookmark of a partition is the one that partition's own observations give |
| `RetentionLoss.CheckOwesNewOffsets` | crates/vtop-adapters/src/kafka_source.rs:471-551 | what a check owes for a partition is the number of offsets it adds to those counted of it before |
| `RetentionLoss.RetentionLedger.ReportGaps` | crates/vtop-adapters/src/kafka_source.rs:471-551 | a check's whole effect on bookmarks and pending counts |
| `RetentionLoss.RetentionLedger.RecordWatermarks` | crates/vtop-adapters/src/kafka_source.rs:517-550 | bookmarks move up to the watermarks just reported |
| `RetentionLoss.RetentionLedger.TakePending` | crates/vtop-adapters/src/kafka_source.rs:559-567 | a report takes all pending counts and leaves none |
| `RetentionLoss.RetentionLedger.PruneDeadTopics` | crates/vtop-adapters/src/kafka_source.rs:637-657 | pruning drops the bookmarks of dead topics, and not what is still owed for them |
| `GroupCommit.OneLeader` | crates/vtop-broker/src/group_commit.rs:269-353 | in every interleaving at most one thread leads, the flag says exactly whether one does, a non-empty queue always has one, and the queue never exceeds its limit |
| `GroupCommit.NoEmptyGroupIsSealed` | crates/vtop-broker/src/group_commit.rs:309-318 | the leader's empty-group resignation is unreachable |
| `GroupCommit.ReplyIsItsOwn` | crates/vtop-broker/src/group_commit.rs:191-222 | a producer that got a frame got the one the flush returned at its own request's place in the group that held it |
| `GroupCommit.FlushedOnceInOrder` | crates/vtop-broker/src/group_commit.rs:304-353 | the flushed groups concatenate to the accepted requests in arrival order, each once; every group is one request or within both limits; counters total the groups' requests, records, bytes and durations |
| `GroupCommit.RefusedIsNeverFlushed` | crates/vtop-broker/src/group_commit.rs:280-287 | a producer refused at a full queue is in no group and not queued |
| `GroupCommit.RefusedExactlyWhenFull` | crates/vtop-broker/src/group_commit.rs:274-297 | in every reachable state a request is refused if and only if the queue is full, and then changes nothing else; any other joins the end of the queue, and leads if and only if nobody does |
| `GroupCommit.AcceptedAreThoseThatFoundRoom` | crates/vtop-broker/src/group_commit.rs:274-297 | over every run the accepted requests are exactly those that found room on arrival, in arrival order |
| `GroupCommit.SealTakesTheGroup` | crates/vtop-broker/src/group_commit.rs:428-460 | a leader that seals takes a good group off the front of the queue, and stops at the first limit reached and not before |
| `GroupCommit.NobodyIsForgotten` | crates/vtop-broker/src/group_commit.rs:341-351 | whenever no flush is running every accepted request was flushed and its producer has, or finds waiting, exactly its frame |
| `GroupCommit.GroupIsGood` | crates/vtop-broker/src/group_commit.rs:428-453 | a group is non-empty, single or within both limits, stops only at the queue's end, at a limit reached or before a request that would exceed one, and no shorter group would have reached a limit |
| `GroupCommit.RoundsAreBounded` | crates/vtop-broker/src/group_commit.rs:304-353 | with no further arrivals the leader makes at most as many rounds as requests are queued, in a bounded number of steps |
| `GroupCommit.LeaderIsNeverStuck` | crates/vtop-broker/src/group_commit.rs:304-353 | while a flush is running the leader always has a step to take |
| `GroupCommit.StepKeepsInv` | crates/vtop-broker/src/group_commit.rs:269-353 | every step of every thread keeps the protocol's invariant |
| `GroupCommit.Coordinator.constructor` | crates/vtop-broker/src/group_commit.rs:244-255 | a coordinator starts idle and empty |
| `GroupCommit.Coordinator.Enqueue` | crates/vtop-broker/src/group_commit.rs:274-297 | the locked section refuses, leads or follows as the protocol step does |
| `GroupCommit.Coordinator.CollectGroup` | crates/vtop-broker/src/group_commit.rs:428-460 | the taking loop removes exactly the group from the front of the queue, and a group of several is never put down to a single request |
| `GroupCommit.Coordinator.EndRound` | crates/vtop-broker/src/group_commit.rs:341-351 | resigns exactly when nobody waits |
| `GroupCommit.Coordinator.RecordGroup` | crates/vtop-broker/src/group_commit.rs:89-108 | adds one sample to every counter, its two durations included, and keeps it, with why the group was sealed, as the last |
| `FloorRuns.FloorNeverRegressesAcrossReboots` | crates/vtop-broker/src/committed_floor.rs:145-233 | from any file, byte for byte, over every run of saves, failed writes, crashes in a write, power losses, restarts and opens, readable or not: if a failed save is followed by the machine going down before the next open, and no file is opened unreadable once a floor above zero was reported, no open and no acknowledged save reports less than one before it |
| `FloorRuns.FloorNeverRegresses` | crates/vtop-broker/src/committed_floor.rs:145-233 | the same over every run whose opens are safe: an open finds no less than was reported, in a frame the disk itself holds, no lower |
| `FloorRuns.UnsafeOpenCanRegress` | crates/vtop-broker/src/committed_floor.rs:145-169 | safe opens are exactly the condition: from any state kept so far, any other open reports less itself, or one crash in the next save makes a later open do so |
| `FloorRuns.BlindOpenIsSafeExactlyWhen` | crates/vtop-broker/src/committed_floor.rs:145-169 | an open of a file that cannot be read keeps reports ascending if and only if none was above zero |
| `FloorRuns.BlindOpenCanLoseAFloor` | crates/vtop-broker/src/committed_floor.rs:145-169 | for any two floors, a run in which one such open reports zero and the lower floor, saved next, replaces the higher for good |
| `FloorRuns.ReopeningAfterAFailedSyncCanLoseAnAcknowledgedFloor` | crates/vtop-broker/src/committed_floor.rs:181-233 | for any three ascending floors, a run with an open after a failed sync in which a floor acknowledged by a successful save is lost |
| `FloorRuns.CarefulOpenIsSafe` | crates/vtop-broker/src/committed_floor.rs:273-295 | an open that reads what the disk durably holds, as any after the machine went down does, is safe, and so is a blind one before any floor was reported |
| `FloorRuns.RunKeepsInv` | crates/vtop-broker/src/committed_floor.rs:145-233 | every event keeps the last floor reported in the slot that is not written next, on disk and cached |
| `FloorRuns.AcknowledgedExactlyWhen` | crates/vtop-broker/src/committed_floor.rs:181-207 | a save is acknowledged if and only if no save of the handle failed and the floor is no lower than the last; it is written if and only if it is higher, and then reads back from disk and cache; any other leaves the file and the handle alone |
| `FloorRuns.FailedSavePoisons` | crates/vtop-broker/src/committed_floor.rs:181-207 | after a failed save any number of saves of the same handle are refused and change nothing |
| `FloorRuns.TornExactlyWhenNoThirdFrame` | crates/vtop-broker/src/committed_floor.rs:209-233 | what the runs assume of an interrupted write is exactly that the bytes left in its slot are not the frame, checksum and all, of some third floor |
| `FloorOrigins.NoFloorIsInvented` | crates/vtop-broker/src/committed_floor.rs:209-316 | from any file, over every run, safe or not, a reported floor is zero, was asked of a save, or is a frame of the file zero-extended to its full length |
| `FloorOrigins.NoFloorIsInventedFromAPlainFile` | crates/vtop-broker/src/committed_floor.rs:209-316 | if zero-extending the file brings no floor to light, a reported floor is zero, was asked of a save, or was read in the file |
| `FloorOrigins.LatentFloorIsReported` | crates/vtop-broker/src/committed_floor.rs:209-316 | and only then: from any other file some run reports a floor that was neither asked for nor read in it |
| `FloorOrigins.WholeFramesArePlain` | crates/vtop-broker/src/committed_floor.rs:209-233 | an absent file, a file of whole frames and one of full length are all such files |
| `FloorDisk.DiskIsLawful` | crates/vtop-broker/src/committed_floor.rs:209-233 | the bytes obey what the runs use of them: a completed save reads back and leaves the other slot as the zero-extended file had it, an interrupted one leaves that slot's frame, and the slot written may be left without one |
| `FloorDisk.ViewIsReadings` | crates/vtop-broker/src/committed_floor.rs:273-295 | what the runs take the two slots to read as is what the reader makes of the file |
| `CommittedFloor.SaveWritesItsSlotOnly` | crates/vtop-broker/src/committed_floor.rs:209-233 | for every file content and slot, a save reads back in its slot and leaves a valid frame in the other as it was |
| `CommittedFloor.SaveMatchesReopeningExactlyWhen` | crates/vtop-broker/src/committed_floor.rs:181-233 | for every file, a save changes its own slot's reading only if and only if, when it writes the first slot, zero-extending the file reads the same second frame as before; and leaves the handle a reopen would compute if and only if no floor as high comes to light there |
| `CommittedFloor.TidySavesMatchReopening` | crates/vtop-broker/src/committed_floor.rs:181-233 | so it does on every file whose second frame is missing or whole or whose first is valid, and leaves such a file |
| `CommittedFloor.PartialFrameComesToLight` | crates/vtop-broker/src/committed_floor.rs:209-233 | whatever the hash, for every floor whose frame ends in a zero byte, a file for which it fails: saving a lower floor completes a partial frame of that floor |
| `CommittedFloor.WriteNeverStartsPastTheEnd` | crates/vtop-broker/src/committed_floor.rs:209-233 | whatever the file holds, the next write starts within it or right at its end |
| `CommittedFloor.FrameRoundTrip` | crates/vtop-broker/src/committed_floor.rs:257-316 | every 64-bit floor reads back from its frame |
| `CommittedFloor.ReadsExactlyItsOwnFrames` | crates/vtop-broker/src/committed_floor.rs:297-316 | any 52 bytes read as a floor if and only if they are that floor's frame byte for byte: any other checksum, magic or version reads as none |
| `CommittedFloor.FrameLayout` | crates/vtop-broker/src/committed_floor.rs:257-265 | the frame is the magic, the version and the floor, most significant bytes first, and the hash of those twenty bytes |
| `CommittedFloor.EarlierBytesWeighMore` | crates/vtop-broker/src/committed_floor.rs:257-265 | in any split of a byte string the earlier part is the more significant |
| `CommittedFloor.OpensAtTheHighest` | crates/vtop-broker/src/committed_floor.rs:273-295 | an open takes the highest floor there is, zero if none, and spares the slot that holds it, the second on a tie |
| `CommittedFloor.BigEndianRoundTrip` | crates/vtop-broker/src/committed_floor.rs:257-265 | big-endian bytes give their integer back, for any width it fits |
| `CommittedFloor.ZerosHoldNoFloor` | crates/vtop-broker/src/committed_floor.rs:301-316 | zero fill never reads as a floor, whatever the hash |
| `CommittedFloor.FirstSaveLeavesOneFloor` | crates/vtop-broker/src/committed_floor.rs:209-233 | the first save of a new file leaves the other slot without a floor |
| `CommittedFloor.CommittedFloorFile.constructor` | crates/vtop-broker/src/committed_floor.rs:145-169 | opening takes the highest valid floor, the later slot on a tie, and aims the next write at the other slot; a file that cannot be read opens as an absent one |
| `CommittedFloor.CommittedFloorFile.Save` | crates/vtop-broker/src/committed_floor.rs:181-233 | refuses a regress and a poisoned handle, keeps still on the same floor, and otherwise writes one slot or poisons the handle |
| `Shaping.MeasuredThroughItsOwnShape` | benchmarks/lib/shaping.py:330-401 | in every interleaving of runs with distinct tokens, with lost requests and runs that die anywhere, a measured block sees the lock, every toxic of its own shape as specified, and nothing else that shapes the pipe |
| `Shaping.AtMostOneHolder` | benchmarks/lib/shaping.py:330-356 | no two runs are ever between claim and release |
| `Shaping.OthersAreLeftAlone` | benchmarks/lib/shaping.py:404-424 | no step removes or replaces a toxic that is not its own run's, nor a claim its run does not hold |
| `Shaping.CleanEndRestoresTheProxy` | benchmarks/lib/shaping.py:404-424 | a run whose removals were all confirmed leaves the proxy exactly as it claimed it |
| `Shaping.LeftoverRefusesTheNextRun` | benchmarks/lib/shaping.py:359-384 | anything enabled that was left behind refuses the next run before it installs |
| `Shaping.LeftoversStayClaimedExactlyWhen` | benchmarks/lib/shaping.py:404-424 | a proxy that a clear leaves shaped is still claimed if and only if the lock's own removal was lost too, or nothing of the run stayed |
| `Shaping.LeftoverWithoutAClaim` | benchmarks/lib/shaping.py:404-424 | a concrete clear that leaves the proxy shaped and unclaimed |
| `Shaping.GoesOnExactlyWhen` | benchmarks/lib/shaping.py:330-401 | in every reachable state a claim is granted if and only if none is there and the answer arrives, a check lets the run install if and only if it passes and nothing was enabled on the claimed proxy, and an installation goes on if and only if it is answered |
| `Shaping.FreeProxyIsMeasured` | benchmarks/lib/shaping.py:330-401 | on a proxy nobody claims and nothing shapes, any run that starts comes to measure when left to itself and answered, whatever other runs did before |
| `Shaping.ShapeInstallsWhatItAsks` | benchmarks/lib/shaping.py:212-236 | the toxics are the bandwidth pair if and only if a bandwidth is asked for and the latency pair if and only if a latency is, once each, at the rate asked for |
| `Shaping.ClearTriesEveryName` | benchmarks/lib/shaping.py:404-424 | each name goes exactly if its own removal was applied, whatever became of the others; the names reported are those not confirmed |
| `Shaping.NamesDoNotClash` | benchmarks/lib/shaping.py:52-67 | with tokens of one width no two runs' toxics share a name and none is named like the lock |
| `Shaping.DirectionsAddUp` | benchmarks/lib/shaping.py:212-236 | the two directions' delay and jitter add up to those asked for, the odd unit upstream |
| `Shaping.RunKeepsInv` | benchmarks/lib/shaping.py:330-424 | every run keeps the claim protocol's invariant |
| `Shaping.Proxy.Post` | benchmarks/lib/shaping.py:330-348 | a toxic is created only under a free name |
| `Shaping.Proxy.Delete` | benchmarks/lib/shaping.py:404-424 | a removal takes its own name only |
| `Shaping.Proxy.Clear` | benchmarks/lib/shaping.py:404-424 | the loop attempts all five names, the lock last |
| `Shaping.Proxy.CheckAndInstall` | benchmarks/lib/shaping.py:359-401 | succeeds if and only if the checks pass, nothing but the lock is enabled and every installation is answered, and then with the whole shape installed; touches nothing else |
| `Shaping.Proxy.Apply` | benchmarks/lib/shaping.py:330-356 | succeeds if and only if no claim is there, the claim is answered, and the check and every installation succeed; a claimed proxy is refused untouched; a refusal cleared in full restores the proxy |
| `Netem.AppliedIsShaped` | benchmarks/lib/netem.py:467-541 | an apply that succeeds found the box unclaimed and free, and left exactly the shape on it |
| `Netem.AppliedExactlyWhen` | benchmarks/lib/netem.py:701-758 | an apply succeeds if and only if the interface has one name, the box is unclaimed, the claim runs, the probe fails or finds no root but one of the four default kinds, nothing sits where the shape goes, and every command runs |
| `Netem.AppliedImposesTheShape` | benchmarks/lib/netem.py:448-541 | on a plain interface it imposes, over both directions, the whole delay and jitter asked for, the loss and bottleneck on the way up alone, and the policer |
| `Netem.ClearUndoesApply` | benchmarks/lib/netem.py:543-569 | clearing after a full install gives the box back as it was found |
| `Netem.RefusalRestoresExactlyWhen` | benchmarks/lib/netem.py:701-758 | wherever an install stopped, a refused apply leaves the box as found if and only if it never reached the install or nothing sat where its teardown removes |
| `Netem.RefusalWithAWorkingProbe` | benchmarks/lib/netem.py:680-698 | with a probe that works and no root of a default-looking kind, every refusal restores the box |
| `Netem.FailedProbeLosesAnIngressHook` | benchmarks/lib/netem.py:680-698 | a probe that fails is read as clean: an ingress hook already there is then torn down by the rollback |
| `Netem.BrokenApplyStaysClaimed` | benchmarks/lib/netem.py:701-758 | an apply whose runner raised is not rolled back; the claim stays, and the next apply is refused without touching the box |
| `Netem.ProgramShapes` | benchmarks/lib/netem.py:467-541 | the install program runs to its end exactly on a free box and then gives the shaped box |
| `Netem.ClaimIsReleasedLast` | benchmarks/lib/netem.py:543-569 | a teardown cut short anywhere before its last command leaves the box claimed, whatever became of its other commands |
| `Netem.TeardownRemoves` | benchmarks/lib/netem.py:543-569 | a whole teardown removes the claim, the hook, and the root exactly if the shape has one, from any box |
| `Netem.DirectionsAddUp` | benchmarks/lib/netem.py:448-465 | the two directions' delays and jitters add up to those asked for; when each direction is impaired |
| `Netem.Middlebox.Execute` | benchmarks/lib/netem.py:614-636 | a command takes effect or not as its answer says |
| `Netem.Middlebox.AttemptAll` | benchmarks/lib/netem.py:761-778 | every command is attempted and those not confirmed are returned |
| `Netem.Middlebox.Teardown` | benchmarks/lib/netem.py:761-778 | the teardown program, attempted in full |
| `Netem.Middlebox.Install` | benchmarks/lib/netem.py:737-758 | stops at the first command that does not succeed |
| `Netem.Middlebox.Apply` | benchmarks/lib/netem.py:701-758 | names the interface, claims, probes, installs and rolls back as the specified apply |
| `RunMatrix.CollectRows` | benchmarks/run_matrix.py:197-257 | there is a table if and only if all rows span at most one shaping driver, whatever was declared; it holds the rows in list order; no scenario runs twice; a refusal comes with the first clashing row, the second of all if declarations are true |
| `RunMatrix.PickNext` | benchmarks/run_matrix.py:238-241 | picks the first pending scenario declaring an unseen driver, else the first pending |
| `RunMatrix.ListOrder` | benchmarks/run_matrix.py:257 | sorts produced rows by place in the list |
| `RunMatrix.RefusedExactlyWhenSpanning` | benchmarks/run_matrix.py:299-314 | counting distinct drivers refuses exactly the row sets with two rows shaped by different drivers |
| `RunMatrix.ConflictIsTheSecondRow` | benchmarks/run_matrix.py:197-257 | with true declarations a conflict is found with exactly one row before it |
| `RetentionStats.SnapshotTellsThePresentPolicy` | crates/vtop-broker/src/retention_stats.rs:86-201 | over every run, between writes the snapshot is exactly what passes of the present policy recorded, under its bound, and the counters total every recorded result |
| `RetentionStats.RunCountersAreTotals` | crates/vtop-broker/src/retention_stats.rs:106-169 | over every run, between writes, each counter is the total of its own figure over every result recorded |
| `RetentionStats.RecordedExactlyWhenOfThePolicy` | crates/vtop-broker/src/retention_stats.rs:106-120 | a pass is recorded if and only if the policy is still the one it began under, and else leaves no trace |
| `RetentionStats.ScrapeOfOnePolicy` | crates/vtop-broker/src/retention_stats.rs:174-183 | a scrape with no policy change from its first load on reports that policy's bound, and as size, blocked state and failure what passes under that policy found |
| `RetentionStats.ChangeMidScrapeCanMix` | crates/vtop-broker/src/retention_stats.rs:174-183 | the condition is needed: right after the first load, with the lock free, a change can leave the scrape with the old bound and any size measured under the new one |
| `RetentionStats.ScrapeBetweenStores` | crates/vtop-broker/src/retention_stats.rs:174-201 | a scrape begun with the lock free, during which no store is made, whatever else begins, is the snapshot of what was recorded by then: its size and blocked state are those of the last success |
| `RetentionStats.SizeAndBlockedOfOnePass` | crates/vtop-broker/src/retention_stats.rs:174-183 | for size and blocked state to come from one pass it takes less: the lock free at the load of the size, a pass of the present policy measured by then, and no store up to the load of the blocked state |
| `RetentionStats.PassMidScrapeCanMix` | crates/vtop-broker/src/retention_stats.rs:174-183 | otherwise they can come from two: a pass between those loads leaves the loaded size beside whatever blocked that pass, under one policy |
| `RetentionStats.ScrapedSizeWasMeasured` | crates/vtop-broker/src/retention_stats.rs:174-183 | whatever the interleaving of stores and loads, a scrape reporting a size reports one a successful pass measured |
| `RetentionStats.LoadedBoundIsThePolicys` | crates/vtop-broker/src/retention_stats.rs:174-183 | a bound a scrape loads is the present policy's unless a change is just forgetting the last |
| `RetentionStats.RunKeepsInv` | crates/vtop-broker/src/retention_stats.rs:74-201 | every run of passes, policy changes, stores and loads keeps the invariant |
| `RetentionStats.RecordStoresRecord` | crates/vtop-broker/src/retention_stats.rs:106-169 | the stores of a recording, made one by one, amount to the recorded result |
| `RetentionStats.Stats.RecordFor` | crates/vtop-broker/src/retention_stats.rs:106-169 | a pass of another generation changes nothing; one of this generation records its result |
| `RetentionStats.Stats.ChangePolicy` | crates/vtop-broker/src/retention_stats.rs:86-91 | moves the generation and forgets all but sizes and counters |

## Left out

- FileSource.HeadNeverSkips: says nothing of runs with a commit whose range is not on record or with a truncation regrown past the observed length before any read, which no stat can see.
- FileSource.NoLiveRecordAheadOfHead: replays of ranges read before a discontinuity the file has since regrown past are outside its hypotheses.
- KafkaPass.KafkaSource.ReadAll: record timestamps and the pass's time buckets are not modelled; they decide nothing about offsets.
- RetentionStats.ScrapedSizeWasMeasured: loads and stores are taken in program order; orders only weaker atomics allow are not modelled.
- FloorRuns.UnsafeOpenCanRegress: says nothing of an open that finds the highest 64-bit floor, after which no save can be asked for.
- FloorOrigins.LatentFloorIsReported: says nothing of a file that reads as one of the two highest 64-bit floors.
- Seeding cursors from the state store and the concurrency of reads over several paths: they would only add easy members.
- The syslog spool source: the file source's cursor machine with fewer fields.
- The partition metadata cache, the warnings about foreign groups, and the poll loop's clock: the polls of a pass are those made before its deadline.
- Condition-variable timing and delays of the group commit: the leader may seal at any moment, for any reason, instead.
- Modification times beyond equality, and widths and overflow of integers other than the floor's 64 bits.
- Requests that toxiproxy applies after their sender gave up, and operators changing a proxy or middlebox while a run holds it.
- Two netem runs interleaving command by command: the claim is one kernel step, and a refused claim is shown to change nothing.
- Netem queue-limit and burst arithmetic, the text of `tc` commands, calibration and probes of throughput.
- Discovery, alias warnings, configuration, logging, metrics export, dashboards, scenario and engine set-up of the benchmarks.
- BLAKE3, rdkafka, tokio, Docker and the kernel: abstracted as above.
