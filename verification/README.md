# Raft prototype: verified model

This project models the deterministic Raft core, the segmented log on disk, the hard-state file and the runtime that
drives them, and proves what they promise. Verify it with `dafny verify dfyconfig.toml`.

## How it is organised

* `RaftTypes`, `RaftCore`: a node, its twelve events and ten effects. Every handler is a method of class `Raft` that
  updates the fields in the order of the source, proved to compute a function of the node's state; the proofs about
  runs use these functions.
* `CoreRules`: the rules of the core in terms of the node's fields and the message alone: exactly when it grants a
  vote, accepts an append, commits, wins or refuses, what it answers, and that nothing else changes.
* `NodeRuns`, `CoreRuns`, `Replication`: what one node keeps over every sequence of events, what the rules add up to
  over runs, and what a leader makes of a local append and of a refusal.
* `RaftCluster`, `ElectionInvariant`, `ElectionSafety`, `ElectionLimits`: a cluster as a state machine. Sent messages
  form a growing set, so they may be lost, repeated and reordered; heartbeats and append traffic may arrive anywhere
  with any contents; saving a hard state may fail, after which the node goes on; a crash restarts a node from its
  saved hard state. Elections follow sections 5.2 and 5.4.1 of "In Search of an Understandable Consensus Algorithm"
  (Ongaro and Ousterhout).
* `Bytes`, `HardStateStorage`, `LogStore`, `LogIndex`, `LogSegment`: the byte formats and the objects that write them.
* `RecordChunks`, `SegmentedLog`, `LogDirectory`, `LogStops`, `LogHistories`, `LogLimits`, `LogRoom`, `DiskLog`: the
  log with its directory refines a plain sequence of records, over every history of appends, truncations, clean closes
  and abrupt stops. A stop may come between operations, within an append, a truncation or a close, and within any
  number of openings after it; it leaves any part of the stores that can have left the buffered writers, with
  synchronous writes all of it.
* `RuntimeModel`, `RuntimeSafety`, `RuntimeDriver`: the drive loop, first over a plain sequence of records, then as an
  object over the core, the segments and the hard-state file that is proved to do the same.

## What the proofs found

* The branch that rejects an append request whose previous entry does not match raises the term but keeps role and
  vote (`src/raft/core.rs:197-211`). A leader can therefore stay leader in a term it was not elected for
  (`TwoLeadersInOneTerm`), and after one crash two nodes can win the same term (`TwoWinnersAfterCrash`).
* A failed save of a vote (`src/raft/runtime.rs:143`, `src/raft/runtime.rs:161`) leaves the vote in memory, and the
  next request of the same candidate is granted and sent with nothing to save. After one crash two nodes can win the
  same term (`TwoWinnersAfterFailedSave`).
* Both conditions are exact: over every run, the saved hard states account for every vote if and only if neither happens
  (`DurableInvIff`), and every leader was elected in its term if and only if no leader's term is raised by that branch
  (`LeadersElectedIff`). Without crashes, winners are unique in every run.
* A follower that rejects an append request but has a log of the leader's length is recorded as caught up
  (`RefusedAppendExchange`), so a commit is witnessed by reported positions, not by accepted entries.
* Without `sync_writes` a stop can lose an answered append, whose offset then reads the next append's record
  (`UnflushedStopReadsWrong`). With or without it, a truncation that is stopped between the removals of a segment's
  store and index file leaves slots without records, and the next append is read at a removed offset
  (`HalfRemovedReadsWrong`); and an opening that is stopped between the length and the filler of an empty index leaves
  a slot that nobody wrote. Over every history the log stays sound and every operation does what it should to the
  records if and only if no stop does any of the three (`HistoryKeepsIff`, and `CreatedHistoryKeepsIff` from the first
  creation on); with `sync_writes` if and only if no stop does one of the last two (`SyncedHistoryKeepsIff`).
* Index recovery finds exactly the slots written unless the creation was interrupted; then it finds one slot too many
  for good (`RecoveryIsExactIff`).
* A log can run out of slots before it rotates, and then refuses every append until a truncation (`FullLogStaysFull`).
  A new log never does under appends and clean reopenings if and only if the index limit is a positive multiple of 12
  or the store limit is reached first (`NeverRefusedIff`); a limit of 20 bytes fails (`OneSlotIndexFills`). Truncating
  back into a full segment (`TruncateBackToFull`), a stop just before a rotation (`RoomAfterStopBeforeRotateIff`) and
  a rotation that fails (`RoomAfterFailedRotationIff`) have the same effect.
* A write is answered with an error if the next segment cannot be opened, although its entry is in the log; a later
  write applies it (`RefusedWriteIsApplied`).
* An append that is refused for a full index still leaves its bytes in the store; no record changes (`AppendRefines`).
* A vote for a node with an empty name is loaded as no vote; every other hard state survives (`SavedStateLoads`).

## Model

| member | source | states |
|---|---|---|
| `RaftCore.Raft.HandleElectionTimeout` | src/raft/core.rs:24-48 | new term, vote for itself, candidate, request to all other voters, as the function used in all runs |
| `RaftCore.Raft.HandleRequestVote` | src/raft/core.rs:50-85 | in-place update equals the voting function on the old state |
| `RaftCore.Raft.HandleHeartbeatTimeout` | src/raft/core.rs:87-106 | heartbeat or refusal, state unchanged |
| `RaftCore.Raft.HandleHeartbeat` | src/raft/core.rs:108-171 | in-place update equals the heartbeat function, stale, mismatching and matching cases |
| `RaftCore.Raft.HandleAppendEntries` | src/raft/core.rs:173-252 | in-place update equals the append function, including the mismatch-reject branch as written |
| `RaftCore.Raft.HandleEntriesPersisted` | src/raft/core.rs:254-267 | in-place update equals the persistence function |
| `RaftCore.Raft.HandleEntriesApplied` | src/raft/core.rs:269-277 | in-place update equals the application function |
| `RaftCore.Raft.HandleLocalEntryAppended` | src/raft/core.rs:279-326 | in-place update equals the local append function, panic included |
| `RaftCore.Raft.HandleVoteResponse` | src/raft/core.rs:328-373 | in-place update equals the vote-counting function |
| `RaftCore.Raft.HandleHeartbeatResponse` | src/raft/core.rs:375-418 | in-place update equals the progress function |
| `RaftCore.Raft.HandleWrite` | src/raft/core.rs:420-429 | local append requested from a leader, refusal with the known leader otherwise |
| `RaftCore.Raft.HandleAppendEntriesResponse` | src/raft/core.rs:431-529 | in-place update equals the replication function, with both assertions as panics |
| `RaftCore.Raft.HandleEvent` | src/raft/core.rs:5-22 | every event goes to its handler; new state and outcome are those of the transition function |
| `CoreRules.VoteGrantedIff` | src/raft/core.rs:50-85 | a vote is granted if and only if the term is not older, the log (term before index) not older, and the node has not voted for another in that term |
| `CoreRules.VoteAnswer` | src/raft/core.rs:50-85 | what the answer says and saves, and what the node becomes: a newer term ends role, vote and collected votes; the hard state is saved exactly if it changed |
| `CoreRules.TimeoutAsksAll` | src/raft/core.rs:24-48 | a timeout asks every other voter, and nobody else, with the log end of the node |
| `CoreRules.WinsIff` | src/raft/core.rs:350-370 | a candidate becomes leader if and only if the vote counts and makes more than half of the voters, and then beats to all others with its commit index |
| `CoreRules.VoteCounting` | src/raft/core.rs:328-373 | a vote counts if and only if it is granted, of this term, from a voter not counted yet; a newer term ends the candidacy; a non-candidate refuses |
| `CoreRules.HeartbeatsIff` | src/raft/core.rs:87-106 | a leader and nobody else sends heartbeats, with its term, log end and commit index |
| `CoreRules.HeartbeatCommit` | src/raft/core.rs:151-157 | a heartbeat moves the commit index only forward, only if both logs end alike, never past the leader's commit index or the log, and all the way there |
| `CoreRules.HeartbeatAnswer` | src/raft/core.rs:108-171 | the answer succeeds if and only if the term is not older and both logs end alike; the timer is reset exactly by a heartbeat that is not stale; entries are applied exactly on a new commit |
| `CoreRules.AppendAcceptedIff` | src/raft/core.rs:180-211 | an append request is accepted if and only if its term is not older and its previous entry is in the log with that term |
| `CoreRules.AcceptedAppend` | src/raft/core.rs:213-251 | what is kept: the log is cut after the previous entry exactly for a newer term with a longer log, and the reported position is what remains |
| `CoreRules.RefusedAppend` | src/raft/core.rs:180-211 | a stale request changes nothing, another refused one raises the term and the known leader and nothing else |
| `CoreRules.PersistedCommit` | src/raft/core.rs:254-267 | the position is the reported one; the commit index goes forward to the leader's within the log, and exactly then entries are applied |
| `CoreRules.AppliedCompletes` | src/raft/core.rs:269-277 | last applied is the reported index; a leader and nobody else completes the operation |
| `CoreRules.WriteAppends` | src/raft/core.rs:420-429 | a leader asks for a local append in its term, another node names the leader it knows |
| `CoreRules.CommitsIffMajority` | src/raft/core.rs:497-526 | a voter's response at the leader's log end commits the whole log if and only if the voters known there, with the sender, are more than half |
| `CoreRules.OtherAppendResponses` | src/raft/core.rs:431-529 | every other response: panic exactly if the follower claims a longer log, retry at the reported position, recorded position without commit, end of the leadership |
| `CoreRules.HeartbeatResponseMoves` | src/raft/core.rs:396-417 | a refused heartbeat never moves a match and moves the next index back; an accepted one moves the match up to the reported position within the log; voters and learners alike |
| `CoreRules.OtherHeartbeatResponses` | src/raft/core.rs:375-394 | a newer term ends the leadership; a stale response changes nothing; a non-leader refuses |
| `NodeRuns.TermsAndVotesOnlyAdvance` | src/raft/core.rs:5-22 | between any two moments of any run the term does not fall, a cast vote is kept within its term, the members are fixed |
| `NodeRuns.BoundsKeptIffRespected` | src/raft/core.rs:254-320 | an event keeps last applied <= commit <= last log index and the commit index monotone if and only if its reported position respects the commit index |
| `NodeRuns.CommitIndexMonotone` | src/raft/core.rs:254-320 | in every run driven by a correct executor those bounds always hold and the commit index never falls |
| `NodeRuns.MatchesAreWitnessed` | src/raft/core.rs:396-415 | every recorded peer position was reported in a delivered append response or successful heartbeat response, or recorded locally while leader |
| `NodeRuns.CommitHasMajorityWitness` | src/raft/core.rs:497-526 | every commit on an append response rises to the leader's last index and is witnessed by more than half of the voters |
| `CoreRuns.EveryCommitIsJustified` | src/raft/core.rs:5-22 | in every run a node's commit index is the first one or has a reason in the run: a leader's commit index as high, a majority at its log end, or its own entry without other members |
| `CoreRuns.FollowerCommitsWhatItIsTold` | src/raft/core.rs:151-157 | a node that never leads never commits past the largest leader commit index that it was told |
| `CoreRuns.MajorityOfReportsCommits` | src/raft/core.rs:497-526 | after reports of its log end by any voters in any order, a leader has committed its log if and only if they and those already known there are more than half |
| `CoreRuns.MajorityOfVotesWins` | src/raft/core.rs:328-373 | after granted votes by any voters in any order, a candidate leads if and only if they are more than half |
| `NodeRuns.InitialNodeIs` | src/raft/runtime.rs:30-63 | a started node is a follower with the loaded term and vote, nothing committed, and only its own log matched |
| `Replication.LocalAppendRefused` | src/raft/core.rs:279-311 | a non-leader refuses to record a local entry and changes nothing; a leader that is not a voter panics |
| `Replication.LocalAppendReachesAll` | src/raft/core.rs:279-326 | a local append goes to every other voter and learner and nobody else, from positions they confirmed, or commits at once |
| `Replication.RefusedAppendExchange` | src/raft/core.rs:431-495 | a refusal makes the leader panic exactly if the follower's log is longer; a shorter one gets one retry, which the follower accepts; one of equal length is recorded as caught up |
| `ElectionInvariant.FactsOfHandle` | src/raft/core.rs:24-85 | what any transition can tell a cluster: its ballots, messages and ways to be candidate or leader |
| `ElectionInvariant.StepKeepsInv` | src/raft/core.rs:5-22 | every step keeps the election invariant: unique and committed ballots and requests, real responses, real counted votes |
| `ElectionInvariant.CountedVotesAreReal` | src/raft/core.rs:328-354 | a candidate that asked in its term has collected only real votes of that term |
| `ElectionSafety.VoteStaysSavedIff` | src/raft/core.rs:197-211 | one event: the saved hard state keeps covering the vote in memory if and only if no held vote is carried into a newer term |
| `ElectionSafety.FailedSaveCoversIff` | src/raft/runtime.rs:278-282 | one event whose save fails: the saved hard state still covers the node if and only if the node holds no vote |
| `ElectionSafety.SentVotesAreSaved` | src/raft/runtime.rs:137-164 | every vote sent by a node that the disk covers is the saved hard state when it leaves |
| `ElectionSafety.CrashKeepsSavedInv` | src/raft/runtime.rs:30-63 | a restart from the saved hard state, also between saving and sending, keeps the invariant |
| `ElectionSafety.DurableInvIff` | src/raft/runtime.rs:137-164 | in every run, crashes and failed saves included, the saved hard states account for all votes at every moment if and only if no held vote is carried into a newer term and no failed save records a vote |
| `ElectionSafety.InvAlways` | src/raft/core.rs:5-22 | the election invariant holds at every moment of all those runs, and of every run without crashes whatever fails to be saved |
| `ElectionSafety.OneElectedPerTerm` | src/raft/core.rs:345-354 | two majorities of one term support the same node |
| `ElectionSafety.WinnerStaysElected` | src/raft/core.rs:345-373 | a win leaves a majority of real ballots of that term behind for the rest of the run |
| `ElectionSafety.AtMostOneWinnerPerTerm` | src/raft/core.rs:328-373 | in all those runs no two nodes ever win an election in the same term |
| `ElectionSafety.LeaderChangesTermIff` | src/raft/core.rs:197-211 | one event: a leader stays leader in another term if and only if the mismatch-reject branch raised its term |
| `ElectionSafety.LeadersElectedIff` | src/raft/core.rs:197-211 | in all those runs, every leader and every heartbeat sender was elected in its term at every moment if and only if that never happens |
| `ElectionSafety.AtMostOneLeaderPerTerm` | src/raft/core.rs:328-373 | if it never happens, at most one node is ever leader in a term: leaders of a term at any two moments are the same |
| `ElectionSafety.HeartbeatsNameOneLeader` | src/raft/core.rs:87-106 | then all heartbeats ever sent in a term name one leader |
| `ElectionSafety.ElectionRestriction` | src/raft/core.rs:62-75 | a winner sent one request in its term; each member of its majority answered that very request with a vote earlier, when its own log ended in an older term, or in the same term no later |
| `ElectionLimits.TwoLeadersInOneTerm` | src/raft/core.rs:197-211 | a crash-free run of three voters that ends with two leaders in one term |
| `ElectionLimits.TwoWinnersAfterCrash` | src/raft/core.rs:197-211 | a run of three voters with one crash in which two nodes win the same term |
| `ElectionLimits.TwoWinnersAfterFailedSave` | src/raft/core.rs:72-84 | a run without append requests, with one failed save and one crash, in which two nodes win the same term |
| `HardStateStorage.Storage.SaveState` | src/raft/storage.rs:68-89 | whatever the file held, it then holds exactly the encoded state |
| `HardStateStorage.Storage.LoadState` | src/raft/storage.rs:24-66 | loads what the bytes encode, and panics exactly on short or ill-formed files |
| `HardStateStorage.SavedStateLoads` | src/raft/storage.rs:24-89 | a saved state is loaded unchanged if and only if its vote is not an empty name |
| `HardStateStorage.DocumentedLayout` | src/raft/storage.rs:68-89 | eight bytes of term, most significant first, eight bytes of length, the name; a missing vote is length 0 |
| `HardStateStorage.LoadPanicsIff` | src/raft/storage.rs:24-66 | loading panics if and only if a non-empty file is too short for what it announces or its name is not UTF-8 |
| `LogStore.FramedRecordReadsBack` | src/log/store.rs:37-80 | a framed record is read back from its position whatever stands before and after it |
| `LogStore.FrameLayout` | src/log/store.rs:37-47 | a record is eight bytes of length, most significant first, and its bytes |
| `LogStore.ReadIgnoresLaterBytes` | src/log/store.rs:73-80 | a readable record stays readable when bytes are added |
| `LogStore.ReadFromPrefix` | src/log/store.rs:73-80 | a prefix of the contents gives back a record exactly if it holds all of it |
| `LogStore.Store.Append` | src/log/store.rs:37-47 | contents grow by the framed record, buffered or in the file; the file only grows |
| `LogStore.Store.Read` | src/log/store.rs:73-80 | flushes and returns the record at the position, or fails |
| `LogIndex.RecoverSize` | src/log/index.rs:47-67 | the scan loop stops at the first slot that does not hold its own number |
| `LogIndex.OpeningRules` | src/log/index.rs:28-67 | no slot in a new file, which becomes 0xFF; all of a shorter file; in a file of full length the slots up to the first that does not hold its own number |
| `LogIndex.SlotLayout` | src/log/index.rs:97-100 | a slot is four bytes of relative offset and eight bytes of position, most significant first |
| `LogIndex.Index.constructor` | src/log/index.rs:28-45 | fills a new file with 0xFF, scans a full-length one, trusts the length otherwise |
| `LogIndex.Index.Write` | src/log/index.rs:89-104 | the slot is written in place behind the used ones, or refused when full |
| `LogIndex.Index.Read` | src/log/index.rs:106-126 | returns the slot, or fails beyond the used ones |
| `LogIndex.Index.Close` | src/log/index.rs:136-142 | leaves exactly the used bytes in the file |
| `LogIndex.WriteKeepsSound` | src/log/index.rs:89-104 | a write adds one slot with its position and changes no other |
| `LogIndex.ScanIsExactIff` | src/log/index.rs:47-67 | with n slots in use and 0 or 0xFF behind them the scan stops after n slots if and only if the filler is 0xFF, a slot is in use or there is none |
| `LogIndex.HistoryHolds` | src/log/index.rs:28-67 | after every history, from a complete or an interrupted creation, the slots hold exactly the positions written, and the one phantom |
| `LogIndex.RecoveryIsExactIff` | src/log/index.rs:47-67 | after every history of writes, closes and stops the scan returns 12 times the number of slots written if and only if the creation was not interrupted or there is no slot; otherwise one slot more for good |
| `LogSegment.AppendSegRefines` | src/log/segment.rs:67-76 | an append adds one record, or none if the index is full, though its bytes are in the store then too, and keeps the segment sound |
| `LogSegment.CloseSegReopens` | src/log/segment.rs:26-64 | a clean close and reopen gives the same records |
| `LogSegment.StopSegReopensIff` | src/log/segment.rs:26-64 | after a stop that left any part of the store the segment is sound, with the same records, if and only if every slot's record lies in that part |
| `LogSegment.SyncedIsFlushed` | src/log/store.rs:42-45 | with synchronous writes every record lies in what a stop leaves |
| `LogSegment.DanglingReadsLater` | src/log/segment.rs:67-89 | a slot without its record reads the next append's record instead |
| `LogSegment.UnflushedRecordDangles` | src/log/segment.rs:67-76 | a stop that left nothing of the last append makes its slot such a slot |
| `LogSegment.InterruptedCreationDangles` | src/log/index.rs:32-42 | an interrupted creation of the index makes such a slot that nobody wrote |
| `LogSegment.Segment.constructor` | src/log/segment.rs:26-64 | opens store and index and derives the next offset from the slots |
| `LogSegment.Segment.StopLeaves` | src/log/segment.rs:67-76 | what is on disk between operations: the mapped index and a prefix of the store, all of it with synchronous writes |
| `LogSegment.Segment.AppendToStore` | src/log/segment.rs:69-70 | what is on disk between store and index write: the old index and a prefix of the store with the new record, all of it with synchronous writes |
| `LogSegment.Segment.Append` | src/log/segment.rs:67-76 | store first, then index; the new value is the segment function of the old one, and what is on disk is what a stop can leave of it |
| `LogSegment.Segment.Read` | src/log/segment.rs:78-89 | returns what the segment function reads, changing no contents |
| `LogSegment.Segment.Close` | src/log/segment.rs:115-120 | leaves the closed files |
| `SegmentedLog.ReadRefines` | src/log.rs:106-119 | a read returns exactly the record at that offset of the plain sequence and fails exactly outside it |
| `SegmentedLog.AppendRefines` | src/log.rs:96-104 | an append extends the sequence at the next offset exactly if a slot is free; rotation opens what the directory has under the new base, which is nothing, and keeps the segments contiguous and the directory exact |
| `SegmentedLog.AppendUnrotatedRefines` | src/log.rs:96-104 | an append whose rotation fails extends the sequence all the same, and answers with an error exactly if the segment is full |
| `SegmentedLog.RoomAfterAppendIff` | src/log.rs:96-104 | the next append finds a free slot if and only if a condition on sizes holds, which a multiple of 12 always meets |
| `SegmentedLog.TruncateRefines` | src/log.rs:128-143 | removes exactly the segments above the offset and their files; a non-empty log with every record up to the offset remains |
| `LogDirectory.ReopenKeepsIff` | src/log.rs:28-80 | listing and opening a directory gives a sound log with the same records if and only if each segment's files open to a sound segment |
| `LogDirectory.CloseRefines` | src/log.rs:121-126 | a clean close and reopen through the directory changes no record |
| `LogStops.StoreGoneIff` | src/log/segment.rs:122-128 | a segment without its store file opens to a sound segment if and only if it has no slot |
| `LogStops.ImageKeepsSlots` | src/log/index.rs:28-45 | any number of stopped openings leaves an index file with the same slots, unless it is caught between length and filler |
| `LogStops.StopKeepsIff` | src/log.rs:28-80 | the opening after a stop finds a sound log with exactly the records of its moment if and only if every record had been flushed, no half-removed segment has a slot and no index was caught |
| `LogStops.SyncedKeepsIff` | src/log/store.rs:42-45 | with synchronous writes if and only if the last segment is not half removed with slots and its index not caught |
| `LogHistories.ExecKeepsIff` | src/log.rs:28-147 | every operation, stops within appends, truncations, closes and openings included, leaves log and directory sound and means what it should on the plain sequence if and only if it loses nothing |
| `LogHistories.HistoryKeepsIff` | src/log.rs:28-147 | at every moment of a history the log is sound, over a directory with exactly the files of its segments, and every operation does what it should to the records, if and only if no stop loses an unflushed record, half removes a segment with slots or catches an index |
| `LogHistories.FirstCreationIff` | src/log.rs:64-72 | a stopped first creation leaves a new log if and only if its index was not caught |
| `LogHistories.CreatedHistoryKeepsIff` | src/log.rs:28-147 | the same over every history from the first creation on, which may have been stopped |
| `LogHistories.SyncedHistoryKeepsIff` | src/log/store.rs:42-45 | with synchronous writes a history keeps everything if and only if no stop half removes a segment with slots or catches an index |
| `LogHistories.RotationStartsEmpty` | src/log.rs:98-102 | every rotation of a history starts with empty files, also at a base offset that a truncation removed |
| `LogHistories.EmptyDirectoryOpens` | src/log.rs:64-80 | an empty directory opens as a sound log without records at the configured first offset |
| `LogLimits.UnflushedStopReadsWrong` | src/log/store.rs:37-47 | without synchronous writes: a history in which an answered append cannot be read after a stop and then reads the next record |
| `LogLimits.HalfRemovedReadsWrong` | src/log/segment.rs:122-128 | also with synchronous writes: a history with a stopped truncation in which a removed offset reads the next record |
| `LogHistories.HistoryIsPlain` | src/log.rs:28-147 | every history that loses nothing stands for a history of plain sequences |
| `LogHistories.RecordSurvives` | src/log.rs:106-119 | a readable record stays readable unchanged through any operations that do not truncate below it |
| `LogHistories.AppendedRecordSurvives` | src/log.rs:96-104 | an answered append is readable at the answered offset ever after |
| `LogRoom.NeverRefusedIff` | src/log.rs:96-104 | no history of appends and clean reopenings on a new log is refused an append if and only if the index limit is a positive multiple of 12, or at least 12 with a store limit that is reached first |
| `LogRoom.AppendsNeverRefused` | src/log.rs:96-104 | from any sound log with room, with a multiple of 12, no such history is refused an append |
| `LogRoom.OneSlotIndexFills` | src/log/index.rs:89-95 | with a limit between 12 and 24 bytes, as 20, one small append to a new log leaves no room |
| `LogRoom.RoomAfterTruncateIff` | src/log.rs:128-143 | a truncation leaves room if and only if the last segment at or below the offset has a free slot |
| `LogRoom.TruncateBackToFull` | src/log.rs:128-143 | truncating back into the segment that an append has filled leaves no room |
| `LogRoom.RoomAfterStopBeforeRotateIff` | src/log.rs:96-104 | a stop between index write and rotation leaves room if and only if two slots were free |
| `LogRoom.RoomAfterFailedRotationIff` | src/log.rs:98-102 | so does a rotation that fails |
| `LogRoom.FullLogStaysFull` | src/log/index.rs:89-95 | a log without a free slot refuses every append, through reopenings and stops, and keeps its records until a truncation |
| `DiskLog.ListBases` | src/log.rs:36-62 | the base offsets of the directory, each once, ascending |
| `DiskLog.Log.constructor` | src/log.rs:64-80 | one segment per base offset of the directory, or a first one in an empty directory; the last is active |
| `DiskLog.Log.Append` | src/log.rs:96-104 | in-place append and rotation, from the files the directory has, equal the append function, also if the rotation fails; the last segment stays active |
| `DiskLog.Log.Read` | src/log.rs:106-119 | the search loop finds the segment that the read function finds |
| `DiskLog.Log.Truncate` | src/log.rs:128-143 | the pop loop leaves the segments and the files that the truncate function leaves; the last segment stays active |
| `DiskLog.Log.Close` | src/log.rs:121-126 | closes every segment |
| `RuntimeModel.EffectRank` | src/raft/runtime.rs:107-119 | Write, then local append, then application: the drive loop goes down this rank and terminates |
| `RuntimeSafety.DriveIsDirect` | src/raft/runtime.rs:107-119 | on a sole leader the event and effect loop equals a direct write and never panics |
| `RuntimeSafety.NonLeaderRefuses` | src/raft/runtime.rs:85-105 | a non-leader answers with one refusal and changes nothing else |
| `RuntimeSafety.ExecutePanicsIff` | src/raft/runtime.rs:135-276 | executing an effect panics exactly where sending or persisting is not implemented, after a successful save, or the operation is missing or of the wrong kind |
| `RuntimeSafety.WritePanicsIff` | src/raft/runtime.rs:85-119 | a client write, on any node in any state, panics if and only if the node leads without being a voter and the entry was recorded |
| `RuntimeSafety.ReplicatedWriteWaits` | src/raft/runtime.rs:149-156 | a write on a leader with other members is recorded and stays pending: no reply, nothing committed or applied |
| `RuntimeSafety.RefusedAppendIsAnswered` | src/raft/runtime.rs:207-222 | a refused append request is answered once, with the refusal, and is no longer pending |
| `RuntimeSafety.ApplyRun` | src/raft/runtime.rs:182-205 | the apply loop applies a run of entries without gap and stops exactly at the first failure |
| `RuntimeSafety.ApplyStopsAtObstacle` | src/raft/runtime.rs:182-205 | over any log, readable or not, entries are applied in order with their own commands up to the first that cannot be read, decoded or applied, and the error says which |
| `RuntimeSafety.EveryWriteAnsweredOnce` | src/raft/runtime.rs:85-105 | whatever fails, each write gets exactly one reply under its own fresh id, nothing stays pending, and Ok means that its own entry was applied |
| `RuntimeSafety.AppliedInTurn` | src/raft/runtime.rs:182-205 | with a state machine that may fail at any call, no entry is applied before all smaller ones and last applied never passes an unapplied entry |
| `RuntimeSafety.AppliedIsLogPrefix` | src/raft/runtime.rs:182-205 | with one that never fails, the applied commands are entries 1 to last applied in order, without gap or repeat |
| `RuntimeSafety.RefusedWriteIsApplied` | src/raft/runtime.rs:256-259 | a write answered with an error because the next segment could not be opened is applied with the next write |
| `RuntimeSafety.FirstWriteReplays` | src/raft/runtime.rs:379-399 | after a restart with a fresh state machine the first write is answered Ok exactly if nothing fails, and then has replayed the whole log |
| `RuntimeSafety.TurnIsClusterStep` | src/raft/runtime.rs:137-164 | every turn changes node and hard-state file as the cluster's step changes node and saved state, also when saving fails |
| `RuntimeSafety.RestartIsCrashStep` | src/raft/runtime.rs:30-63 | starting from the file that any turn leaves is the cluster's crash step |
| `RuntimeSafety.StopBeforeSendIsCrash` | src/raft/runtime.rs:137-164 | a stop after a successful save and before the send is the cluster's crash with that event in flight |
| `RuntimeDriver.LiveRuntime.constructor` | src/raft/runtime.rs:30-74 | loads the hard state, takes the next offset from the log and starts as a follower |
| `RuntimeDriver.LiveRuntime.ApplyCommitted` | src/raft/runtime.rs:182-205 | the apply loop over the segments does what the model does over the records |
| `RuntimeDriver.LiveRuntime.AppendLocal` | src/raft/runtime.rs:224-264 | takes, encodes and appends the command; every failure as in the model, a full index and a failed rotation included |
| `RuntimeDriver.LiveRuntime.ExecuteEffect` | src/raft/runtime.rs:135-276 | every effect does to segments and files what the model does to its records and file |
| `RuntimeDriver.LiveRuntime.Drive` | src/raft/runtime.rs:107-119 | the loop terminates and ends where the model's drive ends |
| `RuntimeDriver.LiveRuntime.FailOperation` | src/raft/runtime.rs:284-300 | answers and removes the operation if it is still there |
| `RuntimeDriver.LiveRuntime.HandleMessage` | src/raft/runtime.rs:85-105 | a client write over core, segments and bytes equals the model's write, so every theorem about the model holds of it |
| `RuntimeDriver.RestartReplaysLog` | src/raft/runtime.rs:182-205 | after a stop that lost nothing the first Ok write hands over exactly the records that were in the log at its moment |

## Left out

- Log matching, leader completeness and state machine safety across nodes: append requests carry no entries, persisting them is not implemented, and the commit rule checks neither the entry's term nor the response's age.
- Consistency of the known leader: it is a hint, copied from responses and kept across timeouts.
- A single voter electing itself: it never receives a vote response, so the runtime theorems start from a node made leader.
- Multi-voter writes after replication starts: the runtime sends nothing yet, so the operation stays pending.
- Timers, transport, async scheduling and the arms of `execute` that end in `todo!()`: they are panics after their saving step.
- A save of the hard state that fails half way: a failed save leaves the file as it was.
- Encoding of log entries by the prost library: an encode and decode pair that is assumed to round trip.
- Reply channels, buffer pool and object reuse: a reply is an entry of a list, and no receiver is dropped.
- Terms, indexes and operation ids are unbounded; u64 overflow of them, and `checked_add` on operation ids, are not modelled. Store sizes stay below 2^64 and a segment below 2^32 - 1 entries by precondition.
- Order of peers and replication targets: both come from hash maps and are sets here.
- A stop of the operating system rather than of the process: what is in the mapped index, and what was written to a file, survives a stop.
- Short writes of a record or a slot, and use after close. A new index is stopped before or after its filler, not within it. Of the errors of the operating system in the log, a failing write and a failing rotation that leaves no new files are modelled; failing reads, closes and removals are not.
- What is buffered at a given moment without `sync_writes`: a stop may leave any prefix of a store, also a shorter one than a read has already flushed.
- Directory entries, file names, `name()`, mmap and fcntl calls: a directory is a map from base offset to two byte sequences, with the same configuration on reopening.
- DiskLog.Log: holds its segments as values, as a `Vec<Segment>` owns them, so its methods do not call the methods of the `Segment` object; both compute the same segment functions.
- DiskLog.Log.Truncate: below the first base it removes every segment, after which the source panics on the next append; the log theorems are stated at or above the first base.
- RuntimeDriver.LiveRuntime: the state machine is the list of commands it accepted; which calls fail is a parameter of each message.
- `src/membership.rs`, `src/grpc`, `src/raft/handle.rs`, the proto files and `src/main.rs`: plumbing, generated or empty.
