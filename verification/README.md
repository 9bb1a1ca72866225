# Verified models of a linearizability checker, a Raft peer and a MapReduce scheduler

The repository holds the 6.824 labs in Go. This project models the three parts of it that have an
algorithm to get wrong, and proves what each of them is for.

**Porcupine** decides whether a recorded concurrent history is linearizable. The imperative model
(`LinkedEntries`, `Words`, `Bitset`, `StateCache`, `Checker`) keeps the doubly linked list with its
in-place lift and unlift, the working bit set of 64-bit words, the hash-bucketed cache and the
backtracking loop. It refines a search on values (`Search`), whose invariant says that every cached
configuration is on the stack or a dead end. `CheckSingle` terminates, answers true only for
linearizable entries, false (when not killed) only for others, and its partial answers are of
maximum length. `Locality` shows that a store is linearizable exactly when each key is, and
`CheckKvOperations` puts everything together: under every arrival order of the partition results,
without a timeout, the answer is Ok exactly when the whole history is linearizable for a map from
keys to strings.

**Raft** is a step system (`RaftCluster`): each step is one region of code under a server's lock, or a
crash. Messages may be lost, delayed, reordered and duplicated. `RaftServer` holds the same regions as
methods that change fields, each proved equal to its function in `RaftPeer`; `RaftEffects` says what
those functions do in other terms: whose log wins a vote, when exactly a commit index moves and where
to, what a reply tells. Persistence and
write-once votes hold in every run. Election safety and log matching hold in every disciplined run;
the four hypotheses (`RaftElection.Disciplined`) are facts that the code does not check: no vote is
granted to a request of an old term, a granted vote is counted only in the term of its election, only
a candidate is promoted, and a command is appended only while the server leads the term it was read
in. Each is needed: for each, `RaftRaces` has a disciplined run and one step against that hypothesis
alone after which the property fails, at once or after steps that keep all four. The fields
`lastElection`, `tally`, `voted`, `led` and `logs` of a cluster, and the `source` of an append request, record history
only: no server reads them.

**MapReduce** has the master's queues and handlers (`MapReduceMaster`), the loops of the map task, the
reduce task and the sequential program (`MapReduceJob`), and their runs together (`MapReduceRuns`),
with workers that crash, tasks that time out and are executed again, and reports that come late or
twice. When the master says it is done, the output files together are the sequential output; and
whatever has happened, the job can still be finished (`MapReduceProgress`).

Where the code differs from a comment or from what one would expect, the model follows the code. The
comment on `node.match` (6.824lab/src/porcupine/checker.go:59) has calls and returns the wrong way
round. `RequestVote` (6.824lab/src/raft/raft.go:182-184) sets a refusal for an old term and then goes
on, so an old request can still be granted. `Start` (6.824lab/src/raft/raft.go:394-402) reads the term
under one lock and appends under another.

Five promises turn out false of the code as it stands, and the exact conditions are proved:

- Entries sorted by time tell the recorded history whatever the sort does with equal times, exactly
  when every operation returns after its call and no call has the time of a return
  (`Histories.TiesMatter`).
- After a leader has read the reply to an append request, `nextIndex` is in its log exactly when the
  reply is a success about entries that it still has, a refusal for an old term of a request that was
  not about index 0, or another refusal that does not report a longer log
  (`RaftBackup.NextIndexStaysInside`). A disciplined run of three servers reaches a state in which a
  late refusal sets it to 0 (`RaftRaces.LateRefusal`).
- An accepted append request can lower a follower's `commitIndex` (`RaftEffects.CommitCanFall`). It
  does so exactly when it cuts the log below the old `commitIndex` and brings a higher one
  (`RaftEffects.AppendCommits`); requests of leaders whose `commitIndex` is inside their log never do
  (`RaftEffects.CommitFollowsLeader`).
- Committed entries are always delivered in order, but an index can be delivered twice
  (`RaftApply.DeliveredTwice`). When all apply goroutines have finished, no index was delivered twice
  exactly when none of them was started while another was at work (`RaftApply.OnceIffPatient`).
- Reduce tasks can be made twice (`MapReduceRuns.SecondBatch`). Once the maps are done, a report makes
  another batch exactly when it is a late report of a map task (`MapReduceRuns.AnotherBatch`); outputs
  stay the same.

## Model

| member | source | states |
|---|---|---|
| `Parallel.CheckKvOperations` | 6.824lab/src/porcupine/checker.go:360-368 | for every history with Call < Return and, within each key, no call at the time of a return, and every arrival order: Ok means the whole history is linearizable for a key-to-string store; Illegal exactly when the result of a key that is not linearizable arrives in time; Unknown exactly when neither that nor all results come in time; without a timeout Ok exactly when the whole history is linearizable. The reported lists, one group per key, are legal partial linearizations of the operations of that key, and without a timeout hold one of maximum length for every operation that has any |
| `Checker.CheckSingle` | 6.824lab/src/porcupine/checker.go:174-248 | terminates; true only if linearizable; false and not killed only if not; every partial answer is a legal partial linearization at any kill moment; complete answers are of maximum length |
| `Search.EveryPartialIsCached` | 6.824lab/src/porcupine/checker.go:185-238 | when the search has ended, the configuration of every legal partial linearization is in the cache, although the cache made the search skip orders |
| `Search.FinishedRefutes` | 6.824lab/src/porcupine/checker.go:209-212 | an empty stack with the cursor at a return means that no linearization exists |
| `Search.FinishedIsExact` | 6.824lab/src/porcupine/checker.go:213-229 | then longest[x] is nil exactly when no legal partial linearization contains x, and otherwise one of maximum length |
| `Search.SkipKeepsInv` | 6.824lab/src/porcupine/checker.go:203-208 | moving the cursor on keeps the invariant: sound stack, progress up to the cursor, every cached configuration on the stack or exhausted |
| `Search.PushKeepsInv` | 6.824lab/src/porcupine/checker.go:195-202 | linearizing a new configuration keeps the invariant |
| `Search.PopKeepsInv` | 6.824lab/src/porcupine/checker.go:209-237 | backtracking keeps the invariant: the popped configuration has been exhausted, and is recorded when partial answers are wanted |
| `Search.StartedInv` | 6.824lab/src/porcupine/checker.go:175-184 | the invariant holds at the start |
| `Search.PushVisits` | 6.824lab/src/porcupine/checker.go:193-200 | every push lowers the finite number of reachable configurations not yet cached |
| `Linearizability.LinearizationIsCompletePartial` | 6.824lab/src/porcupine/checker.go:239-247 | the linearizations are exactly the partial linearizations that contain every operation |
| `Checker.Run.TryCall` | 6.824lab/src/porcupine/checker.go:189-208 | a call at the cursor is pushed when the model allows it and the configuration is new, and skipped otherwise; all structures stay in step; a push lowers the measure, a skip moves the cursor on |
| `Checker.Run.Push` | 6.824lab/src/porcupine/checker.go:196-202 | cache, stack, state, bit set, list and cursor after linearizing an operation all stand for the pushed search state |
| `Checker.Run.Skip` | 6.824lab/src/porcupine/checker.go:203-208 | only the cursor moves, forward |
| `Checker.Run.Backtrack` | 6.824lab/src/porcupine/checker.go:209-237 | the top operation is taken back everywhere and the cursor goes behind its call; the cache stays |
| `Checker.RecordLongest` | 6.824lab/src/porcupine/checker.go:213-229 | exactly the operations on the stack with a shorter answer or none get the stack as their answer |
| `Checker.MakeLinkedEntries` | 6.824lab/src/porcupine/checker.go:116-133 | the list is well linked, has one fresh node per entry in order, and every call points to its return |
| `LinkedEntries.InsertBefore` | 6.824lab/src/porcupine/checker.go:65-76 | inserting before a mark, or with no mark, yields the linked list with the node in that place |
| `LinkedEntries.Length` | 6.824lab/src/porcupine/checker.go:78-85 | counts the nodes of the list |
| `LinkedEntries.EntryList.Lift` | 6.824lab/src/porcupine/checker.go:154-162 | the list loses exactly the call and its return, and the lifted nodes keep what is needed to put them back |
| `LinkedEntries.EntryList.Unlift` | 6.824lab/src/porcupine/checker.go:164-172 | the pair lifted last goes back, and the list is linked as it was before that lift |
| `Positions.ListAfterLift` | 6.824lab/src/porcupine/checker.go:154-172 | the list is always the entries minus the operations on the stack |
| `StateCache.Cache.Contains` | 6.824lab/src/porcupine/checker.go:140-147 | the lookup in one bucket agrees with membership in a plain set of (set of ids, state) pairs |
| `StateCache.Cache.Add` | 6.824lab/src/porcupine/checker.go:196-197 | adds the pair to that set; the cached bit set is never written again |
| `Words.WordExtensional` | 6.824lab/src/porcupine/bitset.go:62-72 | 64-bit words with the same bits are the same word |
| `Words.SetBit` | 6.824lab/src/porcupine/bitset.go:29-33 | or with 1 << k sets bit k of a 64-bit word and leaves the others |
| `Words.ClearBit` | 6.824lab/src/porcupine/bitset.go:35-39 | and-not with 1 << k clears bit k and leaves the others |
| `Bitset.MembersAppend` | 6.824lab/src/porcupine/bitset.go:46-52 | a further word adds as many members as it has 1 bits |
| `Bitset.NewBitset` | 6.824lab/src/porcupine/bitset.go:10-17 | an empty set with room for the given number of bits |
| `Bitset.Clone` | 6.824lab/src/porcupine/bitset.go:19-23 | a copy that later writes to the original do not reach |
| `Bitset.Set` | 6.824lab/src/porcupine/bitset.go:29-33 | adds one member and no other |
| `Bitset.Clear` | 6.824lab/src/porcupine/bitset.go:35-39 | removes one member and no other |
| `Bitset.Get` | 6.824lab/src/porcupine/bitset.go:41-44 | tells membership |
| `Bitset.Popcnt` | 6.824lab/src/porcupine/bitset.go:46-52 | the number of members |
| `Bitset.EqualMembersEqualHash` | 6.824lab/src/porcupine/bitset.go:54-60 | bit sets of one size with equal members have equal hashes |
| `Bitset.OneWordApart` | 6.824lab/src/porcupine/bitset.go:54-60 | bit sets of one size with equally many members that differ in one word have different hashes |
| `Bitset.Equals` | 6.824lab/src/porcupine/bitset.go:62-72 | true exactly for equal sizes and equal members |
| `Histories.MakeEntries` | 6.824lab/src/porcupine/checker.go:43-55 | the entries are well formed, ascend in time, each carries client, time and value of its operation, and together they describe operations with the same inputs, outputs and real-time order |
| `Histories.TiesMatter` | 6.824lab/src/porcupine/checker.go:53-53 | every outcome of the unstable sort is faithful if and only if Call < Return throughout and no call ties with a return |
| `Events.Renumber` | 6.824lab/src/porcupine/checker.go:87-101 | ids become 0, 1, 2 in order of appearance, and two events share an id afterwards exactly when they did before |
| `Events.ConvertEntries` | 6.824lab/src/porcupine/checker.go:103-114 | one entry per event, with its position as time and its client |
| `Events.EventsLayout` | 6.824lab/src/porcupine/checker.go:103-114 | complete events, renumbered and converted, are well-formed entries of the operations that the events describe |
| `Histories.Partition` | 6.824lab/src/models/kv.go:18-34 | one part per key that occurs, keys strictly sorted, each part the operations of its key in order |
| `KvModel.KeyHolds` | 6.824lab/src/models/kv.go:35-54 | after any order of operations a key holds what the last put wrote followed by what the appends after it added, or all appends if there was no put |
| `KvModel.LegalMeansGetsAreRight` | 6.824lab/src/models/kv.go:40-54 | an order is legal exactly when every get returns what the key holds at that point |
| `Locality.Locality` | 6.824lab/src/models/kv.go:18-54 | the whole history is linearizable for the map exactly when every key's part is linearizable for the single-key Init and Step |
| `Locality.StateSplits` | 6.824lab/src/models/kv.go:35-54 | the value of a key in the map after any order is the single-key state after the operations of that key |
| `Locality.LegalSplits` | 6.824lab/src/models/kv.go:40-54 | an order is legal for the map exactly when its restriction to every key is legal for the single-key model |
| `Locality.MergeOrders` | 6.824lab/src/porcupine/model.go:28-32 | legal per-key orders that respect real time merge into one order of the whole that does too |
| `Parallel.CheckParallel` | 6.824lab/src/porcupine/checker.go:269-348 | Illegal exactly when a result that arrives in time is of a partition that is not linearizable, Unknown exactly when not Illegal and the time ran out, Ok only if all partitions are linearizable; one group of reported lists per partition, all legal and distinct, and complete and of maximum length for every partition whose result arrived in time |
| `Parallel.UniquePartials` | 6.824lab/src/porcupine/checker.go:317-332 | the reported lists are exactly the answers that are not nil, each once |
| `Parallel.CheckOperations` | 6.824lab/src/porcupine/checker.go:360-368 | for any model without partitioning the answer is Unknown after a timeout, else Ok or Illegal as the history is linearizable or not; the reported lists are legal partial linearizations of the history, of maximum length without a timeout |
| `Parallel.CheckEvents` | 6.824lab/src/porcupine/checker.go:350-358 | the same for a history of events |
| `Visualization.Replay` | 6.824lab/src/porcupine/visualization.go:62-79 | the replay panics exactly when the list is not legal, and otherwise shows the state after each operation |
| `Visualization.ComputePartitionData` | 6.824lab/src/porcupine/visualization.go:33-87 | never panics on what the checker reports; shows every operation with client, start, end and description, every partial linearization with its states, and leads from each operation to a longest one with it |
| `RaftLog.Merge` | 6.824lab/src/raft/raft.go:309-319 | the merge loop computes the closed form: keep the log to the first conflict and take the leader's entries from there, else keep the longer log |
| `RaftLog.MergeAbsorbs` | 6.824lab/src/raft/raft.go:309-319 | merging a message again, or a delayed one with fewer of its entries, changes nothing |
| `RaftLog.MergeKeepsPrefix` | 6.824lab/src/raft/raft.go:309-319 | nothing up to PrevLogIndex is touched, and the result reaches at least to the end of the message |
| `RaftLog.MergeMatching` | 6.824lab/src/raft/raft.go:300-319 | for matching logs the result of a merge is the leader's log, or the follower's where that extends it |
| `RaftLog.FindXIndex` | 6.824lab/src/raft/raft.go:300-307 | the scan stays at index 1 or above and finds where the run of equal terms begins |
| `RaftLog.NextAfterRefusal` | 6.824lab/src/raft/raft.go:526-535 | the leader goes to the last index behind an entry of the reported term, or to the reported index |
| `RaftLog.RefusalMovesDown` | 6.824lab/src/raft/raft.go:296-307 | every refusal yields 1 <= new nextIndex < old nextIndex |
| `RaftBackup.BackupFinishes` | 6.824lab/src/raft/raft.go:500-543 | from every leader and matching follower of no higher term, at most nextIndex rounds make the leader's log a prefix of the follower's, with matchIndex and nextIndex at its end and the follower committed at least as far as a leader whose commitIndex is inside its log |
| `RaftBackup.StaysInLine` | 6.824lab/src/raft/raft.go:500-543 | further rounds keep it so |
| `RaftBackup.NextIndexStaysInside` | 6.824lab/src/raft/raft.go:526-543 | after a reply of any time, 1 <= nextIndex <= len(log) if and only if the reply is a success about entries that the leader still has, a refusal for an old term of a request not about index 0, or another refusal that reports no longer log |
| `RaftPeer.RequestVoteKeeps` | 6.824lab/src/raft/raft.go:174-198 | afterwards log, term and vote are on disk, the vote was written at most once in its term, and a grant means a vote for the candidate |
| `RaftPeer.VoteMeansUpToDate` | 6.824lab/src/raft/raft.go:191-211 | a vote is granted exactly when the voter is free for the candidate and the candidate's log is at least as up to date (section 5.4.1 of the extended Raft paper); the term of an old request plays no part |
| `RaftPeer.AppendEntriesKeeps` | 6.824lab/src/raft/raft.go:283-348 | afterwards everything is on disk and terms and votes are kept; success is exactly the consistency check; the log is the merged log or unchanged |
| `RaftPeer.CommitWithinMessage` | 6.824lab/src/raft/raft.go:326-332 | a message of a leader with commitIndex inside its log never raises the follower's past PrevLogIndex + len(Entries) |
| `RaftPeer.AdvanceNeedsMajority` | 6.824lab/src/raft/raft.go:549-571 | commitIndex only moves up, to an entry of the current term that a majority is known to hold |
| `RaftEffects.AdvanceExactly` | 6.824lab/src/raft/raft.go:549-571 | the commit index rises if and only if the leader itself and more than half of all servers are known to be past it and the smallest match index past it is an entry of the current term; it rises to that entry and nothing else changes |
| `RaftEffects.LeastPastExists` | 6.824lab/src/raft/raft.go:552-563 | such a smallest match index exists whenever the leader itself is past the commit index |
| `RaftEffects.ReplicatedMeansCommitted` | 6.824lab/src/raft/raft.go:549-571 | a last entry of the current term that a majority with the leader matched commits when the other servers are not past the commit index; no slow server stops it |
| `RaftEffects.AppendCommits` | 6.824lab/src/raft/raft.go:326-332 | an accepted message leaves commitIndex at max(old, min(leaderCommit, end of the new log)) if and only if it does not both cut the log below the old commitIndex and bring a higher one; otherwise it falls to the end of the log; a refused or old message leaves it alone |
| `RaftEffects.CommitFollowsLeader` | 6.824lab/src/raft/raft.go:326-332 | a message of a leader with commitIndex inside its log leaves an accepting follower at the larger of the two commit indices, with a log that reaches there |
| `RaftEffects.CommitCanFall` | 6.824lab/src/raft/raft.go:326-332 | a follower and a message after which commitIndex is lower than before |
| `RaftEffects.AppendAnswers` | 6.824lab/src/raft/raft.go:283-348 | the reply has the term afterwards; success exactly for a consistent message that is not old; a refusal reports the conflicting term and the first index of its run, or -1 and the length of the log |
| `RaftEffects.AppendCounts` | 6.824lab/src/raft/raft.go:309-345 | a follower that took entries sets its own matchIndex and nextIndex to the end of its new log, and a newer term leaves no vote |
| `RaftEffects.RequestTells` | 6.824lab/src/raft/raft.go:500-511 | log up to PrevLogIndex and entries of a request together are the leader's log; PrevLogIndex is the index before nextIndex |
| `RaftEffects.AppendReplyEffect` | 6.824lab/src/raft/raft.go:515-544 | a newer term makes a follower without a vote, on disk; a success records the end of the message; a refusal touches nextIndex only; a server that does not lead ignores replies |
| `RaftEffects.VoteComparesLogs` | 6.824lab/src/raft/raft.go:597-605 | the request that a candidate builds is granted if and only if the voter is free for it and the candidate's log has a later last term, or the same and is at least as long |
| `RaftEffects.VoteReplyTerm` | 6.824lab/src/raft/raft.go:174-198 | every reply carries the larger of the two terms, and only term, vote, role and disk change |
| `RaftEffects.VoteReplyEffect` | 6.824lab/src/raft/raft.go:610-618 | a grant is counted; a refusal of a newer term makes a follower of that term without a vote, on disk; any other refusal changes nothing |
| `RaftEffects.ElectionEffect` | 6.824lab/src/raft/raft.go:574-582 | the next term, the own vote on disk, and a count of one |
| `RaftEffects.PromotedByMajority` | 6.824lab/src/raft/raft.go:479-483 | a server leads after its turn if and only if it led before or counted more than half of all votes |
| `RaftEffects.StartEffect` | 6.824lab/src/raft/raft.go:398-406 | the new entry is the last, on disk, and the leader's own matchIndex and nextIndex follow it |
| `RaftEffects.BootEffect` | 6.824lab/src/raft/raft.go:635-664 | a server comes up as a follower with what was saved, or with the initial log, and nextIndex 1 and matchIndex 0 throughout |
| `RaftCluster.StepKeepsBase` | 6.824lab/src/raft/raft.go:112-147 | every step of every server, crashes included, keeps log, term and vote on disk, logs well formed, terms from going down and votes written once |
| `RaftElection.StepKeepsElection` | 6.824lab/src/raft/raft.go:574-622 | every disciplined step keeps: recorded votes are the servers' votes, counted votes are votes of the latest election counted once, and every leadership has a majority of votes |
| `RaftElection.ElectionSafety` | 6.824lab/src/raft/raft.go:474-486 | two servers on record as leaders of one term are one server, because two majorities of persisted votes meet |
| `RaftMatching.StepKeepsLog` | 6.824lab/src/raft/raft.go:283-333 | every disciplined step keeps: all logs there ever were match pairwise, and a leader holds every entry of its term |
| `RaftMatching.StartOwns` | 6.824lab/src/raft/raft.go:397-407 | an entry appended by a leader in its own term keeps log matching |
| `RaftRuns.RestartLosesNothing` | 6.824lab/src/raft/raft.go:112-147 | at every moment of every run a restart comes back with the current log, term and vote |
| `RaftRuns.VotesWrittenOnce` | 6.824lab/src/raft/raft.go:174-198 | over any stretch of any run with crashes, terms never go down and a vote in a term is written once |
| `RaftRuns.OneLeaderPerTerm` | 6.824lab/src/raft/raft.go:474-486 | in every disciplined run, leaders of one term at any two times are one server |
| `RaftRuns.LogsMatchAlways` | 6.824lab/src/raft/raft.go:283-333 | in every disciplined run, an equal index and term in the logs of any two servers at any two times means equal logs up to there |
| `RaftRaces.LateRefusal` | 6.824lab/src/raft/raft.go:526-535 | a disciplined run reaches a leader for which a late refusal for an old term sets nextIndex to 0, so that the next request would read before the log |
| `RaftRaces.RequestCanRace` | 6.824lab/src/raft/raft.go:182-195 | from a state that a disciplined run reaches, delivering a vote request of an old term, which is granted, then two disciplined steps, gives that term a second leader |
| `RaftRaces.ReplyCanRace` | 6.824lab/src/raft/raft.go:610-612 | from a state that a disciplined run reaches, counting a vote of an earlier election, then a promotion, gives a term two leaders |
| `RaftRaces.PromotionCanRace` | 6.824lab/src/raft/raft.go:479-483 | from a state that a disciplined run reaches, promoting a deposed candidate gives a term two leaders |
| `RaftRaces.StartCanRace` | 6.824lab/src/raft/raft.go:394-402 | from a state that a disciplined run reaches, an append after leadership was lost breaks log matching |
| `RaftApply.OrderedApply` | 6.824lab/src/raft/raft.go:350-372 | for every interleaving of any number of apply goroutines, the delivered indices are 1 to some K, none before its predecessor, lastApplied <= K, and lastApplied = K when all are done |
| `RaftApply.CommittedIsDelivered` | 6.824lab/src/raft/raft.go:350-372 | whenever all goroutines are done, every index up to every commit index so far has been delivered |
| `RaftApply.DeliversWhatWasCommitted` | 6.824lab/src/raft/raft.go:355-362 | every message delivered holds the command and the index of an entry of the log at a moment when it was committed |
| `RaftApply.DeliveredTwice` | 6.824lab/src/raft/raft.go:350-372 | an index can be delivered twice |
| `RaftApply.DeliveredOnce` | 6.824lab/src/raft/raft.go:350-372 | if no goroutine is started while another is at work, the deliveries are 1, 2, 3 and so on |
| `RaftApply.OnceIffPatient` | 6.824lab/src/raft/raft.go:350-372 | when all goroutines have finished, no index was delivered twice if and only if none was started while another was at work |
| `RaftServer.Raft.constructor` | 6.824lab/src/raft/raft.go:635-664 | a new server is what its persister holds, with fresh volatile state |
| `RaftServer.Raft.RequestVote` | 6.824lab/src/raft/raft.go:174-198 | the handler does to the fields what OnRequestVote says, and keeps the vote |
| `RaftServer.Raft.AppendEntries` | 6.824lab/src/raft/raft.go:283-348 | the handler with its scan and merge loops does to fields, arrays and disk what OnAppendEntries says, and starts an apply goroutine for the newly committed slice; it panics exactly when the commit index is past the backing array of the log, and then too everything is on disk |
| `RaftServer.Raft.SendApplyMsg` | 6.824lab/src/raft/raft.go:350-372 | starts a goroutine with the slice behind lastApplied up to commitIndex, or none; panics exactly when that slice does not fit in the backing array |
| `RaftServer.Raft.Append` | 6.824lab/src/raft/raft.go:398-406 | the second half of Start: the entry is at the returned index and on disk |
| `RaftServer.Raft.Start` | 6.824lab/src/raft/raft.go:388-410 | with nothing in between: a leader appends in its term and anyone else changes nothing |
| `RaftServer.Raft.StartElection` | 6.824lab/src/raft/raft.go:574-582 | a new term with the vote for itself, on disk |
| `RaftServer.Raft.BuildVoteRequest` | 6.824lab/src/raft/raft.go:597-605 | the request carries the current term and the end of the log |
| `RaftServer.Raft.CountVote` | 6.824lab/src/raft/raft.go:610-618 | a granted vote counts whatever its term; a refusal of a newer term makes a follower, on disk |
| `RaftServer.Raft.CandidateTurn` | 6.824lab/src/raft/raft.go:479-483 | promotion looks at the vote count only |
| `RaftServer.Raft.BuildAppendRequest` | 6.824lab/src/raft/raft.go:494-511 | a leader's request holds everything from nextIndex on; others send nothing |
| `RaftServer.Raft.HandleAppendReply` | 6.824lab/src/raft/raft.go:515-544 | step down, back up, or record the match, as OnAppendReply says |
| `RaftServer.Raft.AdvanceCommit` | 6.824lab/src/raft/raft.go:549-571 | the counting loop does what OnAdvanceCommit says, and starts an apply goroutine when the commit index rose |
| `RaftServer.Raft.SendNext` | 6.824lab/src/raft/raft.go:355-362 | a goroutine sends its next entry |
| `RaftServer.Raft.RaiseApplied` | 6.824lab/src/raft/raft.go:364-368 | lastApplied only goes up |
| `RaftServer.Persister.Copy` | 6.824lab/src/raft/persister.go:22-30 | a fresh persister with the same contents |
| `MapReduceJob.DistributedIsSequential` | 6.824lab/src/mr/worker.go:94-180 | for every input, every nReduce > 0 and every Reduce, correct outputs of all parts together have the same lines, each as often, as a correct sequential output |
| `MapReduceJob.EachKeyOnce` | 6.824lab/src/mr/worker.go:105-114 | a key that occurs has one line, in the part of its bucket |
| `MapReduceJob.GatheredIsPart` | 6.824lab/src/mr/worker.go:131-147 | splitting each file and gathering a bucket file by file is taking the bucket of everything |
| `MapReduceJob.OutputUnique` | 6.824lab/src/mr/worker.go:155-180 | there is only one correct output, down to the order of its lines, so executing a task again writes the same file |
| `MapReduceJob.OutputExists` | 6.824lab/src/mr/worker.go:155-180 | every list of pairs has a correct output |
| `MapReduceJob.FnvOfSomeStrings` | 6.824lab/src/mr/worker.go:38-42 | the hash has the published FNV-1a values for short strings |
| `MapReduceJob.SomeBuckets` | 6.824lab/src/mr/worker.go:38-42 | buckets of short strings, with the sign bit cut off |
| `MapReduceJob.OutputPermuted` | 6.824lab/src/mr/worker.go:155-155 | with an order-insensitive Reduce the output does not depend on how the sort orders equal keys |
| `MapReduceJob.OrderMatters` | 6.824lab/src/mr/worker.go:155-174 | with any other Reduce, two sorted orders of the same pairs have different outputs |
| `MapReduceJob.Split` | 6.824lab/src/mr/worker.go:94-114 | every bucket file gets exactly the pairs of its bucket, in order |
| `MapReduceJob.Group` | 6.824lab/src/mr/worker.go:164-180 | the grouping loops yield one line per key, in ascending order, with Reduce of all its values |
| `MapReduceJob.Reduce` | 6.824lab/src/mr/worker.go:126-185 | gather, sort and group yield the correct output of the gathered pairs |
| `MapReduceJob.Sequential` | 6.824lab/src/main/mrsequential.go:38-84 | the sequential program yields the correct output of everything that Map emits |
| `MapReduceMaster.TaskQueue.Pop` | 6.824lab/src/mr/master.go:37-52 | takes the last task; a queue that was never pushed to answers with an end task |
| `MapReduceMaster.TaskQueue.RemoveTask` | 6.824lab/src/mr/master.go:65-76 | in place, every task with these indices goes and the others stay in order |
| `MapReduceMaster.TaskQueue.TimeOutQueue` | 6.824lab/src/mr/master.go:189-203 | in place, the tasks out of time are taken out and returned in order |
| `MapReduceMaster.RemovedCount` | 6.824lab/src/mr/master.go:65-76 | removal takes every copy of a named task and leaves the count of every other |
| `MapReduceMaster.SelectedConserves` | 6.824lab/src/mr/master.go:189-203 | what is taken out and what is left are the whole queue, split by the timeout |
| `MapReduceMaster.AskAnswers` | 6.824lab/src/mr/master.go:90-117 | who asks gets the last queued reduce task, else the last queued map task, which is then running with the current time as stamp; wait if all tasks are running; end, with isDone set, exactly when all queues are empty |
| `MapReduceMaster.ReportEffect` | 6.824lab/src/mr/master.go:119-136 | a report takes every copy of its task from running and no other; a map report that leaves no map task queues one reduce task per part behind the others |
| `MapReduceMaster.CollectEffect` | 6.824lab/src/mr/master.go:205-227 | every copy of a task out of time moves from running to queued, and no other |
| `MapReduceMaster.Master.constructor` | 6.824lab/src/mr/master.go:234-248 | one map task per file, queued |
| `MapReduceMaster.Master.AskTask` | 6.824lab/src/mr/master.go:90-117 | reduce tasks first, then map tasks, moved to running with a new stamp; end and isDone only when all queues are empty, else wait |
| `MapReduceMaster.Master.TaskDone` | 6.824lab/src/mr/master.go:119-136 | a report takes the task from running; the report that leaves no map task queued or running makes the reduce tasks |
| `MapReduceMaster.Master.CreateReduceTask` | 6.824lab/src/mr/master.go:138-147 | one task per part, queued |
| `MapReduceMaster.Master.Collect` | 6.824lab/src/mr/master.go:205-227 | late tasks go from running back to queued |
| `MapReduceRuns.StepKeeps` | 6.824lab/src/mr/master.go:90-147 | every step of master and workers keeps the invariant behind the next three rows |
| `MapReduceRuns.TasksAreSafe` | 6.824lab/src/mr/master.go:119-147 | at every moment of every run each file's map task is queued or running at most once, and done with only when mapped; no reduce task exists before all mr-i-p files hold the right content |
| `MapReduceRuns.DoneMeansSequential` | 6.824lab/src/mr/master.go:109-112 | once isDone is set, all mr-out files exist and together equal the sequential output, each key in one part |
| `MapReduceProgress.DoneExactly` | 6.824lab/src/mr/master.go:109-112 | in every run the master becomes done in exactly the steps in which a worker asks while all queues are empty |
| `MapReduceProgress.AskedOnARun` | 6.824lab/src/mr/master.go:90-117 | in every run a worker that asks gets a job exactly when a task is queued: a queued reduce task first, else a map task, then running with the time of asking as its stamp |
| `MapReduceProgress.CanAlwaysFinish` | 6.824lab/src/mr/master.go:90-147 | every run, with whatever crashes, timeouts and late reports, can be continued to one that ends with isDone |
| `MapReduceProgress.SomeRunFinishes` | 6.824lab/src/mr/master.go:109-112 | for every configuration with files and parts there is a run that ends with isDone |
| `MapReduceRuns.AnotherBatch` | 6.824lab/src/mr/master.go:119-147 | once the maps are done, a report makes another batch of reduce tasks if and only if it is a report of a map task |
| `MapReduceRuns.SecondBatch` | 6.824lab/src/mr/master.go:119-147 | a run with a timeout and two reports of one map task, after which one part has two reduce tasks |
| `MapReduceRuns.OutputsStay` | 6.824lab/src/mr/master.go:205-227 | an mr-out file, once written, never changes, however often its task is executed again |
| `MapReduceRuns.ReadsNeverFail` | 6.824lab/src/mr/worker.go:132-147 | a reduce worker never misses an intermediate file |

## Left out

- labrpc and labgob: the network is a set of messages that may be delivered any number of times or never, and persistence is a lossless copy.
- kvraft, shardkv and shardmaster, the test harnesses, the mrapps plugins and the small programs in main: no logic of their own to prove.
- Raft Leader Completeness and cluster-wide commit safety: they do not follow, because matchIndex is not reset when a server becomes leader.
- Timers, sleeps and random timeouts: every timeout is a choice of the run; that a run does go on is not modelled.
- `CandidateTurn` in a cluster may happen to any server that is not leader, where the code has read the state Candidate some time before; the model has more runs than the code.
- Panics of a Raft server in a cluster: a step that would read outside the log, for a nextIndex or PrevLogIndex that does not fit, is not taken; `RaftRaces.LateRefusal` shows one way to get there.
- A run to a late success about a log that was cut since: `RaftBackup.NextIndexStaysInside` covers such replies, but no run that leads to one is given.
- A run to a request of a leader whose commit index is past its log: `RaftEffects.AppendCommits` covers it, and `RaftEffects.CommitCanFall` has a follower and a message, but no run that leads to them is given.
- Custom `Equal` functions of a model: states are compared with `==`, as `ShallowEqual` does.
- `unique partials`: the collector tells answers apart by contents, where the source compares pointers.
- HTML and JSON of the visualization; how operations and states are described is a parameter.
- The bit count of a word, a library function, counts its bits one by one.
- CheckParallel: with no partitions and no timeout the source waits for ever; `Schedule.For` asks for a timeout in that case.
- RaftServer.Raft.AppendEntries: asks for a message that a leader with a well-formed log built; what lies behind the log in its backing array is a parameter.
- RaftServer.Raft.SendApplyMsg: the slice is a copy; that its backing array may be overwritten by later appends is not modelled, and the delivered indices do not depend on it.
- RaftServer.Raft.HandleAppendReply: asks that PrevLogIndex is inside the log in the one branch that reads it; the source would panic there otherwise.
- RaftServer.Raft.Append: asks for a term of at least 1, which every leader has.
- RaftServer.Raft.Start: models the call with nothing between its two halves; the cluster has the halves apart.
- RaftServer.Persister.Copy: snapshots are copied but not otherwise used.
- MapReduceMaster.Master.AskTask: each handler and each pass of the collector is one atomic step; races between the separate queue locks are not modelled.
- Files, JSON, plugins and sockets of MapReduce: files are maps from names to contents with atomic renames; an input file that cannot be read ends the worker and so takes no step.
- MapReduceJob.Split: the hash is taken over the low bytes of the characters, which is UTF-8 for ASCII keys only.
