# A verified model of a Raft stack

The repository is a stack of replicated services written in Go: a Raft library, a key/value
server and a shard controller on top of it, a MapReduce engine, and a copy of the Porcupine
linearizability checker used to judge the services' histories.  This project models the parts of
it whose correctness is not visible in any one function, and proves for all inputs, all runs or
all reachable states what those parts promise.  `dafny verify dfyconfig.toml` checks everything.

**Raft** (`RaftLog`, `CommitRule`, `RaftCore*`, `RaftNode`, `RaftPeer`, `RaftSystem*`,
`RaftServiceSteps`, `RaftSafety`, `RaftHandlers`, `RaftLogMatching`, `RaftMatch`, `RaftWitness`).  Three layers.  `RaftPeer.Raft` is the object with
its log compacted behind a dummy head, updated in place, one method per critical section; each
method is proved equal to a handler of `RaftNode` on the full log, and to leave the persisted
term, vote and log equal to the ones in memory.  `RaftSystem` is the whole cluster: any number of
servers, fifteen kinds of step, messages that may be lost, delayed, reordered or handled again,
snapshots, and crashes at any moment.  `RaftCore` is the protocol with history variables (who led
each term with which log, every vote, every acknowledgement), on which the safety argument is made.
The invariant includes what `CondInstallSnapshot` leaves behind: it keeps entries above a snapshot
without comparing terms, which section 7 of "In Search of an Understandable Consensus Algorithm
(Extended Version)" requires, so logs are not always monotone; state machine safety, leader
completeness and election safety are proved of the code as it is, log matching for every run in which
each install passes that comparison, and concrete runs show what happens when one does not.  A follower's conflict hint is the index below the run of the conflicting term, where
the comment beside it speaks of the run's first index; the model follows the code.

**Porcupine** (`Linearizability`, `Search`, `SearchProgress`, `DancingLinks`, `CheckerList`,
`Bitset`, `Checker`).  `checkSingle` is proved to decide linearizability: the search over values is
sound and complete, the heap list follows it through every lift and unlift, the hashed cache
answers as a plain set, the loop ends, and the longest partial linearizations are longest.

**Checking one key at a time** (`SubHistories`, `KvModel`, `Sorting`, `HistoryCheck`).  The locality
theorem the model's `Partition` must satisfy, and the verdict of `checkOperations` on a key/value
history: linearizable for the whole store.  The code treats every operation other than 0 and 1 as
an append, although its comment names only 2; the model follows the code.

**The shard rebalancer** (`ShardDeal`, `ShardOptimal`, `ShardConfigs`, `ShardRules`, `ShardDetails`,
`ShardCtrler`).
Termination, balance, conservation, minimality and independence of map iteration order.  Gid 0
and the sentinel -1 are modelled as the code treats them, so the theorems say exactly when every
shard keeps a live owner.

**The replicated key/value service** (`KvTypes`, `KvServer`, `ExactlyOnce`, `KvContents`, `KvReplication`).
Deduplication, snapshots and restarts, on their own and over every run of the cluster.

**MapReduce** (`MrData`, `MrShuffle`, `MrCoordinator`, `MrJob`, `MrCompletion`).  Every run of fetches, executions,
reports and timeouts that ends leaves the lines of the sequential program, and some run of every job
with inputs ends.

Sources of nondeterminism (timers, the network, goroutine and map iteration order, the order a
library sort gives to equal elements) are choices of the environment in the runs, or parameters.

## Model

| member | source | states |
|---|---|---|
| `RaftSafety.StateMachineSafety` | src/raft/raft.go:633-656 | In every run, no two servers at any two moments deliver different entries at the same index. |
| `RaftSafety.LeaderCompleteness` | src/raft/raft.go:491-508 | What any server considers committed is in the log of every leader of a later term, at every moment of a run. |
| `RaftSafety.ElectionSafety` | src/raft/raft.go:314-348 | At most one server ever leads a term, through crashes and restarts, at whatever two moments. |
| `RaftLogMatching.LogMatching` | src/raft/raft.go:207-238 | In every state of a run whose installs pass the comparison the code leaves out, entries of equal index and term have identical prefixes. |
| `RaftLogMatching.LogsMonotone` | src/raft/raft.go:540-547 | In the same runs every log is index-contiguous and its terms never fall. |
| `RaftLogMatching.SoundIffInstallsAgree` | src/raft/raft.go:117-142 | Every log stays an agreeing copy of its terms' leaders' logs throughout a run exactly when every install in the run passes that comparison. |
| `RaftLogMatching.CommittedLogMatching` | src/raft/raft.go:491-518 | Up to their commit indices any two logs agree and are monotone in every run, whatever was installed. |
| `RaftSafety.InstallSoundIff` | src/raft/raft.go:117-142 | A snapshot install keeps a log sound exactly when nothing is kept above the snapshot or the entry at its index has the snapshot's term. |
| `RaftWitness.UncheckedInstallBreaksLogMatching` | src/raft/raft.go:124-131 | A run of five servers that ends with an install after which terms fall in one log and two logs hold an entry of equal index and term above different entries. |
| `RaftWitness.CommitZ` | src/raft/raft.go:491-508 | A run in which two leaders are elected in different terms and the second commits an entry. |
| `RaftWitness.MatchIndexOverestimates` | src/raft/raft.go:430-435 | A run in which a replaced leader still counts an index above its commit index that the peer, now in a later term, has lost. |
| `RaftSafety.TruncatesOnlyOnConflict` | src/raft/raft.go:226-234 | AppendEntries drops or overwrites an entry exactly when some shipped entry conflicts with the log; stale and repeated requests shorten nothing. |
| `RaftSafety.CommittedForever` | src/raft/raft.go:180-238 | What a server considers committed stays in its log for the rest of the run. |
| `RaftSafety.NeverOutOfBounds` | src/raft/raft.go:405-417 | No step the environment can attempt in any run indexes a log slice out of bounds. |
| `RaftSafety.ActionsFitMethods` | src/raft/raft.go:144-155 | In every run each call meets the precondition of the Raft object's method; in particular only committed entries are compacted and snapshot messages name the prefix they encode. |
| `RaftSafety.AdvanceCommitsLargest` | src/raft/raft.go:491-508 | Testing only the order statistic commits exactly the largest index that the rule of Figure 2 allows. |
| `RaftSafety.EqualLengthEqualHistory` | src/raft/raft.go:633-656 | Services that have absorbed equally many entries have absorbed the same entries. |
| `RaftSafety.ServiceSeesConsecutiveIndices` | src/kvraft/server.go:105-112 | The service is offered an index it has applied already or exactly the next one. |
| `RaftSafety.StepKeeps` | src/raft/raft.go:157-254 | Every step of every server keeps the cluster's invariant. |
| `RaftSafety.RunKeeps` | src/raft/raft.go:157-254 | The invariant holds in every state of every run. |
| `RaftSafety.StepIsInBounds` | src/raft/raft.go:226-237 | In a state satisfying the invariant every enabled step is within bounds. |
| `RaftSafety.StepKeepsCommitted` | src/raft/raft.go:117-142 | No step drops a committed entry a log holds. |
| `RaftMatch.MatchIndexTruthful` | src/raft/raft.go:430-435 | Between a leader's commit index and matchIndex[p], peer p holds the leader's entries, unless it has moved to a later term whose leader lacked them. |
| `RaftMatch.MatchIndexInTerm` | src/raft/raft.go:430-435 | A peer still in the leader's term holds the leader's whole log up to a matchIndex above the commit index. |
| `RaftMatch.AnswerVouched` | src/raft/raft.go:207-238 | A server answers success only if it then holds everything the request accounts for. |
| `RaftMatch.SnapshotsBelow` | src/raft/raft.go:458-467 | A snapshot reply processed while its leader still leads records an index at or below the commit index. |
| `RaftMatch.WinsFreshTerm` | src/raft/raft.go:330-337 | A candidate that counts a majority is the first leader of its term. |
| `RaftHandlers.SomebodyElectable` | src/raft/raft.go:528-533 | Among any servers there is one for which all the others vote as soon as it asks in a term they have not reached, so the vote check never blocks an election. |
| `RaftHandlers.LogsComparable` | src/raft/raft.go:528-533 | Of any two logs one is at least as recent as the other. |
| `RaftHandlers.VoteGrantedIff` | src/raft/raft.go:157-178 | A vote is granted exactly when the voter is free in that term and the candidate's last entry is of a later term, or of the same term and not before the voter's; a newer term is adopted whatever the answer. |
| `RaftHandlers.TimeoutAsks` | src/raft/raft.go:612-621 | A timeout asks for votes in the next term with exactly the server's own last entry. |
| `RaftHandlers.VoteReplyOutcome` | src/raft/raft.go:324-344 | A candidate leads exactly when a granted vote of its term makes more than half, and steps down exactly when refused by a later term. |
| `RaftHandlers.FollowerCatchesUp` | src/raft/raft.go:405-417 | A follower that accepts the request a leader makes now holds the leader's whole log and knows as committed all that the leader does. |
| `RaftHandlers.AppendAnswerIff` | src/raft/raft.go:180-238 | A request succeeds exactly when it is of no older term and its previous entry is in the log above the base with that term. |
| `RaftHandlers.MergeOutcome` | src/raft/raft.go:226-234 | The log keeps everything before the first shipped entry it lacks or contradicts, and from there on is what was shipped. |
| `RaftHandlers.RefusalHints` | src/raft/raft.go:208-224 | A refusal names the log's end, or the conflicting term and the last index before its run. |
| `RaftHandlers.AppendReplyOutcome` | src/raft/raft.go:430-456 | A reply of the leader's term is recorded, backs up, or deposes the leader, by what it says; any other is ignored. |
| `RaftHandlers.BackUpOutcome` | src/raft/raft.go:443-453 | After a conflict the leader goes on after its own last entry of the conflicting term. |
| `RaftHandlers.BackUpOtherwise` | src/raft/raft.go:442-446 | If it has none, it goes on where the follower says. |
| `RaftHandlers.SnapshotRequestOutcome` | src/raft/raft.go:240-271 | A snapshot is handed over exactly when it is of no older term and past the commit index. |
| `RaftHandlers.SnapshotReplyOutcome` | src/raft/raft.go:458-467 | A reply of the leader's term deposes it if later and otherwise records the snapshot's index. |
| `RaftHandlers.InstallOutcome` | src/raft/raft.go:117-142 | A snapshot is installed exactly when past the commit index; then the log begins with it and is unchanged above it. |
| `RaftHandlers.RestartOutcome` | src/raft/raft.go:84-102 | After a restart only term, vote, log and base are as before. |
| `RaftHandlers.StartOutcome` | src/raft/raft.go:540-547 | A command is appended at the next index in the leader's term, and the leader counts itself. |
| `RaftCoreSteps.WinKeeps` | src/raft/raft.go:330-337 | Becoming leader with a quorum of votes keeps the protocol invariant. |
| `RaftCoreSteps.WinnerContains` | src/raft/raft.go:163-178 | The winner's log contains everything that is committed or could still be. |
| `RaftCoreSteps.GrantKeeps` | src/raft/raft.go:157-178 | Granting a vote to an up-to-date candidate keeps the invariant. |
| `RaftCoreSteps.AppendKeeps` | src/raft/raft.go:540-547 | A leader's new entry keeps the invariant. |
| `RaftCoreSteps.AcceptKeeps` | src/raft/raft.go:226-237 | Merging shipped entries and acknowledging them keeps the invariant. |
| `RaftCoreSteps.InstallKeeps` | src/raft/raft.go:117-142 | Installing a committed snapshot above whatever suffix is there keeps the invariant. |
| `RaftCoreSteps.CommitKeeps` | src/raft/raft.go:491-518 | Raising a commit index to a committed prefix keeps the invariant. |
| `RaftCoreSteps.CrashKeeps` | src/raft/raft.go:84-102 | Losing everything but term, vote, log and snapshot keeps the invariant. |
| `RaftCoreSteps.RaiseKeeps` | src/raft/raft.go:193-195 | Adopting a newer term keeps the invariant. |
| `RaftCoreSteps.StartCampaignKeeps` | src/raft/raft.go:314-320 | Starting an election keeps the invariant. |
| `RaftCoreFacts.SafesAgree` | src/raft/raft.go:491-508 | Two committed prefixes are prefixes of one another. |
| `RaftSystemSteps.AppendRequestKeeps` | src/raft/raft.go:180-238 | Handling an AppendEntries request, however old, keeps the cluster's invariant. |
| `RaftSystemSteps.VoteRequestKeeps` | src/raft/raft.go:157-178 | Handling a RequestVote request keeps the cluster's invariant. |
| `RaftSystemSteps.VoteReplyKeeps` | src/raft/raft.go:324-348 | Counting a reply keeps it, because a count is a set of distinct voters. |
| `RaftSystemSteps.AppendReplyKeeps` | src/raft/raft.go:430-456 | Processing an AppendEntries reply keeps the cluster's invariant. |
| `RaftSystemSteps.TimeoutKeeps` | src/raft/raft.go:612-621 | An election timeout at any moment keeps the cluster's invariant. |
| `RaftSystemSteps.SendAppendKeeps` | src/raft/raft.go:365-393 | Sending a request keeps it: the request ships a suffix of its leader's log. |
| `RaftSystemSteps.ClientStartKeeps` | src/raft/raft.go:577-598 | Accepting a command keeps it. |
| `RaftSystemSteps.ShippedIsSafe` | src/raft/raft.go:511-518 | Min(leaderCommit, last index) is committed because a request ships the leader's whole suffix. |
| `RaftServiceSteps.ServeCommandKeeps` | src/kvraft/server.go:105-138 | Delivering a command to the service, and compacting after it, keeps the cluster's invariant. |
| `RaftServiceSteps.ServeSnapshotKeeps` | src/kvraft/server.go:139-146 | Offering a snapshot to the service keeps it, accepted or not. |
| `RaftServiceSteps.RebootKeeps` | src/raft/raft.go:84-102 | A crash and restart keeps it. |
| `RaftServiceSteps.SendSnapshotKeeps` | src/raft/raft.go:419-428 | Sending a snapshot keeps the cluster's invariant: its prefix is committed. |
| `RaftServiceSteps.SnapshotRequestKeeps` | src/raft/raft.go:240-271 | Receiving a snapshot keeps it. |
| `RaftServiceSteps.SnapshotReplyKeeps` | src/raft/raft.go:458-467 | Recording a snapshot reply before anything is installed keeps it. |
| `RaftServiceSteps.CollectKeeps` | src/raft/raft.go:633-642 | Copying committed entries out keeps it. |
| `RaftServiceSteps.FinishKeeps` | src/raft/raft.go:652-654 | Raising lastApplied after delivery keeps it, whatever happened meanwhile. |
| `RaftPeer.Raft.constructor` | src/raft/raft.go:680-710 | A fresh peer is the initial node. |
| `RaftPeer.Raft.ReadPersist` | src/raft/raft.go:84-102 | Restart restores exactly term, vote and log, and starts at the log's base. |
| `RaftPeer.Raft.Persist` | src/raft/raft.go:77-79 | Afterwards the persister holds the term, vote and log in memory. |
| `RaftPeer.Raft.ElectionTimeout` | src/raft/raft.go:314-323 | A timeout starts an election in the next term, persisted before the request is sent. |
| `RaftPeer.Raft.RequestVote` | src/raft/raft.go:157-178 | On the compacted log the handler acts as on the full log, term and vote are persisted, and the vote is granted exactly when the voter is free and the candidate's last entry is at least as recent. |
| `RaftPeer.Raft.ReceiveVote` | src/raft/raft.go:324-348 | Counting a vote acts as on the full log and persists a newer term. |
| `RaftPeer.Raft.AppendEntries` | src/raft/raft.go:180-238 | With offset indices the handler acts as on the full log, including conflict hints, and what it changes is persisted. |
| `RaftPeer.Raft.MergeLog` | src/raft/raft.go:226-234 | The first shipped entry that is missing or conflicts replaces everything from its index on, in the full log. |
| `RaftPeer.Raft.Conflict` | src/raft/raft.go:207-224 | The hint is the log's end, or the index below the run of the conflicting term. |
| `RaftPeer.Raft.GenAppendEntriesRequest` | src/raft/raft.go:405-417 | The request ships the full log's suffix after prevLogIndex. |
| `RaftPeer.Raft.AdvanceCommitIndexForLeader` | src/raft/raft.go:491-508 | The leader advances to the highest index a majority matches, if of its term. |
| `RaftPeer.Raft.AdvanceCommitIndexForFollower` | src/raft/raft.go:511-518 | The follower advances to Min(leaderCommit, last index), never back. |
| `RaftPeer.Raft.HandleAppendEntriesResponse` | src/raft/raft.go:430-456 | Recording, backing up or stepping down acts as on the full log. |
| `RaftPeer.Raft.BackUpNextIndex` | src/raft/raft.go:443-453 | nextIndex becomes the last index of the conflicting term plus one, or the hint. |
| `RaftPeer.Raft.BecomeLeader` | src/raft/raft.go:469-489 | A new leader knows nothing of its peers and starts from its log's end. |
| `RaftPeer.Raft.Start` | src/raft/raft.go:577-598 | Only a leader appends; the command gets the index after the last and is persisted. |
| `RaftPeer.Raft.Snapshot` | src/raft/raft.go:144-155 | Discarding entries changes nothing but the base, and leaves a well-formed peer exactly when no more than the committed entries is discarded. |
| `RaftPeer.Raft.InstallSnapshot` | src/raft/raft.go:240-271 | Only a snapshot past the commit index is handed to the service; newer terms are persisted. |
| `RaftPeer.Raft.HandleInstallSnapshotResponse` | src/raft/raft.go:458-467 | The reply steps the leader down or records the snapshot's index. |
| `RaftPeer.Raft.CondInstallSnapshot` | src/raft/raft.go:117-142 | A snapshot past the commit index replaces the prefix of the full log and nothing above it. |
| `RaftPeer.Raft.CollectCommitted` | src/raft/raft.go:633-642 | What is delivered is the full log between lastApplied and commitIndex. |
| `RaftPeer.Raft.FinishDelivery` | src/raft/raft.go:652-654 | lastApplied never falls. |
| `RaftPeer.Raft.GenInstallSnapshotRequest` | src/raft/raft.go:419-428 | The request carries the term, the leader, the base of the full log with its term, and the persisted snapshot. |
| `CommitRule.InsertionSort` | src/raft/util.go:125-132 | The array ends sorted and a permutation of itself. |
| `CommitRule.MajorityIndex` | src/raft/raft.go:491-500 | The entry read off the sorted copy is the highest index a strict majority reaches, for every cluster size. |
| `CommitRule.OrderStatistic` | src/raft/raft.go:491-500 | Any sorted permutation has that index at position n-(n/2+1). |
| `Checker.CheckSingle` | src/porcupine/checker.go:179-253 | True exactly when some order of all operations respects real time and the model; otherwise, if asked, the longest partial linearization through each operation, none if there is none. A search stopped by the kill flag never wrongly says true and has recorded valid partial linearizations only. |
| `Checker.MakeLinkedEntries` | src/porcupine/checker.go:121-138 | The nodes carry the entries in order and each call points to its return. |
| `Checker.CacheContains` | src/porcupine/checker.go:145-152 | Looking in one hash bucket answers as membership in the plain set of configurations would. |
| `Checker.CacheAdd` | src/porcupine/checker.go:201-202 | Adding to the bucket adds exactly that configuration to the set. |
| `Checker.RecordAttempt` | src/porcupine/checker.go:219-234 | Each operation on the stack keeps the longer of its record and this attempt. |
| `Checker.Push` | src/porcupine/checker.go:200-207 | Entering a new configuration keeps heap, cache, stack and search in step and makes progress. |
| `Checker.Backtrack` | src/porcupine/checker.go:235-241 | Giving up the last operation restores the list exactly and makes progress. |
| `Checker.Skip` | src/porcupine/checker.go:208-213 | Moving past a call keeps heap, stack and search in step and makes progress. |
| `Checker.TryCall` | src/porcupine/checker.go:194-213 | A call is linearized exactly when the model allows it and the configuration is new. |
| `Checker.Explore` | src/porcupine/checker.go:190-252 | The loop ends with the verdict on the history. |
| `Checker.InsertBefore` | src/porcupine/checker.go:70-81 | The node comes to stand directly before the mark, anywhere in the list; without a mark it stays alone. |
| `Checker.LiftUndone` | src/porcupine/checker.go:159-177 | In stack order, unlift restores every next and prev field. |
| `Search.ExhaustedMeansNone` | src/porcupine/checker.go:215-217 | A return under the scan with an empty stack means there is no linearization. |
| `Search.ClosedCovers` | src/porcupine/checker.go:189-243 | When the search fails every partial linearization leads to a cached configuration. |
| `Search.CompleteMeansFound` | src/porcupine/checker.go:244-252 | An empty list means the stack is a linearization. |
| `Search.PushKeeps` | src/porcupine/checker.go:197-207 | Linearizing the scanned call keeps the search invariant, including that cached configurations off the path are fully explored. |
| `Search.SkipKeeps` | src/porcupine/checker.go:208-213 | Skipping a refused or cached call keeps it. |
| `Search.PopKeeps` | src/porcupine/checker.go:235-241 | Backtracking keeps it, because the configuration left is fully explored. |
| `SearchProgress.ExhaustedRecord` | src/porcupine/checker.go:218-234 | The record then holds, for each operation, a longest partial linearization through it. |
| `SearchProgress.PushProgresses` | src/porcupine/checker.go:189-243 | A push lowers the measure that ends the loop. |
| `SearchProgress.SkipProgresses` | src/porcupine/checker.go:189-243 | A skip lowers it. |
| `SearchProgress.PopProgresses` | src/porcupine/checker.go:189-243 | A pop lowers it. |
| `DancingLinks.UnliftRestores` | src/porcupine/checker.go:159-177 | Unlifting what was lifted from a proper list gives back the same links. |
| `DancingLinks.LiftKeepsList` | src/porcupine/checker.go:159-167 | Lifting leaves a proper list of the remaining nodes in their original order. |
| `CheckerList.Lift` | src/porcupine/checker.go:159-167 | The heap fields change as the links do, at the list's end too. |
| `CheckerList.Unlift` | src/porcupine/checker.go:169-177 | The heap fields change back as the links do. |
| `CheckerList.Detach` | src/porcupine/checker.go:159-167 | One node is unlinked from its neighbours and keeps its own fields. |
| `CheckerList.Reattach` | src/porcupine/checker.go:169-177 | Its neighbours are linked to it again. |
| `CheckerList.NextSkipsNothing` | src/porcupine/checker.go:209-213 | Following next never passes an outstanding entry. |
| `Bitset.MembersDecide` | src/porcupine/bitset.go:62-72 | Bitsets of equal length are equal exactly when they hold the same members. |
| `Bitset.Set` | src/porcupine/bitset.go:29-33 | Exactly that member is added, in place. |
| `Bitset.Clear` | src/porcupine/bitset.go:35-39 | Exactly that member is removed, in place. |
| `Bitset.NewBitset` | src/porcupine/bitset.go:10-17 | Enough empty words for the given number of bits. |
| `Bitset.Clone` | src/porcupine/bitset.go:19-23 | A fresh copy. |
| `Bitset.Equals` | src/porcupine/bitset.go:62-72 | The comparison decides equality of length and members. |
| `Linearizability.CompletePartial` | src/porcupine/checker.go:189-252 | Placing minimal operations one at a time until all are placed is linearizing, and conversely. |
| `KvModel.Locality` | src/porcupine/model.go:28-32 | A history over any keys is linearizable for the whole store exactly when every key's sub-history is for that key alone. |
| `KvContents.LinearizableIffExplainable` | src/models/kv.go:40-54 | A history is linearizable for the store exactly when some order of its operations respects real time and has every get return the last put to its key followed by the later appends. |
| `KvContents.StoreHolds` | src/models/kv.go:40-54 | In every accepted order each key holds the value of its last put followed by the values of the later appends, or of all appends. |
| `KvContents.AcceptedIff` | src/models/kv.go:44-53 | A write is always accepted, and a get exactly when its output is that string. |
| `KvContents.ModelMatchesServer` | src/models/kv.go:40-54 | The model moves the store as the server does and accepts a get exactly with the server's answer. |
| `KvModel.KeysGiveWhole` | src/models/kv.go:18-54 | Linearizations of the keys merge into one of the store. |
| `KvModel.WholeGivesKey` | src/models/kv.go:18-54 | A linearization of the store restricts to one of each key. |
| `KvModel.MergeQueues` | src/models/kv.go:18-54 | Per-key orders can be interleaved respecting real time across keys. |
| `KvModel.StoreGivesKeys` | src/models/kv.go:40-54 | An order the store accepts is accepted by each key, which ends with the store's value. |
| `KvModel.KeysGiveStore` | src/models/kv.go:40-54 | An order each key accepts is accepted by the store. |
| `KvModel.Partition` | src/models/kv.go:18-34 | One part per key that occurs, in increasing order of keys, each with that key's operations in history order. |
| `KvModel.PartitionUnique` | src/models/kv.go:24-33 | There is only one such partition, so map iteration order never shows. |
| `Sorting.StringLessMeans` | src/models/kv.go:28 | Keys are sorted lexicographically: at the first difference one ends or has the smaller character. |
| `KvModel.PartsDecide` | src/models/kv.go:18-34 | Keys that do not occur never matter. |
| `HistoryCheck.MakeEntries` | src/porcupine/checker.go:48-60 | The entries are the calls and returns of all operations, sorted by time, calls first at equal times. |
| `HistoryCheck.EntriesKeepVerdict` | src/porcupine/checker.go:39-60 | Any such sort gives a well-formed list with the history's verdict. |
| `HistoryCheck.SortKeepsPrecedence` | src/porcupine/checker.go:39-46 | Returned before called, in time and in the list, are the same. |
| `HistoryCheck.CheckParallel` | src/porcupine/checker.go:274-353 | Ok means every partition is linearizable and Illegal that some is not, in whatever order results arrive, however early the loop stops and wherever searches are killed; Unknown only if the timeout fires first. The partial linearizations reported are valid and, without a timeout, longest. |
| `HistoryCheck.RecordsShown` | src/porcupine/visualization.go:62-70 | Every partial linearization handed to the visualization can be replayed without a refused step. |
| `HistoryCheck.CheckOperations` | src/porcupine/checker.go:365-373 | Checking the parts decides whether some order of the whole key/value history respects real time and explains every get by the writes before it: neither verdict is ever wrong, and there is one unless the timeout fires. |
| `SubHistories.SelectionLinearizable` | src/porcupine/model.go:28-32 | A sub-history is linearizable exactly when its operations can be ordered within the whole. |
| `SubHistories.SameOrderSameVerdict` | src/porcupine/checker.go:39-60 | Only the order of the timestamps matters. |
| `ShardDeal.GetGIDWithMaximumShards` | src/shardctrler/configStateMachine.go:128-147 | The result is the unique source: 0 while it holds shards, else the smallest gid among the fullest, in any iteration order. |
| `ShardDeal.GetGIDWithMinimumShards` | src/shardctrler/configStateMachine.go:149-163 | The result is the smallest nonzero gid among the emptiest, or -1. |
| `ShardDeal.MovedOnce` | src/shardctrler/configStateMachine.go:38-45 | The shard that moves still has its original owner. |
| `ShardDeal.MoveKeeps` | src/shardctrler/configStateMachine.go:38-45 | Each round keeps givers near the top, receivers near the bottom, and no giver below a receiver. |
| `ShardDeal.SettledBalanced` | src/shardctrler/configStateMachine.go:38-45 | When the loop stops, 0 holds nothing and loads differ by at most one. |
| `ShardDeal.MovesCountChanges` | src/shardctrler/configStateMachine.go:38-45 | The number of rounds is the number of shards that change owner. |
| `ShardDeal.NeverEmptied` | src/shardctrler/configStateMachine.go:38-45 | A nonzero owner, dead or alive, is never left without shards. |
| `ShardOptimal.MovesFewest` | src/shardctrler/configStateMachine.go:36-45 | No balanced assignment to the same groups changes the owner of fewer shards. |
| `ShardRules.JoinServesIff` | src/shardctrler/configStateMachine.go:22-57 | After Join every shard has a live owner exactly when some group is live and every earlier owner was live or 0. |
| `ShardRules.EmptyJoinLosesShards` | src/shardctrler/configStateMachine.go:38-45 | A first Join of no groups gives every shard to -1. |
| `ShardRules.JoinBalances` | src/shardctrler/configStateMachine.go:22-57 | Otherwise the loads differ by at most one. |
| `ShardRules.JoinMovesFewest` | src/shardctrler/configStateMachine.go:36-54 | Join changes the owner of the fewest shards possible. |
| `ShardRules.JoinMovesEachOnce` | src/shardctrler/configStateMachine.go:36-45 | Join's loop ends within NShards rounds and moves no shard twice. |
| `ShardRules.JoinFillsNewcomers` | src/shardctrler/configStateMachine.go:36-54 | From an even configuration shards move only onto newly joined groups. |
| `ShardRules.LeaveMovesOnlyOrphans` | src/shardctrler/configStateMachine.go:59-90 | Leave moves exactly the shards of leaving groups, to live groups if there are any. |
| `ShardRules.LeaveKeepsSpread` | src/shardctrler/configStateMachine.go:76-80 | Leave does not widen the spread of the loads; even stays even. |
| `ShardRules.ServedIffLegal` | src/shardctrler/configStateMachine.go:22-98 | From a served configuration each operation leads to a served one exactly when it leaves or targets a live group. |
| `ShardRules.RunServes` | src/shardctrler/configStateMachine.go:22-98 | Over every legal run every configuration serves every shard, Join leaves it even and Leave keeps it even. |
| `ShardRules.HistoryFixed` | src/shardctrler/configStateMachine.go:54-57 | Configurations once made never change. |
| `ShardDetails.MoveChangesOne` | src/shardctrler/configStateMachine.go:92-98 | Move gives the named shard to the named group and leaves all other shards and all groups alone. |
| `ShardDetails.RunMoves` | src/shardctrler/configStateMachine.go:92-98 | Over every run the configuration after a Move differs at most in the named shard. |
| `ShardDetails.RunGroups` | src/shardctrler/configStateMachine.go:28-34 | Over every run Join adds exactly the new groups and changes nobody's servers, Leave removes exactly the named groups, Move none. |
| `ShardDetails.JoinMovesLowest` | src/shardctrler/configStateMachine.go:43-44 | Join takes the lowest shards of a group first. |
| `ShardDetails.OrphansInOrder` | src/shardctrler/configStateMachine.go:63-73 | Orphans are placed group by group as the groups are named, lower shards first. |
| `ShardDetails.PlacedAtEmptiest` | src/shardctrler/configStateMachine.go:77-80 | Each orphan goes to the group that is emptiest once the orphans before it are placed. |
| `ShardDetails.LastLeave` | src/shardctrler/configStateMachine.go:74-87 | When the last groups leave, every shard goes to 0. |
| `ShardCtrler.Group2Shards` | src/shardctrler/configStateMachine.go:117-126 | Every group has its shards in increasing order, owners outside the groups included. |
| `ShardCtrler.NewShards` | src/shardctrler/configStateMachine.go:47-53 | Writing the lists back gives each shard its owner, in any iteration order. |
| `ShardCtrler.Balance` | src/shardctrler/configStateMachine.go:38-45 | The loop terminates with the rebalanced lists. |
| `ShardCtrler.Place` | src/shardctrler/configStateMachine.go:77-80 | Each orphan goes to the emptiest group of the moment. |
| `ShardCtrler.AddGroups` | src/shardctrler/configStateMachine.go:28-34 | New gids are added and present ones keep their servers, in any iteration order. |
| `ShardCtrler.RemoveGroups` | src/shardctrler/configStateMachine.go:63-73 | The named groups and their lists are gone and their shards are the orphans, repeated gids counting once. |
| `ShardCtrler.MemoryConfigStateMachine.constructor` | src/shardctrler/configStateMachine.go:16-20 | Configuration 0 has no groups and gives every shard to 0. |
| `ShardCtrler.MemoryConfigStateMachine.Join` | src/shardctrler/configStateMachine.go:22-57 | One configuration is appended, determined by the last one and the groups; numbers stay consecutive. |
| `ShardCtrler.MemoryConfigStateMachine.Leave` | src/shardctrler/configStateMachine.go:59-90 | Likewise for Leave. |
| `ShardCtrler.MemoryConfigStateMachine.Move` | src/shardctrler/configStateMachine.go:92-98 | Likewise for Move, which changes one shard. |
| `ShardCtrler.MemoryConfigStateMachine.Query` | src/shardctrler/configStateMachine.go:100-105 | The configuration with that number, or the latest. |
| `ExactlyOnce.ExactlyOnceIff` | src/kvraft/server.go:105-125 | The writes that take effect are the first copies of all distinct writes exactly when each client's first copies are in its order. |
| `ExactlyOnce.ReplayIsPlainReplay` | src/kvraft/server.go:115-125 | The store is then that of executing each distinct write once. |
| `ExactlyOnce.StoreIsEffective` | src/kvraft/server.go:115-125 | In any log the store is that of the effective writes alone. |
| `ExactlyOnce.TableIsMaximum` | src/kvraft/server.go:84-87 | lastOperations holds each client's largest write. |
| `ExactlyOnce.EffectiveInOrder` | src/kvraft/server.go:84-87 | Effective writes of one client are in increasing order, in any log. |
| `ExactlyOnce.LateWriteIsLost` | src/kvraft/server.go:84-87 | A first copy behind a later write of its client is dropped. |
| `KvContents.PlainHolds` | src/kvraft/KVStateMachine.go:17-32 | Executing a log leaves in each key its last put followed by the later appends, and nothing in keys no write names. |
| `KvContents.AnswerMeans` | src/kvraft/server.go:154-166 | A get is answered with what its key holds, and with ErrNoKey exactly when nothing wrote the key; writes are answered OK. |
| `KvContents.RememberedAnswers` | src/kvraft/server.go:117-124 | The answer remembered for a duplicate is the plain OK of a write. |
| `KvReplication.ReplicasReplayLog` | src/kvraft/server.go:101-194 | In every run each replica's store and table are the replay of the log prefix absorbed, through redelivery, snapshots and restarts. |
| `KvReplication.ReplicasAgree` | src/kvraft/server.go:101-194 | Replicas that absorbed equally many entries hold the same state. |
| `KvReplication.ReplicaExactlyOnce` | src/kvraft/server.go:101-125 | With clients' first copies in order, a replica executed each distinct write once, and each key holds the last such put followed by the later such appends. |
| `KvReplication.ReplicaHolds` | src/kvraft/server.go:101-125 | In every run each key of a replica holds the last effective put to it followed by the later effective appends, and no other key is in its store. |
| `KvReplication.ReplicaAnswers` | src/kvraft/server.go:154-166 | In every run a get is answered with exactly that, and with ErrNoKey exactly when no effective write to its key came before. |
| `KvReplication.ReplicaFollowsLog` | src/kvraft/server.go:101-247 | Each message, snapshot and restart moves the replica as it moves the absorbed prefix, and snapshots encode the state they are taken in. |
| `KvServer.KVServer.Apply` | src/kvraft/server.go:105-146 | One message is skipped, applied once or installed; its answer is the stored one for a duplicate. |
| `KvServer.KVServer.ApplyLogToStateMachine` | src/kvraft/server.go:154-166 | The store changes as the command says and the answer reflects the store before it. |
| `KvServer.KVServer.RestoreSnapshot` | src/kvraft/server.go:180-194 | The snapshot replaces store and table; none changes nothing. |
| `KvServer.KVServer.constructor` | src/kvraft/server.go:231-247 | A server starts from its snapshot with lastApplied 0. |
| `KvServer.MemoryKV.Get` | src/kvraft/KVStateMachine.go:17-22 | The value, or the empty string with ErrNoKey. |
| `KvServer.MemoryKV.Put` | src/kvraft/KVStateMachine.go:24-27 | The key holds the value and no other key changes. |
| `KvServer.MemoryKV.Append` | src/kvraft/KVStateMachine.go:29-32 | Appending to an absent key starts from the empty string. |
| `MrJob.JobMeansSequential` | src/mr/coordinator.go:188-194 | When Done holds in any run, all output files exist and together are the multiset of lines of the sequential program. |
| `MrJob.ReducesWaitForMaps` | src/mr/coordinator.go:61-87 | No reduce task is handed out before all maps are finished, and its input files exist. |
| `MrJob.FetchAnswers` | src/mr/coordinator.go:56-90 | Over every run of a job with inputs a fetch says that all is finished exactly when every task is, and then all output files exist; nothing exactly when the current phase has no task left to hand out; otherwise it hands out the first free task of that phase. |
| `MrJob.FinishedStays` | src/mr/coordinator.go:126-154 | Finished tasks and a finished job stay finished. |
| `MrCompletion.CompletesIffInputs` | src/mr/coordinator.go:126-154 | Some run of a job ends exactly when the job has inputs. |
| `MrCompletion.EmptyJobNeverDone` | src/mr/coordinator.go:131-140 | A job without inputs never ends. |
| `MrJob.StepKeeps` | src/mr/coordinator.go:56-166 | Every fetch, file written, execution, report and timeout keeps the job's invariant, also when a worker stops between its files. |
| `MrShuffle.BucketsCoverJob` | src/mr/worker.go:86-94 | The buckets' lines add up to the sequential lines. |
| `MrShuffle.ReducerReference` | src/mr/worker.go:141-159 | A reducer's merged files have the meaning of its share of the mapped pairs. |
| `MrShuffle.AnySortSameLines` | src/mr/worker.go:159-181 | Whatever the sort does to equal keys, the lines are the same for an order-insensitive reduce. |
| `MrShuffle.DoMapperTask` | src/mr/worker.go:73-116 | File r is a sorted permutation of the emitted pairs whose hash falls to r. |
| `MrShuffle.Shuffle` | src/mr/worker.go:89-94 | Bucket r holds exactly the pairs whose hash falls to r, in the order emitted. |
| `MrShuffle.BucketOfOne` | src/mr/worker.go:91-94 | A pair goes to the reducer named by its key's hash modulo the number of reducers. |
| `MrShuffle.BucketConcat` | src/mr/worker.go:91-94 | Pairs keep their order in a bucket. |
| `MrShuffle.DoReducerTask` | src/mr/worker.go:141-186 | The lines are those of some sort of the merged files. |
| `MrShuffle.Sequential` | src/main/mrsequential.go:41-87 | The lines are those of some sort of all emitted pairs. |
| `MrData.GroupAndReduce` | src/mr/worker.go:167-181 | One line per key, in key order, reducing all its values. |
| `MrData.CollectRun` | src/mr/worker.go:170-177 | The scan collects exactly the values of the run of equal keys. |
| `MrData.ReportsReference` | src/main/mrsequential.go:71-87 | As a multiset the lines are one per key with all its values. |
| `MrCoordinator.Coordinator.FetchTask` | src/mr/coordinator.go:56-90 | Given at least one task of each kind, the answer is determined by the task lists: finished, nothing to hand out, or the first free task of the unfinished phase, which becomes assigned. |
| `MrCoordinator.Coordinator.constructor` | src/mr/coordinator.go:201-228 | All tasks start unassigned and unfinished. |
| `MrCoordinator.FinishTask` | src/mr/coordinator.go:131-140 | The scan finishes at most the reported task and says whether all are finished. |
| `MrCoordinator.Coordinator.UpdateTask` | src/mr/coordinator.go:126-154 | A report finishes a task that is assigned and unfinished; the phase is flagged finished exactly when all its tasks are. |
| `MrCoordinator.Coordinator.MapperTimeout` | src/mr/coordinator.go:104-113 | A timeout takes back an unfinished map task. |
| `MrCoordinator.Coordinator.ReducerTimeout` | src/mr/coordinator.go:115-124 | A timeout takes back an unfinished reduce task. |
| `MrCoordinator.TimedOutIsFree` | src/mr/coordinator.go:104-124 | A task its timer takes back can be handed out again, at the latest after the free ones before it. |
| `MrCoordinator.Coordinator.Done` | src/mr/coordinator.go:188-194 | True exactly when every map and every reduce task is finished, given at least one of each. |

## Left out

- Raft liveness: timers, back-off of nextIndex and whether a follower catches up; a rejection with term 0 (src/raft/raft.go:201-205) is ignored by the leader.
- RaftLogMatching.LogMatching: does not cover runs with an install that fails the omitted comparison, because there it is false, as UncheckedInstallBreaksLogMatching shows; CommittedLogMatching still holds in them.
- RaftMatch.MatchIndexTruthful: does not promise that a peer in a later term still holds the entry, because that is false, as MatchIndexOverestimates shows; MatchIndexInTerm covers peers in the leader's term.
- RaftPeer.Raft.CondInstallSnapshot: takes the snapshot's bytes as the log prefix they encode; encoding and decoding are the identity.
- The commands in the Raft log are fixed to those of the key/value service.
- Notification channels of the key/value and shard servers: waiters are keyed by index only, so which client gets which answer is not claimed; the order of a client's first copies in the log is therefore a hypothesis of the exactly-once theorems.
- KvServer.KVServer.Apply: does not model duplicate detection before a request enters the log, nor the client's retry loop.
- Checker.CheckSingle: a state's Equal is equality, and histories have one call before one return per id.
- Bitset words are sets of bit positions below 64, and the hash works on those sets.
- HistoryCheck.CheckParallel: goroutines are an arbitrary arrival order of verdicts; without partitions it needs a timeout, since the loop otherwise waits for ever.
- HistoryCheck.CheckOperations: needs every return to be no earlier than its call; for other histories the list of entries has calls without a matching return.
- checkEvents, renumber and convertEntries, which differ from makeEntries only in how ids and times are assigned.
- MrJob.JobMeansSequential: needs a reduce function that ignores the order of its values, and the create-write-rename sequence of one file is one atomic step, because duplicate workers share a temporary file name.
- MrShuffle.DoMapperTask: a line is a pair of key and output; formatting, JSON and sockets are not modelled.
- src/shardkv, which is unfinished, and the shard controller's server, which repeats the key/value server's deduplication without snapshots.
- labrpc, labgob and Persister bytes, shrinkEntriesArray, visualization, random ids and real time.
