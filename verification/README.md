# A verified model of SpotLess

SpotLess runs many instances of a rotating-leader, chained consensus protocol side
by side and merges the batches they commit into one execution order. This project
models its core in Dafny and proves what the code relies on: that votes cannot
disagree, that every view advances once, that the chain commits gaplessly, that
slots execute in order, and that the queue, the table, the wire format and the
output path underneath do their work.

The files fall into groups.

* **Consensus.** `Cluster` has the group and slot arithmetic, `Certificate` and
  `CertStore` the certificates and the commit walk, `VoteManager` the counting of
  votes, `VoteShares` the signature shares kept with them, `FaultVoters` the votes against a view, `Replica` the message handlers as
  transitions on values, and `Worker` the same handlers as methods on mutable
  state, each proved to carry out its transition. `System` is a group of replicas
  over a network that reorders, repeats and loses messages, some of them faulty.
  `Agreement`, `AdvanceOnce`, `Outcome`, `Leader`, `Pipeline`, `Monotone`,
  `Signatures`, `EnoughShares`, `Resurrection` and `Filing` hold the theorems over
  runs; `LateProposal` builds a family of runs, one for every view, and `MisledLeader`,
  `SelfParent` and `TwoParents` one run each, in which a promise fails.
* **Scheduling.** `Executor` interleaves the enqueue lines of execute messages with
  the lines of the executor, `GenesisEntry` adds the messages that belong to no slot;
  `BatchQueue` binds client batches to slots; `Timers` are the timers with their cache.
* **Structures.** `LockFreeQueue` interleaves any number of threads at single reads,
  writes and swaps, `DequeueCall` follows a whole call through such a run; `TxnTable` is the table of linked lists; `QuickSort` the in-place
  sort of the statistics.
* **Wire.** `Bytes`, `Wire`, `Messages` and `Framing` are the byte layout; `Output`
  and `Delivery` go from the output queue to what a receiver decodes. `Sequences` holds
  the notions all of them share.

Where the source changes things in place the model does too: classes with `modifies`
clauses, loops, arrays. Each such method is tied to a function on values, or to a
property of the new state, and the theorems are about those. Concurrent code is a
state machine whose steps are single shared accesses.

## Findings

* **A wakeup can be lost, and then for ever** (`Executor.WakeupCanBeLost`). If the
  executor pops the heap before the message it has just executed was pushed on it, it
  removes another slot's entry, and a later message waits for a token that never comes.
  A double post (the executor and the enqueuer both wake slot k) provides the spare token
  that makes this possible. As long as every heap pop finds the executed slot and only
  slots' messages arrive, no wakeup is lost (`NoLostWakeup`); the first pop that does not can always be continued to a
  state in which the executor is stuck (`LatePushLosesWakeup`) and from which, whatever
  arrives, nothing is executed any more (`StuckForever`); the pop loses a wakeup at once
  exactly if the next message is fully enqueued and no token is spare (`LostIffLate`).
* **The genesis entry's execute message can stall the executor**
  (`GenesisEntry.StuckIffWentDry`). The first commit hands the genesis entry over, under an
  identifier that wraps around and belongs to no slot (`GenesisIsNoSlot`), and its message
  is enqueued. With any number of such messages among the arrivals, and every heap pop in
  time, the executor is stuck exactly if at some point it took one of them instead of the
  message of the expected slot, which was enqueued completely, while no other token was
  there or on its way. For every number of queues, whichever of them the identifier selects,
  that happens in a run where the message arrives first (`GenesisEntryStalls`): the slots
  before that queue's first run, and nothing runs after (`NothingRunsAfter`). As long as it
  does not happen no wakeup is lost (`NoLostWakeupIfNotDry`).
* **A dequeue can miss a value** (`LockFreeQueue.DequeueMayMissCompletedEnqueue`). With
  the node of a completed enqueue waiting, a dequeue that loads its tail reports an empty
  queue exactly if an enqueue stands between its head swap on an empty queue and its tail
  store and no dequeue is about to clear the tail (`DequeueMissesIff`); what others do
  afterwards no longer matters (`EmptyIsDecided`). A whole call returns empty-handed exactly
  if its last load of the tail was such a one or nothing waited (`DequeueCall.CallReturnsEmptyIff`);
  a race it loses is always followed by another load (`LostRaceLoadsAgain`). Order and
  exactly-once are not affected.
* **A committed block can come back, whatever its view**
  (`LateProposal.CommittedBlockComesBack`). The end of a view files the certificate of its
  own block without comparing it with the lock, and stamps it with the view it ends. For
  every view there is a run of three correct replicas in which one of them gives up on that
  view with the leader's message taken up and the quorum counted, catches up, and commits
  and erases the view's block; the late proposal then ends a later view and files that block
  again, above view 0 with a certificate above the lock, so that the next leader message may
  extend it. `Resurrection` says exactly when a block that is gone comes back (`BackIff`),
  over every run and with no assumption on the views in certificates: when a late proposal
  (slot not executed, leader's message taken up, quorum counted, hashes agree), a late vote
  (it completes the quorum and the other two are there) or a late leader message
  (`LateLeaderIff`) ends a view with it, or a leader message that extends it is taken up,
  and no commit of the same step takes it out.
* **When it cannot.** A slot is closed for good once the view was advanced on it
  (`AdvancedIsClosed`), or it is executed and proposal or leader's message is missing; mere
  execution does not close it, since votes are counted all the same (`ExecutedBackIff`).
  Once it is closed only a leader message brings the block back (`ClosedBackIff`), and none
  does if no certificate of the block anywhere is stamped at or above the lock
  (`NoResurrection`). If everyone who ended a view with the block had not left that view, a
  committed block never comes back, closed or not (`CommittedStaysGone`).
* **What an advance yields depends on the view it ends.** The certificate is the one the
  leader's message promised when it was taken up, and the next view the one after it,
  exactly if the view was not left in between (`Outcome.AsPromisedIff`); otherwise the
  order of proposal and votes does not matter (`OrderDoesNotMatter`). In the runs above
  the slot of one view ends another, three views later.
* **A slot can be handed over twice.** In the same runs the slot is handed over as the void
  slot of the view given up and again on commit. `Replica.GivingUpHandsOnceIff` and
  `CertStore.CommitHandsOnceIff` say exactly which steps repeat an identifier.
* **A block in its own ancestry is handed over twice in one commit**
  (`SelfParent.SelfParentIsHandedTwice`, with one faulty leader out of four).
  `CertStore.HandedOnceIff`: a walk repeats nothing exactly if no parent links lead from
  the block back to itself and the identifiers are distinct.
* **Foreign shares can stay** (`VoteManager.OwnVoteQuorumCanKeepForeignShare`): the
  clean-up of signature shares runs only when a received vote completes the quorum,
  not when the replica's own vote does. `OwnVoteQuorumIsCleanIff` is the exact condition.
* **A share may sign another certificate** (`TwoParents.ShareSignsOtherParent`). Shares sign
  the batch and the certificate it extends, and nobody compares them on forming a
  certificate. The share of a correct replica signs the certificate it is in exactly if the
  leader message the replica voted on names the same batch and parent
  (`Signatures.SharesSignIff`), always so if the leader sent one message for the slot
  (`SharesSign`). The next leader's certificate has a quorum of shares without faulty
  replicas, and otherwise lacks at most theirs (`EnoughShares.FollowerHasShares`).
* **A first timeout can shorten the timer** (`Timers.ReportShortensIff`): a report shortens a
  timer exactly if it is longer than the maximum, as the shipped initial length is.
* **A leader may not advance** (`AdvanceOnce.LeaderMissesOwnQuorum`): the leader's own
  handler never checks whether its vote completed the quorum. It is left complete and
  unadvanced exactly if the quorum was there before or is completed by its vote
  (`Leader.LeadMissesIff`), and then for ever (`MissedForever`). Without faulty replicas
  that happens exactly in groups whose quorum is one (`AllCorrectMissesIff`); with larger
  quorums and few faulty replicas only after a faulty leader of another view made a
  correct replica vote for the slot (`MissNeedsFaultyLeader`), which is possible with one
  faulty replica out of four (`MisledLeader.FaultyLeaderMakesMiss`).
* **The flush request is lost on copies** (`Delivery.ForcedVoteLosesFlush`): `force` is not
  on the wire, and all send threads but the last get a message that went through a buffer.
  A destination keeps the flush of a forced message that is no leader's exactly if its number
  leaves the remainder of the last send thread (`EnqueueForced`), the only one at which the
  message is still forced (`FlushSurvivesIff`).
* **A replica may start its search outside the queues** (`BatchQueue.Serve`): the first
  batch of a replica whose number is not below the number of instances is looked up with
  an index out of range.

## Model

| member | source | states |
|---|---|---|
| `Cluster.QuorumOverlapSize` | system/global.cpp:152-153 | two quorums overlap in f+1 replicas for n = 3f+1, but only in a third of the group otherwise |
| `Cluster.SharedCorrect` | system/global.cpp:152-154 | two duplicate-free quorums share a replica outside any faulty set smaller than 2nf-n |
| `Cluster.FirstLed` | system/parser.cpp:176-180 | the initial next view of a replica is one it leads |
| `Certificate.NewerIsMonotone` | system/global.cpp:668-671 | replacing a certificate never lowers the view exactly if no genesis mark sits above view 0 |
| `Certificate.SafeNodeIsAtOrAboveLock` | system/global.cpp:546-556 | what the safety rule admits is never older than the lock |
| `VoteManager.BookkeepingIsSound` | system/worker_thread.cpp:1070-1117 | after any sequence of votes the voter lists are duplicate-free and disjoint, the counter is their maximum and the quorum flag is exact |
| `VoteManager.CompletedQuorumIsClean` | system/worker_thread.cpp:1103-1113 | a quorum completed by a received vote has exactly nf voters of one batch, and the shares kept are exactly those collected from them, each as it was sent |
| `VoteManager.OwnVoteQuorumIsCleanIff` | system/txn.cpp:551-559 | a quorum completed by the own vote is clean exactly if no share of another batch was collected |
| `VoteManager.OwnVoteQuorumCanKeepForeignShare` | system/txn.cpp:551-559 | a run in which a foreign share stays |
| `VoteManager.TxnManager.NewViewed` | system/worker_thread.cpp:1070-1117 | the method counts a vote as the transition does, and reports completion exactly |
| `VoteManager.TxnManager.EraseForeignShares` | system/worker_thread.cpp:1105-1111 | the clean-up loop removes the shares of all voters of other batches and no others |
| `VoteManager.TxnManager.SendNewView` | system/txn.cpp:480-559 | the own vote is cast at most once and recorded as the transition does, with its share if this replica leads the next view |
| `VoteShares.SharesAreGifts` | system/worker_thread.cpp:1082-1113 | after any history a replica's share is held exactly if a counted vote brought it, or the own vote as the next leader, and no completed quorum of another batch dropped it since; the own share signs the batch and the certificate extended |
| `VoteShares.CompletedShares` | system/worker_thread.cpp:1103-1113 | when a received vote completes the quorum the shares are exactly those of the signed voters of its batch, each the one that was sent |
| `CertStore.ChainIsAncestry` | system/worker_thread.cpp:1183-1216 | the walk follows parent links through resident certificates, cyclic or not, and visits none twice |
| `CertStore.AncestryIsUnique` | system/worker_thread.cpp:1183-1216 | the links determine that list |
| `CertStore.CommitWalk` | system/worker_thread.cpp:1178-1226 | the walk hands over exactly the unbroken resident ancestry and then the block, erases them and leaves all else, and forgets the identifiers of exactly the ancestry and all hashes voted for in the block's slot |
| `CertStore.IdsOfDistinct` | system/worker_thread.cpp:1194-1203 | each ancestor is handed over under the identifier it was filed with |
| `CertStore.HandedOnceIff` | system/worker_thread.cpp:1178-1226 | the walk hands no identifier over twice exactly if no resident parent links lead from the block back to it and the identifiers of its ancestry are distinct |
| `CertStore.AncestorsAreChain` | system/worker_thread.cpp:1183-1216 | what the walk visits is exactly what parent links reach |
| `CertStore.CommitHandsOnceIff` | system/worker_thread.cpp:1178-1226 | after a commit every identifier was handed over at most once exactly if so before, the walk repeats nothing and none of its blocks was handed over earlier, for instance as void |
| `CertStore.UpdateErasesIff` | system/worker_thread.cpp:1178-1256 | a certificate is taken out exactly if the update commits and parent links lead to it from the block the walk starts from, or it is that block |
| `CertStore.CommitErasesBelowLockIff` | system/worker_thread.cpp:1228-1256 | a commit removes only certificates of views below the new lock exactly if those it reaches have such views in the map itself |
| `CertStore.CommittedIsBelowLock` | system/worker_thread.cpp:1228-1256 | the block committed is erased, and its view is below the new lock |
| `CertStore.UpdateMarksCommitted` | system/worker_thread.cpp:1228-1256 | a certificate an update keeps is unchanged, but that of the committed block is marked committed |
| `SelfParent.SelfParentIsHandedTwice` | system/worker_thread.cpp:1178-1226 | a run with one faulty leader out of four in which one commit hands a slot over twice |
| `Resurrection.CertifiedIff` | system/worker_thread_hotstuff.cpp:277-603 | in a step a block without certificate gets one exactly if a late proposal, vote or leader message ends the view with it, or a leader message that extends it is taken up, said of the state before, and no commit of the step takes it out |
| `Resurrection.BackIff` | system/worker_thread_hotstuff.cpp:579-603 | over every run, faulty replicas and failed views included and with any views in certificates, a block that is gone comes back in exactly those steps |
| `Resurrection.LateLeaderIff` | system/worker_thread_hotstuff.cpp:494-557 | over every run a leader message ends the view exactly if the proposal is there and the quorum is complete or lacks only the own vote |
| `Resurrection.NotSwept` | system/worker_thread.cpp:1178-1256 | a commit never takes out the block that made it if it starts from the block it commits and parent links do not run in circles |
| `Resurrection.LockAdmitsIff` | system/global.cpp:546-556 | over every run the lock admits a certificate exactly by the view stamped in it: above the lock, or at it with the locked block or a genesis lock |
| `Resurrection.RefusedBelowLock` | system/global.cpp:546-556 | a leader message whose certificate is stamped below the lock is refused now and at any later point |
| `Resurrection.AdvancedIsClosed` | system/worker_thread_hotstuff.cpp:579-603 | over every run the view cannot be advanced again on a manager it was advanced on |
| `Resurrection.ExecutedBackIff` | system/worker_thread_hotstuff.cpp:277-312 | over every run, while its slot is executed, a block comes back exactly by a vote that completes the quorum with the other two there, or by a leader message that extends it |
| `Resurrection.ClosedBackIff` | system/worker_thread_hotstuff.cpp:436-491 | over every run, once its slot is closed at a backup, a block comes back exactly by a leader message that extends it |
| `Resurrection.Origin` | system/worker_thread_hotstuff.cpp:579-603 | every certificate of a block, in any store or message, has a view that some correct replica stamped on forming it or a faulty one claimed |
| `Resurrection.NoResurrection` | system/worker_thread.cpp:1228-1256 | over every run a block that is gone at a backup whose slot is closed stays gone if no certificate of it is stamped at or above the lock |
| `Resurrection.LockBehindView` | system/worker_thread.cpp:1228-1256 | over every run the lock is never ahead of the current view |
| `Resurrection.OnTimeNeverBack` | system/worker_thread_hotstuff.cpp:579-603 | over every run a block that is gone and below the lock stays gone, its slot closed or not, if nobody ended a view with it after leaving that view |
| `Resurrection.CommittedIsGone` | system/worker_thread.cpp:1178-1256 | over every run a commit that starts from the block it commits leaves that block gone, with its view below the lock |
| `Resurrection.CommittedStaysGone` | system/worker_thread.cpp:1178-1256 | so it never comes back if nobody ended a view with it after leaving that view |
| `LateProposal.AllReach` | system/worker_thread_hotstuff.cpp:277-603 | in a group of three every view is reached by a run in which nobody gives up |
| `LateProposal.CommittedBlockComesBack` | system/worker_thread_hotstuff.cpp:436-491 | for every view a run of correct replicas in which the block of that view is committed, erased and filed again, its slot is handed over twice, and its manager ends a later view |
| `Filing.FiledIs` | system/worker_thread_hotstuff.cpp:277-491 | exactly which batch a step files under which slot (the first vote for it, an unfiled proposal, the own proposal) and which a commit of the step forgets |
| `Filing.FiledIff` | system/worker_thread.cpp:1091-1101 | over every run a batch is filed under a slot exactly if some vote or proposal filed it there and nothing refiled or forgot it since |
| `Filing.CommitForgetsVotes` | system/worker_thread.cpp:1218-1223 | over every run, right after a commit at the end of a view no hash voted for in the slot the walk starts from is filed |
| `Filing.ExtensionForgetsVotes` | system/worker_thread.cpp:1218-1223 | the same after a commit by the certificate of a leader message |
| `CertStore.CertTable.WalkAncestors` | system/worker_thread.cpp:1191-1216 | the loop terminates and leaves the store the walk describes |
| `CertStore.CertTable.CommitWalkFrom` | system/worker_thread.cpp:1178-1226 | the whole walk on the mutable maps equals the walk on values |
| `CertStore.CertTable.UpdateLockFrom` | system/worker_thread.cpp:1228-1256 | one, two and three consecutive views prepare, lock and commit on the mutable store |
| `FaultVoters.TableCountsDistinct` | system/fault_manager.cpp:4-17 | the table holds the distinct voters named so far, up to the quorum |
| `FaultVoters.ReachedOnce` | system/fault_manager.cpp:4-17 | after the quorum no voter is reported as completing it again |
| `FaultVoters.FaultVoters.AddVoter` | system/fault_manager.cpp:4-17 | the method adds a voter and reports the quorum-th distinct one |
| `Replica.CheckpointReleasesExecuted` | system/worker_thread.cpp:829-833 | what lies below the bound of a checkpoint was executed |
| `Replica.Collect` | system/worker_thread.cpp:836-873 | the release loops remove exactly the managers below the bound that the other thread does not hold, all executed, and change no other; nothing less than 16 batches for every replica behind the checkpoint goes |
| `Replica.GivingUpHandsOnceIff` | system/worker_thread_hotstuff.cpp:672-687 | giving up on a view repeats an identifier exactly if its slot was handed over already |
| `Worker.Worker.AdvanceView` | system/worker_thread_hotstuff.cpp:579-603 | forming the certificate, filing it, moving prepared and lock and beginning the view, on mutable state |
| `Worker.Worker.ProcessNewView` | system/worker_thread_hotstuff.cpp:277-312 | the handler of votes carries out its transition |
| `Worker.Worker.ProcessProposal` | system/worker_thread_hotstuff.cpp:436-491 | the handler of proposals carries out its transition |
| `Worker.Worker.ProcessGeneric` | system/worker_thread_hotstuff.cpp:494-557 | the handler of the leader's message carries out its transition and sends exactly its votes |
| `Worker.Worker.ProcessGenericP` | system/worker_thread_hotstuff.cpp:560-576 | the leader's own step |
| `Worker.Worker.CreateAndSend` | system/worker_thread_hotstuff.cpp:26-127 | the leader's proposal |
| `Worker.Worker.ProcessFailed` | system/worker_thread_hotstuff.cpp:672-687 | giving up on a view |
| `Agreement.VoteAgreement` | system/worker_thread.cpp:1070-1117 | with fewer than 2nf-n faulty replicas, no two correct replicas ever count quorums for different batches of a slot |
| `Agreement.OneVotePerSlot` | system/txn.cpp:480-483 | over whole runs with garbage collection a correct replica sends votes for at most one batch of a slot |
| `Agreement.VotedOnce` | system/txn.cpp:480-483 | at most one step of a run makes a correct replica vote for a slot, whatever is released in between |
| `AdvanceOnce.AdvanceExactlyOnce` | system/worker_thread_hotstuff.cpp:299-310 | no manager advances the view twice, and a backup has advanced exactly if quorum, proposal and leader message are all there |
| `Outcome.AdvanceYields` | system/worker_thread_hotstuff.cpp:579-603 | over every run an advance of a backup yields the certificate its leader message promises for the view it ends, and the next view |
| `Outcome.AsPromisedIff` | system/worker_thread_hotstuff.cpp:579-603 | that view is the one the message was taken up in exactly if it was not left in between |
| `Outcome.OrderDoesNotMatter` | system/worker_thread_hotstuff.cpp:579-603 | in any two runs or replicas, whatever the order of proposal, leader message and votes, the certificate and view are the same if the view is not left |
| `Outcome.VoteOfLeftViewIgnored` | system/worker_thread_hotstuff.cpp:277-312 | over every run a vote of a view the replica is past changes nothing any more |
| `Outcome.VoteForEndedSlotIgnored` | system/worker_thread_hotstuff.cpp:277-312 | while a view lasts, votes of it for the slot that ended the view before or for an earlier one change nothing |
| `Outcome.EndedByFormed` | system/worker_thread_hotstuff.cpp:579-603 | over every run that slot is the one the last certificate was formed on, in 32 bits |
| `Signatures.FormedSharesAreSigned` | system/txn.cpp:503-528 | over every run the share of a correct replica in a certificate is its own, only signature of that slot |
| `Signatures.SharesSignIff` | transport/message.cpp:1846-1853 | over every run it signs the certificate exactly if the leader message voted on names the batch and the parent of the certificate |
| `Signatures.SharesSign` | transport/message.cpp:1846-1853 | so always, at backups, if all leader messages for the slot agree |
| `TwoParents.ShareSignsOtherParent` | transport/message.cpp:1846-1853 | a run with a faulty leader in which the share of a correct replica signs another parent than its certificate |
| `EnoughShares.FollowerHasShares` | system/txn.cpp:506-528 | over every run in which faulty replicas send no leader messages for slots of others, the next leader's certificate has shares of a quorum but for faulty replicas |
| `EnoughShares.FollowerHasQuorum` | system/txn.cpp:506-528 | without faulty replicas it has at least nf shares |
| `AdvanceOnce.LeaderMissesOwnQuorum` | system/worker_thread_hotstuff.cpp:560-576 | a run of two correct replicas in which the leader has all three and does not advance |
| `Leader.LeadMissesIff` | system/worker_thread_hotstuff.cpp:560-576 | over every run the leader's step leaves its slot complete and unadvanced exactly if the quorum was there before its vote or is completed by it |
| `Leader.AllCorrectMissesIff` | system/worker_thread_hotstuff.cpp:560-576 | without faulty replicas that happens exactly if the quorum is one |
| `Leader.MissNeedsFaultyLeader` | system/worker_thread_hotstuff.cpp:494-576 | with fewer than 2nf-n faulty replicas and a larger quorum it happens only after a faulty leader of another view made a correct replica vote for the slot |
| `Leader.MissedForever` | system/worker_thread_hotstuff.cpp:299-310 | a slot missed so is never advanced on later |
| `Leader.LeadsEveryProposal` | system/work_queue_pvp.cpp:264-275 | over every run a replica takes one leader's step for every batch it proposed, up to those still owed |
| `MisledLeader.FaultyLeaderMakesMiss` | system/worker_thread_hotstuff.cpp:494-576 | a run in which one faulty replica out of four makes a leader miss its quorum |
| `Pipeline.PipelinedChain` | system/worker_thread.cpp:1228-1256 | whatever the order of arrival, in view v >= 3 prepared is the certificate of v-1, locked that of v-2, and exactly the slots of views 0..v-3 were handed over, in order, once each |
| `Pipeline.SameOrderEverywhere` | system/worker_thread.cpp:1178-1226 | of two replicas one has handed over a prefix of what the other has |
| `Monotone.MonotoneViewsAndLocks` | system/global.cpp:668-716 | over every run, failed views included, view, prepared view and locked view never go down and a lock is below prepared |
| `Monotone.GivenUpOnce` | system/worker_thread_hotstuff.cpp:672-687 | a replica gives up on a view at most once |
| `Monotone.GivesUpIff` | system/worker_thread_hotstuff.cpp:672-687 | over every run a view is given up exactly in the step that names its quorum-th distinct voter while it is not left |
| `LockFreeQueue.FifoExactlyOnce` | system/lock_free_queue.cpp:40-68 | over every interleaving dequeues win nodes in the order of the head swaps, and each is returned once |
| `LockFreeQueue.NothingDropped` | system/lock_free_queue.cpp:19-68 | when no call is under way the links lead from the tail through all nodes not returned to the head |
| `LockFreeQueue.HistoriesGrow` | system/lock_free_queue.cpp:19-68 | the order is never rewritten and a node keeps its value |
| `LockFreeQueue.TailReachableIff` | system/lock_free_queue.cpp:33-34 | with nodes waiting the tail is the first of them exactly if no enqueue stands before its tail store |
| `LockFreeQueue.DequeueMissesIff` | system/lock_free_queue.cpp:40-53 | with the node of a completed enqueue waiting, a dequeue finds the queue empty exactly if an enqueue stands before its tail store and no dequeue is about to clear the tail |
| `LockFreeQueue.EmptyIsDecided` | system/lock_free_queue.cpp:47-53 | such a dequeue returns empty-handed whatever the others do |
| `DequeueCall.CallReturns` | system/lock_free_queue.cpp:40-68 | over every run a call of dequeue returns the node its last load of the tail found, and empty-handed exactly if that found none; every load before found one |
| `DequeueCall.NoTailIff` | system/lock_free_queue.cpp:33-61 | over every run the tail is null exactly if no dequeue is about to clear it and nothing waits or an enqueue stands before its tail store |
| `DequeueCall.CallReturnsEmptyIff` | system/lock_free_queue.cpp:40-68 | so a whole call returns empty-handed exactly if that is so at its last load |
| `DequeueCall.LostRaceLoadsAgain` | system/lock_free_queue.cpp:54-63 | a failed swap, or a tail without successor that is not the head, changes nothing and is followed by another load |
| `LockFreeQueue.DequeueMayMissCompletedEnqueue` | system/lock_free_queue.cpp:47-53 | a run in which a dequeue misses the value of a completed enqueue |
| `LockFreeQueue.SoloEnqueue` | system/lock_free_queue.cpp:19-38 | undisturbed, an enqueue appends its value |
| `LockFreeQueue.SoloDequeue` | system/lock_free_queue.cpp:40-68 | undisturbed, a dequeue returns the oldest value or finds the queue empty |
| `Executor.SlotOfExecuteId` | system/work_queue_pvp.cpp:150-151 | the slot computed from an execute message's identifier is its slot |
| `Executor.ExecutesInOrder` | system/work_queue_pvp.cpp:226-232 | for every arrival order and interleaving slots execute gaplessly, in order, once each |
| `Executor.NoLostWakeup` | system/global.cpp:246-256 | as long as every heap pop is in time, and apart from the genesis entry's messages, an idle executor whose message is fully enqueued finds its tokens |
| `Executor.LostIffLate` | system/global.cpp:250-254 | with the next message enqueued and no spare token, the wakeup is lost exactly if the executed slot is not in the heap |
| `Executor.LatePushLosesWakeup` | system/global.cpp:250-254 | after a heap pop that is not in time some continuation leaves the executor stuck |
| `Executor.LatePushHappens` | system/work_queue_pvp.cpp:152-159 | such a pop is reachable |
| `Executor.WakeupCanBeLost` | system/work_queue_pvp.cpp:152-159 | a run from the start that leaves it stuck |
| `Executor.StuckForever` | system/work_queue_pvp.cpp:223-233 | a stuck executor executes nothing any more, whatever arrives |
| `GenesisEntry.GenesisIsNoSlot` | system/work_queue_pvp.cpp:150-151 | the wrapping arithmetic selects its own slot for every slot's message, and the genesis entry's identifier is none of theirs |
| `GenesisEntry.StuckIffWentDry` | system/work_queue_pvp.cpp:223-233 | over every run in time with any number of genesis messages, the executor is stuck exactly if it took one of them for a slot that was enqueued completely and no other token was there or on its way |
| `GenesisEntry.NoLostWakeupIfNotDry` | system/work_queue_pvp.cpp:152-159 | as long as that has not happened, an idle executor whose next message is fully enqueued finds its turn or will, and its work token once all posts are made |
| `GenesisEntry.NothingRunsAfter` | system/work_queue_pvp.cpp:223-233 | a stuck executor executes nothing any more, genesis messages included |
| `GenesisEntry.GenesisEntryStalls` | system/worker_thread.cpp:483-492 | for every batch size and number of queues a run from the start executes the slots before the queue that identifier selects and is then stuck |
| `TxnTable.Bucket.Find` | system/txn_table.cpp:105-115 | the search loop finds the node of a key exactly if there is one |
| `TxnTable.Bucket.PutTail` | system/helper.h:130-145 | appending keeps prev and next inverse, head, tail and count right |
| `TxnTable.Bucket.Unlink` | system/helper.h:163-179 | removal relinks the neighbours, and its two assertions hold |
| `TxnTable.TxnTable.GetTransactionManager` | system/txn_table.cpp:89-151 | the table stays well formed and its map gains the key exactly if it was missing |
| `TxnTable.TxnTable.ReleaseTransactionManager` | system/txn_table.cpp:153-200 | the map loses the key and nothing else |
| `TxnTable.Serve` | system/txn_table.cpp:89-200 | over any history two calls get the same manager exactly if they name the same key and nobody released it in between |
| `QuickSort.SharedCell` | statistics/stats_array.cpp:17-36 | the cell both recursive calls may share does no harm |
| `QuickSort.Partition` | statistics/stats_array.cpp:12-31 | the loop stays in bounds and splits the range up to one unclassified cell |
| `QuickSort.Quicksort` | statistics/stats_array.cpp:10-37 | terminates, stays in bounds, leaves a sorted rearrangement and touches nothing else |
| `Bytes.NumRoundTrip` | system/helper.h:207-217 | a fixed-width number is read back, whatever follows |
| `Wire.CertRoundTrip` | system/global.h:413-504 | a certificate is read back from its own bytes, up to the fields that are not on the wire |
| `Wire.CertSizeIsExact` | system/global.h:387-411 | its size is exactly the bytes written, before and after |
| `Messages.DecodesOwnBytes` | transport/message.cpp:1873-1934 | a Sync, Generic or Proposal is read back from its own bytes whatever follows |
| `Messages.SizeIsExact` | transport/message.cpp:1799-1821 | the size reported is exactly the bytes written, and the decoded copy reports the same |
| `Messages.BatchRoundTrip` | transport/message.cpp:2100-2110 | the nested requests of a proposal are read back, each from where the last one ended |
| `Messages.NextStartsAfterSize` | transport/message.cpp:28-30 | moving on by the reported size leads to the next message |
| `Messages.PacketRoundTrip` | transport/message.cpp:12-35 | a packet of any such messages decodes to the same messages in order |
| `Messages.CreateMessages` | transport/message.cpp:12-35 | the method decodes as the specification does, refusing a wrong address |
| `Messages.DeepCopy` | transport/message.cpp:1783-1788 | a deep copy equals the message up to the fields that are not on the wire |
| `Framing.DecodeAll` | transport/message.cpp:26-33 | the decoding loop, for any message type |
| `Output.Enqueue` | system/msg_queue.cpp:186-252 | which send threads get an entry, and what copy of it, with the destinations and signatures unchanged |
| `Output.EachDestinationOnce` | system/msg_queue.cpp:186-252 | every destination is served by exactly one thread, once per listing |
| `Output.MessageThread.SendBatch` | transport/msg_thread.cpp:38-47 | a buffer becomes one well-formed packet, and nothing given to a destination is lost |
| `Output.MessageThread.CheckAndSendBatches` | transport/msg_thread.cpp:27-36 | afterwards no buffer is full in number or asked for, nothing given is lost, and a buffer with an urgent message asks to be flushed |
| `Output.MessageThread.Append` | transport/msg_thread.cpp:129-146 | a message that fits an empty buffer is never refused and the buffer is never overrun |
| `Output.MessageThread.Run` | transport/msg_thread.cpp:102-151 | each destination in charge gets exactly its copies, in order |
| `Delivery.Transmit` | transport/msg_thread.cpp:102-151 | end to end, what each receiver decodes and what waits in its buffer are exactly the copies meant for it, in order; what waits fits a packet and is not urgent; no packet exceeds the network buffer |
| `Delivery.EnqueueForced` | system/msg_queue.cpp:186-252 | of the destinations of a forced message that is no leader's, exactly those of the last send thread get the flush |
| `Delivery.EnqueueSigned` | transport/msg_thread.cpp:113-128 | whichever thread serves it, each destination of a signed entry is sent the message with its own signature |
| `Delivery.FlushSurvivesIff` | transport/message.cpp:1783-1788 | a forced entry is still forced at a send thread exactly if that is the last one |
| `Delivery.ForcedVoteLosesFlush` | system/txn.cpp:513-516 | with two send threads a forced vote is urgent for one replica and not for the other |
| `BatchQueue.BatchQueues.FindShortest` | system/work_queue_pvp.cpp:120-144 | the search, started inside the queues, terminates at the first in the circle with the fewest batches |
| `BatchQueue.BatchQueues.Enqueue` | system/work_queue_pvp.cpp:120-144 | the batch is queued there, and none is lost |
| `BatchQueue.BatchQueues.Propose` | system/work_queue_pvp.cpp:295-331 | a batch is bound exactly if the view is reached and a queue is eligible: the oldest of the first eligible queue in the circle from the own one, to a slot this replica leads; none is lost or bound twice |
| `BatchQueue.Serve` | system/work_queue_pvp.cpp:120-331 | over any history of arrivals and proposal rounds, up to a search that cannot start or end, every batch is bound or queued, those of a queue are bound in the order they were put in it, no slot gets two, and each bound slot is led by this replica; a search cannot start exactly if the replica's number is no instance's |
| `BatchQueue.OneBatchPerSlot` | system/work_queue_pvp.cpp:321-326 | no slot gets two batches |
| `Timers.TimerManager.SetTimer` | system/timer_manager.cpp:87-109 | the cached time stays no later than any waiting timer |
| `Timers.TimerManager.EndTimer` | system/timer_manager.cpp:111-133 | the same when a timer ends |
| `Timers.TimerManager.CheckTimers` | system/timer_manager.cpp:61-85 | with its early return the check reports exactly what a scan of all timers would |
| `Timers.Serve` | system/timer_manager.cpp:6-133 | over any history of calls a check reports exactly the first suspected instance for which more than its timer's length has passed since it was set, and which was neither ended nor reported since; a report lengthens the timer by its own length, or in consecutive views by as much as before, up to the maximum, an end within an eighth halves it, and nothing else changes it |
| `Timers.ReportShortensIff` | system/timer_manager.cpp:13-19 | a report shortens a timer exactly if it is longer than the maximum |
| `Timers.NeverAboveMax` | system/timer_manager.cpp:13-19 | timers that start within the maximum stay there |

## Hypotheses

* The flags are as shipped (config.h): no ask path, no equivocation or dark test, no
  simulated failures; the timer manager is on for views that fail and for the timers.
* `Config.Valid` asks for a batch of at least five transactions and no more instances
  than nodes. Senders are authenticated, hashes injective, and the initial certificate
  is the only one marked genesis (`Monotone.MarkedRun` says this of faulty senders).
* `Agreement` speaks of the batches that votes are counted for. A certificate is formed
  for the manager's own batch, which an equivocating leader can make a different one,
  so `Pipeline` assumes one batch per slot (`Naming`) and that no view fails.
* The certificate map starts with the genesis entry under the empty hash; the first
  walk meets it and hands over identifier 0 before the first slot. The theorems carry it
  as a sentinel. Lookups with a missing key insert a default entry, as in the source.
* `CertStore.CommitWalk`, `HandedOnceIff` and `CommitHandsOnceIff` speak of maps in which
  every entry is filed under its own hash (`SelfKeyed`); `AncestorsEffect` and the methods
  of `CertTable` also cover the default entries that lookups leave behind.
* `Resurrection.NoResurrection` and `ClosedBackIff` ask that the batch is named for one slot
  (`OneSlot`) and speak of slots the replica does not lead. That a step's own commit takes
  the block out again is part of the condition of `BackIff`; `NotSwept` says when it cannot.
  `CommittedIsGone` speaks of commits that start from the block they commit rather than from
  another one two slots back.
* `Executor.CanArrive` admits the messages of slots; `GenesisEntry` adds those of the genesis
  entry. One that the executor takes is enqueued again with its post in one step, and its
  identifier, the largest, is never the next in the heap.
* `EnoughShares` speaks of the replica that leads the view after the slot's, `Signatures.SharesSign`
  of certificates formed by backups.
* `Timers.Serve` asks that the clock does not run backwards. The growth a timer has before its
  first report is taken as 0; the source leaves it unset, and reads it only for a report in
  view 1, which the shipped crash view excludes.
* `Leader` and `Outcome` speak of slots not executed; `Outcome` of slots the replica does
  not lead itself, since a leader sets the batch and the certificate of its own.
* An early leader message that is parked and delivered later appears as one that stays
  in the network. A proposal is identified by its slot rather than by the identifier two
  below it that it carries.

## Left out

- Cryptography, key exchange and sockets: the network is abstract and signatures opaque.
- Several instances at once: `System` runs one; other instances only advance execution in `Replica.CanExecute`.
- The ask and ask-response path, equivocation and dark tests, and the code without `SEPARATE`: off in the shipped flags.
- Memory reclamation and pools: queue nodes are never reused, and managers are released and created afresh.
- `execute_msg_heap.top()` and `pop()` on an empty heap: modelled as no match and no effect.
- Executor.NoLostWakeup: the message re-enqueued for a slot that is not expected is modelled but shown never to occur; more than `indexSize` slots outstanding are excluded by `CanArrive`.
- Latency fields: they travel as opaque bytes; the stamp on sending and the adjustment on receiving are not modelled.
- Messages.DecodesOwnBytes: the bound on request keys that the decoder asserts, and message kinds other than Sync, Generic, Proposal and client query, are not modelled; the separate size fields are taken to equal the lengths they stand for.
- Buffers in `Output`: byte sequences bounded by the network buffer's size rather than an array with a write pointer; the fields of a message are laid out by functions, not by one copy at a time.
- BatchQueue.BatchQueues.Enqueue: requires some queue with at most 0xFFFFF batches, since the search never ends otherwise (`BatchQueue.Serve` stops there), and a search that starts inside them; each call is one step.
- BatchQueue.BatchQueues.Propose: a pop from a queue whose count is positive is taken to succeed, although the queue underneath may miss (`DequeueCall.CallReturnsEmptyIff`).
- Output.MessageThread.Run: signing for a destination is a parameter, and clients, whose single send thread serves every destination, are not modelled.
- Timers.TimerManager.CheckTimers: instances under suspicion are a parameter instead of the divider test.
- Liveness, real time and the busy-wait loops: their bodies are steps.
- Statistics, YCSB generation, the banking contract, the database wrapper and the client: no hard property.
