# Scout: a verified model of its transaction core

Scout is a distributed, partitioned key-value store. API servers coordinate transactions, data servers hold
partitions replicated through Raft, and control servers publish who serves what. This project models the parts
that its guarantees rest on, in Dafny, and proves what they keep over all inputs and all runs:

- **Locks.** `TxnLocks` and `LockIsolation`: the locks built from a transaction's actions, when two locks are
  compatible, and that pairwise compatible transactions may be interleaved in any order with the same outcome.
- **Clock.** `HybridClock`, `ServerRuns` and `ClockCluster`: the hybrid logical clock of one server, its whole lives
  across restarts, and causality over a cluster of servers that exchange timestamps.
- **One partition.** `MvccStore`, `TxnManager`, `PartitionSafety` and `PartitionRuns`: the multi-version store, the
  transaction state machine that the Raft log drives, and serializability of its whole history. `StoredWrites`,
  `LockRelease`, `CommandReplies` and `SnapshotView` say what each command does by what it stores, the locks it takes
  and frees and the answer it gives, without the functions that compute it. `ManagerObject` is the same manager as the
  object it is, updated in place and proved to refine the state machine. `SnapshotReads` is about reads at a
  timestamp. `Leadership` is where timestamps come from: leaders that bring their clocks up to the partition, stamp
  batches, and take over from each other.
- **Many partitions.** `TwoPhaseCommit` is the commit protocol as a step machine with messages that get lost, delayed
  and repeated, a coordinator that may stop, and the watchdog that takes over. `CommitProgress` is what it can bring
  about. `ParticipantView` proves that the state machine of a partition is a participant of that protocol.
  `WatchdogLoop` is the watchdog's bookkeeping. `ConsistentReads` is about reads of one timestamp on several
  partitions. `Cluster` puts partitions and protocol together: partitions that apply their own logs, with the commands
  on a transaction taken from the wire, take it through a run of the protocol. `ClusterReads` says what the reads of
  such partitions show of the transaction.
- **Storage.** `EmulatedStore` and `EmulatedChecks`: multi-version reads, and a transaction's checks, emulated by
  scans of an ordered key-value store.
- **Routing.** `PartitionTable`, `Rotation`, `SubConnections` and `Balancer`: validation of cluster snapshots, the
  routing table a client derives from them, its connections, and the pick of a connection per request.
- **Services.** `LinkedDeque`, `SessionLoops`, `RequestDrain`, `RoleSwitch` and `NemesisRunner`: the queue, the
  control session's loops, draining of requests, the switch of control roles, and the fault injection agent.

The model follows the code. Concurrent code is a machine whose steps are the code's atomic actions; what is proved
holds for every order of them. Code that updates objects in place is a class with `modifies` clauses, proved
against functions on values.

Every lemma carries `{:induction false}` and every inductive proof is an explicit recursive call. New lemmas should
keep to it.

## What the code does not keep

Some properties that the design suggests do not hold of the code as it is. For each there is a run that breaks it
and the exact condition under which it holds.

- Two-phase commit is atomic exactly when the coordinator does not abort for want of a reply to storing the decision
  and, if it aborts on "not found" or "failed precondition", the watchdog knows all participants
  (`TwoPhaseCommit.AtomicityExact`). The code aborts on any error (`TwoPhaseCommit.CodeBreaksBoth`).
- The principal partition commits last exactly when the coordinator does not abort for want of a reply and the
  watchdog knows every participant (`TwoPhaseCommit.PrincipalLastExact`); what the watchdog loads at the start of a
  leadership never names any (`ParticipantView.WatchdogLoadsNoParticipants`).
- New transactions are stamped above everything in a partition's log exactly when each leader's clock reaches the log
  at the start of its leadership (`Leadership.StartExact`). The code brings it above the partition's own timestamp,
  which may have gone back; then the history stops being serial and reads that were served change
  (`Leadership.LeaderChangeBreaks`). Starting there is enough exactly when that timestamp is at most one short of the
  log (`Leadership.CodeStartExact`), as it is if no batch takes it back (`Leadership.NoneBackIsFresh`).
- The watchdog resolves a transaction, after the last report of it, exactly when it was loaded as its leadership began,
  is prepared or decided, and a tick of that phase comes past everything queued before it, younger or not
  (`WatchdogLoop.ReportedExact`). One that nothing is reported of is resolved exactly when it was not loaded as timed
  out and a tick comes past its own timestamp (`WatchdogLoop.ResolvedExact`). The comment at
  `internal/data/server/txn/watchdog_2pc.go:187-191` says that the first tick aborts timed out ones.
- Checks look at the store as it was when the batch began. The history of a partition is serial exactly when each
  admission was also true of what the batch had stored by then (`PartitionRuns.PartitionExact`);
  `PartitionRuns.DoubleInsert` is a log in which one key is inserted twice.
- Each batch overwrites the partition's largest timestamp, so it may go back (`SnapshotReads.MaxTimestampExact`). It
  keeps up with what is stored exactly when each batch reaches that (`Leadership.KeepsUpExact`). A read-only
  transaction may miss commits that were acknowledged before (`SnapshotReads.ReadOnlyMayMissCommits`). After any fresh
  log it sees every commit exactly if the timestamp has kept up with what is stored where it looks and it is not
  overtaken, which cannot happen to a read of one key (`Leadership.LogReadsExact`).
- A clock that runs ahead of the wall clock with its logical part used up may give up after three attempts
  (`HybridClock.NowProgressExact`, `HybridClock.UpdateProgressExact`). A restart within the slot of an earlier issue
  can repeat a timestamp (`ServerRuns.LifeIssuesExactly`, `ServerRuns.EarlyBootRepeats`).
- Point reads of the emulated store hand out another key's record for a key without a visible version, if one is
  stored before the end of the scan. Where that end lies before the key, as it does for a first byte of 255 unless all
  bytes are, they find nothing (`EmulatedStore.GetFirstExact`, for every key). The checks of all transactions come out
  as on the multi-version store exactly if no key is misread in one of these ways (`EmulatedChecks.ChecksExact`); else
  an insert of an absent key may be refused (`EmulatedChecks.InsertRefused`).
- Empty ranges cover nothing, and conflict all the same exactly if they lie strictly inside another range
  (`TxnLocks.CompatibilityExact`).
- A routing table entry goes stale exactly when its leader or a replica comes back under a new address, since tags
  cover ids only (`PartitionTable.AddressesExact`, `PartitionTable.MovedServerGoesStale`). The round-robin counter
  indexes below zero once it has wrapped, unless there is one replica (`Balancer.NegativeCounterExact`). A snapshot
  whose connections were refused is ignored when it comes again (`Balancer.Repeat`).
- Draining is complete exactly when no caller stands between its look at the channel and counting itself in
  (`RequestDrain.DrainExact`).

## What is assumed

- Wall clock readings, time-outs, contexts and hash functions are parameters: results hold for all of them, or for
  those a lemma names.
- A leader has applied all earlier batches when it reads its partition's timestamp, and each timestamp a commit or
  read request brings has passed its clock before. Where a lemma asks for fresh logs (`PartitionRuns.FreshLog`),
  `Leadership` says when leaders produce them. Commands carry a positive timestamp.
- A leadership stamps nothing before its clock has been brought up. In the code the writer and the watchdog are
  started first (`internal/data/server/txn/service.go:71-84`), so while the leader waits for its clock the watchdog
  could stamp commands below the partition's timestamp; those moments are not part of a leadership here.
- A prepare request no longer arrives once the partition has forgotten the transaction: final transactions are kept
  for longer than requests live.
- In `TwoPhaseCommit` a partition takes each command as one atomic step, as its Raft log applies it. The coordinator
  and the watchdog may send abort requests in any order. Errors that a request meets before the state machine, such as
  "not leader" or "time out of range", count as no reply.
- In `Cluster` the id of a distributed transaction is not used for an autocommit, and only commit decisions are
  stored, as request validation sees to.

## Model

| member | source | states |
|---|---|---|
| `TxnLocks.LocksOf` | internal/data/data_txn.go:35-43 | the list holds a lock exactly if some action of the transaction builds it |
| `TxnLocks.BuildLocks` | internal/data/data_txn.go:35-43 | the loop computes the locks of the whole transaction, in action order |
| `TxnLocks.TxnIsReadOnly` | internal/data/data_txn.go:26-33 | true exactly if every action only reads |
| `TxnLocks.LockExact` | internal/data/data_txn.go:56-129 | an action's lock covers exactly the addresses the action names, and is exclusive exactly for what writes or asks for it |
| `TxnLocks.EmptyRangeCoversNothing` | internal/data/data_txn.go:197-219 | a range that ends where it starts, or before, protects no key |
| `TxnLocks.CompatibilitySymmetric` | internal/data/data_txn.go:154-219 | the order in which two locks are compared does not matter, for all four pairings |
| `TxnLocks.CompatibleIsDisjoint` | internal/data/data_txn.go:187-219 | compatible locks, one of them exclusive, protect no key in common |
| `TxnLocks.IncompatibleOverlap` | internal/data/data_txn.go:187-219 | non-empty locks that are refused do share a key: no needless conflicts |
| `TxnLocks.CompatibilityExact` | internal/data/data_txn.go:154-219 | any two locks are compatible exactly if both are shared or they do not meet: no common key and, for an empty range, not strictly inside another range |
| `TxnLocks.EmptyRangeExact` | internal/data/data_txn.go:197-219 | an empty range is refused exactly if one side is exclusive and both are ranges of one keyspace, each starting before the other ends |
| `TxnLocks.EmptyRangeStillConflicts` | internal/data/data_txn.go:197-219 | an empty range inside an exclusive one is refused although nothing is shared |
| `TxnLocks.OwnedIsPrivate` | internal/data/data_txn.go:154-219 | what one transaction locks exclusively no compatible transaction locks at all |
| `TxnLocks.ListsCompatibleSymmetric` | internal/data/data_txn.go:154-185 | compatibility of whole transactions is symmetric |
| `TxnLocks.ReadOnlyTxnsNeverConflict` | internal/data/data_txn.go:56-129 | transactions that only read build only shared locks and never wait for each other |
| `LockIsolation.SeesOnlyItself` | internal/data/server/txn/manager_locks.go:13-38 | in any interleaving of pairwise compatible transactions each gets the results of running alone, and finds what it locks as it left it |
| `LockIsolation.ForeignKeysUntouched` | internal/data/server/txn/manager_apply.go:438-474 | a key nobody locks exclusively is as it was after any interleaving |
| `LockIsolation.InterleavingsAgree` | internal/data/server/txn/manager_locks.go:13-38 | any two complete interleavings end in the same store and give every transaction the same results, so all equal every serial order |
| `LockIsolation.ExecuteReadsCovered` | internal/data/server/txn/manager_apply.go:377-436 | the verdict on a whole transaction, all checks on one store, and the reads fetched later depend only on what its locks cover |
| `LockIsolation.ExecuteWritesOwned` | internal/data/server/txn/manager_apply.go:438-474 | applying a whole transaction changes only what its locks cover exclusively |
| `LockIsolation.ExecuteDisciplined` | internal/data/server/txn/manager_apply.go:94-135 | applying transactions as a whole and fetching their reads afterwards meets the discipline that isolation needs |
| `HybridClock.PackOrder` | internal/hlc/hlc.go:266-276 | packed timestamps compare as pairs of physical and logical part do, and determine them |
| `HybridClock.PackSplit` | internal/hlc/hlc.go:270-276 | splitting a packed clock gives back its parts |
| `HybridClock.SplitPack` | internal/hlc/hlc.go:270-276 | any timestamp splits into well-formed parts that pack to it again |
| `HybridClock.NowAdvances` | internal/hlc/hlc.go:84-126 | an issued timestamp exceeds the clock, and its physical part is a reading taken inside that very call |
| `HybridClock.UpdateAdvances` | internal/hlc/hlc.go:130-172 | an accepted timestamp leaves the clock above its old value and above the timestamp |
| `HybridClock.TwoHalfSlotsCross` | internal/hlc/hlc.go:84-126 | a full slot of waiting always reaches a new slot |
| `HybridClock.NowSucceeds` | internal/hlc/hlc.go:84-126 | enough room, or a late start in the slot, makes the three attempts succeed on every honest wall clock |
| `HybridClock.NowCanRunOut` | internal/hlc/hlc.go:84-126 | otherwise there are honest readings on which they all fail |
| `HybridClock.NowProgressExact` | internal/hlc/hlc.go:84-126 | the exact condition for `Now` to succeed on all honest readings |
| `HybridClock.UpdateSucceeds` | internal/hlc/hlc.go:130-172 | with room left or nothing ahead of the wall clock, the attempts of an update succeed |
| `HybridClock.UpdateCanRunOut` | internal/hlc/hlc.go:130-172 | otherwise honest readings exist on which the process shuts down |
| `HybridClock.UpdateProgressExact` | internal/hlc/hlc.go:130-172 | the exact condition for the attempts of `Update` to succeed |
| `HybridClock.RangeExact` | internal/hlc/hlc.go:178-193 | an incoming timestamp is refused exactly if its slot lies more than the offset ahead of the reading's |
| `HybridClock.AcceptExact` | internal/hlc/hlc.go:130-193 | the whole of `Update` accepts a timestamp on all honest readings exactly if it is within the offset, and the side that is ahead has logical room or the wall clock has caught up |
| `HybridClock.UpdateIsLeast` | internal/hlc/hlc.go:130-172 | an accepted timestamp takes the clock to the least value above both sides that is not behind the reading |
| `HybridClock.NowIsLeast` | internal/hlc/hlc.go:84-126 | an issued timestamp is the least one above the clock that carries a reading of the call |
| `HybridClock.BackwardJumpExact` | internal/hlc/hlc.go:84-126 | `Now` shuts the process down for a backward jump exactly if, after attempts that stall, a reading is further back than the offset |
| `HybridClock.Hlc.constructor` | internal/hlc/hlc.go:76-81 | a new clock starts in the slot of its first reading and keeps whole slots of offset |
| `HybridClock.Hlc.Now` | internal/hlc/hlc.go:84-126 | the retry loop computes the specified outcome, moves the clock only on success, and then strictly forward to the timestamp it returns |
| `HybridClock.Hlc.Update` | internal/hlc/hlc.go:130-193 | out-of-range timestamps are refused, others end above both sides, and a refusal leaves the clock alone |
| `HybridClock.Hlc.Sleep` | internal/hlc/hlc.go:237-252 | ends for any wall clock, in the first round that finds the deadline passed, the context done or the clock shut down, with the clock as so many rounds leave it; the waits are never negative |
| `ServerRuns.StepSound` | internal/hlc/hlc.go:76-172 | boots that are late enough, issues and updates all keep the clock above everything issued |
| `ServerRuns.RunSound` | internal/hlc/hlc.go:76-172 | so does any history of them |
| `ServerRuns.NeverIssuedTwice` | internal/hlc/hlc.go:76-172 | over any number of lives, updates and wall clock jumps, issued timestamps strictly increase, so a transaction id is never reused |
| `ServerRuns.LaterSlotIsLate` | internal/hlc/hlc.go:76-81 | booting in a later slot than every earlier issue is late enough |
| `ServerRuns.IssuesOnlyAbove` | internal/hlc/hlc.go:237-252 | whatever a clock issues after a point lies above its value then: nothing issued after a sleep is at or below the deadline |
| `ServerRuns.CanIssue` | internal/hlc/hlc.go:84-126 | every timestamp above the boot slot can be issued in some life |
| `ServerRuns.LifeIssuesExactly` | internal/hlc/hlc.go:76-126 | a life can issue a timestamp exactly if it lies above its boot slot, so the boot condition cannot be relaxed |
| `ServerRuns.EarlyBootRepeats` | internal/hlc/hlc.go:76-126 | any boot that is not late enough has a continuation that issues some timestamp a second time |
| `ServerRuns.AlwaysWithinOffset` | internal/hlc/hlc.go:130-193 | on a wall clock that never goes back, no history of updates and boots takes the clock further ahead than the offset |
| `ServerRuns.BackwardJumpUnreachable` | internal/hlc/hlc.go:84-126 | and then the shutdown on a backward jump cannot happen |
| `ServerRuns.BootBringsUp` | internal/hlc/hlc.go:76-81 | a boot brings the server up in the slot of its reading |
| `ServerRuns.RefusalIsHarmless` | internal/hlc/hlc.go:178-193 | a timestamp too far ahead leaves the server up and its clock alone |
| `ServerRuns.AcceptedMovesOn` | internal/hlc/hlc.go:130-172 | one within the offset, with room left, is accepted and takes the clock above it |
| `ServerRuns.IssueGoesOnRecord` | internal/hlc/hlc.go:84-126 | once the wall clock has moved on, the next issue is its slot |
| `ServerRuns.DownStaysDown` | internal/hlc/hlc.go:84-172 | a server that is down does nothing until it boots |
| `ClockCluster.NodeMonotone` | internal/hlc/hlc.go:84-172 | a server's clock never goes back during a run of the cluster |
| `ClockCluster.EdgeIncreases` | internal/rpc/interceptors/hlc.go:67-96 | one step of happens-before, on a server or by a delivered timestamp, strictly increases the timestamp |
| `ClockCluster.CausalityPreserved` | internal/session/session.go:157-162 | if one event happens before another, through any chain of servers and messages, its timestamp is smaller |
| `ClockCluster.DeliveryHappens` | internal/rpc/interceptors/hlc.go:67-96 | a message whose timestamp is within the offset of the receiver's reading is accepted if the side that is ahead has logical room |
| `ClockCluster.FarDeliveryRefused` | internal/rpc/interceptors/hlc.go:67-96 | one further ahead is refused and leaves the receiver's clock alone |
| `MvccStore.PutAllEffect` | internal/data/server/txn/manager_apply.go:438-474 | storing a transaction sets, at its timestamp, the last write to each address and changes nothing else |
| `StoredWrites.GetExact` | internal/data/server/storage/mvcc/db.go:11-17 | a read finds a value exactly if the newest version at or below its timestamp holds it |
| `StoredWrites.RangeExact` | internal/data/server/storage/mvcc/db.go:11-17 | a range is non-empty exactly if some key from its start to before its end exists |
| `StoredWrites.PutStores` | internal/data/server/txn/manager_apply.go:438-474 | of each address the last action on it counts: an insert, update or upsert is read back with its own value, a delete as absent; other addresses and timestamps do not change |
| `StoredWrites.AutocommitStores` | internal/data/server/txn/manager_apply.go:94-135 | an autocommit that succeeds anew stores just that; any other stores nothing |
| `StoredWrites.CommitStores` | internal/data/server/txn/manager_apply.go:182-236 | so does a commit, of the transaction as it was prepared |
| `StoredWrites.CommittedIsRead` | internal/data/server/txn/manager_apply.go:94-135 | reads at and after the commit find the committed value until something newer is stored |
| `StoredWrites.ChecksExact` | internal/data/server/txn/manager_apply.go:377-436 | checks hold exactly if inserts name absent keys, updates and deletes present ones, and lock checks find what they ask for |
| `SnapshotView.ReadShown` | internal/data/server/storage/mvcc/db.go:11-17 | reads on a plain store that holds a snapshot find what the multi-version store shows at its timestamp |
| `SnapshotView.WritesShown` | internal/data/server/txn/manager_apply.go:438-474 | writing to the plain store leads to the next snapshot |
| `SnapshotView.AutocommitShown` | internal/data/server/txn/manager_apply.go:94-135 | an autocommit whose locks are free is refused for the same action, or applied with the same effect, as on the snapshot below its timestamp |
| `MvccStore.WritesAreOwned` | internal/data/server/txn/manager_apply.go:438-474 | a transaction writes only where its own locks are exclusive |
| `MvccStore.GetDependsOnPast` | internal/data/server/storage/mvcc/db.go:11-17 | what a timestamp shows of an address depends only on versions up to it |
| `MvccStore.GetAcrossGap` | internal/data/server/storage/mvcc/db.go:11-17 | with no version in between two timestamps show the same value |
| `MvccStore.ChecksSameView` | internal/data/server/txn/manager_apply.go:377-436 | the verdict on a transaction's checks depends only on what its own locks cover |
| `TxnManager.FirstBlocked` | internal/data/server/txn/manager_locks.go:13-38 | no action is reported exactly if every lock is free of conflicts with all that is held |
| `TxnManager.FirstInvalid` | internal/data/server/txn/manager_apply.go:377-436 | no action is reported exactly if all checks hold on the snapshot |
| `LockRelease.AdmitExact` | internal/data/server/txn/manager_locks.go:13-38 | a transaction is admitted exactly if no lock it needs conflicts with a held one and every check is met |
| `LockRelease.RefusalExact` | internal/data/server/txn/manager_apply.go:94-180 | a refusal names the first action whose lock is taken or, if none is, the first whose check fails, with the code of its kind |
| `LockRelease.AbortLetsGo` | internal/data/server/txn/manager_apply.go:238-273 | an abort of a prepared transaction frees exactly its locks and is on record; any other abort changes nothing |
| `LockRelease.TimeoutLetsGo` | internal/data/server/txn/manager_apply.go:324-364 | marking as timed out keeps the locks; a later request to release them frees exactly these |
| `LockRelease.CommitLetsGo` | internal/data/server/txn/manager_apply.go:182-236 | a commit keeps its locks to the end of the batch, which frees exactly them |
| `LockRelease.EndLetsGo` | internal/data/server/txn/manager_apply.go:84-91 | the end of a batch frees the locks of all committed transactions and no others |
| `LockRelease.DecisionHoldsOn` | internal/data/server/txn/manager_apply.go:275-322 | storing a decision keeps every lock |
| `LockRelease.PrepareTakes` | internal/data/server/txn/manager_apply.go:137-180 | an admitted prepare holds the lock of each of its actions; an autocommit holds none |
| `LockRelease.NextIsAdmitted` | internal/data/server/txn/manager_locks.go:13-38 | after a release a transaction is admitted exactly if it is compatible with all others and its checks are met |
| `LockRelease.AbortMakesRoom` | internal/data/server/txn/manager_apply.go:137-273 | so an aborted transaction keeps no other from being prepared |
| `CommandReplies.CommitAnswersExact` | internal/data/server/txn/manager_apply.go:182-236 | a commit succeeds exactly where the protocol allows it or has seen it; each error has its own condition |
| `CommandReplies.AbortAnswersExact` | internal/data/server/txn/manager_apply.go:238-273 | an abort comes too late exactly once the transaction is decided or committed |
| `CommandReplies.TimeoutAnswersExact` | internal/data/server/txn/manager_apply.go:324-364 | only the principal marks as timed out, and only what has no outcome yet |
| `CommandReplies.DecisionAnswersExact` | internal/data/server/txn/manager_apply.go:275-322 | only the principal stores decisions, at or above the timestamp it prepared at; each error has its own condition |
| `CommandReplies.StartAnswersExact` | internal/data/server/txn/manager_apply.go:94-180 | a transaction on record is not started again: it gets its status or "failed precondition" |
| `CommandReplies.RecordExact` | internal/data/server/txn/manager_apply.go:94-364 | success reports the status on record, with the command's timestamp and state and, for a commit, the participants; without success nothing changes |
| `CommandReplies.DecisionOnRecord` | internal/data/server/txn/manager_apply.go:275-322 | the decision on record is the one that was sent, and stays |
| `CommandReplies.RepeatIsSafe` | internal/data/server/txn/manager_apply.go:94-364 | a command that succeeded gets the same answer when repeated and changes nothing, unless to release locks |
| `CommandReplies.BatchOrder` | internal/data/server/txn/manager_apply.go:43-79 | a batch is applied aborts first, then time-outs, commits, autocommits, prepares and decisions, every command once |
| `CommandReplies.BatchForgetsExactly` | internal/data/server/txn/manager_apply.go:476-495 | after a batch nothing final, old and without locks is on record, and nothing else is gone |
| `PartitionSafety.InitInv` | internal/data/server/txn/manager.go:35-52 | an empty partition meets the invariant |
| `PartitionSafety.PutAllForeign` | internal/data/server/txn/manager_apply.go:438-474 | storing a transaction changes no snapshot of what compatible locks cover |
| `PartitionSafety.PutAllPast` | internal/data/server/txn/manager_apply.go:438-474 | storing at a timestamp changes no earlier snapshot |
| `PartitionSafety.WriteKeepsInv` | internal/data/server/txn/manager_apply.go:94-236 | committing keeps exclusion, every earlier transaction's writes and verdict, and every prepared one's locked data |
| `PartitionSafety.AutocommitKeepsInv` | internal/data/server/txn/manager_apply.go:94-135 | so does an admitted single-partition transaction |
| `PartitionSafety.PrepareKeepsInv` | internal/data/server/txn/manager_apply.go:137-180 | so does an admitted prepare, whose locks join the table |
| `PartitionSafety.CommitKeepsInv` | internal/data/server/txn/manager_apply.go:182-236 | so does the commit of a prepared transaction at any timestamp it allows |
| `PartitionSafety.QuietCommand` | internal/data/server/txn/manager_apply.go:238-375 | so do abort, store-decision and mark-timed-out, which store nothing |
| `PartitionSafety.StepKeepsInv` | internal/data/server/txn/manager_apply.go:94-375 | every command in every state keeps the invariant, accepted, repeated or refused, whatever store its checks looked at |
| `PartitionSafety.CleanupRetreats` | internal/data/server/txn/manager_apply.go:476-495 | forgetting final transactions drops no lock and no unfinished transaction |
| `PartitionSafety.EndOfBatchKeepsInv` | internal/data/server/txn/manager_apply.go:84-91 | releasing locks after the store, taking the batch's timestamp and cleaning up keep the invariant |
| `PartitionSafety.StepShape` | internal/data/server/txn/manager_apply.go:94-375 | whatever its stamp, a command keeps the lock table, the statuses and the store well-formed and in step |
| `PartitionSafety.EndShape` | internal/data/server/txn/manager_apply.go:84-91 | and so does the end of a batch |
| `PartitionRuns.RunCommands` | internal/data/server/txn/manager_apply.go:43-79 | the history-keeping run goes through the states of the plain state machine |
| `PartitionRuns.RunBatch` | internal/data/server/txn/manager_apply.go:19-92 | running the commands one by one, then releasing locks and cleaning up, goes through the states of the plain state machine |
| `PartitionRuns.AdmittedUnseen` | internal/data/server/txn/manager_apply.go:377-436 | a transaction that gets its locks, clear of the batch's earlier autocommits, sees in its checks all that has been stored since the batch began |
| `PartitionRuns.BatchKeepsInv` | internal/data/server/txn/manager_apply.go:19-92 | a batch keeps the invariant |
| `PartitionRuns.LogKeepsInv` | internal/data/server/txn/manager_apply.go:19-92 | so does any log |
| `PartitionRuns.LocksExclude` | internal/data/server/txn/manager_locks.go:13-38 | after any log, whatever its timestamps, no two transactions hold conflicting locks |
| `PartitionRuns.PartitionExact` | internal/data/server/txn/manager_apply.go:19-92 | after any log no two transactions hold conflicting locks, and the committed ones in timestamp order are a legal serial history that explains every stored version exactly if each was admitted on checks true of all that was stored by then |
| `PartitionRuns.PartitionSerializable` | internal/data/server/txn/manager_apply.go:19-92 | batches whose later transactions lock nothing that an earlier autocommit of theirs locks always give a serial history |
| `PartitionRuns.DoubleInsert` | internal/data/server/txn/manager_apply.go:43-82 | a one-batch log in which two inserts of one key both commit |
| `SnapshotReads.GetSafeTimestamp` | internal/data/server/txn/manager_locks.go:61-97 | the greatest timestamp not above the partition's own and below every conflicting prepared transaction, and whether there is one |
| `SnapshotReads.SafeIsSealed` | internal/data/server/txn/reader.go:306-336 | nothing that can still commit reaches what the read covers at or below the safe timestamp |
| `SnapshotReads.StepSealed` | internal/data/server/txn/manager_apply.go:94-375 | no command changes a sealed snapshot or unseals it |
| `SnapshotReads.BatchSealed` | internal/data/server/txn/manager_apply.go:19-92 | nor does a whole batch with its clean-up |
| `SnapshotReads.LogSealed` | internal/data/server/txn/manager_apply.go:19-92 | nor does any log |
| `SnapshotReads.SnapshotsAreStable` | internal/data/server/txn/reader.go:105-119 | what a served read finds at its timestamp is what will be found there for ever |
| `SnapshotReads.CommittedReadsStable` | internal/data/server/txn/reader.go:134-194 | what a committed transaction reads at its commit timestamp is the same whenever it is fetched |
| `SnapshotReads.MaxTimestampExact` | internal/data/server/txn/writer.go:227-260 | a batch does not take the partition's timestamp back exactly if the leader stamped a command of it or a commit or read request in it reaches the old value |
| `SnapshotReads.ReadOnlyMayMissCommits` | internal/data/server/txn/reader.go:121-132 | a run in which read-only transactions miss acknowledged commits in both ways |
| `Leadership.StampAll` | internal/data/server/txn/writer.go:234-252 | one list of a batch gets successive clock timestamps after those given before; it fails exactly if the clock shuts down |
| `Leadership.PrepareBatch` | internal/data/server/txn/writer.go:227-260 | the five lists get the successive timestamps of the clock in order, commits keep theirs, and the batch carries the largest |
| `Leadership.StartLeader` | internal/data/server/txn/service.go:224-250 | a leadership starts with a clock above the partition's timestamp; it fails only if the clock shuts down or the wait for it is canceled; an empty partition gets a first timestamp |
| `Leadership.SealFresh` | internal/data/server/txn/writer.go:227-260 | what a leader seals whose clock is above the log is stamped above it, and leaves the clock above the log again |
| `Leadership.LeadershipFresh` | internal/data/server/txn/service.go:88-222 | so for all that one leadership serves |
| `Leadership.StartExact` | internal/data/server/txn/service.go:224-235 | all that a leadership can ever seal is fresh exactly if its clock reaches the log at its start |
| `Leadership.CodeStartExact` | internal/data/server/txn/service.go:224-235 | every leadership that starts above the partition's own timestamp seals only fresh batches exactly if that timestamp is at most one short of the log |
| `Leadership.TermsFresh` | internal/data/server/txn/service.go:224-235 | a series of leaderships whose clocks reach the log produces a fresh log |
| `Leadership.LeadershipsExact` | internal/data/server/txn/service.go:224-235 | over such a series the history is serial exactly if every admission was current |
| `Leadership.SealKeepsMax` | internal/data/server/txn/writer.go:227-260 | a batch that does not take the partition's timestamp back keeps it equal to the largest of the log |
| `Leadership.NoneBackReaches` | internal/data/server/txn/service.go:224-235 | if no batch takes the partition's timestamp back, every leadership starts with a clock that reaches the log |
| `Leadership.NoneBackIsFresh` | internal/data/server/txn/service.go:224-235 | and then the whole log is fresh through any changes of leadership |
| `Leadership.LeaderChangeBreaks` | internal/data/server/txn/service.go:224-235 | two leaderships after which a serial history is serial no more and a read that was served finds another value, without any stale check |
| `Leadership.SealReachesExact` | internal/data/server/txn/manager_apply.go:84-91 | after a batch nothing is stored above the partition's timestamp exactly if the leader stamped a command of it or a request in it reaches all that was stored |
| `Leadership.KeepsUpExact` | internal/data/server/txn/manager_apply.go:84-91 | over a leadership that holds at every moment exactly if each batch reaches what is stored |
| `Leadership.TermsKeepUpExact` | internal/data/server/txn/manager_apply.go:84-91 | likewise over a series of leaderships |
| `Leadership.ReadSeesAllExact` | internal/data/server/txn/reader.go:121-132 | a read at the safe timestamp sees every commit exactly if the partition's timestamp has kept up where it looks and it is not overtaken: no conflicting transaction prepared before something else it covers was stored |
| `Leadership.LogReadsExact` | internal/data/server/txn/reader.go:121-132 | the same after every fresh log of a partition; a read of one key sees every commit exactly if the timestamp has kept up |
| `Leadership.PointReadNotOvertaken` | internal/data/server/txn/reader.go:121-132 | a read of a single key never is: whoever it conflicts with has that key locked |
| `Leadership.ReadsSeeAll` | internal/data/server/txn/reader.go:121-132 | after a leadership whose batches reach what is stored, a read of one key sees every commit and any other exactly if it is not overtaken |
| `ConsistentReads.LogStores` | internal/data/server/txn/manager_apply.go:182-236 | as long as a committed transaction is remembered, all its writes are stored at its commit timestamp |
| `ConsistentReads.TransactionCut` | internal/api/server/txn/processor_read_only.go:12-18 | reads of one timestamp on two partitions, served at unrelated moments, see both writes of a transaction that two-phase commit carries to both, or neither, whatever errors the coordinator aborts on |
| `TwoPhaseCommit.DecideCommit` | internal/api/server/txn/processor_2pc.go:144-163 | commit exactly if all have prepared, at the largest prepare timestamp |
| `TwoPhaseCommit.VotesKept` | internal/data/server/txn/manager_apply.go:137-180 | in every step, what the coordinator and the partitions hold agrees with the votes cast |
| `TwoPhaseCommit.CoordKept` | internal/api/server/txn/processor_2pc.go:24-70 | the coordinator sends commits only after the decision was stored, and aborts only when the principal will not store it any more |
| `TwoPhaseCommit.OutcomeKept` | internal/data/server/txn/manager_apply.go:182-322 | no step of a safe setting lets one participant commit what another has aborted, nor sends aborts for a stored decision before all have committed |
| `TwoPhaseCommit.RunKeepsInv` | internal/api/server/txn/processor_2pc.go:24-299 | the protocol invariant holds along every run |
| `TwoPhaseCommit.SafeIsAtomic` | internal/api/server/txn/processor_2pc.go:24-299 | in a safe setting every reachable state is all or nothing, and commits lie at or above every vote |
| `TwoPhaseCommit.RunKeepsDecision` | internal/api/server/txn/processor_2pc.go:165-239 | in every setting, safe or not, everything that carries a commit timestamp along a run carries the one decision there is |
| `TwoPhaseCommit.DecisionIsVoted` | internal/api/server/txn/processor_2pc.go:165-239 | in every setting, a decision comes after a vote of every participant, none above it |
| `TwoPhaseCommit.CommittedAgree` | internal/api/server/txn/processor_2pc.go:165-239 | in every setting, partitions in which the transaction stands as committed agree on its timestamp |
| `TwoPhaseCommit.NoReplyBreaks` | internal/api/server/txn/processor_2pc.go:56-63 | if the coordinator aborts for want of a reply, the principal can commit what any chosen participant has aborted |
| `TwoPhaseCommit.LateAnswerBreaks` | internal/api/server/txn/processor_2pc.go:56-63 | if it aborts on an answer that also comes late, and the watchdog misses a participant, that one can be aborted after the principal has committed |
| `TwoPhaseCommit.AtomicityExact` | internal/api/server/txn/processor_2pc.go:24-70 | all runs are atomic exactly if the coordinator does not abort for want of a reply, nor on "not found" or "failed precondition" unless the watchdog knows all participants |
| `TwoPhaseCommit.PrincipalAskedLast` | internal/data/server/txn/watchdog_2pc.go:296-357 | commit requests reach the principal only after all others have committed, if the watchdog knows them all |
| `TwoPhaseCommit.OrderKept` | internal/data/server/txn/watchdog_2pc.go:296-357 | no step has the principal commit before the others, if the watchdog knows them all |
| `TwoPhaseCommit.WatchedIsOrdered` | internal/data/server/txn/watchdog_2pc.go:296-357 | in a safe setting with a watchdog that knows all, the principal is last in every reachable state |
| `TwoPhaseCommit.UnwatchedLeftBehind` | internal/data/server/txn/watchdog_2pc.go:296-357 | a participant the watchdog does not know can be left prepared, its locks held, after the principal has committed |
| `TwoPhaseCommit.PrincipalLastExact` | internal/data/server/txn/watchdog_2pc.go:296-357 | the principal commits last in every run exactly if the coordinator does not abort for want of a reply and the watchdog knows all participants |
| `TwoPhaseCommit.CodeBreaksBoth` | internal/api/server/txn/processor_2pc.go:56-58 | a coordinator that aborts on any error, as the code does, breaks both promises whatever the watchdog knows |
| `CommitProgress.AnyVotesCommit` | internal/api/server/txn/processor_2pc.go:165-239 | whatever the partitions vote, a run commits the transaction everywhere at the largest vote |
| `CommitProgress.AnyVotesAbort` | internal/api/server/txn/processor_2pc.go:241-299 | and another aborts it everywhere |
| `CommitProgress.CoordinatorCommits` | internal/api/server/txn/processor_2pc.go:165-239 | from any state in which the coordinator knows its decision is stored, it can be carried to all, the principal last |
| `CommitProgress.WatchdogCommits` | internal/data/server/txn/watchdog_2pc.go:296-357 | with all participants on record the watchdog can do so from any state with a stored decision |
| `CommitProgress.CoordinatorAborts` | internal/api/server/txn/processor_2pc.go:241-299 | a coordinator that has given up can abort every prepared partition |
| `CommitProgress.WatchdogAborts` | internal/data/server/txn/watchdog_2pc.go:208-294 | so can the watchdog, after timing the transaction out |
| `ParticipantView.OthersUntouched` | internal/data/server/txn/manager_apply.go:94-375 | a command leaves every other transaction's state as it is |
| `ParticipantView.FollowsProtocol` | internal/data/server/txn/manager_apply.go:94-375 | every command moves its own transaction as the protocol machine prescribes, or refuses and changes nothing |
| `ParticipantView.AnswersAreTruthful` | internal/data/server/txn/manager_apply.go:137-322 | success replies name the state the transaction is in, and "not found" means it was not prepared |
| `ParticipantView.DecisionAnswers` | internal/data/server/txn/manager_apply.go:275-322 | the principal answers a decision with success, or with the error that the protocol assigns to its state |
| `ParticipantView.RepeatedIsLate` | internal/data/server/txn/manager_apply.go:275-322 | once a decision has been carried out a repeated request gets "failed precondition" and, after the clean-up, "not found" |
| `ParticipantView.DecisionsKept` | internal/data/server/txn/service.go:197-222 | as abort decisions are turned down, only commit decisions are ever on record |
| `ParticipantView.EndOfBatch` | internal/data/server/txn/manager_apply.go:84-91 | the end of a batch changes no transaction's state; only final ones without locks are forgotten |
| `ParticipantView.ParticipantsUnnamed` | internal/data/server/txn/manager_apply.go:94-375 | no command puts participants on record for an unfinished transaction |
| `ParticipantView.WatchdogLoadsNoParticipants` | internal/data/server/txn/manager.go:119-142 | after any log, the record the watchdog loads for an unfinished transaction names no participant |
| `ParticipantView.RunningExact` | internal/data/server/txn/manager.go:119-142 | a new leader's watchdog loads exactly the partition's own transactions that hold locks, with their status |
| `Cluster.CommandMoves` | internal/data/server/txn/manager_apply.go:94-375 | every command on the transaction that was sent to a partition, with the reply it gets, is a step of the protocol or none |
| `Cluster.EndMoves` | internal/data/server/txn/manager_apply.go:84-91 | the end of a batch is no step, or forgets a final transaction |
| `Cluster.ClusterIsProtocol` | internal/data/server/txn/manager_apply.go:84-375 | partitions that apply their own batches, with any stamps and mixed with any other transactions, are at all times, seen through one distributed transaction, in a state that two-phase commit can reach; each is where its log leads |
| `Cluster.ClusterIsAtomic` | internal/data/server/txn/manager_apply.go:84-375 | so in a safe setting, through any changes of leadership, no partition's log has aborted or timed out what another's has committed |
| `Cluster.ClusterCut` | internal/api/server/txn/processor_read_only.go:12-18 | in such a cluster, in every setting, reads of one timestamp on two partitions with fresh logs see both writes of a committed transaction or neither, and it has one commit timestamp |
| `ClusterReads.WaitingBlocks` | internal/data/server/txn/manager_locks.go:61-97 | a partition that holds the transaction prepared or decided serves its addresses only below the timestamp it prepared at |
| `ClusterReads.RunHistory` | internal/data/server/txn/manager_apply.go:84-375 | along any run, every state between the batches of a fresh log is from before the partition's vote, or remembers the transaction as recorded, or has forgotten it with its outcome recorded and, if it committed, all its writes stored |
| `ClusterReads.SeenExact` | internal/api/server/txn/processor_read_only.go:12-18 | in every setting, once the transaction is decided, a read that a participant which has not aborted it served at any point of its fresh log shows it exactly if it reads at or above the commit timestamp |
| `ClusterReads.CommitSeenAlike` | internal/api/server/txn/processor_read_only.go:12-18 | in a safe setting, once it has committed anywhere, all reads of one timestamp that any two participants ever served agree on it |
| `WatchdogLoop.CheckTimedout` | internal/data/server/txn/watchdog_2pc.go:97-114 | the loop over the queue computes the specified sweep |
| `WatchdogLoop.SweepMoves` | internal/data/server/txn/watchdog_2pc.go:97-114 | a sweep takes each transaction it steps in for from the tracked ones, once, and alters no other |
| `WatchdogLoop.SweepExact` | internal/data/server/txn/watchdog_2pc.go:97-114 | on any queue it steps in for exactly the transactions in the expected state that are queued with nothing younger than the time-out up to them |
| `WatchdogLoop.InOrderClear` | internal/data/server/txn/watchdog_2pc.go:97-114 | on a queue in time order that comes down to their own timestamps |
| `WatchdogLoop.HeldUp` | internal/data/server/txn/watchdog_2pc.go:97-114 | a queue in which an old transaction is not reached behind a younger one |
| `WatchdogLoop.SweepWaiting` | internal/data/server/txn/watchdog_2pc.go:97-114 | a tick reaches a waiting transaction exactly if it is past everything queued up to it, and else leaves it waiting for the same time |
| `WatchdogLoop.RunKeepsInv` | internal/data/server/txn/watchdog_2pc.go:116-151 | tracked and resolved transactions stay disjoint and among those loaded, along every run |
| `WatchdogLoop.OnlyLoadedResolved` | internal/data/server/txn/watchdog_2pc.go:116-206 | a transaction is resolved at most once, and only if it was loaded when the leadership began |
| `WatchdogLoop.TimedoutNeverResolved` | internal/data/server/txn/watchdog_2pc.go:173-206 | one loaded as timed out is never resolved |
| `WatchdogLoop.ReportedExact` | internal/data/server/txn/watchdog_2pc.go:117-137 | after its last report a transaction is resolved exactly if it is still tracked, prepared or decided, and a tick of that phase comes past everything then queued up to it |
| `WatchdogLoop.ResolvedExact` | internal/data/server/txn/watchdog_2pc.go:85-206 | over a whole run a transaction nothing is reported of is resolved exactly if it was loaded, not as timed out, and a tick of its phase came past its timestamp |
| `WatchdogLoop.RunExact` | internal/data/server/txn/watchdog_2pc.go:97-151 | event by event: what is resolved is what some tick came to in the expected state |
| `ManagerObject.Manager.constructor` | internal/data/server/txn/manager.go:35-52 | a new manager is the empty partition |
| `ManagerObject.Manager.CheckLock` | internal/data/server/txn/manager_locks.go:24-38 | the loops over held locks answer whether the lock is free |
| `ManagerObject.Manager.CheckLocks` | internal/data/server/txn/manager_locks.go:13-22 | finds the first action that is blocked |
| `ManagerObject.Manager.Validate` | internal/data/server/txn/manager_apply.go:377-436 | finds the first action whose check fails, with its code |
| `ManagerObject.Manager.Admission` | internal/data/server/txn/manager_apply.go:94-180 | locks are checked before the existence checks, as the state machine has it |
| `ManagerObject.Manager.DoAutocommit` | internal/data/server/txn/manager_apply.go:94-135 | reply, status and staged writes as the state machine has them |
| `ManagerObject.Manager.DoPrepare` | internal/data/server/txn/manager_apply.go:137-180 | likewise for a prepare |
| `ManagerObject.Manager.DoCommit` | internal/data/server/txn/manager_apply.go:182-236 | likewise for a commit |
| `ManagerObject.Manager.DoAbort` | internal/data/server/txn/manager_apply.go:238-273 | likewise for an abort |
| `ManagerObject.Manager.DoStoreDecision` | internal/data/server/txn/manager_apply.go:275-322 | likewise for storing a decision |
| `ManagerObject.Manager.DoMarkTimedout` | internal/data/server/txn/manager_apply.go:324-375 | likewise for a time-out |
| `ManagerObject.Manager.ApplyCommand` | internal/data/server/txn/manager_apply.go:43-79 | any command changes the object as the state machine changes, except that its writes are staged |
| `ManagerObject.Manager.ApplyList` | internal/data/server/txn/manager_apply.go:43-79 | after any part of a batch, object and staged writes together are the state machine's state |
| `ManagerObject.Manager.Complete` | internal/data/server/txn/manager_apply.go:84-86 | the completions release exactly the committed transactions' locks |
| `ManagerObject.Manager.Clean` | internal/data/server/txn/manager_apply.go:476-495 | removes exactly the final transactions that are old and hold no lock |
| `ManagerObject.Manager.ApplyBatch` | internal/data/server/txn/manager_apply.go:19-92 | a whole batch, with one store of all writes at its end, refines the state machine that stores at once |
| `ManagerObject.StoreMayLag` | internal/data/server/txn/manager_apply.go:81-82 | staging writes until the end of the batch changes no reply and no state but the store |
| `ManagerObject.OneMore` | internal/data/server/txn/manager_apply.go:43-82 | so after each further command |
| `ManagerObject.SnapshotRoundTrip` | internal/data/server/txn/manager.go:64-107 | restoring a snapshot gives back the state it was taken from, lock table included |
| `EmulatedStore.BeforeTransitive` | internal/data/server/storage/kv/address.go:68-91 | the record order is transitive |
| `EmulatedStore.BeforeTotal` | internal/data/server/storage/kv/address.go:68-91 | and total and strict |
| `EmulatedStore.FindFirst` | internal/data/server/storage/inmem/inmem.go:167-172 | the first record not before a position |
| `EmulatedStore.SearchFindsNewest` | internal/data/server/storage/mvcc/emulated.go:131-161 | the search lands on the newest visible version of a key that has one |
| `EmulatedStore.GetFirstExact` | internal/data/server/storage/mvcc/emulated.go:131-161 | for every key: if the end of the scan lies after the key, a point read is right exactly if the key has a visible version or no record of another key is stored before that end; else exactly if it has none |
| `EmulatedStore.EndExact` | internal/data/server/storage/kv/address.go:37-52 | the end lies after the key exactly if its first byte is not 255, or all its bytes are and there is a next keyspace |
| `EmulatedStore.UnseenExact` | internal/data/server/storage/mvcc/emulated.go:131-161 | for a key without a visible version the scan returns a record exactly if another key's is stored before its end |
| `EmulatedStore.EndBeforeFindsNone` | internal/data/server/storage/kv/address.go:37-52 | where the end lies before the key nothing is ever found |
| `EmulatedStore.NeighbourReturned` | internal/data/server/storage/mvcc/emulated.go:131-161 | a store whose read of an absent key returns another key's record |
| `EmulatedStore.ZeroReadsLatest` | internal/data/server/storage/mvcc/emulated.go:131-161 | a point read without a timestamp finds the latest version of a stored key |
| `EmulatedStore.GetRange` | internal/data/server/storage/mvcc/emulated.go:41-91 | one pass yields, in key order, exactly the newest visible version of each key of the range, without tombstones |
| `EmulatedStore.UnseenReadsNone` | internal/data/server/storage/mvcc/emulated.go:131-161 | a key without a visible record reads as absent in the multi-version store the records stand for |
| `EmulatedStore.NewestIsRead` | internal/data/server/storage/mvcc/emulated.go:131-161 | and the newest visible record is what that store shows |
| `EmulatedChecks.ExistsInRange` | internal/data/server/storage/mvcc/emulated.go:101-112 | true exactly if some key of the range has a newest visible version that is not a tombstone |
| `EmulatedChecks.RangeExact` | internal/data/server/storage/mvcc/emulated.go:101-112 | range checks are always answered as the multi-version store would |
| `EmulatedChecks.KeyExact` | internal/data/server/storage/mvcc/emulated.go:93-99 | a key check agrees with the multi-version store exactly if the key is not absent with another key's value next in its scan, nor present with a scan that ends before it |
| `EmulatedChecks.ActionExact` | internal/data/server/txn/manager_apply.go:377-436 | so the check of an action comes out right exactly if its key is not misread |
| `EmulatedChecks.ChecksAgree` | internal/data/server/txn/manager_apply.go:377-436 | a transaction without misread keys is admitted or refused as on the multi-version store |
| `EmulatedChecks.ChecksExact` | internal/data/server/txn/manager_apply.go:377-436 | all transactions are exactly if the store misreads no key |
| `EmulatedChecks.InsertRefused` | internal/data/server/storage/mvcc/emulated.go:93-99 | a store that refuses the insert of a key that does not exist |
| `PartitionTable.Validate` | internal/control/control.go:327-377 | the checks, loop by loop, accept exactly the snapshots that are valid as a whole |
| `PartitionTable.ValidIsComplete` | internal/control/control.go:327-377 | a valid snapshot has every partition id below the count and no other |
| `PartitionTable.ServersResolve` | internal/control/control.go:327-377 | in a valid snapshot every replica, and the leader if there is one, has an address |
| `PartitionTable.RoutedKeysExist` | internal/api/server/txn/partitioner.go:15-21 | every key is routed to a partition the snapshot has |
| `PartitionTable.RoutedExact` | internal/api/server/txn/partitioner.go:15-21 | a key belongs to a partition exactly if its hash leaves that remainder |
| `PartitionTable.UpdateExact` | internal/data/client/balancer.go:108-148 | reusing entries with unchanged tags gives the rebuilt table exactly if equal tags mean equal entries |
| `PartitionTable.SeriesIsRebuild` | internal/data/client/balancer.go:108-148 | after any series of such updates the table is what the last snapshot alone would give |
| `PartitionTable.AddressesExact` | internal/control/server/leader/sessions/tracker.go:339 | with tags made from server ids, equal tags mean equal entries exactly if, for each partition with an unchanged tag, its leader and replicas have kept their addresses |
| `PartitionTable.MovedServerGoesStale` | internal/control/server/leader/sessions/tracker.go:339 | and not otherwise: a moved server's requests go to its old address |
| `Rotation.CounterWalks` | internal/data/client/balancer.go:265-283 | a counter taken modulo the number of replicas walks round them |
| `Rotation.EachSelectedOnce` | internal/data/client/balancer.go:265-283 | any round of consecutive counter values selects each replica exactly once |
| `Rotation.RoundIsFair` | internal/data/client/balancer.go:265-283 | such a round is a permutation of the replicas |
| `Balancer.NegativeCounterExact` | internal/data/client/balancer.go:265-268 | a wrapped 32-bit counter never gives a negative index exactly if there is one replica |
| `Balancer.BalancerState.UpdatePartitions` | internal/data/client/balancer.go:108-148 | the new table is the specified update; an entry is the very one kept, counter and all, exactly if its tag is unchanged, else new; a partition missing from the old table fails without a change |
| `Balancer.BalancerState.UpdateClientConnState` | internal/data/client/balancer.go:66-99 | a known tag changes nothing; otherwise the table follows the snapshot and the connections are those of its servers, short only of refused ones |
| `Balancer.ServeSnapshot` | internal/data/client/balancer.go:66-148 | after a snapshot whose tags tell, the picker's table and connections are those of the snapshot, as every pick relies on |
| `Balancer.Repeat` | internal/data/client/balancer.go:79-98 | the tag is stored before connecting: however often a snapshot comes again it is ignored, and if its connections were refused the first time they stay unopened |
| `Balancer.FeedOne` | internal/data/client/balancer.go:79-119 | a snapshot with no more partitions than the table has is taken or known, never fatal |
| `Balancer.Feed` | internal/data/client/balancer.go:108-119 | over any series of snapshots whose partition count does not grow no update looks for a missing entry |
| `Balancer.BalancerState.BuildTable` | internal/data/client/balancer.go:108-148 | the loop covers every partition of the snapshot with its specified entry |
| `Balancer.BalancerState.EntryFor` | internal/data/client/balancer.go:112-146 | one partition's entry: kept if its tag is unchanged, else resolved from the snapshot |
| `Balancer.BuildEntry` | internal/data/client/balancer.go:121-146 | a new entry holds the snapshot's leader and a permutation of its replicas |
| `Balancer.Picker.EntryFacts` | internal/data/client/balancer.go:108-148 | an entry of a table that serves a snapshot has its tag and leader, each address as often as replicas with it, and every replica's address |
| `Balancer.Picker.ReplicaAddress` | internal/data/client/balancer.go:126-142 | an address is among an entry's replicas exactly if a replica of the snapshot has it |
| `Balancer.Picker.AllReadyTakesFirst` | internal/data/client/balancer.go:265-283 | with all replicas ready the counter alone decides |
| `Balancer.Picker.PickReplica` | internal/data/client/balancer.go:265-283 | the first ready replica in cyclic order, none exactly if none is ready |
| `Balancer.Picker.RoundRobin` | internal/data/client/balancer.go:265-286 | each call advances the counter by one and takes the first ready replica from there; it fails exactly on a negative remainder |
| `Balancer.PickNext` | internal/data/client/balancer.go:267-283 | with all replicas ready a pick is the connection of the replica the counter selects |
| `Balancer.PickRound` | internal/data/client/balancer.go:267-283 | as many picks as there are replicas, all ready and the counter short of wrapping, give each replica's connection exactly once |
| `Balancer.Picker.PickLeader` | internal/data/client/balancer.go:224-245 | the leader's connection exactly if it is known, ready and not another than an enforced server |
| `Balancer.Picker.PickAny` | internal/data/client/balancer.go:247-286 | the preferred replica's connection if it has one, an error if an enforced one has none, else the round-robin choice; the counter moves only in that last case |
| `Balancer.Picker.Pick` | internal/data/client/balancer.go:204-286 | by the snapshot: what may write gets the leader's connection exactly if that has an address, is ready and no other server is enforced; a snapshot read gets the wished for replica if connected, else a ready one exactly if there is one; which error otherwise |
| `Balancer.PickForCall` | internal/data/client/client.go:69-121 | each call goes to the partition it names: to any replica exactly if it is a stream or reads alone at a read timestamp, else to the leader |
| `SubConnections.ClientConn.constructor` | internal/rpc/routing/client_conn.go:34-42 | no connections at first |
| `SubConnections.ClientConn.Connect` | internal/rpc/routing/client_conn.go:44-87 | exactly the listed addresses are connected unless the transport refused one; kept connections are the same objects, others are shut down |
| `SubConnections.ClientConn.CloseUnneeded` | internal/rpc/routing/client_conn.go:47-54 | exactly the unlisted connections are shut down and dropped |
| `SubConnections.ClientConn.OpenMissing` | internal/rpc/routing/client_conn.go:56-86 | the missing ones are opened, up to the first refusal |
| `SubConnections.ClientConn.Notify` | internal/rpc/routing/client_conn.go:165-196 | a state report changes the address's present connection and no other |
| `SubConnections.ConnectRounds` | internal/rpc/routing/client_conn.go:44-87 | over any series of lists every connection ever made is in use or shut down exactly once |
| `LinkedDeque.Queue.constructor` | internal/utils/queue.go:14-20 | holds the given items in order |
| `LinkedDeque.Queue.IsEmpty` | internal/utils/queue.go:22-24 | true exactly if nothing is in it |
| `LinkedDeque.Queue.PushFront` | internal/utils/queue.go:26-37 | puts the item before all others |
| `LinkedDeque.Queue.PushBack` | internal/utils/queue.go:39-50 | puts the item after all others |
| `LinkedDeque.Queue.PopFront` | internal/utils/queue.go:52-68 | takes the first item, if any |
| `LinkedDeque.Queue.PopBack` | internal/utils/queue.go:70-86 | takes the last item, if any |
| `LinkedDeque.Queue.PeekFront` | internal/utils/queue.go:88-94 | the first item, if any |
| `LinkedDeque.Queue.PeekBack` | internal/utils/queue.go:96-102 | the last item, if any |
| `LinkedDeque.Replay` | internal/utils/queue.go:22-102 | any history of operations on the linked nodes gives the contents and answers it gives on a sequence |
| `SessionLoops.JoinKept` | internal/session/session.go:102-243 | every step keeps the joining of the two loops sound |
| `SessionLoops.PublishKept` | internal/session/session.go:299-321 | every step keeps the tag cells in step with what was published |
| `SessionLoops.SessionSafe` | internal/session/session.go:76-243 | in every run over all reconnects no loop outlives its session, the channel is closed only after both loops have ended, nothing is sent on it then, and no publication repeats its predecessor's tag |
| `SessionLoops.NewTagPublished` | internal/session/session.go:299-321 | a new tag is published once and then held, and nothing else changes |
| `SessionLoops.KnownTagDropped` | internal/session/session.go:299-321 | a tag that is held is dropped |
| `SessionLoops.EnqueuedIsSent` | internal/session/session.go:178-198 | what the main loop enqueues the send loop can send |
| `SessionLoops.ClosingCompletes` | internal/session/session.go:102-176 | from every state of a closing session steps remain that end both loops and close the channel |
| `RequestDrain.CountsAdmitted` | internal/utils/drainer.go:52-75 | the counter is the number of admitted contexts not yet released |
| `RequestDrain.ZeroMeansReleased` | internal/utils/drainer.go:26-50 | when stopping reads zero, all that were admitted have been released |
| `RequestDrain.QuietForever` | internal/utils/drainer.go:26-75 | once stopped with nobody between look and count, nothing is ever admitted again |
| `RequestDrain.DrainExact` | internal/utils/drainer.go:26-75 | stopping drains for good exactly if no caller stands between its look at the channel and counting itself in |
| `RequestDrain.LateAdmission` | internal/utils/drainer.go:52-75 | a run in which a request is admitted after the drain has ended |
| `RequestDrain.AdmittedBeforeStop` | internal/utils/drainer.go:52-75 | a caller that looks before the stop gets in, one after it does not |
| `RequestDrain.DrainCompletes` | internal/utils/drainer.go:26-75 | releasing what is admitted is always possible and brings the counter to zero |
| `RoleSwitch.CurrentKept` | internal/control/server/service.go:105-131 | every step keeps the published role started and unstopped |
| `RoleSwitch.StopsKept` | internal/control/server/service.go:58-131 | every step keeps the account of stops |
| `RoleSwitch.RolesAlwaysSound` | internal/control/server/service.go:58-139 | through any leadership changes and failures the published role is running and of the announced kind, and each role taken back is stopped exactly once |
| `RoleSwitch.SwitchCompletes` | internal/control/server/service.go:105-131 | a notification of the other kind can be carried out: the old role is taken back, its stop spawned, and a new one of that kind started and published |
| `RoleSwitch.StopRuns` | internal/control/server/service.go:58-131 | a spawned stop can run at any time and stops just its role |
| `NemesisRunner.ShapeKept` | internal/testing/agent/service.go:226-316 | every step keeps commands, faults and results matched |
| `NemesisRunner.CountKept` | internal/testing/agent/service.go:226-316 | every step keeps the counter accounted for |
| `NemesisRunner.CounterConserved` | internal/testing/agent/service.go:226-316 | until shutdown the counter equals the faults under way, queued or being added; under the lock it is never negative; stopping all collects one result per fault |
| `NemesisRunner.NegativeUnlocked` | internal/testing/agent/service.go:226-316 | without the lock a reader can find it negative |
| `NemesisRunner.RunStarts` | internal/testing/agent/service.go:226-316 | a run request starts one more fault and raises the counter by one |
| `NemesisRunner.ResultTaken` | internal/testing/agent/service.go:226-316 | a fault that ends is taken off and the counter lowered by one |
| `NemesisRunner.StopCompletes` | internal/testing/agent/service.go:226-316 | stopping all can go on until every fault is heard from, the counter is zero and the requester is told |

## Left out

- PartitionRuns.PartitionSerializable: its condition is sufficient, not necessary; the exact one is in PartitionExact.
- ConsistentReads.TransactionCut: the partitions remember the transaction when their final states are compared, as
  they do until their clean-up.
- WatchdogLoop.ResolvedExact: speaks of transactions that nothing is reported of during the run; ReportedExact is
  about the others.
- Cluster.ClusterIsProtocol: one way only; that every state of the protocol machine comes from some cluster is not
  claimed.
- Cluster.ClusterCut: compares partitions between batches, while they remember the transaction; ClusterReads does
  without that.
- ClusterReads.SeenExact: asks for a fresh log, without which served reads change (LeaderChangeBreaks), and says nothing
  of participants that have aborted the transaction.
- Balancer.PickRound: one client picks at a time; concurrent ones share the counter.
- ClockCluster.CausalityPreserved: replies carry no timestamp in the code, so they are not edges of happens-before.
- ServerRuns.NeverIssuedTwice: asks for late enough boots; EarlyBootRepeats shows that this cannot be relaxed.
- EmulatedStore.GetFirstExact: asks for a non-empty key, as request validation does.
- EmulatedChecks.ChecksExact: speaks of transactions with non-empty keys and range starts, as request validation does.
- HybridClock: the statistics counters and the conversions to and from calendar time.
- Time-outs and liveness: nothing is proved about how soon, or that, a step is taken.
- Raft: logs, elections and snapshots transfer; a log is taken as the sequence of batches a partition applies.
- Request validation, retries and circuit breakers around the transaction code.
- Results of reads inside read-write transactions are not part of the recorded history; CommittedReadsStable says that
  they do not change.
- The durable storage engines, and the garbage collection of old versions. The in-memory store refuses a second,
  different record at one address and timestamp (`internal/data/server/storage/inmem/inmem.go:139-151`); here the last
  write counts.
- gRPC transport, the resolver, aggregate connectivity states and the readiness heuristic of the balancer.
- The control plane beyond sessions and roles: registration, rebalancing, status tracking, its own store.
- The graph layer of the API server, command line tools, configuration and the test workloads.
