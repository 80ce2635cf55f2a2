# Dagayn: concurrency and incremental state, verified

A Dafny model of the parts of Dagayn that keep a code graph correct while several threads and processes
use it: the graph read/write lock, the task queue between hooks and the worker, incremental updates against
full builds, the embedding pass, rank fusion, the git decoders, the connection pool and the provider
identity codec. `dafny verify dfyconfig.toml` checks everything.

Code that changes state in place is a class whose methods are proved against a specification; what the
specification promises over whole runs is proved about that specification as lemmas.

| area | files | main results |
|---|---|---|
| Thread lock | `ThreadLock`, `ThreadLockTheorems`, `RWThreadLock` | a state machine over any number of threads, and the class whose methods are its steps. A writer excludes every other hold, counts equal stacks plus the hold that is granted and not yet recorded, the queue head is never grantable, arrivals are served in order past no earlier request of any kind, refusals and timeouts leave nothing behind |
| Graph lock | `Sums`, `GraphLock`, `GraphLockTheorems`, `FileLock` | the flock layer over the thread lock in any number of processes: mode stack and thread lock in lockstep, a write scope is alone in the world, a failed upgrade is clean whatever others do meanwhile; the class for the flock with its polling |
| Task queue | `TaskPayload`, `TaskQueue`, `TaskQueueStore` | no request is lost over any run of enqueue, claim, complete, fail, crash and requeue; n new rows cost at most 3n claims |
| Incremental update | `Paths`, `Dependents`, `Repository`, `FileStore`, `IncrementalUpdate`, `CommitStamp` | an informed update without errors leaves exactly what a full build would; dependents by shortest distance under the cap; the commit stamp telescopes |
| Embeddings | `OpenAiProvider`, `ProviderKeys`, `EmbeddingStore`, `EmbeddingScan`, `EmbeddingRuns`, `CountCache` | a response is accepted only if its order can be told; slices add up to one pass; exactly when a following scan finds no work, by the same provider object and by one of its own per run; a cached count is a fresh one under every interleaving |
| Search and plumbing | `StableSort`, `RankFusion`, `RankFusionTheorems`, `Sequences`, `GitDecoders`, `ConnectionPool`, `IdentitySuffixes` | fusion with exact fractions; decoders undo git's encoding; the pool holds the last distinct keys; identity suffixes parse back |

## What the model found

* A release of the graph lock by a thread that holds nothing pops another thread's mode before the thread lock
  objects (`dagayn/write_lock.py:428-435` runs before `dagayn/write_lock.py:489`). `StrayRelease` says exactly when
  that is harmless: when the process has no mode stacked, that is when none of its threads got through both layers
  and is still inside. `StrayReleaseUnlocksAReader` is an instance.
* An embed request whose `files` is an empty list means the whole corpus to the worker
  (`dagayn/tools/queue_worker.py:118-123`) and nothing to the merge, which then forgets it. `WorkerUnionExactly`
  gives the exact condition under which a merge covers both requests by the worker's reading,
  `EmptyListIsForgotten` an instance where it does not.
* An outdated extractor claims files of the scope by language alone. One that is tracked but not indexable any more
  (binary, deleted) is removed and parsed in the same update. `RemovedIsNotParsed` and `PlanIsEnough` make that
  exact: apart from this the two sets are disjoint and the result is that of a full build
  (`BinaryFileOfAnOutdatedExtractor` is an instance).
* Rows are written under the computed provider key but looked up under a stored spelling of it, against the comment
  at `dagayn/embeddings_store.py:621-625`. `SameKeyScan` gives the exact condition under which a scan under the
  same key finds no work again (the key looked up is the key written, or there was no work), `RespelledNeverSettles`
  what follows for a respelled model ID over any number of runs: all work is done again in each.
* An unpinned provider looks under the key of the dimension it finds stored, that of the model's largest partition,
  and writes under the key with the dimension. When that partition has none, the scan of the next run finds nothing,
  however ties are broken, if and only if the written partition becomes the larger one and what was passed over is up
  to date there (`NewDimensionSettlesExactly`; `SettledExactly` for any set of partitions). If it becomes the larger one
  two runs settle everything (`SmallerPartitionSettlesInTwo`); if it stays the smaller one no number of runs does, each
  finds all of the work again (`LargerPartitionNeverSettles`, with `OneOfTwoNeverSettles` as an instance). A provider
  object that remembers the dimension it learnt finds again just what it had found up to date without one
  (`FirstDimensionFindsOldRows`).
* A connection whose setup fails after it was opened is neither pooled nor closed (`ConnectionPool.Connect`,
  `OneFailedSetup`).
* A stamp can move to a commit that is not the one that was diffed. `StampTelescopesExactly` says that no path between
  two stamps goes unvisited exactly when every update that moves a stamp covers its way, `CoversExactly` when an update
  whose HEAD moved still does, and `MovedHeadLosesAPath` is an instance where it does not.

## Assumptions

* Taking and releasing the flock are atomic steps between which other threads and processes act; clocks are
  parameters (whether a wait has expired, whether a slice is over its time).
* One update or build sees one working tree. `parse` and `hash` are arbitrary functions of path and content; an
  update compares hashes, so it needs rows that the present parsers wrote (`Faithful`). If contents with one hash
  parse alike, every history of updates and builds under the same parsers, failed ones included, leaves such rows
  (`InformedAfterAnyHistory`); rows of older parsers are the outdated extractors' files.
* The graph's direct-dependents relation is arbitrary.
* What an embedding run stores is proved for every server: the vectors that accepted responses to the calls made gave
  at each text's own position. Only to compare two runs does a server have to be truthful (`Honest`): the items of the
  responses that are accepted carry their texts' vectors, in whatever order. Failing, dropping and mislabelling are
  arbitrary, as long as the response check refuses the result.

## Model

| member | source | states |
|---|---|---|
| `ThreadLock.GrantKeepsAccounts` | dagayn/write_lock.py:157-175 | a grant charges its thread for the hold before the thread records it, and keeps writers exclusive |
| `ThreadLock.GrantKeepsFairness` | dagayn/write_lock.py:157-175 | a grant that is no upgrade goes to the earliest of all that wait |
| `ThreadLock.DispatchSettles` | dagayn/write_lock.py:157-175 | dispatching keeps the invariant and stops only at a head that is entitled to nothing |
| `ThreadLock.EnqueueKeepsQueue` | dagayn/write_lock.py:125-135 | upgrades go in front, others to the back, and the queue stays ordered by arrival behind the upgrades |
| `ThreadLock.WithdrawKeepsQueue` | dagayn/write_lock.py:149-155 | giving up removes exactly the caller's waiter |
| `ThreadLock.UnchargeUndoesOneHold` | dagayn/write_lock.py:185-204 | a release undoes exactly one hold, so neither clamp at zero ever fires |
| `ThreadLock.TakeKeepsInv` | dagayn/write_lock.py:177-183 | nesting on an own hold keeps the invariant |
| `ThreadLock.SettleKeepsInv` | dagayn/write_lock.py:136-147 | waking up, recording the hold or giving up keeps the invariant |
| `ThreadLock.AcquireKeepsInv` | dagayn/write_lock.py:109-147 | every acquisition keeps the invariant |
| `ThreadLock.ReleaseKeepsInv` | dagayn/write_lock.py:185-206 | every release keeps the invariant |
| `ThreadLock.RunKeepsInv` | dagayn/write_lock.py:59-206 | every reachable state satisfies the invariant, for any threads and any schedule |
| `ThreadLockTheorems.MutualExclusion` | dagayn/write_lock.py:109-206 | a writer excludes every hold of every other thread; the counts of every thread, blocked or not, equal its stack entries plus the hold granted and not yet recorded |
| `ThreadLockTheorems.NobodyWaitsForNothing` | dagayn/write_lock.py:157-175 | whenever the condition is free the head is blocked: a lock nobody holds has no waiters, a blocked head reader means a writer |
| `ThreadLockTheorems.FirstComeFirstServed` | dagayn/write_lock.py:79-84 | when a request that is no upgrade is served, every earlier one, upgrades included, was served before it or gave up |
| `ThreadLockTheorems.NobodyPassesAWaiter` | dagayn/write_lock.py:79-84 | of the requests that went through the queue, nothing but an upgrade is ever served while an earlier one still waits |
| `ThreadLockTheorems.OutcomeOfARequest` | dagayn/write_lock.py:109-147 | every request is granted at once if and only if it nests in a hold of its own mode, or no other thread is in its way and the thread holds something or nobody is queued; else it is refused if it may not wait and waits otherwise |
| `ThreadLockTheorems.FirstHoldIsServed` | dagayn/write_lock.py:115-132 | over every run, a thread that held nothing and holds something had a request of its own served through the queue, made since |
| `ThreadLockTheorems.NobodyOvertakes` | dagayn/write_lock.py:79-84 | over every run, as long as anybody who was queued still waits, a thread that asked for its first hold after that has none |
| `ThreadLockTheorems.RefusalChangesNothing` | dagayn/write_lock.py:136-140 | a non-blocking request that is refused, plain or upgrade, leaves the whole lock state as it was |
| `ThreadLockTheorems.TimeoutLeavesNothingBehind` | dagayn/write_lock.py:141-155 | a waiter that gives up is always still queued, and its thread keeps its holds and stack |
| `ThreadLockTheorems.AcquireThenRelease` | dagayn/write_lock.py:109-206 | an acquisition granted on the spot and its release put the lock back as it was |
| `ThreadLockTheorems.UpgradersCannotBothWin` | dagayn/write_lock.py:75-77 | two readers that both ask to upgrade both wait until one gives up, over every run |
| `RWThreadLock.RWThreadLock.constructor` | dagayn/write_lock.py:97-107 | a new lock is the initial state of the state machine |
| `RWThreadLock.RWThreadLock.GrantHead` | dagayn/write_lock.py:170-175 | charging, popping and marking the head is the grant of the state machine |
| `RWThreadLock.RWThreadLock.Dispatch` | dagayn/write_lock.py:157-175 | the loop is the dispatch of the state machine, for any queue |
| `RWThreadLock.RWThreadLock.Take` | dagayn/write_lock.py:177-183 | the new state is that of the nesting step |
| `RWThreadLock.RWThreadLock.Enqueue` | dagayn/write_lock.py:125-134 | the new state is that of the enqueueing step |
| `RWThreadLock.RWThreadLock.Drop` | dagayn/write_lock.py:149-155 | the new state is that of withdrawing and dispatching |
| `RWThreadLock.RWThreadLock.Settle` | dagayn/write_lock.py:136-147 | one pass of the wait loop is the waking step, with the same outcome |
| `RWThreadLock.RWThreadLock.Acquire` | dagayn/write_lock.py:109-147 | an acquisition up to its first wait is the acquiring step, with the same outcome |
| `RWThreadLock.RWThreadLock.Release` | dagayn/write_lock.py:185-206 | a release is the releasing step; it fails exactly for a thread with an empty stack and then changes nothing |
| `GraphLock.ReleaseFrame` | dagayn/write_lock.py:185-206 | releasing pops one thread's stack and touches no other |
| `GraphLock.TakeFlockKeepsLayers` | dagayn/write_lock.py:362-398 | taking the flock, first, nested or upgrading, keeps modes, stacks and file lock together |
| `GraphLock.TryUpgradeKeepsLayers` | dagayn/write_lock.py:337-345 | so does getting the exclusive flock after giving up the shared one |
| `GraphLock.TryRestoreKeepsLayers` | dagayn/write_lock.py:346-359 | so does getting the shared flock back after a lost upgrade |
| `GraphLock.ReleaseFlockKeepsLayers` | dagayn/write_lock.py:422-459 | so does popping a mode with its unlock or downgrade |
| `GraphLock.PerformKeepsInv` | dagayn/write_lock.py:462-489 | every step of a thread through both layers keeps its process consistent |
| `GraphLock.ActKeepsInv` | dagayn/write_lock.py:462-489 | and keeps an exclusive flock incompatible with any flock of another process |
| `GraphLock.RunWorldKeepsInv` | dagayn/write_lock.py:362-489 | so does every run of any number of processes that start, act and exit |
| `GraphLockTheorems.LayersInLockstep` | dagayn/write_lock.py:362-489 | the mode stack is the writer's own stack, or one shared mode per hold; an exclusive mode leaves other processes no lock, and modes exactly to those in the middle of an upgrade |
| `GraphLockTheorems.WriteScopeIsAlone` | dagayn/write_lock.py:492-530 | while a thread of any process is in a write scope, no other thread of any process is in any scope, except one whose upgrade has given its flock up |
| `GraphLockTheorems.ScopeRoundTrip` | dagayn/write_lock.py:462-489 | entering a scope, nested or upgrading, and leaving it restores thread lock, modes and flock |
| `GraphLockTheorems.FailedEntryIsClean` | dagayn/write_lock.py:462-479 | entering a scope whose first wait for the file lock fails restores thread lock, modes and flock |
| `GraphLockTheorems.EveryThreadCanAct` | dagayn/write_lock.py:462-489 | in every reachable world every thread can take a step, and when no other process holds the file its next attempt brings it on |
| `GraphLockTheorems.AttemptsFailExactly` | dagayn/write_lock.py:262-290 | an attempt at the file lock fails if and only if it is no nested one and another process holds the file exclusively, or at all when the exclusive lock is wanted |
| `GraphLockTheorems.FailedUpgradeIsClean` | dagayn/write_lock.py:462-479 | a reader asks for an upgrade, waits in the thread lock as long as it takes, loses the wait for the exclusive flock and gets its share back: its stack and holds are as before the call and are the modes of its process, whatever other threads and processes do in between |
| `GraphLockTheorems.LostUpgradeIsClean` | dagayn/write_lock.py:320-398 | the same from the grant of the thread lock onward, for every world in which it was granted |
| `GraphLockTheorems.WaitingKeepsTheWay` | dagayn/write_lock.py:136-147 | a reader waiting for an upgrade keeps its stack and its waiter over every run of others until it is granted |
| `GraphLockTheorems.UpgradeStarts` | dagayn/write_lock.py:372-391 | an upgrade over shared modes pushes its mode and gives the shared flock up first |
| `GraphLockTheorems.Undisturbed` | dagayn/write_lock.py:362-489 | no step of another thread or process moves a writer's place in either layer |
| `GraphLockTheorems.StrayRelease` | dagayn/write_lock.py:422-489 | a release by a thread that holds nothing keeps the layers in lockstep if and only if the process has no mode stacked |
| `GraphLockTheorems.StrayReleaseUnlocksAReader` | dagayn/write_lock.py:422-489 | an instance: one thread reads, another releases, and the read scope is left without a lock |
| `FileLock.FileLock.Wait` | dagayn/write_lock.py:262-307 | a wait succeeds with the first attempt that is granted and makes at least one, attempts are between the two polling intervals apart, it fails only past its timeout and less than one interval late, never without a timeout, and leaves the lock alone when it fails |
| `FileLock.FileLock.ReleaseThenExclusive` | dagayn/write_lock.py:320-359 | it ends with the exclusive lock at the first attempt granted, else with the shared one back at the first attempt granted, or with none, and tells which |
| `FileLock.FileLock.Acquire` | dagayn/write_lock.py:362-419 | a nested acquisition in a strong enough mode always succeeds without asking; any other succeeds if and only if an attempt is granted, with the first one, and always without a timeout; a granted one pushes its mode and holds the strongest, a failed one restores modes, and the lock unless the share could not be had back |
| `FileLock.FileLock.Release` | dagayn/write_lock.py:422-459 | a release pops the newest mode and holds just what the rest asks for |
| `FileLock.GrantedStepsAddUp` | dagayn/write_lock.py:362-419 | the single steps of a granted acquisition add up to the method's effect |
| `FileLock.RestoredStepsAddUp` | dagayn/write_lock.py:320-398 | the single steps of a lost and restored upgrade undo each other |
| `FileLock.ReleaseStepIsTheSame` | dagayn/write_lock.py:422-459 | the releasing step is what the method does |
| `TaskPayload.MergeIsUnion` | dagayn/task_queue.py:138-159 | a merged embed task covers exactly the union, with no list meaning everything, and skips the structural update only if both may |
| `TaskPayload.MergeKeepsNewest` | dagayn/task_queue.py:146-148 | all other keys are those of both requests, the newer value winning |
| `TaskPayload.MergeIncludes` | dagayn/task_queue.py:138-159 | a merge does what both requests and everything merged before asked for |
| `TaskPayload.WorkerUnionExactly` | dagayn/tools/queue_worker.py:118-123 | by the worker's reading of a list a merge covers the union if and only if no list without paths meets one that has some |
| `TaskPayload.EmptyListIsForgotten` | dagayn/tools/queue_worker.py:118-123 | an instance where the whole corpus was asked for and one file is left |
| `TaskQueue.EnqueueKeepsInv` | dagayn/task_queue.py:196-250 | adding or coalescing keeps every request in some task of its kind |
| `TaskQueue.ClaimKeepsInv` | dagayn/task_queue.py:252-296 | claiming keeps the requests and counts the attempt |
| `TaskQueue.CompleteKeepsInv` | dagayn/task_queue.py:298-302 | only requests that the claimed payload included count as done |
| `TaskQueue.FailKeepsInv` | dagayn/task_queue.py:304-330 | a failed task goes back or is parked with its payload, by the attempts of the claimed copy |
| `TaskQueue.RunKeepsInv` | dagayn/task_queue.py:196-430 | over every run pending rows have fewer than three attempts, running ones one to three, and a live worker's copy agrees with the only running row |
| `TaskQueue.NoRequestLost` | dagayn/task_queue.py:196-372 | every request is in a pending, running or dead task of its kind, was in one claimed after it and completed, or was cleared |
| `TaskQueue.ClaimsAreBounded` | dagayn/task_queue.py:65-68 | n rows cost at most 3n claims, and without new rows at most what the rows have left, even with crashes and coalescing into retried tasks |
| `TaskQueue.NextExists` | dagayn/task_queue.py:278-282 | when some pending task is due there is one to claim |
| `TaskQueue.NextIsUnique` | dagayn/task_queue.py:278-282 | and it is the only one: highest priority, then lowest id |
| `TaskQueue.NewRowsPlace` | dagayn/task_queue.py:236-282 | a new row is the next one if and only if every due row has a lower priority; any other row stays next if and only if its priority is not lower |
| `TaskQueue.CoalescingKeepsThePlace` | dagayn/task_queue.py:222-234 | a row that was next and is coalesced into still is |
| `TaskQueue.UpdateOvertakesEmbeds` | dagayn/task_queue.py:56-64 | with default priorities an update added behind embeddings and postprocessing is the only next one |
| `TaskQueue.ThreeAttempts` | dagayn/task_queue.py:304-330 | a task that keeps failing is put back with its work as it was and due after its delay, until the third failure parks it; no other row is touched |
| `TaskQueueStore.TaskQueue.Enqueue` | dagayn/task_queue.py:196-250 | one transaction adds a pending row with the largest id, its priority, no attempts and due at once, or merges the payload into a pending twin and keeps the higher priority; an unknown kind is an error that changes nothing |
| `TaskQueueStore.TaskQueue.Claim` | dagayn/task_queue.py:252-296 | it takes the due row of highest priority and lowest id, marks it running and counts the attempt, or takes none when none is due |
| `TaskQueueStore.TaskQueue.Complete` | dagayn/task_queue.py:298-302 | only a running row is dropped; the outcome is logged |
| `TaskQueueStore.TaskQueue.Fail` | dagayn/task_queue.py:304-330 | a retried row is pending again with its delay, a fatal or spent one is parked; nothing else of it and no other row changes |
| `TaskQueueStore.TaskQueue.RequeueStale` | dagayn/task_queue.py:344-372 | every running row is put back or parked, each is told of once in the log by its kind and outcome, and others stay |
| `TaskQueueStore.TaskQueue.Log` | dagayn/task_queue.py:421-431 | the log is the last rows of everything ever logged |
| `TaskQueueStore.TailGrows` | dagayn/task_queue.py:421-431 | appending and deleting the ids that fell out keeps exactly the last rows |
| `Paths.SortedLists` | dagayn/incremental_build.py:145 | sorting a set lists its elements once, in code point order |
| `Paths.FirstDifferenceDecides` | dagayn/incremental_build.py:145 | the order is that of the first differing character, a prefix coming first |
| `Dependents.FindDependentsForFiles` | dagayn/incremental_build.py:122-158 | the loop returns the full expansion or its first 500 files, and says whether that cut it |
| `Dependents.FullIsExact` | dagayn/incremental_build.py:73-82 | the full expansion is exactly the files at shortest distance 1 to the limit from the roots |
| `Dependents.NoRootIsDependent` | dagayn/incremental_build.py:142-146 | no root is among them |
| `Dependents.FullIsOrdered` | dagayn/incremental_build.py:140-145 | they come by distance and then by path, none twice |
| `Dependents.CapKeepsTheClosest` | dagayn/incremental_build.py:131-133 | no file that is kept is farther than one that is dropped |
| `FileStore.FilterCandidates` | crates/dagayn-parser/src/discovery.rs:125-168 | paths that are not ignored are split into files some parser takes and paths to remove |
| `FileStore.ClassifyChangedFiles` | dagayn/incremental_build.py:306-340 | changed are exactly the files whose hash is not the stored one, unless their time is trusted; the others get their present time |
| `FileStore.StoreFailures` | dagayn/incremental_build.py:528-541 | there is a store failure if and only if some error is one of storing |
| `FileStore.Store.ClassifyRust` | crates/dagayn-build/src/parse_batch.rs:214-289 | the changed files are those of another hash that the Rust parser takes, exactly the others of these are reported, and unchanged ones get their present time |
| `FileStore.Store.StoreFile` | dagayn/incremental_update_pipeline.py:433-459 | one file gets the row of its present content, or is reported and keeps its old row |
| `FileStore.Store.StoreFiles` | dagayn/incremental_update_pipeline.py:427-479 | exactly the files that parse get the rows of their present content, exactly the others are reported, in order, and all other rows stay |
| `FileStore.Store.StoreRustBatches` | dagayn/incremental_build.py:544-583 | exactly the files that parse in the chunks that are not refused get their present rows; reported are exactly the others in these and all files of refused chunks, as store failures |
| `FileStore.Store.StoreChangedFiles` | crates/dagayn-build/src/parse_batch.rs:150-207 | each file has its present time if its hash is the stored one, else its present row if it parses, else it is reported; all other rows stay |
| `FileStore.ExactIsUnique` | dagayn/incremental_build.py:595-715 | two stores that hold exactly the indexed files from their present content hold the same file data |
| `IncrementalUpdate.Update.Prepare` | dagayn/incremental_update_pipeline.py:148-208 | what to look at: the explicit list or the diff, the forced files, the rows outside the scope, and whether the diff covers the stamped commit |
| `IncrementalUpdate.Update.ClassifyRoots` | dagayn/incremental_update_pipeline.py:211-258 | the changed files are exactly those of another content, the removed ones exactly the rows in question that are not indexed |
| `IncrementalUpdate.Update.Expand` | dagayn/incremental_update_pipeline.py:260-281 | candidates are exactly the indexed files that changed or depend, removed ones exactly the rows in question or depending that are not indexed |
| `IncrementalUpdate.Update.Plan` | dagayn/incremental_update_pipeline.py:284-342 | each file is in exactly the queue its owner, its content and the mtime shortcut say, and times are noted for exactly the others that were looked at |
| `IncrementalUpdate.Update.Apply` | dagayn/incremental_update_pipeline.py:357-366 | removed rows go, noted times are set, and all file data stays |
| `IncrementalUpdate.Update.Parse` | dagayn/incremental_update_pipeline.py:397-479 | whatever fails, every queued file that is due is fresh if its parser takes it and its chunk is accepted, exactly the others of these are reported, and no other file data moved; without errors every queued file is fresh or had the stored hash |
| `IncrementalUpdate.PlanIsEnough` | dagayn/incremental_update_pipeline.py:211-479 | if every path that differs was named, the result is exact if and only if the outdated extractors' files are indexed: the mtime shortcut hides nothing |
| `IncrementalUpdate.FilesAreIndependent` | dagayn/incremental_update_pipeline.py:211-479 | whatever else fails: a named file of another content is stored if its parser takes it, so are dependents of another content and time and outdated extractors' files; what is no longer indexed goes; any other row stays |
| `IncrementalUpdate.DependentsAreReached` | dagayn/incremental_update_pipeline.py:246-257 | the dependents are exactly the files at a distance of one or two from what changed or went, unless there are more than 500 |
| `IncrementalUpdate.RemovedIsNotParsed` | dagayn/incremental_update_pipeline.py:284-366 | a file is both removed and parsed if and only if an outdated extractor claims a removed one |
| `IncrementalUpdate.Update.Process` | dagayn/incremental_update_pipeline.py:211-479 | with or without errors every file has the outcome its request says and exactly the files that could not be parsed or stored are reported; the phases meet the terms of the plan theorem |
| `IncrementalUpdate.NothingToDo` | dagayn/incremental_update_pipeline.py:198-207 | with nothing to look at an informed store was exact already |
| `IncrementalUpdate.IncrementalUpdate` | dagayn/incremental_update_pipeline.py:507-553 | with or without errors every file has the outcome its request says, exactly the files that could not be parsed or stored are reported, and the stamp moves to HEAD if and only if the diff covers the stamp, HEAD is known and no file failed to be stored; an informed update without errors leaves what a full build would |
| `IncrementalUpdate.FullBuild` | dagayn/incremental_build.py:595-715 | whatever was stored before, a file that is not indexed has no row, an indexed one its present row if its parser takes it and its chunk is accepted, else the row it had; exactly the others are reported; without errors that is every indexed file; the stamp is HEAD if that is known and no file failed to be stored |
| `IncrementalUpdate.BinaryFileOfAnOutdatedExtractor` | dagayn/extractor_versions.py:117-131 | an instance: a tracked file that turned binary is removed and parsed again, and the store differs from a build |
| `IncrementalUpdate.HistoryKeepsFaithful` | dagayn/incremental_update_pipeline.py:433-459 | any number of updates and builds, with or without errors, keeps every row one that the present parsers wrote |
| `IncrementalUpdate.InformedAfterAnyHistory` | dagayn/incremental_update_pipeline.py:148-208 | so after any history of an empty store, or since a clean build, an update is informed if and only if every path of its scope that differs is named |
| `IncrementalUpdate.ExactIsFaithful` | dagayn/incremental_build.py:595-715 | what a clean build of some tree leaves holds only rows of its parsers, whatever was stored before |
| `FileStore.CarriedKeepsFaithful` | dagayn/incremental_build.py:306-340 | one update or build keeps the rows comparable by hash |
| `CommitStamp.StampTelescopes` | dagayn/incremental_build.py:718-737 | if every update that moves a stamp covers its way, whatever differs between two stamped commits was in the changed files of a stamping update in between, or a full build took the stamp |
| `CommitStamp.StampTelescopesExactly` | dagayn/incremental_build.py:718-737 | and only then: over all pairs of stamps of a run nothing goes unvisited if and only if every moving update covers its way |
| `CommitStamp.CoversExactly` | dagayn/incremental_files.py:521-529 | an update that git answered covers its way if and only if what HEAD moved by since the diff is among its changed files; so it does when HEAD stood still |
| `CommitStamp.OnceStamped` | dagayn/incremental_update_pipeline.py:94-109 | a stamp is never taken away |
| `CommitStamp.MovesExactly` | dagayn/incremental_update_pipeline.py:94-109 | an event leaves the HEAD it saw last as the stamp if and only if it is clean, knows HEAD and, for an update, is based on the stamp without an explicit list |
| `CommitStamp.StampKeepsUp` | dagayn/incremental_update_pipeline.py:482-504 | after a clean build and any number of clean updates, each based on the last HEAD, the stamp is the last HEAD |
| `CommitStamp.UncoveredRunKeepsStamp` | dagayn/incremental_update_pipeline.py:482-504 | runs of updates with an explicit list, another base or a store failure never move the stamp |
| `CommitStamp.MovedHeadLosesAPath` | dagayn/incremental_files.py:521-529 | without HEAD standing still a stamp can claim a path nobody looked at |
| `OpenAiProvider.CheckMeansPermutation` | dagayn/embeddings_providers.py:500-509 | the two set comparisons accept exactly the permutations of 0 to n - 1 |
| `OpenAiProvider.SortedAligns` | dagayn/embeddings_providers.py:510 | after sorting the item with index i is at position i |
| `OpenAiProvider.Align` | dagayn/embeddings_providers.py:481-529 | a response is accepted if and only if it is a permutation or an unindexed list of the right length, and then each input gets its own item |
| `OpenAiProvider.AnyOrderComesBack` | dagayn/embeddings_providers.py:498-513 | vectors sent with their indices in any order come back in theirs, and are accepted if and only if none is missing or sent twice |
| `OpenAiProvider.UnindexedComesBack` | dagayn/embeddings_providers.py:498-513 | unindexed ones come back as sent, and are accepted if and only if there is one per text |
| `OpenAiProvider.MixedIsRefused` | dagayn/embeddings_providers.py:514-525 | items with and without an index together, or with one that is no integer, are refused |
| `OpenAiProvider.Provider.CallApi` | dagayn/embeddings_providers.py:407-533 | a call succeeds exactly for such a response, and the first one tells an unpinned dimension |
| `OpenAiProvider.Provider.Embed` | dagayn/embeddings_providers.py:571-577 | the calls made are for the slices in order; on success they make up the texts, and each text has the vector that the accepted response to its own slice gave at its position; on failure the last response was refused |
| `OpenAiProvider.AllToldMore` | dagayn/embeddings_providers.py:571-577 | what several calls told about parts of a list they told about the list, each text at its place |
| `OpenAiProvider.AnsweredHonestly` | dagayn/embeddings_providers.py:485-529 | if the items of accepted responses carry their texts' vectors, in whatever order, every text gets its own vector |
| `EmbeddingStore.EmbeddingStore.StoreVectors` | dagayn/embeddings_store.py:811-827 | one row per item under the provider key, with the vector at its position |
| `EmbeddingStore.PutHolds` | dagayn/embeddings_store.py:811-827 | with distinct names each name has the vector at its position and its hash, and other rows stay |
| `EmbeddingStore.PutInParts` | dagayn/embeddings_store.py:713-809 | storing a list is storing its first part and then the rest |
| `EmbeddingStore.EmbeddingStore.EmbedBatch` | dagayn/embeddings_store.py:745-802 | for every server: a batch is stored if and only if its one call is accepted, under the one key, each name with the vector that call gave at the name's position; a refused one changes nothing |
| `EmbeddingStore.EmbeddingStore.EmbedIndividually` | dagayn/embeddings_store.py:829-880 | for every server: exactly the nodes whose own call is accepted are stored as told, in order, and the names of exactly the others are returned |
| `EmbeddingStore.RescuedOrLost` | dagayn/embeddings_store.py:840-880 | a node is stored or named as failing by the answer to its own call alone |
| `EmbeddingStore.EmbeddingStore.EmbedOrIsolate` | dagayn/embeddings_store.py:755-776 | a refused batch falls back to its nodes if and only if it has several and the refusal may be one bad input; it fails with the refusal otherwise, or with exactly the nodes refused by themselves, after storing the others |
| `EmbeddingStore.ForgivingNeverFails` | dagayn/embeddings_store.py:50-69 | with a server that refuses several texts only for what may be one bad input, and no single text, no batch fails |
| `EmbeddingStore.EmbeddingStore.EmbedPrepared` | dagayn/embeddings_store.py:713-809 | for every server: a call first adopts a stored dimension; one that returns stored a non-empty prefix as told for it and left exactly the rest, stopping at the first batch boundary past its deadline; one that fails stored all before the failing batch and what of that is accepted node by node; with a forgiving server none fails |
| `EmbeddingStore.EmbeddingStore.SeedDimension` | dagayn/embeddings_store.py:594-611 | a known dimension stays; an unknown one becomes that of a largest stored partition of the model, or stays unknown |
| `EmbeddingStore.EmbeddingStore.ProviderKeyForLookup` | dagayn/embeddings_store.py:613-637 | after that the key is some stored spelling of the first candidate that has one, else the computed key |
| `EmbeddingStore.EmbeddingStore.EmbedInSlices` | dagayn/tools/build.py:226-300 | each window opens a store and a provider anew; windows end and store a prefix as told for it, each item under the key of its window, and all under one key when one dimension is pinned or the only one; they stop early only when the budget ran out at the slice reached, and at no earlier one; a failing one stored all before the failing batch and what of that is accepted node by node |
| `EmbeddingStore.SlicesAgree` | dagayn/tools/build.py:226-300 | when accepted responses are truthful and one dimension is pinned or the only one, windows that got to the end leave the rows of a single pass, through whatever failures and fallbacks |
| `ProviderKeys.PersistedKeyForSameIdentity` | dagayn/embeddings_store.py:569-592 | the stored key of the model with the most rows, in whatever spelling or dimension, or none if none is stored |
| `ProviderKeys.LookUp` | dagayn/embeddings_store.py:618-637 | the first candidate with a partition decides |
| `ProviderKeys.LegacyRowsAreFound` | dagayn/embeddings_providers.py:91-103 | rows under the key or the bare name, with their dimension or without and in whatever spelling, are found whenever there are any |
| `ProviderKeys.LooksUnderLargest` | dagayn/embeddings_store.py:569-637 | in a store without other spellings a provider that knows no dimension looks under a partition if and only if none of the model has more rows |
| `EmbeddingScan.ScanUnder` | dagayn/embeddings_store.py:673-711 | under one key the work is every node but files whose row is missing or of another text, in order |
| `EmbeddingScan.PrepareEmbedWork` | dagayn/embeddings_store.py:659-711 | the same under the key that the store's provider looks up, with the dimension it adopts |
| `EmbeddingScan.FollowingScan` | dagayn/embeddings_store.py:659-809 | whatever the keys, a following scan finds nothing if and only if every node was up to date where it looks, or was found and written there |
| `EmbeddingScan.SameKeyScan` | dagayn/embeddings_store.py:659-809 | under the same key it finds nothing if and only if that is the key written or there was no work, and all of the work otherwise |
| `EmbeddingScan.FollowingScanFindsNothing` | dagayn/embeddings_store.py:613-637 | with one spelling of the computed key stored, a scan that looks there leaves nothing for the next, whatever legacy partitions there are |
| `EmbeddingScan.ScanAfterPass` | dagayn/embeddings_store.py:594-637 | both lookups of one provider object, the dimension adopted or learnt on the way and the scan joined: nothing is found if and only if all is covered, and with one spelling of the key written, if and only if what the first scan passed over is up to date there |
| `EmbeddingScan.FirstDimensionFindsOldRows` | dagayn/embeddings_store.py:784-827 | after an object learnt its first dimension the same object finds nothing if and only if no node was up to date without one |
| `EmbeddingRuns.LargestAfter` | dagayn/embeddings_store.py:582-591 | which partitions are largest after a pass, from row counts before it |
| `EmbeddingRuns.SettledExactly` | dagayn/embeddings_store.py:569-711 | for any partitions: the next run's own provider finds nothing, however ties are broken, if and only if every partition that would be largest covers all nodes; both told before the run |
| `EmbeddingRuns.NewDimensionSettlesExactly` | dagayn/embeddings_store.py:594-611 | a pass that found no dimension and learnt one leaves nothing for the next run if and only if the written partition becomes larger than that without one and what was passed over is up to date there |
| `EmbeddingRuns.LargerPartitionNeverSettles` | dagayn/embeddings_store.py:594-611 | while the partition without a dimension stays the larger, every scan after any number of runs looks there and finds all of the work again |
| `EmbeddingRuns.SmallerPartitionSettlesInTwo` | dagayn/embeddings_store.py:594-611 | if it becomes the smaller, the next run looks under the written one and the one after finds nothing |
| `EmbeddingRuns.OneOfTwoNeverSettles` | dagayn/embeddings_store.py:594-611 | an instance: of two rows without a dimension one is outdated, and its node is work in every run |
| `EmbeddingRuns.EmbedInWindows` | dagayn/tools/build.py:213-300 | a run scans under the key its own provider looks up, and one that gets to the end leaves the rows of that pass under the key of the one dimension |
| `EmbeddingScan.RespelledNeverSettles` | dagayn/embeddings_store.py:617-637 | for every store and list of nodes: a respelled partition can be looked up after any number of passes, and each finds all of the work again |
| `EmbeddingScan.AnotherSpellingNeverSettles` | dagayn/embeddings_store.py:617-637 | an instance: one changed node under a model name that once had a capital |
| `CountCache.StepKeepsInv` | dagayn/embeddings_store.py:1003-1036 | a cached count belongs to a version that is past or whose rows still count so, whoever writes between reading version and rows |
| `CountCache.HitIsAFreshCount` | dagayn/embeddings_store.py:1014-1021 | over every interleaving a hit answers what counting now would |
| `CountCache.CountIsRemembered` | dagayn/embeddings_store.py:1013-1030 | a count that nobody writes into is a hit from then on, whatever other readers do |
| `CountCache.WriteEndsTheHit` | dagayn/embeddings_store.py:399-419 | after any write or recreation of the table no cached count is a hit |
| `CountCache.NewRowCounts` | dagayn/embeddings_store.py:1022-1027 | a new row counts for its own provider and dimension and for no other |
| `CountCache.SilentWriteMakesAStaleHit` | dagayn/embeddings_store.py:407-418 | which rests on every write raising the generation |
| `StableSort.SortPermutes` | dagayn/search.py:553 | sorting keeps the elements |
| `StableSort.SortAscends` | dagayn/search.py:553 | and orders them by key |
| `StableSort.SortIsStable` | dagayn/search.py:553 | and two elements change places only for a strictly smaller key |
| `RankFusion.RrfMerge` | dagayn/search.py:511-554 | the loops compute the ranking; a negative k divides by zero if and only if some list is long enough to have that rank |
| `RankFusionTheorems.RankedIsTheUnion` | dagayn/search.py:514-519 | the result is the union of the lists, each id once with the sum over its occurrences, in descending order |
| `RankFusionTheorems.HigherScoreOutranks` | dagayn/search.py:553 | a higher score comes first |
| `RankFusionTheorems.TiesKeepFirstSeen` | dagayn/search.py:553 | equal scores keep the order in which ids were first seen |
| `RankFusionTheorems.SingleListKeepsItsOrder` | dagayn/search.py:530-531 | a single list without duplicates keeps its order for every k from 0 up |
| `RankFusionTheorems.AheadEverywhereOutranks` | dagayn/search.py:514-517 | an item ahead of another in every list that holds the other outranks it |
| `RankFusionTheorems.OneListBeatsTwo` | dagayn/search.py:532-540 | rank a in one list beats rank b in two if and only if k < b - 2a - 1 |
| `Sequences.DedupeIsDistinct` | dagayn/incremental_files.py:740-742 | no path twice |
| `Sequences.DedupeIsInFirstSeenOrder` | dagayn/incremental_files.py:740-742 | paths come in the order they are first seen |
| `GitDecoders.FieldsRoundTrip` | dagayn/incremental_files.py:608-610 | splitting undoes joining for all fields without NUL |
| `GitDecoders.ParseNameStatus` | dagayn/incremental_files.py:640-654 | the loop collects the paths record by record, also from a cut-off payload |
| `GitDecoders.NameStatusRoundTrip` | dagayn/incremental_files.py:640-654 | for every list of changes and moves the decoder returns all paths of both sides, first seen first, none twice |
| `GitDecoders.CutOffRecord` | dagayn/incremental_files.py:640-654 | a payload that ends in the middle of a record gives all paths before the end |
| `GitDecoders.GetWorktreeChangeSources` | dagayn/incremental_files.py:687-737 | the loop sorts the fields record by record and drops duplicates per list |
| `GitDecoders.PorcelainRoundTrip` | dagayn/incremental_files.py:707-730 | every path lands in exactly the lists its record's letters say, a move's second field with the first |
| `ConnectionPool.RecentIsDistinct` | dagayn/connection_pool.py:16-21 | the keys by last use are the keys of the history, each once |
| `ConnectionPool.RecentIsByLastUse` | dagayn/connection_pool.py:16-21 | and in the order of their last use |
| `ConnectionPool.PoolHoldsTheMostRecent` | dagayn/connection_pool.py:28-63 | after any gets the pool holds the last distinct keys that fit, by last use |
| `ConnectionPool.ConnectionPool.Evict` | dagayn/connection_pool.py:43-48 | the least recently used connection leaves the pool and is closed, once |
| `ConnectionPool.ConnectionPool.Connect` | dagayn/connection_pool.py:50-63 | a new connection is opened and pooled, or not opened, or leaks when its setup fails |
| `ConnectionPool.ConnectionPool.Get` | dagayn/connection_pool.py:28-63 | the connection of the key; open connections are the pooled and the leaked ones, at most the least recently used is closed, exactly a failed setup leaks one, and a pool for nothing fails |
| `ConnectionPool.OneFailedSetup` | dagayn/connection_pool.py:50-63 | an instance: a connection stays open that the pool does not know, also after closing all |
| `ConnectionPool.ConnectionPool.CloseAll` | dagayn/connection_pool.py:65-73 | all pooled connections are closed once, in order |
| `IdentitySuffixes.ValueOfText` | dagayn/embeddings_providers.py:36-48 | reading an integer undoes writing it |
| `IdentitySuffixes.ParseIdentitySuffixes` | dagayn/embeddings_providers.py:25-49 | the loop ends on every string and peels one suffix after another |
| `IdentitySuffixes.PeeledIsUnmarked` | dagayn/embeddings_providers.py:25-49 | what is left holds no suffix |
| `IdentitySuffixes.SuffixRoundTrip` | dagayn/embeddings_providers.py:25-58 | parsing undoes formatting for every base without markers |
| `IdentitySuffixes.OnlyUnmarkedComesBack` | dagayn/embeddings_providers.py:25-58 | and for no other base |
| `IdentitySuffixes.ReversedSuffixesAreRejected` | dagayn/embeddings_providers.py:29-47 | a dimension before a maximal length is not recognised |

## Left out

- FileLock.FileLock.Acquire: the window in which two readers of one process both find no handle and each install one (`dagayn/write_lock.py:370-380` against `dagayn/write_lock.py:418-419`); taking the flock is one step.
- FileLock.FileLock.Wait: the branches that proceed without a lock (no `fcntl`, an `OSError`), a default timeout set to zero, and a wait without a timeout that is never granted, which does not return.
- FileLock.FileLock.ReleaseThenExclusive: a wait without a timeout that is never granted, as for the wait itself.
- GraphLock.TakeFlockKeepsLayers: the same window between looking the handle up and installing it; taking the flock is one step.
- GraphLockTheorems.FailedUpgradeIsClean: a restore that fails as well leaves modes without a lock; `FileLock.FileLock.Acquire` says so, the theorem is about a restore that succeeds.
- GraphLock.ReleaseFlockKeepsLayers: the kernel's downgrade from exclusive to shared is one step; on some systems it lets go in between.
- GraphLockTheorems.WriteScopeIsAlone: a thread whose upgrade has given up its flock does not count as in a scope; another process may write meanwhile, so nothing is said about what a reader sees across its own upgrade.
- Thread ids that are reused while holds of a dead thread remain, and the read locks bound to store objects.
- TaskPayload.MergeIsUnion: `str()` of list entries that are not strings, and payloads that are not JSON objects.
- TaskQueue.NoRequestLost: "at most one pending task per kind" is false (a retried task can sit beside a newer twin) and not claimed.
- TaskQueueStore.TaskQueue.RequeueStale: the order of its log rows, which is that of an unordered query.
- The queue's worker processes, budgets and status reports, beyond the single worker that its lock guarantees.
- IncrementalUpdate.Update.Prepare: the expansion of changed submodules into their files, and stamps of extractor versions; the outdated extractors' files are a parameter.
- FileStore.FilterCandidates: symbolic links and spellings that differ from the disk are taken as not being on disk.
- FileStore.Store.StoreFiles: the process pool and batched commits, which change neither rows nor their order per file; files that change while an update reads them; a Rust call that raises out of the update.
- CommitStamp.StampTelescopes: uncommitted edits that were indexed and then discarded, and git commands that fail.
- OpenAiProvider.Provider.CallApi: HTTP, retries and sleeps; a reply is what the retry loop ends with.
- EmbeddingStore.EmbeddingStore.EmbedInSlices: a window's objects are the same ones with what they learnt forgotten; the branch for a window without progress, which a window that returns never takes.
- EmbeddingStore.EmbeddingStore.EmbedPrepared: providers that answer with another number of vectors than texts; the modelled one never does.
- EmbeddingScan.PrepareEmbedWork: how a node becomes a text, and the batching of the hash query.
- EmbeddingRuns.SettledExactly: model names that hold a suffix marker, and stores with other spellings, for which `EmbeddingScan.RespelledNeverSettles` speaks; the nodes are the same in both runs.
- EmbeddingRuns.EmbedInWindows: pruning the rows of nodes that are gone, dropping the partitions of other models after a run (`dagayn/embeddings_store.py:967-991`, which keeps every partition of the model in use), and the pointer to the active provider.
- RankFusion.RrfMerge: floating-point rounding; scores are exact fractions.
- The boosts, intents and fallbacks around the fusion in `hybrid_search`.
- GitDecoders.GetWorktreeChangeSources: running git, and the listings of other version control systems.
- ConnectionPool.ConnectionPool.Get: resolving the path of a key, and the lock that makes a get one step.
- IdentitySuffixes.ParseIdentitySuffixes: digits and blanks outside ASCII.
- The Rust parsers, the graph store's SQL, full-text and vector search, file watching, the daemon, the registry and logging.
