# EventFS, verified

EventFS is a multi-Raft aggregate event store. Its hard logic sits in deterministic state machines that a
replicated log drives, in the byte encodings they rely on, and in a few protocols around them. This project models
that logic in Dafny and proves what it promises: over every run, every reachable state and every input, not on
examples. `dafny verify dfyconfig.toml` checks all of it.

## How it is built

| files | what they hold |
|---|---|
| `Base`, `Lexicographic`, `Aggregate`, `Keys` | machine widths, byte order, identities and fingerprints, the key families |
| `AggregateGroup`, `AggregateGroupInvariant`, `AggregateGroupRuns`, `AggregateGroupLimits`, `AggregateGroupRedelivery`, `AggregateGroupObject`, `GroupFetch`, `GroupsOverLog` | the consumer-group partition: its commands, its invariant, its guarantees over runs, the object that runs it, and the same guarantees for what the state machine stores |
| `AggregateGroupFates`, `AggregateGroupClaims`, `AggregateGroupWindows` | what each command means: whose deliveries leave and how, which candidates are handed out, and when a claim looks at all |
| `GroupLives`, `GroupRebirth` | groups that are deleted and created again |
| `AggregateCatalog`, `GroupCatalog` | types, placements and moves; consumer groups |
| `CatalogHistory`, `GroupCatalogHistory`, `StoreHistory`, `EventOrigins`, `CatalogsOverLog`, `ProgressOverLog` | the same states told by their histories: what a catalog or a store holds, accepts and answers, read off what it accepted before |
| `StateMachine`, `ApplyBatch`, `ApplyRefinement`, `BatchedApply` | the reference machine, one entry at a time; the overlay of a batch; the refinement and its runs with crashes; the storage object |
| `StoreInvariant`, `StoreRuns`, `StoreVersions`, `StoreReads`, `StoreKeys` | what every reachable store keeps, and what follows from it |
| `RangeScan`, `StoreScans` | range scans of a byte tree, and the reads made of them |
| `ReadMerger`, `FeedChain`, `FollowFeed`, `FollowFeedProof`, `FollowFeedSteps`, `FollowFeedRuns`, `FollowFeedNow`, `FollowFeedRewind`, `FollowFeedBounds`, `MergerStatus`, `FeedLogs` | the follow feed as interleaved steps, its invariant and its theorems from a cursor and from now, and where its logs come from |
| `StatePages`, `StateListing` | sharded pagination |
| `SnapshotStream`, `SnapshotInstall`, `SnapshotTransfer`, `LogStore`, `LogHistory` | snapshot framing, install and catching up; the raft log |
| `Redirect`, `Handles` | the leader retry plan and call loop; file-handle buffers |

Where the program changes something step by step, the model is a class or a method, and each method is proved against
a function of the old state; the theorems are about those functions. Where the program computes a value, the model is
that function.

## Assumptions

- Numbers are unbounded; every saturating or checked operation of the program is written out at its width.
- Positions stop below the top of `u64` because an append refuses to allocate the last one; this is proved
  (`FeedLogs.NextFits`), and the consumer-group and feed models use it.
- The hash behind fingerprints is any function of the bytes. That two different requests have different fingerprints is
  therefore not claimed; that the hashed bytes differ is.
- Stored values are kept as typed values rather than their encodings, except in snapshots, where any encoding of values
  that can be read back will do. Keys are bytes wherever a range is scanned. Decoding errors of stored values do not occur.
- The store is an ordered map with atomic commits. Raft delivers one committed, ordered log.
- A claim's candidates are a contiguous ascending window of the partition log that begins at or before the checkpoint,
  carry delivery ids the partition does not hold, and are not replays. That a fetch builds such a window is proved
  (`GroupFetch.CandidatesAreWindow`); that fresh ids are fresh is assumed. The start a group command carries, from
  which a new epoch begins, does not lie past the end of the partition log.
- Keys in range and injectivity theorems belong to validated identities and to numbers of their declared widths.
- Numbers in requests have their declared widths where bytes are concerned: 16-bit partitions, 128-bit event ids.

## What does not hold

- Once the group catalog's revision has reached the top of `u64`, a batch no longer answers as entry-by-entry apply does
  (`ApplyRefinement.TopRevisionDiverges`). What it stores still agrees. The answers agree exactly as long as every
  group-catalog command finds a revision below the top or changes nothing (`ApplyRefinement.FittingIsAnswering`).
- A frame of a follow from now, made before a partition's head is known, names the beginning of that partition, and a
  client that resumes from it is shown events below the head (`FollowFeedRewind.NowCursorRewinds`).
  `FollowFeedNow.NowCursorsExact` and `FollowFeedNow.ResumingRewinds` say exactly when. A follow from the beginning
  or from a cursor has exact cursors.
- A group that is deleted and created again does not start afresh: its stored progress outlives it. One run goes on from
  the old checkpoint (`GroupRebirth.NewLifeResumes`), another is refused as stale (`GroupRebirth.NewLifeIsStale`).
  `GroupLives.ProgressOutlivesGroup` says exactly when it starts afresh, goes on, or is refused.
- A deletion of a group can be confirmed without deleting anything: exactly when its operation id last wrote the group
  (`GroupCatalog.DeletedButThere`, with a run in `GroupCatalog.ConfirmedNotDeleted`).
- A claim whose own expiry parks the checkpoint position hands out nothing, though later candidates of its window are
  free and there is credit (`AggregateGroupWindows.FreeIsLeftOut`). `AggregateGroupWindows.WindowIsLookedAt` says
  exactly when a claim looks at its window.
- The retry delay stops doubling after attempt 63, exactly when the maximum is not reached by then
  (`AggregateGroupLimits.BackoffDoubles`).
- A purge to an earlier index forgets entries an earlier purge removed (`LogStore.BackwardPurgeForgets`);
  `LogStore.PurgeCoversExactly` says exactly when a purge is safe, and `LogStore.PurgeCoversOnTree` says it of the tree.
- With `max_retries` at the top of `u32` a delivery is never parked for its attempts, and redelivery has no bound; it has
  one exactly below the top (`AggregateGroupRedelivery.RedeliveryBoundedExactly`).
- A snapshot holding a key or value above 1 GiB can be written but not read back (`SnapshotStream.WrittenIsRead`).

## Model

| member | source | states |
|---|---|---|
| `AggregateGroupRuns.PerInstanceOrder` | eventstore/es-core/src/aggregate_group.rs:453-533 | in every reachable state, a position that is delivered or waiting for a retry has every earlier position of its instance, since the epoch began, resolved; and in the whole history of the epoch no event was handed out before every earlier one of its instance had been acked, skipped or parked |
| `AggregateGroupRuns.ExactCheckpoint` | eventstore/es-core/src/aggregate_group.rs:606-671 | the positions below the checkpoint together with the gap set are exactly those acked, skipped or parked in this epoch, each once and for good; none of them is outstanding, and the checkpoint itself is not in the gap set |
| `AggregateGroupRuns.CheckpointIgnoresOrder` | eventstore/es-core/src/aggregate_group.rs:621-629 | two runs that resolved the same positions, in whatever order, hold the same checkpoint and the same gaps |
| `AggregateGroupRuns.LeaseSafety` | eventstore/es-core/src/aggregate_group.rs:577-686 | outstanding deliveries and retries have pairwise distinct positions and instances; the leased instances are exactly the outstanding ones; a delivery and its lease agree on consumer and deadline |
| `AggregateGroupClaims.ClaimMeans` | eventstore/es-core/src/aggregate_group.rs:435-534 | the answer to a claim, on the state an expiry at that time leaves: the free candidates of the window in order, one per instance, as many as claim limit, credit and byte limit let through, only the first past the byte limit; a choice is left out only when one of the three has run out; each delivery carries its candidate, the caller, the deadline and the attempts so far; the new state holds exactly these more; a claim without consumer, time or allowance changes nothing |
| `AggregateGroupClaims.FreeIsNotPassedOver` | eventstore/es-core/src/aggregate_group.rs:457-497 | the seven filters together let a candidate through if and only if it is unresolved and nothing of its instance is outstanding but its own retry, due and not held by another |
| `AggregateGroupClaims.Progress` | eventstore/es-core/src/aggregate_group.rs:435-534 | on the state before expiry: a claim whose window starts at the checkpoint hands that position out first if and only if the deliveries that have not run out leave credit, the position is not delivered at all, and a retry of it is due and not held by somebody else |
| `AggregateGroupWindows.WindowIsLookedAt` | eventstore/es-core/src/aggregate_group.rs:453-460 | a claim looks at its window if and only if the window starts at the checkpoint and the checkpoint position is not out with a delivery that has run out and has no attempt left |
| `AggregateGroupWindows.FreeIsLeftOut` | eventstore/es-core/src/aggregate_group.rs:453-460 | a run in which it does not, and a free candidate is left out although there is credit |
| `AggregateGroupFates.SettleMeans` | eventstore/es-core/src/aggregate_group.rs:537-574 | for every list of settlements of the current epoch: exactly the caller's own named deliveries leave, with the retry, parked item and resolved position their first settlement asks for; all others are unchanged; each item is answered by who holds the delivery when its turn comes |
| `AggregateGroupFates.ExpireMeans` | eventstore/es-core/src/aggregate_group.rs:606-619 | exactly the deliveries whose deadline has come leave, each retried after its backoff with one more attempt, or parked with the timeout reason once its retries are used up; the answer counts them |
| `AggregateGroupFates.RenewMeans` | eventstore/es-core/src/aggregate_group.rs:577-603 | exactly the caller's own named deliveries last to the later of both deadlines; nothing else changes; each id is answered by who holds it |
| `AggregateGroupFates.StaleChangesNothing` | eventstore/es-core/src/aggregate_group.rs:545-547 | settling or renewing with another epoch changes nothing and is answered as stale throughout |
| `AggregateGroupRuns.CheckpointHandedOut` | eventstore/es-core/src/aggregate_group.rs:453-502 | a claim whose window starts at the checkpoint left by expiry returns that position if and only if there is credit and the position is not delivered, not a retry that is not due, and not leased to someone else; nothing later of the instance can stand in the way |
| `AggregateGroupRuns.CheckpointMonotone` | eventstore/es-core/src/aggregate_group.rs:621-629 | a longer history of the same epoch never has a lower checkpoint |
| `AggregateGroupRuns.RunKeeps` | eventstore/es-storage/src/state_machine.rs:1013-1051 | the whole invariant survives every admissible run of appends, claims, settlements, renewals, expiries and epoch changes |
| `AggregateGroupRuns.ReachableIsGood` | eventstore/es-storage/src/state_machine.rs:1001-1016 | every state reachable from a fresh partition satisfies the invariant |
| `AggregateGroupRuns.StepKeeps` | eventstore/es-storage/src/state_machine.rs:1013-1051 | one request or one append keeps the invariant, including the reset on a newer epoch |
| `AggregateGroupRuns.ExecuteKeeps` | eventstore/es-storage/src/state_machine.rs:1017-1051 | each of the four commands keeps the invariant and extends the history of outcomes |
| `AggregateGroupRuns.ClaimKeeps` | eventstore/es-core/src/aggregate_group.rs:435-534 | a claim, expiry included, keeps the invariant |
| `AggregateGroupRuns.ExpireKeeps` | eventstore/es-core/src/aggregate_group.rs:606-619 | expiry keeps the invariant |
| `AggregateGroupRuns.RenewNeverShortens` | eventstore/es-core/src/aggregate_group.rs:577-603 | renewing never drops a delivery or moves a deadline back, reaches the requested deadline for the caller, and leaves other consumers alone |
| `AggregateGroupLimits.CreditSafety` | eventstore/es-core/src/aggregate_group.rs:407-421 | under fixed settings no run lets a consumer, or the partition as a whole, hold more unsettled deliveries than its limit |
| `AggregateGroupLimits.BoundedRedelivery` | eventstore/es-core/src/aggregate_group.rs:631-655 | under fixed settings with `max_retries` below the top of `u32`, no run hands a position out more than `max_retries + 1` times in an epoch |
| `AggregateGroupRedelivery.RedeliveryBoundedExactly` | eventstore/es-core/src/aggregate_group.rs:631-655 | under valid settings some number bounds the hand-outs of every position in every admissible run if and only if `max_retries` is below the top of `u32`, and then `max_retries + 1` does |
| `AggregateGroupRedelivery.RedeliveryUnbounded` | eventstore/es-core/src/aggregate_group.rs:631-655 | at the top of `u32`, whatever bound one names, an admissible run hands a position out more often |
| `AggregateGroupLimits.SaturatedRetriesNeverPark` | eventstore/es-core/src/aggregate_group.rs:638-642 | a delivery that has to be retried is parked if and only if its attempts have reached `max_retries` and `max_retries` is below the top of `u32` |
| `AggregateGroupLimits.BackoffMonotoneAndBounded` | eventstore/es-core/src/aggregate_group.rs:82-87 | the retry delay never falls as attempts grow and always lies between the configured minimum and maximum |
| `AggregateGroupLimits.BackoffDoubles` | eventstore/es-core/src/aggregate_group.rs:82-87 | the delay is the doubled minimum cut at the maximum if and only if the attempt is at most 63 or the maximum is reached by then |
| `AggregateGroupLimits.RunInLimits` | eventstore/es-core/src/aggregate_group.rs:407-534 | credit and redelivery budgets hold along every run under fixed settings |
| `AggregateGroupLimits.ClaimWithin` | eventstore/es-core/src/aggregate_group.rs:407-534 | a claim spends no more than the credit it found |
| `AggregateGroupInvariant.AbsorbExact` | eventstore/es-core/src/aggregate_group.rs:621-629 | advancing the checkpoint through the gaps changes no position from resolved to unresolved or back, and stops at the first unresolved one |
| `AggregateGroupInvariant.ResolveExact` | eventstore/es-core/src/aggregate_group.rs:621-629 | resolving a position resolves it and nothing else |
| `AggregateGroupInvariant.CheckpointUnique` | eventstore/es-core/src/aggregate_group.rs:621-629 | a set of resolved positions has only one checkpoint-and-gaps representation |
| `AggregateGroupInvariant.RetryOrParkKeeps` | eventstore/es-core/src/aggregate_group.rs:631-655 | deferring or parking a delivery keeps order, exactness and history |
| `AggregateGroupInvariant.SettleAllKeeps` | eventstore/es-core/src/aggregate_group.rs:537-574 | settling a list of deliveries in any mixture of actions keeps the invariant |
| `AggregateGroupInvariant.ExpireAllKeeps` | eventstore/es-core/src/aggregate_group.rs:606-619 | expiring a list of deliveries keeps the invariant |
| `AggregateGroupInvariant.ReleaseKeeps` | eventstore/es-core/src/aggregate_group.rs:673-686 | releasing unused leases leaves exactly the leases of outstanding instances |
| `AggregateGroupInvariant.RenewAllKeeps` | eventstore/es-core/src/aggregate_group.rs:577-603 | renewing keeps the invariant and keeps leases and deliveries in step |
| `AggregateGroupInvariant.HandOutKeeps` | eventstore/es-core/src/aggregate_group.rs:504-531 | handing out an eligible candidate keeps the invariant |
| `AggregateGroupInvariant.ClaimFromKeeps` | eventstore/es-core/src/aggregate_group.rs:453-533 | the walk over the candidates keeps the invariant across skips, gaps, leases and byte and credit limits |
| `AggregateGroupObject.AggregateGroupPartition.ResolvePosition` | eventstore/es-core/src/aggregate_group.rs:621-629 | the checkpoint absorbs the gaps above it one by one |
| `AggregateGroupObject.AggregateGroupPartition.SettleItems` | eventstore/es-core/src/aggregate_group.rs:537-574 | settlements are taken in order, each with its result, and a stale epoch changes nothing; what that means is `AggregateGroupFates.SettleMeans` |
| `AggregateGroupObject.AggregateGroupPartition.RenewDeliveries` | eventstore/es-core/src/aggregate_group.rs:577-603 | renewals are taken in order, each with its result; what that means is `AggregateGroupFates.RenewMeans` |
| `AggregateGroupObject.AggregateGroupPartition.ExpireDeliveries` | eventstore/es-core/src/aggregate_group.rs:606-619 | every delivery past its deadline is taken back, in id order, and counted; what that means is `AggregateGroupFates.ExpireMeans` |
| `AggregateGroupObject.AggregateGroupPartition.ClaimCandidates` | eventstore/es-core/src/aggregate_group.rs:435-534 | the walk over the candidates skips, stops and hands out as specified, under credit and byte limits; what that means is `AggregateGroupClaims.ClaimMeans` |
| `AggregateGroupObject.AggregateGroupPartition.ExecuteCommand` | eventstore/es-storage/src/state_machine.rs:1017-1051 | the object run by the state machine does what the reference command does, for each of the four commands |
| `GroupsOverLog.StoredProgressKept` | eventstore/es-storage/src/state_machine.rs:969-1073 | in every node a log reaches, with claims built as the server builds them, the progress stored for a group and partition satisfies the whole invariant over the stored partition log and the history of its epoch |
| `GroupsOverLog.StoredOrder` | eventstore/es-storage/src/state_machine.rs:969-1073 | so a replica stores an exact checkpoint, and in its epoch no event was handed out before every earlier one of its instance was settled |
| `GroupsOverLog.EntryProgress` | eventstore/es-storage/src/state_machine.rs:983-1064 | an entry moves the stored progress if and only if it is a valid, unfenced request of the current or a newer epoch for that group and partition |
| `ProgressOverLog.ProgressIsRun` | eventstore/es-storage/src/state_machine.rs:969-1073 | in every node a log reaches, the progress of a group and partition is what the log's own requests make of it: those well formed, of the generation installed last and of no older epoch than before, executed in order, each newer epoch from its own start |
| `ProgressOverLog.GroupRequestTold` | eventstore/es-storage/src/state_machine.rs:969-1073 | and the next request is answered as the log alone tells: invalid, fenced with the current generation, stale with the current epoch, or with the reply of the command |
| `GroupLives.ProgressOutlivesGroup` | eventstore/es-storage/src/state_machine.rs:985-1016 | a group is deleted and created again on the control shard while the partition's shard applies anything but commands for it: the first command of the new life, with the epoch the stored catalog then has, runs on fresh progress if and only if none, or progress of epoch zero, or progress already fresh with the same start, was stored; it is refused as stale if and only if the earlier life had passed its first epoch; otherwise it goes on from the old checkpoint |
| `GroupLives.RebornInFirstEpoch` | eventstore/es-core/src/aggregate_group.rs:183-283 | through a deletion and a creation that took effect, with anything but another creation in between, the stored catalog has the group in epoch one |
| `GroupLives.AdmittedDecides` | eventstore/es-storage/src/state_machine.rs:980-1073 | a valid, unfenced command does nothing but run on the progress its epoch selects, or be refused as stale |
| `GroupRebirth.NewLifeResumes` | eventstore/es-storage/src/state_machine.rs:1001-1016 | a run from an empty node: the group's event is claimed and acknowledged, the group deleted and created again, and every first command, though it starts at zero, runs on checkpoint one |
| `GroupRebirth.NewLifeIsStale` | eventstore/es-storage/src/state_machine.rs:1008-1012 | a run from an empty node: the group is reset, deleted and created again, and every command is refused as stale |
| `GroupRebirth.FirstLifeReaches` | eventstore/es-storage/src/state_machine.rs:1013-1051 | from an empty node that first life, every claim built as the server builds it, ends with position zero settled and the group alone in the catalog |
| `GroupsOverLog.AnnouncedIsGroupLog` | eventstore/es-storage/src/state_machine.rs:1306-1309 | what a replica announced of a partition is the log its groups consume |
| `GroupFetch.BuildCandidates` | eventstore/es-server/src/aggregate_service.rs:807-820 | one candidate per event read, in order, as a first delivery with the payload size of its event |
| `GroupFetch.CandidatesAreWindow` | eventstore/es-server/src/aggregate_service.rs:795-821 | what a fetch builds from a partition read is a contiguous window of the log starting at the checkpoint, with the ids given and each event's payload counted, and is empty exactly when the checkpoint is at the head |
| `GroupFetch.WindowSurvivesGrowth` | eventstore/es-server/src/aggregate_service.rs:795-841 | the window is still one when the claim is applied after further appends |
| `GroupFetch.ScanLimit` | eventstore/es-server/src/aggregate_service.rs:795-797 | a fetch looks at between 32 and 4096 events |
| `GroupCatalog.StagedExactly` | eventstore/es-core/src/aggregate_group.rs:181-289 | a catalog whose revision did not move is the one before, if and only if the revision is below the top of `u64` or the command changes nothing; below the top every change raises it by one |
| `GroupCatalog.UnwrittenIsVisible` | eventstore/es-core/src/aggregate_group.rs:181-289 | a change made at the top of the revision shows in the answer to some later command |
| `GroupCatalog.RetryIsIdempotent` | eventstore/es-core/src/aggregate_group.rs:181-289 | any command sent twice changes nothing the second time and gets the first answer |
| `GroupCatalog.DeletedButThere` | eventstore/es-core/src/aggregate_group.rs:248-283 | a deletion is confirmed and leaves the group in place if and only if its operation id is the one that last wrote the group |
| `GroupCatalog.ConfirmedNotDeleted` | eventstore/es-core/src/aggregate_group.rs:183-283 | a run from the empty catalog that does it: a group deleted with the id of its creation |
| `GroupCatalog.ReachableIsWellKept` | eventstore/es-core/src/aggregate_group.rs:181-289 | so every catalog reached from the empty one is well kept |
| `GroupCatalog.RunsKeep` | eventstore/es-core/src/aggregate_group.rs:181-289 | over every run a name is a group or remembered as deleted, never both |
| `GroupCatalogHistory.GroupsAreHistory` | eventstore/es-core/src/aggregate_group.rs:181-289 | after any run from the empty catalog a group is there if and only if its last accepted command is not a deletion; start and settings are those of that command, revision and epoch count the commands and resets since its creation; and every next command is answered as the history alone tells |
| `CatalogsOverLog.GroupsAreRun` | eventstore/es-storage/src/state_machine.rs:942-966 | as long as `u64` can count them, every node a log reaches stores the group catalog that the log's group commands reach |
| `CatalogsOverLog.GroupAnswer` | eventstore/es-storage/src/state_machine.rs:942-966 | and answers the next group command with the revision and outcome of that run |
| `GroupCatalog.LivingGroupRises` | eventstore/es-core/src/aggregate_group.rs:211-247 | over every run in which a group lives, its epoch and revision never fall and its creating operation stays |
| `AggregateCatalog.MovesOverRuns` | eventstore/es-core/src/aggregate.rs:442-642 | in every reachable catalog each type places exactly partitions 0 to 255; a pending move has the current shard as source, a different target and the next generation; and a generation is one plus the moves completed |
| `CatalogHistory.CatalogIsHistory` | eventstore/es-core/src/aggregate.rs:442-643 | after any run from the empty catalog each definition is what the accepted commands say: a partition is where its last completed move wanted to go, or where it was registered; a waiting prepare names that place and the next generation; and every next command is accepted, repeated, refused as conflict, as invalid or as unknown as the history alone tells |
| `CatalogHistory.CompletionMoves` | eventstore/es-core/src/aggregate.rs:602-643 | an accepted completion takes the partition to the shard its prepare named, one generation on |
| `CatalogHistory.OnlyOwnPlacement` | eventstore/es-core/src/aggregate.rs:536-643 | no command changes a placement other than the one it names, and only a completion changes a shard |
| `AggregateCatalog.PlanInputInjective` | eventstore/es-core/src/aggregate.rs:645-654 | the bytes hashed for a registration determine its seed and placements |
| `CatalogsOverLog.CatalogIsRun` | eventstore/es-storage/src/state_machine.rs:916-940 | every node a log reaches stores the type catalog that the log's catalog commands reach |
| `CatalogsOverLog.CatalogAnswer` | eventstore/es-storage/src/state_machine.rs:916-940 | and answers the next catalog command with the revision and outcome of that run |
| `AggregateCatalog.ChangeIsRevision` | eventstore/es-core/src/aggregate.rs:442-534 | the catalog changes if and only if the answer says so, if and only if its revision moves: up by one, and from the top of `u64` to zero |
| `AggregateCatalog.NoChangeNoEffect` | eventstore/es-core/src/aggregate.rs:442-534 | an answer that reports no change left the catalog as it was |
| `AggregateCatalog.RetryIsIdempotent` | eventstore/es-core/src/aggregate.rs:442-642 | a command that changed the catalog, sent again, is answered with the same definition and changes nothing more |
| `AggregateCatalog.EmptyOk` | eventstore/es-core/src/aggregate.rs:376-381 | the empty catalog satisfies the run invariant |
| `BatchedApply.EsStorage.Apply` | eventstore/es-storage/src/state_machine.rs:1131-1312 | applying any batch through the overlay and one commit gives the stored keys, the applied state and the broadcast of applying its entries one at a time, and the same responses while every group-catalog command fits its revision; an empty batch only records the applied state |
| `BatchedApply.EsStorage.Stage` | eventstore/es-storage/src/state_machine.rs:1139-1304 | before anything is written, the staged puts amount to the store to come, and the answers are those of the overlay |
| `BatchedApply.EsStorage.CrashDuring` | eventstore/es-storage/src/state_machine.rs:1280-1304 | a process that stops before or after the commit comes back with what was committed |
| `BatchedApply.EsStorage.RestoreAppliedState` | eventstore/es-storage/src/state_machine.rs:117-130 | the applied state comes back from its record |
| `BatchedApply.EsStorage.RunSteps` | eventstore/es-storage/src/state_machine.rs:1131-1312 | the storage object, fed a log in batches of any sizes with crashes anywhere, stands exactly where entry-by-entry apply of a log prefix stands |
| `ApplyRefinement.RunsReproduceTheLog` | eventstore/es-storage/src/state_machine.rs:1280-1304 | for any cut of the log into batches and any crash before or after a commit, the node stands where entry-by-entry apply of a log prefix stands, and feeding resumes right after that prefix |
| `ApplyRefinement.StandsExactly` | eventstore/es-storage/src/state_machine.rs:1280-1304 | past the first entry the two stores agree on every key |
| `ApplyRefinement.RoomyAnswers` | eventstore/es-storage/src/state_machine.rs:942-966 | a batch whose group-catalog commands all fit their revision is answered as entry-by-entry apply answers it |
| `ApplyRefinement.FittingIsAnswering` | eventstore/es-storage/src/state_machine.rs:954-964 | that is the exact condition: an entry fits if and only if every possible next entry of the batch is answered alike |
| `ApplyRefinement.ExactCacheStays` | eventstore/es-storage/src/state_machine.rs:954-964 | the cached group catalog stays equal to the stored one if and only if the entry fits |
| `ApplyRefinement.RoomToSpare` | eventstore/es-storage/src/state_machine.rs:954-956 | a batch no longer than the room left in the group catalog revision fits |
| `ApplyRefinement.TopRevisionDiverges` | eventstore/es-storage/src/state_machine.rs:954-964 | at the top of that revision the answers part: of two creators of one name the batch refuses the second and entry-by-entry apply accepts it |
| `StateMachine.ApplyConcat` | eventstore/es-storage/src/state_machine.rs:1131-1312 | a log splits anywhere: applying its parts in turn gives the same node and the same responses |
| `BatchedApply.EsStorage.BatchVersion` | eventstore/es-storage/src/state_machine.rs:495-515 | the current version as the store to come holds it |
| `BatchedApply.EsStorage.BatchState` | eventstore/es-storage/src/state_machine.rs:517-535 | the state document as the store to come holds it |
| `BatchedApply.EsStorage.BatchFence` | eventstore/es-storage/src/state_machine.rs:563-587 | the fence as the store to come holds it |
| `BatchedApply.EsStorage.BatchRecord` | eventstore/es-storage/src/state_machine.rs:637-657 | the idempotency record as the store to come holds it |
| `BatchedApply.EsStorage.BatchPosition` | eventstore/es-storage/src/state_machine.rs:537-561 | the next position as the store to come holds it, cached so that the commit writes it |
| `BatchedApply.EsStorage.StageAppend` | eventstore/es-storage/src/state_machine.rs:703-778 | the four puts, the caches and the event of an accepted append; what the event carries is `EventOrigins.StoredForGood` |
| `BatchedApply.EsStorage.ApplyAppend` | eventstore/es-storage/src/state_machine.rs:603-783 | the decision of the reference machine on the store to come, pending and visible to later reads |
| `BatchedApply.EsStorage.ApplyPutState` | eventstore/es-storage/src/state_machine.rs:787-879 | the same for a state document |
| `BatchedApply.EsStorage.ApplyFence` | eventstore/es-storage/src/state_machine.rs:881-914 | the same for a fence |
| `BatchedApply.EsStorage.ApplyCatalog` | eventstore/es-storage/src/state_machine.rs:916-940 | the same for the aggregate catalog |
| `BatchedApply.EsStorage.ApplyGroupCatalog` | eventstore/es-storage/src/state_machine.rs:942-966 | the answer of the cached catalog, and the puts of the reference machine on the store to come |
| `BatchedApply.EsStorage.ApplyGroupPartition` | eventstore/es-storage/src/state_machine.rs:969-1073 | the same for group progress, replacing an earlier put of the same key |
| `BatchedApply.EsStorage.ApplyRequest` | eventstore/es-storage/src/state_machine.rs:1160-1261 | every request takes its decision |
| `BatchedApply.EsStorage.ApplyPayload` | eventstore/es-storage/src/state_machine.rs:1157-1267 | every entry takes its decision |
| `BatchedApply.EsStorage.FlushPositions` | eventstore/es-storage/src/state_machine.rs:1270-1277 | in whatever order positions are flushed, the staged puts amount to the store to come |
| `BatchedApply.EsStorage.Commit` | eventstore/es-storage/src/state_machine.rs:1295-1301 | one transaction leaves the tree with all staged puts in order |
| `BatchedApply.PendingBatch.constructor` | eventstore/es-storage/src/state_machine.rs:1140-1151 | an empty overlay |
| `ApplyBatch.AppendedCoherent` | eventstore/es-storage/src/state_machine.rs:718-778 | after staging an append every read-through answers what the store to come answers |
| `ApplyBatch.StatePutCoherent` | eventstore/es-storage/src/state_machine.rs:854-871 | the same after staging a state document |
| `ApplyBatch.ProgressPutCoherent` | eventstore/es-storage/src/state_machine.rs:1066-1071 | the same after replacing a pending put of group progress |
| `ApplyBatch.PositionCached` | eventstore/es-storage/src/state_machine.rs:537-561 | caching a position that is not used changes nothing the commit writes |
| `ApplyBatch.WithoutSame` | eventstore/es-storage/src/state_machine.rs:1067-1070 | dropping earlier puts of a key that is put again does not change the outcome |
| `StoreReads.RunsKeepGood` | eventstore/es-storage/src/state_machine.rs:603-783 | in every node a log can reach and in every partition: the indexes agree, the next position is the sum over instances of current version plus one, and the broadcast is the log in position order |
| `StoreReads.FreshGood` | eventstore/es-storage/src/state_machine.rs:1140-1151 | an empty store satisfies all of it |
| `StoreInvariant.ReachableSound` | eventstore/es-storage/src/state_machine.rs:603-783 | the partition index covers exactly 0 to next and leads to the event of that position; every event is indexed; versions are dense and in position order; records name the one event with their id |
| `StoreHistory.StoreIsHistory` | eventstore/es-storage/src/state_machine.rs:603-914 | in every node a log reaches the announced and stored events of a partition are its accepted appends in order, each carrying what was asked for, numbered by position and by version within its instance; an event id is recorded for the append that used it; a document is the last one accepted, with its data, clock and count; a fence is the last generation installed; and the next append, document or fence is accepted and answered as this history alone tells |
| `EventOrigins.StoredForGood` | eventstore/es-storage/src/state_machine.rs:703-778 | an append that stored an event was answered with a version and position, and in every later node the stored and the announced event there carry its type, partition, instance, event id, event type, data, metadata and clock |
| `EventOrigins.StoredByOne` | eventstore/es-storage/src/state_machine.rs:703-778 | every stored event comes from exactly one entry of the log, and carries what that append asked for |
| `EventOrigins.StoredIsAllowed` | eventstore/es-storage/src/state_machine.rs:603-713 | an append stores an event if and only if the history allows it: well formed, its event id unused, its generation installed last, its expectation met, and room left |
| `CatalogsOverLog.AppliedIsLast` | eventstore/es-storage/src/state_machine.rs:1262-1306 | a node remembers and records the last entry it applied and the last membership it met |
| `StoreInvariant.AppendSound` | eventstore/es-storage/src/state_machine.rs:718-778 | the five keys an accepted append writes keep all of it |
| `StoreInvariant.DecideSound` | eventstore/es-storage/src/state_machine.rs:1158-1261 | no other request disturbs any of it, in any partition |
| `StoreInvariant.IndexInjective` | eventstore/es-storage/src/state_machine.rs:735-747 | index and events are in bijection |
| `StoreInvariant.EventIdUnique` | eventstore/es-storage/src/state_machine.rs:629-667 | a partition stores at most one event per event id |
| `StoreRuns.RetryReturnsOriginal` | eventstore/es-storage/src/state_machine.rs:629-667 | an append that was answered is answered the same way for ever, without storing anything, whatever was applied in between, fence changes included |
| `StoreRuns.OtherAppendConflicts` | eventstore/es-storage/src/state_machine.rs:657-667 | a different append under a used event id is refused for ever and stores nothing |
| `StoreRuns.RecordsAreForever` | eventstore/es-storage/src/state_machine.rs:748-777 | no entry ever changes an idempotency record |
| `StoreRuns.FencesNeverFall` | eventstore/es-storage/src/state_machine.rs:881-914 | along any log no fence falls |
| `StoreRuns.GenerationsNeverFall` | eventstore/es-storage/src/state_machine.rs:669-675 | along any log the guarded writes that change a partition carry non-decreasing generations |
| `StoreVersions.ExpectationWinsOnce` | eventstore/es-storage/src/state_machine.rs:677-683 | of all appends that expect one particular version of an instance, at most one ever stores an event |
| `StoreVersions.RevisionWinsOnce` | eventstore/es-storage/src/state_machine.rs:822-846 | of all state documents that expect one particular revision, at most one is ever accepted |
| `StoreVersions.RunsRaise` | eventstore/es-storage/src/state_machine.rs:684-696 | versions and state revisions never fall along any log |
| `StoreScans.ReadPartitionEvents` | eventstore/es-storage/src/state_machine.rs:193-228 | over a tree of encoded keys, other shards' keys among them: in a sound partition the read never meets a missing event and returns the log from the position, cut at the limit; the error is returned only for an index entry that leads nowhere |
| `StoreScans.IndexWalk` | eventstore/es-storage/src/state_machine.rs:200-206 | the byte range from an index key to the successor of the partition prefix holds exactly the index entries from that position on, in position order |
| `StoreScans.FollowAll` | eventstore/es-storage/src/state_machine.rs:207-226 | every pointer is followed, and the first that leads nowhere is an error |
| `RangeScan.ScanKeys` | eventstore/es-storage/src/state_machine.rs:59-97 | the keys of a byte range in ascending or descending byte order, the first `limit` of them, all of them for limit zero |
| `RangeScan.ScanValues` | eventstore/es-storage/src/state_machine.rs:52-99 | the values of a byte range in ascending or descending key order, cut at the limit; an empty or inverted range yields nothing |
| `RangeScan.RisingIsSorted` | eventstore/es-storage/src/state_machine.rs:66-76 | a set of keys has exactly one ascending enumeration |
| `Aggregate.FingerprintInputInjective` | eventstore/es-core/src/aggregate.rs:251-280 | the bytes that are hashed determine type, instance, expectation and event |
| `Aggregate.CanonicalNameInjective` | eventstore/es-core/src/aggregate.rs:98-100 | valid type identities have distinct canonical names |
| `FollowFeedRuns.GapFree` | eventstore/es-server/src/aggregate_service.rs:1078-1202 | under any interleaving of commits, broadcasts, subscriptions, history reads, live events, lags, replica restarts, source reconnects and client reconnects, the client has been shown for each partition exactly the log between its start cursor and its cursor: in order, nothing missing, nothing twice |
| `FollowFeedRuns.CursorsAreExact` | eventstore/es-server/src/aggregate_service.rs:87-161 | each frame carries a cursor that names exactly what had been shown up to and including it |
| `FollowFeedBounds.AllShown` | eventstore/es-server/src/aggregate_service.rs:1078-1202 | whenever nothing is under way for a partition, the client has been shown every event of it, from where it started, that its replica has announced |
| `FollowFeedBounds.OnlyCommitted` | eventstore/es-server/src/aggregate_service.rs:1078-1202 | a client's cursor never passes what some replica of the shard has committed, unless it started further on |
| `FollowFeedRuns.StepKeeps` | eventstore/es-server/src/aggregate_service.rs:2086-2173 | every step keeps all channels chained end to end |
| `FollowFeedRuns.RestartKeeps` | eventstore/es-storage/src/storage.rs:45-82 | a replica restart, which drops what it had not announced and ends the subscription on it, keeps the invariant of the feed |
| `FollowFeedRuns.MergeFrames` | eventstore/es-server/src/aggregate_service.rs:87-161 | the merger turns chained messages into chained frames, blank ones for a partition whose head it has not learnt |
| `FollowFeedRuns.ReconnectKeeps` | eventstore/es-client/src/aggregate.rs:687-728 | a client that resumes from the last frame it was shown keeps every channel chained, whether it started from a cursor or from now |
| `FollowFeedNow.NowIsGapFree` | eventstore/es-server/src/aggregate_service.rs:1094-1107 | a follow from now shows, of a partition whose head it has learnt, exactly the log from that head to the client's cursor, and nothing of any other partition |
| `FollowFeedNow.NowCursorsExact` | eventstore/es-server/src/aggregate_service.rs:1409-1416 | over every run of a follow from now, a frame's cursor is the learnt head plus the events shown if and only if the head was learnt before the frame was made or is zero |
| `FollowFeedNow.ResumingRewinds` | eventstore/es-client/src/aggregate.rs:687-728 | a resuming client asks for events below a learnt head if and only if the last frame it was shown was made before the head was learnt and the head is not zero |
| `FollowFeedNow.RewoundShowsHistory` | eventstore/es-client/src/aggregate.rs:687-728 | such a client is from then on shown the partition's events from the very first |
| `FollowFeedRewind.NowCursorRewinds` | eventstore/es-server/src/aggregate_service.rs:2110-2153 | a run in which that happens: the source fails once, then reports head one; the client resumes from the frame in between and is shown the event at position zero |
| `FollowFeedSteps.ReadOk` | eventstore/es-server/src/aggregate_service.rs:1094-1120 | reading history after subscribing, or taking the head in a follow from now, leaves no event between it and the live stream |
| `FollowFeedSteps.SendOk` | eventstore/es-server/src/aggregate_service.rs:1121-1140 | history is sent in log order |
| `FollowFeedSteps.ReportOk` | eventstore/es-server/src/aggregate_service.rs:1142-1160 | the reported heads are what was sent |
| `FollowFeedSteps.ReceiveOk` | eventstore/es-server/src/aggregate_service.rs:1163-1190 | a live event is dropped exactly when it was sent from history; otherwise it is the next one |
| `FollowFeedSteps.LagOk` | eventstore/es-server/src/aggregate_service.rs:1191-1198 | a lagging receiver ends the stream instead of skipping |
| `FollowFeedSteps.TakeOk` | eventstore/es-server/src/aggregate_service.rs:2116-2160 | the source cursor follows what it forwards |
| `ReadMerger.AggregateReadMerger.RaiseTo` | eventstore/es-server/src/aggregate_service.rs:110-121 | the cursor is raised to every reported head, in any order |
| `ReadMerger.MergeAll` | eventstore/es-server/src/aggregate_service.rs:1446-1455 | the merger object sends the frames of every message in turn |
| `MergerStatus.MessageSays` | eventstore/es-server/src/aggregate_service.rs:87-170 | what each message makes the merger say, read off the messages alone: a source that goes down is announced once with how many are down; caught up is said when a report first leaves every source caught up; recovered when, after that, the last source that was down reports |
| `MergerStatus.ToldOnce` | eventstore/es-server/src/aggregate_service.rs:87-170 | a client is told at most once that everything has caught up, and is told if and only if it has |
| `FeedLogs.BroadcastIsNumbered` | eventstore/es-storage/src/state_machine.rs:1294-1309 | what a state machine broadcasts numbers each partition from zero, below the last position, so it is a log the feed accepts |
| `FeedLogs.BroadcastGrows` | eventstore/es-storage/src/state_machine.rs:1306-1309 | a replica further along has broadcast all that one behind it has |
| `FeedLogs.HistoryIsRead` | eventstore/es-storage/src/state_machine.rs:193-228 | an unlimited partition read is the history the feed sends |
| `FeedLogs.NextFits` | eventstore/es-storage/src/state_machine.rs:697-701 | no reachable next position passes the top of `u64` |
| `StatePages.PaginationIsEnumeration` | eventstore/es-server/src/aggregate_service.rs:1459-1522 | from an empty token, following page tokens lists every state of every partition exactly once in ascending order, for any sequence of page sizes, and ends |
| `StatePages.PagesAreListing` | eventstore/es-server/src/aggregate_service.rs:1459-1522 | from any token, following page tokens lists exactly what remains |
| `StatePages.PageIsTop` | eventstore/es-server/src/aggregate_service.rs:1487-1501 | a page is the next stretch of the listing, and has a token if and only if more remains |
| `StatePages.PageShrinks` | eventstore/es-server/src/aggregate_service.rs:1500-1517 | a page with a token leaves exactly what it did not list, and less than before |
| `StatePages.FetchIsEnough` | eventstore/es-server/src/aggregate_service.rs:1487-1498 | one more than a page from each partition is enough for the page and for knowing whether another follows |
| `StatePages.AdvanceRemaining` | eventstore/es-server/src/aggregate_service.rs:1503-1506 | the updated token leaves exactly what was not listed |
| `StatePages.SortFacts` | eventstore/es-server/src/aggregate_service.rs:1499-1499 | the stable sort by id is ascending and keeps every fetched item |
| `StatePages.PageSize` | eventstore/es-server/src/aggregate_service.rs:1466-1470 | a page holds between 1 and 1000 states |
| `StateListing.ListPartitionStates` | eventstore/es-storage/src/state_machine.rs:304-391 | over a tree of encoded keys: the first `limit` ids after the token in ascending order, all of them for limit zero, each with its revision, data and modification time |
| `StateListing.StateWalk` | eventstore/es-storage/src/state_machine.rs:311-325 | the byte range of the scan is what the partition still has to list, in listing order |
| `StateListing.Describe` | eventstore/es-storage/src/state_machine.rs:353-388 | the id is read back from the key, and a state without a modification time has time zero |
| `StateListing.FetchAll` | eventstore/es-server/src/aggregate_service.rs:1487-1498 | every partition is asked in turn, and every row carries the document stored for it |
| `StateListing.SortRows` | eventstore/es-server/src/aggregate_service.rs:1499-1499 | rows are sorted by id, rows with one id keep the order they came in, and no row is made up |
| `StateListing.MoveToken` | eventstore/es-server/src/aggregate_service.rs:1503-1506 | the token after a page |
| `StateListing.ListAggregateStates` | eventstore/es-server/src/aggregate_service.rs:1459-1522 | one page with its documents, and its token; it fails on no store that holds its states as they are written |
| `StateListing.ListAll` | eventstore/es-server/src/aggregate_service.rs:1459-1522 | following page tokens over the trees until there is none lists every stored state exactly once in ascending order, each with its document, for any page sizes |
| `StateListing.ScanIsLeft` | eventstore/es-storage/src/state_machine.rs:311-320 | the byte range of the scan holds exactly the partition's states past the token, in id order |
| `StateListing.ReachableStates` | eventstore/es-storage/src/state_machine.rs:804-871 | every state of a reachable store has a non-empty id, a document and a modification time |
| `StateListing.NamesListed` | eventstore/es-storage/src/state_machine.rs:804-808 | so what is listed meets the one precondition of pagination |
| `Lexicographic.PrefixIsRange` | eventstore/es-storage/src/key.rs:64-73 | for every byte string, a key starts with a prefix if and only if it lies between the prefix and its successor, or just above the prefix when there is none |
| `Lexicographic.Successor` | eventstore/es-storage/src/key.rs:64-73 | the backward scan computes that successor |
| `Lexicographic.UpperIncludingIsNext` | eventstore/es-storage/src/key.rs:399-404 | nothing lies between a key and its inclusive upper bound |
| `Lexicographic.BEOrdered` | eventstore/es-storage/src/key.rs:42-44 | big-endian order is numeric order |
| `Lexicographic.BERoundTrip` | eventstore/es-storage/src/key.rs:42-58 | big-endian encoding decodes to the number |
| `Lexicographic.LenPrefixedInjective` | eventstore/es-storage/src/key.rs:121-124 | length-prefixed strings can be read back from a concatenation |
| `Keys.EncodeInjective` | eventstore/es-storage/src/key.rs:76-370 | for validated identities all key families, of all shards, are injective and mutually disjoint |
| `Keys.EventKeysByVersion` | eventstore/es-storage/src/key.rs:152-162 | events of an instance sort by version |
| `Keys.IndexKeysByPosition` | eventstore/es-storage/src/key.rs:207-216 | index entries of a partition sort by position |
| `Keys.StateKeysById` | eventstore/es-storage/src/key.rs:247-258 | states of a partition sort by instance id |
| `Keys.FamilyScanExact` | eventstore/es-storage/src/key.rs:126-137 | a family scan of a partition meets its keys and no others |
| `Keys.StateScanAfter` | eventstore/es-storage/src/key.rs:399-404 | a state scan after an id meets the later ids and nothing else |
| `Keys.IndexScanFrom` | eventstore/es-storage/src/key.rs:207-216 | an index scan from a position meets the entries from there on and nothing else |
| `Keys.OthersOutside` | eventstore/es-storage/src/state_machine.rs:1075-1082 | raft keys and other shards' keys lie outside a shard's state-machine region |
| `StoreKeys.ReachableKeys` | eventstore/es-storage/src/state_machine.rs:603-1073 | with partitions and event ids of their declared widths, every key of a reachable store is a validated state-machine key |
| `Keys.StateKeyRoundTrip` | eventstore/es-storage/src/key.rs:289-303 | the instance id is read back from its state key |
| `SnapshotStream.WrittenIsRead` | eventstore/es-storage/src/snapshot.rs:285-364 | reading a written stream returns its records, consumes exactly the announced length, and leaves what follows; it fails if and only if a key or value is longer than 1 GiB |
| `SnapshotStream.ReadIsWritten` | eventstore/es-storage/src/snapshot.rs:312-364 | every accepted stream is byte for byte the encoding of the records returned |
| `SnapshotStream.CutIsRefused` | eventstore/es-storage/src/snapshot.rs:312-364 | every proper prefix of a stream is refused |
| `SnapshotStream.AcceptedExtends` | eventstore/es-storage/src/snapshot.rs:312-364 | what follows a stream does not change what is read from it |
| `SnapshotStream.FileCarriesSnapshot` | eventstore/es-storage/src/snapshot.rs:285-364 | a written snapshot passes the length check and carries every record |
| `SnapshotStream.WritePayload` | eventstore/es-storage/src/state_machine.rs:1508-1513 | the payload that is written |
| `SnapshotStream.ForEachRecord` | eventstore/es-storage/src/snapshot.rs:312-364 | the records read and the bytes consumed, or a refusal |
| `SnapshotTransfer.Replica.CatchUp` | eventstore/es-storage/src/state_machine.rs:1327-1433 | snapshot transparency end to end: collecting, writing, reading, installing and applying the rest of the log leaves, byte for byte, the region that applying the whole log leaves, and no other key is touched; it is refused, changing nothing, if and only if a key or value is above 1 GiB |
| `SnapshotTransfer.Replica.InstallSnapshot` | eventstore/es-storage/src/state_machine.rs:1374-1415 | the replica takes over the source's store and applied state, or nothing |
| `SnapshotTransfer.Replica.TakeSnapshot` | eventstore/es-storage/src/state_machine.rs:1463-1513 | the stream of the region as it stands, and the applied state of its header |
| `SnapshotTransfer.Replica.ApplyBatch` | eventstore/es-storage/src/state_machine.rs:1131-1312 | a batch written as bytes keeps the region the encoding of the store |
| `SnapshotTransfer.HeldStoreUnique` | eventstore/es-storage/src/state_machine.rs:1088-1111 | a region holds at most one store, when values encode one to one |
| `SnapshotInstall.HoldsUnique` | eventstore/es-storage/src/state_machine.rs:1088-1111 | a store is held by at most one region |
| `SnapshotInstall.HoldsPut` | eventstore/es-storage/src/state_machine.rs:1295-1301 | writing the bytes of one key puts that key, and no other, in the store the region holds |
| `SnapshotInstall.EnumerationUnique` | eventstore/es-storage/src/state_machine.rs:1088-1111 | replicas with the same region write the same snapshot, byte for byte |
| `SnapshotInstall.SnapshotThenSuffix` | eventstore/es-storage/src/state_machine.rs:1374-1415 | installing a snapshot of a replica that stands after any log prefix and applying the rest stands where applying the whole log stands |
| `SnapshotInstall.InstallHolds` | eventstore/es-storage/src/state_machine.rs:1381-1413 | after an install the region holds the source state and every other key is untouched |
| `SnapshotInstall.InstallReplaces` | eventstore/es-storage/src/state_machine.rs:1381-1409 | the region is replaced by the records with the snapshot's applied state |
| `SnapshotInstall.RegionIsRange` | eventstore/es-storage/src/state_machine.rs:1075-1082 | the scanned byte range is the region |
| `SnapshotInstall.ShardStorage.Collect` | eventstore/es-storage/src/state_machine.rs:1088-1111 | every entry of the region once, in key order |
| `SnapshotInstall.ShardStorage.Clear` | eventstore/es-storage/src/state_machine.rs:1378-1386 | a transaction with the region deleted |
| `SnapshotInstall.ShardStorage.Install` | eventstore/es-storage/src/state_machine.rs:1374-1412 | a defective stream or a wrong length changes nothing; otherwise one commit replaces the region |
| `LogStore.LogRangeExact` | eventstore/es-storage/src/storage.rs:191-224 | for every combination of bounds, the top of `u64` included, a key lies in the byte range if and only if it is an entry of this log with its index in range |
| `LogStore.WholeLogExact` | eventstore/es-storage/src/storage.rs:265-288 | a key of any shard lies between the log's two ends if and only if it is an entry of this log |
| `LogStore.LogUpperIsVote` | eventstore/es-storage/src/key.rs:386-388 | the log's upper end is the vote key |
| `LogStore.RunsCover` | eventstore/es-storage/src/log_storage.rs:126-162 | with purges that move forward, at every crash point each appended and untruncated index is stored or covered by the purge mark |
| `LogHistory.LogIsHistory` | eventstore/es-storage/src/log_storage.rs:94-162 | after any run of appends, truncations and purges, cut by crashes or not, the log holds at each index the entry appended there last unless truncated or swept since; the mark is that of the last purge; and no other key of the tree has changed |
| `LogStore.PurgeCoversExactly` | eventstore/es-storage/src/log_storage.rs:138-162 | a purge keeps that if and only if every live index it leaves unmarked is still stored |
| `LogStore.PurgeCoversOnTree` | eventstore/es-storage/src/log_storage.rs:138-162 | for a contiguous log that reaches past the mark: if and only if every index after the purge, up to the old mark, is still in the tree |
| `LogStore.BackwardPurgeForgets` | eventstore/es-storage/src/log_storage.rs:138-162 | a purge that moves back loses it |
| `LogStore.LogStorage.CollectKeys` | eventstore/es-storage/src/storage.rs:139-161 | every key in a byte range |
| `LogStore.LogStorage.DeleteRange` | eventstore/es-storage/src/storage.rs:167-182 | exactly the entries in an index range are gone |
| `LogStore.LogStorage.Append` | eventstore/es-storage/src/log_storage.rs:94-124 | all entries stored in one transaction |
| `LogStore.LogStorage.Truncate` | eventstore/es-storage/src/log_storage.rs:126-136 | the entry and everything after it gone |
| `LogStore.LogStorage.MarkPurged` | eventstore/es-storage/src/log_storage.rs:138-149 | the purge mark alone |
| `LogStore.LogStorage.Purge` | eventstore/es-storage/src/log_storage.rs:138-162 | the mark, and the entry and everything before it gone |
| `LogStore.LogStorage.ReadEntries` | eventstore/es-storage/src/storage.rs:227-259 | exactly the stored entries of an index range, in index order |
| `LogStore.LogStorage.LastIndex` | eventstore/es-storage/src/storage.rs:265-288 | the last key of the log's byte range has the greatest stored index |
| `LogStore.LogStorage.GetLogState` | eventstore/es-storage/src/log_storage.rs:25-41 | the purge mark, and the last entry or else the mark |
| `Redirect.BoundedRetry` | eventstore/es-core/src/redirect.rs:88-166 | for n endpoints no run of redirects and requeues yields more than 4n + 4 targets |
| `Redirect.RedirectIsNext` | eventstore/es-core/src/redirect.rs:110-116 | a target just redirected to is the next one yielded if and only if budget or redirect tail remains |
| `Redirect.PopIsFirstUntried` | eventstore/es-core/src/redirect.rs:149-166 | with budget left the next target is the first untried one |
| `Redirect.PopSpends` | eventstore/es-core/src/redirect.rs:149-166 | a yield spends exactly one unit, and running dry spends none |
| `Redirect.RequeuedIsRetried` | eventstore/es-core/src/redirect.rs:123-130 | a requeued target is tried again when the budget covers the queue ahead of it |
| `Redirect.LeaderRetryPlan.Next` | eventstore/es-core/src/redirect.rs:149-166 | duplicates are dropped without cost, and the next target is paid for from the budget or the redirect tail |
| `Redirect.Call` | eventstore/es-client/src/aggregate.rs:150-197 | the call loop ends within 4n + 4 attempts, asks a named leader next, pauses exactly before a target it put back last, repeats a call that is not idempotent only after an attempt that cannot have run, and its last attempt determines how it ends: answered, refused, the leader named last, or the list of targets that failed; with any endpoint it gives up only after 2n + 2 attempts, and after all 4n + 4 if a leader was named last; and it has asked every endpoint unless more than n + 2 of the first 2n + 2 attempts named a leader |
| `Handles.OneRequest` | eventfs-fuse/src/handle.rs:71-97 | along any run of one handle every request handed out is the same request |
| `Handles.PreparedIsFinal` | eventfs-fuse/src/handle.rs:47-97 | once a request is prepared the bytes never change, and after a success nothing is handed out |
| `Handles.StreamConserves` | eventfs-fuse/src/handle.rs:132-156 | bytes read and bytes left are exactly the bytes pushed, in order |
| `Handles.ChunkStays` | eventfs-fuse/src/handle.rs:47-59 | a chunk that is taken is found at its offset in everything the handle ever commits; one that is refused changes nothing |
| `Handles.RequestIsOfAllBytes` | eventfs-fuse/src/handle.rs:71-87 | the request handed out was made of all the bytes the handle ever holds |
| `Handles.AttemptEnds` | eventfs-fuse/src/handle.rs:89-98 | after a failed attempt the same request can be begun again, after a successful one none |
| `Handles.OffsetCountsBytes` | eventfs-fuse/src/handle.rs:145-156 | the offset a read must name counts the bytes given out |
| `Handles.EndIsFinal` | eventfs-fuse/src/handle.rs:145-161 | an empty read means that the stream is closed and drained, and nothing more ever comes |
| `Handles.BufferedWrite.WriteChunk` | eventfs-fuse/src/handle.rs:47-59 | the first reason to refuse a chunk, or its bytes appended and counted |

## Left out

- Consensus, elections, membership changes and bootstrap of the raft library: a committed, ordered log is taken as given.
- gRPC services and clients, TLS, endpoint normalisation, proto conversion and status mapping.
- The storage engine's internals, compression codecs, and the serialisation formats of values, headers and tokens.
- `esctl`, configuration, FUSE callbacks, path parsing and the JSON event codecs.
- Credit limits across the partitions of a group: the program enforces them per partition only, and so does the model.
- The `caught_up` and `throttled` hints of a group fetch, waits and long polls: advisory or timing only.
- Snapshot headers, temporary files, and choosing or retaining snapshot files: file handling around the record stream.
- Installing a snapshot during a live subscription: it commits events without broadcasting them, so the feed theorem leaves it out.
- Moving a partition to another shard during a follow: placements are fixed for the duration of a follow.
- `Hlc` growth and the routing of an instance to its partition: a timestamp is a parameter, a partition is part of the request.
- Texts of error messages and reasons other than the one stored with an expired delivery.
- `parse_leader_hint`: the call loop takes the parsed hint as the outcome of an attempt.
- StateListing.SortRows: is an insertion sort; the program uses a library sort with the same stable order.
- SnapshotTransfer.Replica.CatchUp: assumes that reading a region back gives the store it holds, and does not model the snapshot's file.
- BatchedApply.EsStorage.Apply: does not model a failing commit; a transaction that does not commit leaves the node as it was, which is the crash case of `RunsReproduceTheLog`.
- Redirect.Call: takes the outcome of each attempt as given, and keeps of an error only the address it came from.
