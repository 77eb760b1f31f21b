# Verified models of HotPlex's restart, lifecycle, packaging, client and docs logic

HotPlex's gateway restarts itself with the help of a detached process, tells its
users before and after, ships generated skill packages, and comes with a client
library and a documentation builder. This project models the parts of that code
where state, interleaving, failure or arithmetic make it easy to be wrong, and
proves what they guarantee, for all inputs, all failing calls and all runs.

`dafny verify dfyconfig.toml` checks everything.

## What is modelled

- **Gateway restart** (`RestartLease`, `RestartReceipt`, `RestartCoordinator`,
  `RestartProtocol`, `RestartInvariant`, `RestartSafety`, `RestartReceiptSafety`,
  `RestartCleanup`, `RestartRefinement`, `RestartCounterexamples`). `LeaseStore`
  and `ReceiptStore` are the two files, with every system call of an operation
  allowed to fail. `Coordinator` drives them in one process. `RestartProtocol` is
  the whole system: any number of coordinators, helpers and gateways, each
  advancing one visible operation at a time, any of them dying at any point. Its
  lease steps are the functions that the `LeaseStore` methods are proved to
  compute, and `RestartRefinement` proves that its processes, undisturbed, do what
  the methods do. PIDs are never reused and request IDs never repeat (128 random
  bits); the clock may jump.
- **Lifecycle broadcast** (`LifecycleTargets`, `LifecycleBroadcast`,
  `LifecyclePool`, `LifecycleSnapshot`). Route keys and duplicate-free merges,
  the counts of both broadcasts, the worker pool as an interleaving of workers,
  deadline and counting loop, and the claim-once snapshot file with crashes
  inside its operations.
- **Skills generator** (`ReplacePath`, `PackageVersion`). Replace-with-rollback
  over a file system in which any call can fail, and the bytes a package version
  hashes.
- **Client** (`ClientFanout`, `ClientRegistry`, `ClientBackoff`). Event delivery
  to bounded subscriber channels while others subscribe, unsubscribe and close;
  and the reconnect delay in int64 arithmetic.
- **Docs builder** (`DocsCrawl`). The discovery crawl.

`Text`, `Sequences` and `Wrappers` hold what several of them share.

## What turned out not to hold

Each of these comes with an input or a run, and with the condition under which
it happens or cannot happen.

- A gateway that reaches CompleteReady while a helper is still at work (one that
  a service manager brought up by itself, say) releases that helper's lease, and
  a second helper can run its destructive phase beside the first
  (`TwoHelpersAtWork`). `ExclusiveIffNoIntrusion` says exactly when this does not
  happen, and `OrderlyRunsAreExclusive` that the intended order of events
  suffices.
- A valid pending receipt can be set aside although it was neither delivered nor
  aborted, for either of two reasons: any read error counts as a corrupt receipt
  (`ReadErrorLosesReceipt`), and the file set aside or removed may not be the one
  that was read (`ValidReceiptClobbered`). `UnjustifiedLossIsTorn` says that in
  every run these are the only two, and `NoReceiptIsLost` that nothing is lost
  where reads work and no process changes the receipt between another one's read
  and remove.
- An Acquire can return an error although it created its lease: when the unlock
  fails, or when Sync fails and then the removal whose error `create` drops
  (`FailedAcquireStrandsLease`). Prepare then gives up without releasing the
  lease, and restarts stay blocked exactly as long as that process lives
  (`StrandedStays`). The contract of `Coordinator.Prepare` says which lease every
  failing Prepare leaves.
- The lease file does not always stay readable: when Chmod or Write of the new
  file fails and its removal does too, a partial file stays at the final path
  (`FailedCleanupBlocksRestarts`). Where an open file cannot be removed, one
  failure is enough, because `create` closes the file last. No operation ever
  removes such a file (`GarbledStays`), so restarts are blocked even after every
  process involved has died. `AcquireExactly` says for which inputs an Acquire
  strands a lease or garbles the file, `ReadableExactly` that every run keeps the
  file readable exactly as long as no Acquire does the latter.
- The reconnect delay is the intended one exactly for attempts 1 to 34 and for
  38, 42, 43, 46, 48, 51, 52 and 54; at every other attempt the product has
  wrapped to a value at or below zero and Connect does not wait at all
  (`IntendedExactlyWhen`).
- The comment on Unsubscribe says that Close closes every outstanding channel.
  The code closes those still subscribed; a channel that was unsubscribed stays
  open for good (`UnsubscribedStaysOpen`). `ClosedExactly` says which channels
  are ever closed.

- A snapshot is handed out at most once but not at least once: a crash between
  claiming and reading it (`CrashLosesSnapshot`), or a restart after more than a
  day (`SnapshotExpires`), loses it. `ClaimExactly` says when a pending snapshot
  is handed out, `InterruptedClaimBlocks` how long a claim that was interrupted
  stays in the way.

The package version is canonical for assets without NUL characters, which paths
from a directory walk and hexadecimal digests are; `NulInAPathIsAmbiguous` shows
why that hypothesis is there.

## Model

| member | source | states |
|---|---|---|
| RestartLease.LeaseStore.Acquire | cmd/hotplex/gateway_restart_lease.go:89-132 | the retry loop, under any failing calls, has exactly the effect of one locked acquire and makes at most two rounds |
| RestartLease.LeaseStore.CreateFile | cmd/hotplex/gateway_restart_lease.go:252-277 | under any failing calls, whether it succeeds and whether the path then holds the lease, nothing, or a partial file |
| RestartLease.LeaseStore.Update | cmd/hotplex/gateway_restart_lease.go:193-213 | changes only a lease that carries the caller's request ID, to a valid lease; a failed unlock reports an error although the file changed |
| RestartLease.LeaseStore.Release | cmd/hotplex/gateway_restart_lease.go:215-232 | removes only the lease of the caller's request ID; a missing lease is success |
| RestartLease.NewRequestId | cmd/hotplex/gateway_restart_lease.go:342-356 | every generated request ID passes the ID check |
| RestartLease.NewRequestIdInjective | cmd/hotplex/gateway_restart_lease.go:342-348 | different random bytes give different request IDs |
| RestartLease.ValidIdsAreEncodings | cmd/hotplex/gateway_restart_lease.go:350-356 | the accepted request IDs are exactly the encodings of 16 bytes, in either letter case |
| RestartLease.AcquireIffFree | cmd/hotplex/gateway_restart_lease.go:89-132 | without faults Acquire works iff the lease is absent or readable and stale, then the file holds the new valid lease; otherwise nothing changes |
| RestartLease.AcquireExactly | cmd/hotplex/gateway_restart_lease.go:89-132 | under any faults, exactly when Acquire creates a lease, when it reports success, when it strands one (an error for a lease that is there), and when it leaves an unreadable file |
| RestartLease.OnlyUnusedLeasesGo | cmd/hotplex/gateway_restart_lease.go:311-319 | a readable lease is in use while its owner lives if prepared, and otherwise for five minutes and then while owner or helper lives; one in use is kept under any faults and reported, any other is replaced |
| RestartLease.OnlyUnusedMarkersGo | cmd/hotplex/gateway_restart_lease.go:157-172 | the same for the legacy marker, in use for five minutes and then while its helper lives |
| RestartLease.DecodeExactly | cmd/hotplex/gateway_restart_lease.go:321-341 | which lease files readers accept, field by field |
| RestartLease.UpdateExactly | cmd/hotplex/gateway_restart_lease.go:193-213 | under any faults, when Update changes the file and when it reports success |
| RestartLease.ReleaseExactly | cmd/hotplex/gateway_restart_lease.go:215-232 | under any faults, when Release leaves no file and when it reports success |
| RestartLease.GarbledStays | cmd/hotplex/gateway_restart_lease.go:252-277 | acquire, update and release all fail on an unreadable file and leave it as it is |
| RestartLease.OperationsKeepReadable | cmd/hotplex/gateway_restart_lease.go:140-191 | a readable file stays absent or acceptable to readers under update and release whatever fails, and under acquire iff the new file is not left unwritten and unremoved |
| RestartLease.OnlyTheTicketHolderActs | cmd/hotplex/gateway_restart_lease.go:193-232 | Update and Release never touch another request's lease, and always fail on a legacy marker |
| RestartLease.AcquireDisplacesOnlyStale | cmd/hotplex/gateway_restart_lease.go:311-319 | even with failing calls, an acquire that changes the file found it absent or stale |
| RestartReceipt.ReceiptStore.Write | cmd/hotplex/gateway_restart_receipt.go:51-107 | stores a valid receipt iff none was there and nothing failed; never replaces one |
| RestartReceipt.ReceiptStore.Complete | cmd/hotplex/gateway_restart_receipt.go:136-151 | removes exactly the receipt of the given request, and on success none is left |
| RestartReceipt.ReceiptStore.Quarantine | cmd/hotplex/gateway_restart_receipt.go:153-165 | moves whatever is there aside, content kept, or changes nothing |
| RestartReceipt.ReadExactly | cmd/hotplex/gateway_restart_receipt.go:167-181 | which receipt files readers accept, field by field |
| RestartCoordinator.Coordinator.RetryPendingReceipt | cmd/hotplex/gateway_restart_coordinator.go:393-432 | succeeds iff nothing is pending or what is pending is readable, accepted and removed; success leaves no receipt, an undelivered one is named and kept, an unreadable one is kept aside or in place |
| RestartCoordinator.Coordinator.Prepare | cmd/hotplex/gateway_restart_coordinator.go:120-211 | succeeds iff the gateway is found, the lease can be acquired and, for Feishu, a pending receipt is delivered and the new one published; then the request owns the lease and its valid receipt is stored; after every failure the lease file is determined; a live lease stops it before anything changes |
| RestartCoordinator.Coordinator.Commit | cmd/hotplex/gateway_restart_coordinator.go:213-244 | succeeds iff the spawn worked and the own valid lease can be updated; then the lease names the helper; on failure exactly a started helper is killed and lease and receipt of the request are gone; no other request is touched |
| RestartCoordinator.Coordinator.Abort | cmd/hotplex/gateway_restart_coordinator.go:246-272 | drops lease and receipt of this request and nothing of another |
| RestartCoordinator.Coordinator.CompleteReady | cmd/hotplex/gateway_restart_coordinator.go:278-293 | releases a lease iff it is in waiting_for_ready |
| RestartCoordinator.Coordinator.HandleCommand | cmd/hotplex/gateway_restart_coordinator.go:295-368 | yields a ticket iff an allowed restart is prepared and its reply works; a denied or other command changes nothing; an accepted request whose reply fails is undone; exactly when the reply error is returned |
| RestartCoordinator.Coordinator.HelperFailure | cmd/hotplex/gateway_restart_helper.go:183-215 | lease and receipt of the request both go if the old gateway lives, neither changes if it is dead, no other request is touched |
| RestartCoordinator.WaitForHandoff | cmd/hotplex/gateway_restart_helper.go:217-242 | succeeds iff some poll shows the own lease past prepared and every earlier one shows it prepared; times out iff all show it prepared |
| RestartInvariant.StepKeepsInv | cmd/hotplex/gateway_restart_coordinator.go:120-293 | every move of every process, with any fault or crash, keeps the global invariant |
| RestartInvariant.RunKeepsInv | cmd/hotplex/gateway_restart_helper.go:105-242 | the invariant holds in every state of every run; in particular the lease file never holds a decodable but invalid lease |
| RestartSafety.ExclusiveIffNoIntrusion | cmd/hotplex/gateway_restart_helper.go:114-155 | in every run, each helper at work holds its announced lease at all times iff nobody else releases it under that helper |
| RestartSafety.ExclusiveMeans | cmd/hotplex/gateway_restart_lease.go:89-132 | then at most one helper is at work and no acquire succeeds or changes the file |
| RestartSafety.DestructionIsAnnounced | cmd/hotplex/gateway_restart_helper.go:118-126 | a helper enters its destructive phase only by its own successful update to waiting_for_ready |
| RestartSafety.OrderlyRunsAreExclusive | cmd/hotplex/gateway_run.go:1059-1064 | if killing a spawned helper works and no gateway reads the lease in CompleteReady while a helper is at work, the phase is exclusive throughout |
| RestartSafety.OnlyOwnLeaseChanges | cmd/hotplex/gateway_restart_coordinator.go:253-293 | under every interleaving a step other than acquire changes only the lease whose request ID it carries; acquire replaces only a stale one |
| RestartSafety.LeaseLeavesOnlySo | cmd/hotplex/gateway_restart_lease.go:215-232 | a lease leaves the file only through its own coordinator or helper, a gateway that saw it waiting, or reclaim when stale |
| RestartSafety.PhaseOrder | cmd/hotplex/gateway_restart_coordinator.go:232-244 | along every run the phase of a request never goes back, and its lease does not vanish and return |
| RestartSafety.Displacement | cmd/hotplex/gateway_restart_lease.go:311-319 | for every lease that is gone later in a run there is a step that released, completed or, when stale, reclaimed it |
| RestartSafety.ReadableExactly | cmd/hotplex/gateway_restart_lease.go:252-277 | in every run the lease file is absent or readable iff no acquire so far could neither write nor remove its new file; otherwise every acquire fails |
| RestartSafety.StrandedStays | cmd/hotplex/gateway_restart_lease.go:245-249 | along every run, a lease whose request nobody works on stays while its owner lives and refuses every acquire; a fault-free acquire works once the owner is dead |
| RestartSafety.DeadRequestsDoNotBlock | cmd/hotplex/gateway_restart_lease.go:89-132 | in every reachable state a fault-free acquire works iff the lease is absent or stale, hence once owner and helper are dead and five minutes have passed |
| RestartReceiptSafety.AcceptedMeansSent | cmd/hotplex/gateway_restart_coordinator.go:412-414 | a request's message counts as accepted only after a send of it succeeded |
| RestartReceiptSafety.NeverOverwritten | cmd/hotplex/gateway_restart_receipt.go:55-59 | no step of any reachable state replaces one receipt by another |
| RestartReceiptSafety.NoReceiptIsLost | cmd/hotplex/gateway_restart_receipt.go:136-165 | in every run with working receipt reads in which no step changes the receipt between another process's read and remove, a receipt goes only accepted, aborted by its own request, or undecodable |
| RestartReceiptSafety.UnjustifiedLossIsTorn | cmd/hotplex/gateway_restart_coordinator.go:393-432 | in every run at all, behind each other loss stands the remover's own last move before it, which failed to read the receipt or read another one |
| RestartReceiptSafety.ValidReceiptsAreDeliveredOrAborted | cmd/hotplex/lifecycle_broadcast.go:213-266 | in such runs a valid receipt goes only after its message was accepted or by its own request's abort |
| RestartRefinement.StartingGatewayDelivers | cmd/hotplex/lifecycle_broadcast.go:223-263 | from any state, the moves of a starting gateway send the pending valid receipt and remove it once accepted; if the send fails it stays |
| RestartRefinement.PreparingCoordinatorDelivers | cmd/hotplex/gateway_restart_coordinator.go:393-432 | so do those of a coordinator that finds one before a new restart, which gives up its lease if the send fails |
| RestartRefinement.AbortingCoordinatorCleansUp | cmd/hotplex/gateway_restart_coordinator.go:253-272 | those of an aborting coordinator remove its own receipt and lease and no other |
| RestartRefinement.PrepareIsItsMoves | cmd/hotplex/gateway_restart_coordinator.go:120-211 | undisturbed, the protocol's acquire and coordinator moves leave both files as Prepare does and end with a ticket iff Prepare returns one, for any failing calls |
| RestartRefinement.CommitIsItsMoves | cmd/hotplex/gateway_restart_coordinator.go:213-244 | the same for Commit, with the helper alive iff it was recorded |
| RestartRefinement.FailedSpawnIsItsMoves | cmd/hotplex/gateway_restart_coordinator.go:221-231 | the same for a Commit whose spawn fails |
| RestartRefinement.AbortIsItsMoves | cmd/hotplex/gateway_restart_coordinator.go:246-272 | the same for Abort |
| RestartRefinement.StartIsItsMoves | cmd/hotplex/lifecycle_broadcast.go:146-268 | a starting gateway's moves do to the receipt exactly what BroadcastStarted is proved to do |
| RestartRefinement.ReadyIsItsMoves | cmd/hotplex/gateway_restart_coordinator.go:278-293 | the same for CompleteReady and the lease |
| RestartRefinement.StopIsItsMoves | cmd/hotplex/lifecycle_broadcast.go:113-144 | the same for BroadcastStopping and the receipt |
| RestartRefinement.FailureIsItsMoves | cmd/hotplex/gateway_restart_helper.go:183-215 | a failing helper's moves leave both files as HelperFailure does |
| RestartRefinement.PollsAgree | cmd/hotplex/gateway_restart_helper.go:217-242 | a poll of the helper ends the wait exactly as WaitForHandoff's does |
| RestartRefinement.RestartTakesPlace | cmd/hotplex/gateway_restart_helper.go:118-175 | the moves of a recorded helper announce it, stop the old gateway and finish |
| RestartRefinement.FailedTakeOver | cmd/hotplex/gateway_restart_helper.go:118-143 | exactly when the helper takes the failure path after the handoff |
| RestartCounterexamples.TwoHelpersAtWork | cmd/hotplex/gateway_restart_coordinator.go:278-293 | a run in which, the old gateway stopped, a gateway's CompleteReady lets two helpers be destructive at once |
| RestartCounterexamples.ValidReceiptClobbered | cmd/hotplex/lifecycle_broadcast.go:270-294 | a run of one gateway, without any failing read, whose start-up broadcast sets the valid, undelivered receipt of a request made meanwhile aside in place of a corrupt one |
| RestartCounterexamples.ReadErrorLosesReceipt | cmd/hotplex/lifecycle_broadcast.go:274-278 | a run without any contention in which one failing read sets a valid receipt aside |
| RestartCounterexamples.FailedAcquireStrandsLease | cmd/hotplex/gateway_restart_lease.go:252-277 | for each such failure a run in which the failing acquire leaves a lease with nobody to release it, while its owner lives |
| RestartCounterexamples.FailedCleanupBlocksRestarts | cmd/hotplex/gateway_restart_lease.go:252-277 | a run that leaves an unreadable lease file with no request and its process dead |
| RestartCounterexamples.HelperBecomesGateway | cmd/hotplex/gateway_restart_helper.go:145-175 | the intended restart: the helper stops the old gateway, comes up as the new one and releases its lease |
| RestartCounterexamples.ClockDecides | cmd/hotplex/gateway_restart_lease.go:311-319 | once owner and helper are dead, the next request gets the lease iff the clock shows five minutes or more |
| RestartCounterexamples.MarkerIsReclaimed | cmd/hotplex/gateway_restart_lease.go:157-172 | a run may begin with a legacy marker, which the next request replaces iff it is five minutes old |
| RestartCleanup.AllOrNone | cmd/hotplex/gateway_restart_helper.go:183-215 | in every run, beside any other process, a failed helper whose calls work looks at the old gateway once: if that lives, neither the lease nor a valid receipt of the request is left at its end; if not, no move of the helper touches either file |
| LifecycleTargets.KeysAreRoutes | cmd/hotplex/lifecycle_broadcast.go:651-688 | for NUL-free fields two merge keys are equal iff the routes are (or, for unroutable restart targets, the IDs) |
| LifecycleTargets.RoutableExactly | cmd/hotplex/lifecycle_broadcast.go:651-688 | which targets can be sent to, per platform |
| LifecycleTargets.SameKeyIsSamePlace | cmd/hotplex/lifecycle_broadcast.go:651-688 | for NUL-free targets, keys are equal iff platform, bot and place agree: team, channel and thread on Slack; chat and thread, or else user, on Feishu; message, addressees and system on Yuanxin |
| LifecycleTargets.FirstsAreFirsts | cmd/hotplex/lifecycle_broadcast.go:354-380 | the selection has distinct keys, misses no key, keeps the order, and keeps the first target of each key |
| LifecycleTargets.Merge | cmd/hotplex/lifecycle_broadcast.go:354-380 | the nested loops with the seen map select exactly the first occurrences over all groups |
| LifecycleTargets.Collect | cmd/hotplex/lifecycle_broadcast.go:690-710 | the loop selects exactly the first occurrences among active sessions |
| LifecycleBroadcast.Count | cmd/hotplex/lifecycle_broadcast.go:550-576 | sent grows by exactly the successes before the deadline, sent plus failed by the number of targets |
| LifecycleBroadcast.SendStarted | cmd/hotplex/lifecycle_broadcast.go:476-501 | accepted iff the target is routable, a sender is found and one of three attempts works before the deadline |
| LifecycleBroadcast.ReceiptRoute | cmd/hotplex/lifecycle_broadcast.go:296-310 | a receipt is sent on the route of a session of the same platform, bot and place |
| LifecycleBroadcast.BroadcastStopping | cmd/hotplex/lifecycle_broadcast.go:113-144 | exactly the routes of the active sessions and of the receipt (or else the configured ones) are told, once each; exact counts; the saved IDs are the collected ones |
| LifecycleBroadcast.Restore | cmd/hotplex/lifecycle_broadcast.go:186-198 | restores exactly the sessions found, in order, and counts every other ID as failed |
| LifecycleBroadcast.FoundAreAll | cmd/hotplex/lifecycle_broadcast.go:186-198 | the sessions found are exactly those that some ID of the snapshot leads to |
| LifecycleBroadcast.Remaining | cmd/hotplex/lifecycle_broadcast.go:214-222 | exactly one target, the one on the receipt's route, is taken out, and no other key is lost |
| LifecycleBroadcast.BroadcastStarted | cmd/hotplex/lifecycle_broadcast.go:146-268 | on every path: exact counts; the pool tells exactly the found sessions' routes and, without a receipt, the configured ones, never the receipt's own; the receipt is removed iff its message was accepted and the completion works, or kept aside if unreadable |
| LifecyclePool.Conservation | cmd/hotplex/lifecycle_broadcast.go:503-576 | under every interleaving the counts grow by the number of targets, no target is sent to twice, and a complete return has a result of every target |
| LifecyclePool.ResultsAreReports | cmd/hotplex/lifecycle_broadcast.go:521-548 | every result that is counted is how a worker's send of that target ended |
| LifecyclePool.Bounded | cmd/hotplex/lifecycle_broadcast.go:514-520 | never more sends at once than the concurrency allows |
| LifecyclePool.RefinesCount | cmd/hotplex/lifecycle_broadcast.go:503-576 | every returning run of the pool has exactly the counts of the counting loop for some order of arrivals |
| LifecyclePool.ReportNeverBlocks | cmd/hotplex/lifecycle_broadcast.go:521-548 | a worker with a result always finds room, so none is left behind after the deadline |
| LifecyclePool.WorkersLeave | cmd/hotplex/lifecycle_broadcast.go:521-548 | after the deadline, or with no target left, the workers' own moves take all of them to their end |
| LifecyclePool.DeadlineEnds | cmd/hotplex/lifecycle_broadcast.go:550-576 | the deadline may pass at any moment, and then the broadcast returns with everything uncounted as failed |
| LifecyclePool.LateSend | cmd/hotplex/lifecycle_broadcast.go:521-548 | a run in which a target that counted as failed is told after the broadcast returned |
| LifecyclePool.NeverStuck | cmd/hotplex/lifecycle_broadcast.go:550-576 | until it returns, the broadcast can always make a step without the deadline |
| LifecycleSnapshot.Validate | cmd/hotplex/lifecycle_broadcast_snapshot.go:170-192 | the seen-map loop accepts exactly snapshots of good, distinct IDs, the right count, version and time window |
| LifecycleSnapshot.SnapshotStore.Save | cmd/hotplex/lifecycle_broadcast_snapshot.go:44-105 | the whole new state of both files, for empty and non-empty IDs and any failing call; success leaves no claim and the IDs pending |
| LifecycleSnapshot.SnapshotStore.Claim | cmd/hotplex/lifecycle_broadcast_snapshot.go:107-126 | returns only a valid pending snapshot that is no longer pending, and nothing while a claim is outstanding |
| LifecycleSnapshot.ClaimExactly | cmd/hotplex/lifecycle_broadcast_snapshot.go:107-192 | a pending snapshot is handed out iff version, count, distinct UUIDs and age (24 hours back, five minutes ahead) are right |
| LifecycleSnapshot.SaveExactly | cmd/hotplex/lifecycle_broadcast_snapshot.go:44-105 | when a Save puts which snapshot in place, in the same terms |
| LifecycleSnapshot.StepsAreOperations | cmd/hotplex/lifecycle_broadcast_snapshot.go:44-126 | the steps of the crash model, run to the end, are what the store's Save and Claim are proved to compute |
| LifecycleSnapshot.AtMostOnce | cmd/hotplex/lifecycle_broadcast_snapshot.go:44-136 | over every sequence of operations and crashes each Save is returned by at most one Claim, unchanged and valid at that moment |
| LifecycleSnapshot.InterruptedClaimBlocks | cmd/hotplex/lifecycle_broadcast_snapshot.go:109-111 | in every run, after a crash with a claim in place nothing is returned and neither file changes until a Save or the claim's completion |
| LifecycleSnapshot.CrashLosesSnapshot | cmd/hotplex/lifecycle_broadcast_snapshot.go:107-126 | a run in which every call works and a crash keeps a valid snapshot from being handed out |
| LifecycleSnapshot.SnapshotExpires | cmd/hotplex/lifecycle_broadcast_snapshot.go:170-192 | a run in which a snapshot more than a day old is claimed and dropped |
| ReplacePath.Replace | cmd/gen-builtin-skills/main.go:358-394 | success exchanges exactly the two entries; on any failure the old content is whole at target or backup; a single failing call leaves the target as it was |
| ReplacePath.Promote | cmd/gen-builtin-skills/main.go:376-393 | with the old content set aside: new content in place, or the old one at target or backup |
| ReplacePath.RollbackReplacement | cmd/gen-builtin-skills/main.go:396-416 | the backup's content survives at target or backup, without failures is back at the target, and a single failing call leaves the target with old or new content; no rename goes onto an existing name |
| ReplacePath.FileSystem.SiblingPlaceholder | cmd/gen-builtin-skills/main.go:418-436 | yields an unused name and no leftover, or reports a call that failed |
| ReplacePath.WriteAtomic | cmd/gen-builtin-skills/main.go:332-356 | succeeds when no call fails; success changes exactly the target; failure keeps old or new content whole and an absent target absent or complete, other entries untouched; a failed cleanup is reported, and a single failing call leaves no temporary name |
| PackageVersion.SortedUnique | cmd/gen-builtin-skills/main.go:216-226 | the comparator determines the sorted sequence, so the sorting algorithm does not matter |
| PackageVersion.SortAssets | cmd/gen-builtin-skills/main.go:216-226 | sorts a copy: sorted and a permutation |
| PackageVersion.SortedMeans | cmd/gen-builtin-skills/main.go:216-226 | the sorted order, spelled out: by the bytes of the path, then by size, then by the bytes of the digest |
| PackageVersion.VersionInput | cmd/gen-builtin-skills/main.go:228-236 | the hashed bytes are the NUL-terminated fields of the sorted assets |
| PackageVersion.VersionInputIsCanonical | cmd/gen-builtin-skills/main.go:216-238 | for NUL-free assets two lists hash the same bytes iff one is a permutation of the other |
| PackageVersion.NulInAPathIsAmbiguous | cmd/gen-builtin-skills/main.go:228-236 | why the hypothesis is needed: for any two assets in order there is one asset, with NULs in its path, that hashes the same bytes |
| ClientFanout.CriticalDelivery | client/client.go:604-740 | a subscriber's received and buffered events are a subsequence of what was read since it came; before shutdown no done, error or state event is missing or out of order; others are skipped only at a full buffer |
| ClientFanout.PumpEndsExactly | client/client.go:604-668 | in every run the pump stops only when the connection ends or after delivering an error; after any other event, done included, it reads the next frame that waits |
| ClientFanout.ConsumerGetsAll | client/client.go:370-379 | a consumer can take out everything in its channel, in order, closed or not |
| ClientFanout.ClosedSafely | client/client.go:380-395 | in every run the pump never sends on a closed channel, no done channel and no event channel is closed twice |
| ClientFanout.BlockedExactlyWhen | client/client.go:722-738 | a delivery waits iff a critical event meets a full buffer, the subscriber is still there and the client is not shutting down |
| ClientFanout.LeavingUnblocks | client/client.go:722-738 | unsubscribing frees the pump from a subscriber that does not receive |
| ClientFanout.CancellingUnblocks | client/client.go:722-738 | cancelling the client's context frees the pump from every delivery |
| ClientFanout.ClosedExactly | client/client.go:380-395 | in every run, the channels ever closed are exactly those that came before Close finished and were not unsubscribed by then |
| ClientFanout.UnsubscribedStaysOpen | client/client.go:380-395 | a run through a whole Close that leaves an unsubscribed channel open, and one subscribed afterwards |
| ClientFanout.CloseMakesProgress | client/client.go:538-567 | while Close waits the pump can always move, each move lessens its work and nobody adds to it |
| ClientFanout.CloseEnds | client/client.go:538-567 | from every state in which Close waits, moves of the pump alone take it to the end, even if no consumer receives |
| ClientRegistry.Registry.Unsubscribe | client/client.go:385-395 | removes exactly that subscriber, signals it once, ignores unknown channels |
| ClientRegistry.Registry.Close | client/client.go:538-567 | closes every remaining channel once; a second Close does nothing |
| ClientBackoff.ExactThrough34 | client/client.go:761-769 | for attempts 1 to 34 the delay is the smaller of 2^(attempt-1) and 30 seconds, monotone, within 1 to 30 seconds |
| ClientBackoff.NoDelayFrom56 | client/client.go:761-769 | from attempt 56 on the delay is zero |
| ClientBackoff.IntendedExactlyWhen | client/client.go:208-232 | for every attempt the delay is the intended one iff it is at most 34 or one of eight later ones; otherwise it is not positive |
| DocsCrawl.Crawl | cmd/build-docs/main.go:150-187 | the discovered set is exactly what chains of links from index.md reach, each page is queued once, the assets are exactly those of the pages, and the loop ends |
| DocsCrawl.ReachableIsLeast | cmd/build-docs/main.go:157-181 | the reachable pages lie in every set that contains index.md and is closed under links |

## Left out

- RestartProtocol.IsRun: assumes that PIDs and request IDs do not repeat and that each request is committed once; a process that dies inside a lease operation leaves what one of the modelled failures leaves.
- RestartCoordinator.Coordinator.Prepare: is about one process at a time; what others do in between is proved about the protocol's own steps.
- LifecycleSnapshot.AtMostOnce: operations follow one another; two processes claiming at the same moment are not modelled, and before the first Save no readable snapshot exists.
- LifecycleBroadcast.Count: takes the order in which results and deadline arrive as given; LifecyclePool shows that every interleaving of the workers is covered by one.
- ReplacePath.Replace: a failed remove changes nothing, which holds for files; a mirrored directory that is removed half way is not modelled.
- ClientFanout.CriticalDelivery: events that arrive before the handshake are delivered beside the receive pump and are not covered, nor is connecting one client twice.
- ClientFanout is on values rather than objects because sends, receives and closes of other goroutines fall between the statements of deliver; ClientRegistry has the list operations that run under the mutex on objects.
- The send side of the client, in particular closing sendCh while a sender may still select on it.
- Size limits of the files: exceeding one counts as a failing call.
- JSON encoding, file permissions, fsync, the lock file itself and the platforms' rename: a lease operation under its lock is one step, and decoding inverts encoding.
- Process spawning, signals, service managers, message texts and sending: nondeterministic success or failure.
- Session stores, bot registries and configuration: a sender is found or not, a session is restored or not.
- Markdown parsing, path resolution, templates and downloads: the links of a file and their resolution are parameters.
- Navigation building (buildNav, scanNavFiles) and the remaining phases of the docs builder, which only format what the crawl found.
- Command line, HTTP routes, admin handlers, SQL stores, adapters, scripts and the web chat.
