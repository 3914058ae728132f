# A verified model of a proxy back end's runtime state

The program is a proxy back end. A controller polls a panel, pushes users, limits and audit rules into a live
dispatcher, and reports traffic back. The hard part is that connections, two monitors and several processes touch
the same state in any interleaving. This project models that state in Dafny and proves what holds over every run.

The modules follow the program's components.

- **Lifecycle, LifecycleInvariant, LifecycleTheorems, LifecycleAdmission, LifecycleLoss, LifecycleRuns.** Users are admitted, retired and finalized while
  flows hold references and write to traffic counters. The model is a transition system. A step is one critical
  section or one atomic access. A run is any sequence of steps, so a statement about all runs is a statement about
  all interleavings. Runtime records and counters have identity: they are indices into arenas.
- **Controller, MonitorPass, Report, FlowRelease.** The controller's loops and the flow objects as classes. Each loop
  is proved to be a run of the transition system. A failed pass is proved to change nothing, and a settled pass to
  finalize exactly the idle retired users.
- **Limiter, DeviceLimit, BucketReach, LimiterService.** The per-user limits, token buckets and online addresses of each
  inbound, and which limit changes reach connections that are already open.
- **UserDiff, Sync, NodeMonitor.** The incremental user update, proved equal to a rebuild from the panel's list, and
  the node monitor that keeps its list, admission and limits in step.
- **AutoSync.** The automatic speed limit and the panel's updates as two writers of one limiter.
- **GlobalDevices, GlobalDeviceRuns.** Device addresses reserved in Redis by any number of processes.
- **UserListCache.** The conditional user-list cache against an honest panel.
- **Sniffing, Rate, AutoLimit, Shutdown, Rules, UserKey.** Sniff and replay, chunked token buckets, the automatic
  speed limit, the monitors' shutdown protocol, audit rules, and the textual user key. `Api` holds shared records.

`dafny verify dfyconfig.toml` checks the whole project.

## What turned out false of the code

For each of these the code is kept as it is, a lemma gives an input or a run on which the property fails, and another
states exactly when it holds.

- *A removed user is always visited again.* After finalizing a user, the controller deletes the retiring entry if the
  user value is the same (`service/controller/user_retirement.go:72-77`). If the user was admitted and retired again
  in between, its new entry is deleted as well. `LifecycleRuns.OrphanRun` is such a run, with a live flow and
  any number of undrained bytes. `LifecycleTheorems.NoOrphans` states that this stale deletion is the only way.
  `OrphanForever` states that nothing but a new registration or retirement ends it.
- *Every counted byte stays visible.* A write that is under way when both writers of a connection are closed is counted
  after the flow has given back its reference (`app/mydispatcher/stats.go:23-51`), and the user may have been finalized
  in between. `LifecycleRuns.StrayRun` is such a run. `LifecycleLoss.TrafficAccount` says how many bytes a run loses,
  step by step. `LifecycleLoss.NothingLostIff` says that none are lost if and only if nobody wrote through a handle that
  is not the registered one and no name was dropped with bytes in its counter.
- *A limit change reaches the user's open connections.* Each report of online devices empties all windows and drops the
  buckets of users that have none (`common/limiter/limiter.go:139-163`). A connection that outlasts two reports without
  a new connection of its user keeps a bucket that no update finds: `BucketReach.MissedLimitRun`, where the limit becomes
  50 and the connection goes on at 100. `BucketReach.HeldIff` says that a bucket is still reached after a run if and only
  if no step dropped it, `BucketReach.UpdateReachesFlows` what an update does in either case, and
  `BucketReach.AdriftForever` that a dropped bucket keeps its rate for good.
- *A bucket's burst is positive.* The burst is the limit converted to a signed integer
  (`common/limiter/limiter.go:95`, `224`). `Limiter.NegativeBurst` is a run that ends in a negative burst, and
  `Limiter.BurstPositive` is the equivalence: positive if and only if the limit is below 2^63.
- *A local snapshot is a subset of the shared address map.* `GlobalDeviceRuns.LateSnapshot` is a run in which a slow
  reply is kept past the shared value's expiry. `GlobalDeviceRuns.SubsetWhilePresent` says that a snapshot stays a
  subset if and only if its key has not run out since.
- *"Users no change" means that the caller has the list.* `UserListCache.LostChangeRun` is a run of two node requests
  that drops a waiting list. `NoChangeIsTrue` shows that orderly calls always get true answers, and
  `DisorderLosesAChange` that after any honest run a call that is not orderly can lead to a false one.
  `ControllerHearsEveryChange` shows that the controller's own order is orderly.
- *The limiter holds the users of the panel's list.* The user monitor pushes slowed and released users into the limiter
  without looking at the list (`service/controller/controller.go:588`, `635`). `AutoSync.StaleRun` is a run that
  leaves a removed user in the limiter, and `AutoSync.StaleStays` says that no later update removes it.
  `AutoSync.NoStaleEntries` and `AutoSync.LimitsAgree` are the equivalences for the users known and for their limits.

## Model

| member | source | states |
|---|---|---|
| `LifecycleTheorems.TrafficConserved` | service/controller/control.go:113-191 | In every run, for every user key and direction, counted bytes equal reported plus discarded plus drained plus visible plus stray bytes, and stray bytes never exceed those written without a live managed reference. |
| `LifecycleTheorems.NothingLost` | service/controller/controller.go:594-648 | If only live managed flows wrote, no byte is ever stray, through failed reports, retirement, finalization and re-registration. |
| `LifecycleLoss.StepStray` | app/mydispatcher/user_lifecycle.go:77-145 | Every step of every thread adds to the stray bytes exactly the bytes written through an unregistered handle or dropped with their name. |
| `LifecycleLoss.TrafficAccount` | service/controller/control.go:113-191 | In every run, for every user key and direction, counted bytes equal reported plus discarded plus drained plus visible bytes plus those the run's steps lost. |
| `LifecycleLoss.NothingLostIff` | service/controller/controller.go:594-648 | Nothing counted is lost if and only if no step of the run writes bytes through a handle that is not the registered one or unregisters a name with bytes in its counter. |
| `LifecycleLoss.LiveWritesStayVisible` | app/mydispatcher/default.go:250-289 | A flow that holds a managed reference never writes through an unregistered handle. |
| `LifecycleTheorems.CountersNonNegative` | service/controller/control.go:118-125 | No reachable counter is negative, so the branch that puts a negative value back is dead. |
| `LifecycleTheorems.HandleSafety` | app/mydispatcher/user_lifecycle.go:77-118 | A live managed flow's runtime is the one in the registry, and its fetched counters are the registered ones, so finalization never detaches a counter that a live flow uses. |
| `LifecycleTheorems.RestoreIsVisible` | service/controller/control.go:130-134 | Whatever a failed report gives back goes to a counter that is still registered under its name. |
| `LifecycleTheorems.ReferencesExact` | app/mydispatcher/user_lifecycle.go:12-26 | Each reference count equals the number of unreleased flows, a release never meets zero, and a piped flow is released exactly when both writers have ended. |
| `LifecycleTheorems.StepTracked` | service/controller/user_retirement.go:66-79 | A step keeps every runtime admitted, retiring or about to be, unless it is the stale deletion of a key that was retired again. |
| `LifecycleTheorems.NoOrphans` | service/controller/user_retirement.go:26-79 | A whole run keeps every runtime in one of these if and only if no stale deletion hits a re-retired key. |
| `LifecycleTheorems.AdmittedOrRetiring` | app/mydispatcher/user_lifecycle.go:53-75 | Between operations, without that race, a key with a runtime is admitted or retiring and never both, and every admitted key has a runtime. |
| `LifecycleTheorems.OrphanForever` | service/controller/user_retirement.go:56-79 | An orphaned key is visited by no later pass until it is registered or retired anew. |
| `LifecycleAdmission.AcquireIff` | app/mydispatcher/user_lifecycle.go:77-97 | A connection is let in if and only if its inbound is not managed or its user is admitted; then there is one more unreleased flow of that user and one more reference on its runtime, and otherwise nothing changes. |
| `LifecycleAdmission.ClosedAdmitsNobody` | app/mydispatcher/user_lifecycle.go:87-89 | Over every run without a new registration, no connection of a user who is not admitted is let in. |
| `LifecycleAdmission.RetireCloses` | app/mydispatcher/user_lifecycle.go:65-75 | A retirement closes admission at once and leaves a runtime to be finalized, the old one if there is one. |
| `LifecycleAdmission.RegisterOpens` | app/mydispatcher/user_lifecycle.go:53-63 | A registration opens admission at once and keeps the runtime that flows already hold. |
| `LifecycleAdmission.RetiredIsTurnedAway` | app/mydispatcher/default.go:257-261 | After any run that retires a user and does not register it again, its next connection is turned away. |
| `LifecycleAdmission.FetchIs` | app/mydispatcher/default.go:275-301 | A connection gets the counter registered under its user and direction, the one that is there or a new one, and nothing else changes. |
| `LifecycleAdmission.AttachIs` | app/mydispatcher/default.go:365-462 | A connection becomes piped or direct, and nothing else changes. |
| `LifecycleAdmission.BytesAreCounted` | app/mydispatcher/default.go:227-237 | Bytes are counted once, in the flow's own counter, under its user and direction. |
| `LifecycleAdmission.ReleaseIs` | app/mydispatcher/default.go:239-248 | A direct flow gives back one reference on its own runtime at its first release, and nothing at a later one. |
| `LifecycleAdmission.EndWriterIs` | app/mydispatcher/stats.go:23-51 | A piped flow gives back its reference at the end of its second writer, and ending a writer twice is ending it once. |
| `LifecycleInvariant.StepInv` | app/mydispatcher/user_lifecycle.go:38-145 | Every step of every thread keeps the inductive invariant on references, handles, names, admission, deltas and byte totals. |
| `LifecycleRuns.SettlesRetired` | app/mydispatcher/user_lifecycle.go:134-145 | One undisturbed pass reports exactly the visible bytes of an idle retired user and removes its counters, runtime and list entry. |
| `LifecycleRuns.RetiredAccountCloses` | service/controller/controller.go:594-648 | After that pass, every byte ever counted for the removed user in either direction has been reported or discarded, except those the run had lost. |
| `LifecycleRuns.OrphanRun` | service/controller/user_retirement.go:69-77 | A run that orphans a user with any number of undrained bytes and a live flow. |
| `LifecycleRuns.StrayRun` | app/mydispatcher/stats.go:23-51 | A run in which a managed flow, released because both writers were closed, still writes any number of bytes, to a counter that finalization has detached. |
| `MonitorPass.FailedPassInvisible` | service/controller/control.go:130-159 | A pass whose report fails leaves the whole state as it was, for any list of drained users. |
| `MonitorPass.SettlingIs` | service/controller/control.go:140-159 | With uploads disabled all drained bytes are discarded and none reported; after an accepted report all are reported and none discarded. |
| `MonitorPass.SettledPassFinalizes` | service/controller/controller.go:601-648 | A pass whose report is settled removes a retired user from runtime, counters and list exactly when nobody is admitted under its key and no flow holds it; otherwise the user stays listed. |
| `Controller.RuntimeUserKeys` | service/controller/user_retirement.go:15-24 | The loop yields the key of every listed user in order. |
| `Controller.Backend.RegisterManagedUsers` | service/controller/user_retirement.go:26-34 | Registration is the run that manages the tag, admits all keys and only then drops them from the retiring list. |
| `Controller.Backend.RetireManagedUsers` | service/controller/user_retirement.go:36-50 | Retirement is the run that closes admission for all keys and only then files them as retiring, each under its last listed user; an empty list touches nothing. |
| `Controller.Backend.DrainCounter` | service/controller/control.go:113-128 | One drain step: a positive value is taken and recorded as a delta, anything else stays. |
| `Controller.Backend.DrainUsers` | service/controller/control.go:161-191 | Draining a list is the run of its drain steps; per UID and direction, the rows gain exactly what the new deltas hold. |
| `Controller.Backend.FlushUserTraffic` | service/controller/control.go:140-159 | Disabled uploads discard, an accepted report commits, a failed or panicking one gives back every delta. |
| `Controller.Backend.FinalizeRetiredUser` | app/mydispatcher/user_lifecycle.go:99-145 | Succeeds exactly when admission is closed, no reference is left and both counters are empty; then both names and the runtime go, and otherwise nothing changes. |
| `Controller.Backend.RetiringUserSnapshot` | service/controller/user_retirement.go:56-64 | The snapshot holds every retiring entry exactly once. |
| `Controller.Backend.FinalizeRetiringUsers` | service/controller/user_retirement.go:66-79 | The loop is the run that tries each snapshot entry once and deletes its list entry if the user value is unchanged. |
| `Controller.Backend.UserInfoMonitor` | service/controller/controller.go:594-648 | The traffic half of a pass is the run snapshot, drain, settle, and finalize unless the report failed; the rows hold the drained deltas per UID, each UID once, and no rows means no deltas. |
| `FlowRelease.UserIO.Release` | app/mydispatcher/default.go:239-248 | A flow gives back its reference at most once. |
| `FlowRelease.LifecycleWriter.End` | app/mydispatcher/stats.go:42-51 | Only the first close or interrupt of a writer drops an owner, and the last owner releases the flow. |
| `FlowRelease.Connection.End` | app/mydispatcher/stats.go:23-51 | Ending a writer is the corresponding step of the lifecycle system, in whatever state the flow is part of. |
| `FlowRelease.Connection.Play` | app/mydispatcher/stats.go:17-51 | Any sequence of repeated closes and interrupts is a run of the lifecycle system and returns the reference exactly once, if and only if both writers have ended. |
| `Report.AddRowSum` | service/controller/control.go:175-191 | Appending a sample changes the per-UID sums by exactly that sample. |
| `Report.TrafficReport.AppendAll` | service/controller/control.go:175-191 | For any order of users and repeated UIDs the rows have distinct UIDs, the sums of the samples, and the email of a user drained under that UID. |
| `Report.Encode` | api/newV2board/v2board.go:247-251 | With distinct UIDs the UID-keyed encoding holds every row. |
| `Report.ReportAndEncode` | api/newV2board/v2board.go:244-251 | What the panel receives per UID is exactly what was drained for it. |
| `Limiter.DetermineRate` | common/limiter/limiter.go:329-347 | The smaller non-zero limit, and zero only when both are zero. |
| `Limiter.RunInv` | common/limiter/limiter.go:76-243 | After any operations, buckets and windows belong to known users, every bucket runs at the rate of the current limits, no two users share one, and every online entry stores the UID its key encodes. |
| `Limiter.BurstPositive` | common/limiter/limiter.go:90-96 | A bucket's burst equals its rate, and is positive, if and only if the limit fits a signed 64-bit integer. |
| `Limiter.NegativeBurst` | common/limiter/limiter.go:224 | One connection of a user with a limit of 2^63 gets a bucket with a negative burst. |
| `BucketReach.TakenIsHeld` | common/limiter/limiter.go:217-228 | The bucket a connection is given is the one the hub holds for its user. |
| `BucketReach.StepHeld` | common/limiter/limiter.go:76-163 | An operation keeps a user's bucket in the hub exactly when it is not a report that finds the user without a window, a deletion of the user, or an update that makes the user unlimited. |
| `BucketReach.HeldIff` | common/limiter/limiter.go:76-243 | After any run a bucket is still held if and only if no step dropped it, and otherwise no entry leads to it. |
| `BucketReach.UpdateReachesFlows` | common/limiter/limiter.go:89-99 | After any run, an open connection's bucket runs at the rate in force and takes the next positive limit if no step dropped it; otherwise the update passes it by. |
| `BucketReach.AdriftForever` | common/limiter/limiter.go:139-148 | A bucket that left the hub keeps its rate through every later run. |
| `BucketReach.MissedLimitRun` | common/limiter/limiter.go:133-169 | Two reports and an update leave an open connection at its old rate. |
| `LimiterService.Service.AddInboundLimiter` | common/limiter/limiter.go:48-74 | The tag's limiter becomes the one built from the list, with an empty cache of its own if shared reservations are enabled, and the cache it replaces is closed. |
| `LimiterService.Service.UpdateInboundLimiter` | common/limiter/limiter.go:76-106 | All listed limits are stored and buckets adjusted or dropped; an unknown tag is an error that changes nothing. |
| `LimiterService.Service.DeleteInboundLimiterUsers` | common/limiter/limiter.go:108-124 | Exactly the listed users lose limits, bucket and window; an unknown tag is an error. |
| `LimiterService.Service.GetOnlineDevice` | common/limiter/limiter.go:133-169 | Every address is reported once per window that holds it, with its UID; buckets of offline users go and all windows are emptied. |
| `LimiterService.Service.GetUserBucket` | common/limiter/limiter.go:171-243 | Local limits decide first, a user they let through may still be rejected by the shared reservation, what it reserves stays in Redis or in the local map, local state is the same either way, and unknown users and tags pass without a limit. |
| `DeviceLimit.SweepsAreOnline` | common/limiter/limiter.go:139-163 | The two sweeps, one critical section per user and in any order, amount to the one step of a report when nothing interferes; each section alone keeps the invariant in every run. |
| `DeviceLimit.ConnectMeans` | common/limiter/limiter.go:183-229 | What a connection is answered and what it leaves, from limits and window alone: rejection if and only if the address is new and a positive device limit is used up, a bucket if and only if a rate is set. |
| `DeviceLimit.ExactlyTheLimit` | common/limiter/limiter.go:202-215 | From an empty window, just as many distinct addresses as the device limit allows are let in, and the next one is refused. |
| `DeviceLimit.RecordDecides` | common/limiter/limiter.go:84-99 | After an update, the record's own device and speed limits decide. |
| `DeviceLimit.BuiltFromRecord` | common/limiter/limiter.go:61-69 | A user in a freshly built limiter has the limits of its own record. |
| `DeviceLimit.CountUpTo` | common/limiter/limiter.go:203-213 | The loop that stops early counts the smaller of window size and limit, so it decides as the full size would. |
| `DeviceLimit.StepWindow` | common/limiter/limiter.go:193-215 | One operation keeps a window, empties it, or adds one address within the limit in force. |
| `DeviceLimit.WindowBounded` | common/limiter/limiter.go:76-215 | In every run a window was, at its last change, within the limit then in force, even when limits are lowered later. |
| `DeviceLimit.KnownAddressAdmitted` | common/limiter/limiter.go:202-215 | An address in the window is never refused locally. |
| `DeviceLimit.AdmittedStays` | common/limiter/limiter.go:149-163 | An admitted address stays in its window until the window is emptied. |
| `UserDiff.CompareUserList` | service/controller/controller.go:497-531 | The three result lists, contents and order, for all pairs of lists. |
| `UserDiff.SameRuntimeIs` | service/controller/controller.go:483-495 | Running credentials agree exactly when nothing but the two limits was changed. |
| `UserDiff.AdditionsAre` | service/controller/controller.go:505-522 | For all lists, a user is added exactly when its UID is new or more than the two limits of the last old record of it changed. |
| `UserDiff.RelimitsAre` | service/controller/controller.go:519-521 | For all lists, a user is re-limited exactly when one of the two limits of that record changed and nothing else did. |
| `UserDiff.LimitChangeOnly` | service/controller/controller.go:497-531 | With unique UIDs, a mere limit change neither removes nor adds the user. |
| `UserDiff.DeletedIff` | service/controller/controller.go:505-528 | For all lists, also with repeated UIDs, an old record is removed exactly when its UID is gone or it is the last of its UID and a new record differs from it in more than the limits. |
| `UserDiff.SurvivesIff` | service/controller/controller.go:483-531 | With unique UIDs, an old user is kept exactly when the new list has it with nothing but its limits changed. |
| `Sync.IncrementalCovers` | common/limiter/limiter.go:76-124 | Whatever limits are in force, automatic ones included, and whatever else is stored, deleting and then updating leaves changed users of the new list with their own limits and all others as they were. |
| `Sync.IncrementalKeys` | common/limiter/limiter.go:76-124 | The keys afterwards are those of the new list and those that were stored without being on the old one. |
| `Sync.IncrementalKeeps` | common/limiter/limiter.go:76-124 | Where only the old list's users were stored, exactly the new list's users are. |
| `Sync.SyncedMap` | common/limiter/limiter.go:76-124 | The limiter's two operations have that effect on its user map and keep its invariant. |
| `Sync.IncrementalEqualsRebuild` | common/limiter/limiter.go:61-124 | In particular the user map built from the old list becomes the one built from the new list, also for users whose key stays while credentials change. |
| `Sync.AdmissionEqualsRebuild` | app/mydispatcher/user_lifecycle.go:53-75 | Retiring and then registering takes the inbound's admission set to the keys of the new list, and other inbounds keep theirs. |
| `Sync.DismissEffect` | app/mydispatcher/user_lifecycle.go:65-75 | Dismissing a list removes exactly its keys from admission. |
| `Sync.AdmitEffect` | app/mydispatcher/user_lifecycle.go:53-63 | Admitting a list adds exactly its keys. |
| `NodeMonitor.Node.constructor` | service/controller/controller.go:99-119 | After a start the admitted keys and the limits are those of the first list. |
| `NodeMonitor.Node.SyncUsers` | service/controller/controller.go:309-351 | The user branch of the node monitor is a run of the lifecycle system and ends with the new list published, admission equal to its keys, and the limits in force kept for unchanged users, also beside stale entries. |
| `NodeMonitor.PassVisitsEveryRuntime` | service/controller/controller.go:564-633 | With admission in step with the list, a settled pass over the list and the retiring users has drained both counters of every key of the inbound and every retired key that owns a runtime. |
| `NodeMonitor.Node.VisitsEveryRuntime` | service/controller/controller.go:564-571 | The same from the state the node monitor keeps between operations. |
| `AutoSync.NoStaleEntries` | service/controller/controller.go:586-591 | Throughout a run the limiter knows exactly the users of the list, if and only if no push of a released or limited user is for a key that is not on the list. |
| `AutoSync.StaleStays` | service/controller/controller.go:497-531 | While its user is off the list, a stale entry survives every step, panel updates included. |
| `AutoSync.StaleRun` | service/controller/controller.go:576-591 | A user is limited, removed by the panel and released, and stays in the limiter. |
| `AutoSync.StepAgrees` | service/controller/controller.go:634-638 | A step keeps the limiter equal to the list overlaid by the automatic limits exactly when what it writes is what the list calls for. |
| `AutoSync.LimitsAgree` | service/controller/controller.go:533-542 | The same equivalence over whole runs, with any panel updates in between. |
| `AutoSync.ListedPushesFit` | service/controller/controller.go:573-638 | Limiting and releasing users who are still listed unchanged always keeps that equality. |
| `GlobalDevices.ReserveMeans` | common/limiter/global_cache.go:32-54 | A reservation only adds, holds the address exactly when accepted, and refuses exactly when a positive limit is used up. |
| `GlobalDevices.ScriptExpiry` | common/limiter/global_cache.go:47-50 | When the stored map runs out, by the clock alone: an accepted call with an expiry restarts it for just so long, a refusal or a known address without one leaves it, and no call touches another key. |
| `GlobalDevices.RedisServer.ReserveScript` | common/limiter/global_cache.go:25-55 | The script's status, address map, stored value and expiry are those of the specification. |
| `GlobalDevices.LayeredCache.ReserveLocal` | common/limiter/global_cache.go:179-214 | Without Redis, the same decision and map from the live local entry. |
| `GlobalDevices.LayeredCache.GetLocal` | common/limiter/global_cache.go:216-228 | Answers from the live entry; dropping an expired one is invisible to later readers. |
| `GlobalDevices.LayeredCache.SetLocal` | common/limiter/global_cache.go:230-250 | Stores the entry; the sweep at every 256th write is invisible to later readers. |
| `GlobalDevices.LayeredCache.ReserveIP` | common/limiter/global_cache.go:139-177 | Decides by the script, caches only an accepted reply, drops the entry on a refusal, and leaves it on an error. |
| `GlobalDevices.LayeredCache.GlobalLimit` | common/limiter/limiter.go:246-259 | Rejects only on a decision; an error lets the connection through; the address is reserved as the script or the local path does. |
| `GlobalDevices.GetSetReserve` | common/limiter/limiter.go:260-295 | The locked get/set path makes the same decision and stores the same map; a failing read lets the connection through and a failing write changes nothing. |
| `GlobalDeviceRuns.DeviceBound` | common/limiter/global_cache.go:25-55 | For any interleaving of processes, lost and delayed replies, a map whose key carries a positive limit holds at most that many addresses. |
| `GlobalDeviceRuns.AcceptedPersists` | common/limiter/global_cache.go:47-50 | Every accepted call finds its address, and all it was shown, in Redis until the shortest configured expiry has passed, and forever without expiries. |
| `GlobalDeviceRuns.ForgottenAfterExpiry` | common/limiter/global_cache.go:25-55 | In every run, a key is there until the expiry has passed since the last call about it and not longer; then its addresses are forgotten and a new one is accepted. |
| `GlobalDeviceRuns.GrowsUntilExpiry` | common/limiter/global_cache.go:25-55 | Under any expiries, a map only grows and keeps its UIDs as long as its key is not seen expired. |
| `GlobalDeviceRuns.SubsetWhilePresent` | common/limiter/global_cache.go:164-176 | For any expiries, from its script run on, a snapshot stays a subset of the shared map throughout a run if and only if its key never runs out on the way. |
| `GlobalDeviceRuns.SnapshotSubset` | common/limiter/global_cache.go:164-176 | In particular every process-local snapshot is a subset of the shared map while the expiry counted from its script run lasts. |
| `GlobalDeviceRuns.LateSnapshot` | common/limiter/global_cache.go:230-234 | A run in which a late reply is kept past that expiry and shows an address Redis lacks. |
| `UserListCache.APIClient.FetchUserListLocked` | api/v2board/v2board.go:231-292 | Tag and list are replaced together on a full answer and by nothing else. |
| `UserListCache.APIClient.BuildOrReuse` | api/v2board/v2board.go:413-452 | Port and cipher of the node are those of the first user of a non-empty list, and otherwise those of the last such node. |
| `UserListCache.APIClient.FetchSSNodeResponse` | api/v2board/v2board.go:397-411 | Fetch, build, and park the list for the next user request; a failure parks nothing. |
| `UserListCache.APIClient.GetUserList` | api/v2board/v2board.go:205-226 | A parked list is answered first and only once, otherwise the panel is asked. |
| `UserListCache.ValidatorNamesCachedList` | api/v2board/v2board.go:245-292 | With an honest panel, in any order of calls, a non-empty validator names the cached list, and the cached list is what the panel last showed. |
| `UserListCache.FailureChangesNeither` | api/v2board/v2board.go:249-292 | In every run, validator and list are those of the last request that was answered in full, whatever failed, was unchanged or was parked since. |
| `UserListCache.NoChangeIsTrue` | api/v2board/v2board.go:205-226 | After orderly calls, "users no change" means that the list last delivered is the panel's list at that fetch. |
| `UserListCache.DisorderLosesAChange` | api/v2board/v2board.go:397-411 | After any honest run, a call that is not orderly can be continued, by an honest panel whose list does not change, to a false "no change". |
| `UserListCache.LostChangeRun` | api/v2board/v2board.go:397-411 | From the start, two node requests and a user request end in "no change" with nothing delivered. |
| `UserListCache.ControllerHearsEveryChange` | service/controller/controller.go:230-248 | The controller's node-then-users order is orderly, so its "no change" answers are all true. |
| `UserListCache.NodeInfoFromLatestList` | api/v2board/v2board.go:397-452 | In that order, port and cipher of the Shadowsocks node are always those of the first user of the latest non-empty list. |
| `UserListCache.FullAnswerIsDelivered` | api/v2board/v2board.go:205-226 | A list answered in full is delivered, at once or by the user request after the node request. |
| `Sniffing.CachedReader.Cache` | app/mydispatcher/default.go:85-101 | A peek delivers nothing, adds just what arrives to the cache, and shows as much of it as a buffer holds, a prefix of the undelivered bytes. |
| `Sniffing.CachedReader.Read` | app/mydispatcher/default.go:103-135 | Cached bytes first, then just the next chunk that arrives; what is read plus what remains is what remained before, and the end is only reported when nothing remains. |
| `Sniffing.CachedReader.Detach` | app/mydispatcher/default.go:154-166 | The fallback reader stands for exactly the undelivered bytes. |
| `Sniffing.ReplayReader.Read` | app/mydispatcher/default.go:69-76 | Replays the cached bytes first and then the connection, losing none. |
| `Sniffing.Play` | app/mydispatcher/default.go:85-152 | For any mix of peeks, reads and takes, delivered plus undelivered bytes are the original stream and every peek is a prefix of what was undelivered. |
| `Sniffing.Drain` | app/mydispatcher/default.go:69-76 | Reading the fallback to its end terminates and yields the whole stream. |
| `Sniffing.Sniff` | app/mydispatcher/default.go:600-622 | The result for every course of arrivals and cancellations: the verdict on the first of two payloads that tells, and the stream left as it was. |
| `Sniffing.GetUserIO` | app/mydispatcher/default.go:250-289 | A reference is taken exactly when a flow is returned for a known user. |
| `Sniffing.DispatchDirect` | app/mydispatcher/default.go:740-826 | Every outcome returns a reader for the very stream given; without a link the flow's reference is back, with one it is held once; exactly which outcomes link and which are errors. |
| `Rate.ChunksMean` | app/mydispatcher/default.go:210-223 | Every byte count splits into chunks of one to burst bytes that add up to it, as few as possible. |
| `Rate.Acquire` | app/mydispatcher/default.go:200-225 | The loop reserves exactly those chunks at one instant and reports the longest delay; without a usable bucket it fails or passes as the code does. |
| `Rate.WaitRateLimit` | common/limiter/rate.go:77-96 | The loop waits for exactly those chunks in turn; if a wait is given up, exactly the chunks before it have been taken. |
| `Rate.ReserveAllClosed` | app/mydispatcher/default.go:208-224 | Any split reserved at one instant takes all its bytes and is ready after the missing tokens' delay. |
| `Rate.WaitAllClosed` | common/limiter/rate.go:85-94 | Waiting for any split ends at that same moment. |
| `Rate.ThroughputBounded` | common/limiter/rate.go:70-96 | However the bytes are split, in no time do more pass than the burst and what the rate allows. |
| `Rate.NoNeedlessWait` | common/limiter/rate.go:77-96 | With the tokens there the bytes pass at once, and otherwise after just the time the missing ones take. |
| `Rate.ChunkingTransparent` | common/limiter/rate.go:77-96 | For every byte count both loops are ready after max(0, (bytes - tokens) / rate), and from then on the bucket's level is the same. |
| `AutoLimit.AutoLimiter.Unlock` | service/controller/controller.go:574-592 | Removes and returns, once each, exactly the entries whose end has passed. |
| `AutoLimit.AutoLimiter.Observe` | service/controller/controller.go:603-627 | One sample's effect on warnings and limits, and the slowed record pushed for a newly limited user. |
| `AutoLimit.AutoLimiter.Pass` | service/controller/controller.go:573-627 | Release then samples; released users are those past their end and every newly limited user is slowed. |
| `AutoLimit.OverIs` | service/controller/controller.go:605-608 | A sample is over exactly when, in one of the two directions, more bits moved than the limit allows in a period. |
| `AutoLimit.LimitedExactly` | service/controller/controller.go:605-620 | After every run, a sample limits a user exactly when it completes max(WarnTimes, 0) + 1 such samples in a row among those taken while unlimited since the last limit; the limit then lasts the configured minutes. |
| `AutoLimit.SlowedIs` | service/controller/controller.go:540-541 | The pushed record is the user's own with the configured speed in bytes per second. |
| `AutoLimit.WarnedNotLimited` | service/controller/controller.go:533-542 | The warned and the limited stay disjoint, and each limited key carries its original speed. |
| `AutoLimit.LimitLasts` | service/controller/controller.go:578-584 | A limit stands unchanged through every pass up to its end, and the first pass strictly after the end removes it. |
| `AutoLimit.Disabled` | service/controller/controller.go:573-606 | With the feature off nobody is warned or limited. |
| `AutoLimit.PassIsRun` | service/controller/controller.go:573-627 | The controller's pass is a run of the steps the statements above quantify over. |
| `Shutdown.RunInv` | service/controller/controller.go:171-217 | Every interleaving keeps mutual exclusion, exact wait groups, the closed flag and the tasks' switches. |
| `Shutdown.NothingRunsWhenClosed` | service/controller/controller.go:190-217 | From the return of `Close` until the next `Start` reopens the monitors, no monitor body executes, no task is on and no launcher is left. |
| `Shutdown.OpenMonitorRuns` | service/controller/controller.go:207-217 | While the monitors are open, a caller that gets the lock executes its body by its own steps and is counted. |
| `Shutdown.ClosedMonitorLeaves` | service/controller/controller.go:208-212 | While they are closed, it returns without executing. |
| `Shutdown.TasksAreRun` | third_party/xray-core/common/task/periodic.go:26-70 | A launcher switches its task on and runs it, and a timer runs its task exactly when it is on. |
| `Shutdown.MainMovesOn` | service/controller/controller.go:190-205 | Starting and closing wait for exactly what they have to: the lock, the launchers, the monitor bodies. |
| `Shutdown.WaitGroupsExact` | service/controller/controller.go:176-215 | Both wait groups equal the number of threads inside them, so none goes negative. |
| `Rules.Manager.UpdateRule` | common/rule/rule.go:27-41 | What is in force compares equal to the new list; an empty list removes the tag. |
| `Rules.SameRuleList` | common/rule/rule.go:43-62 | True exactly when identifiers and pattern texts agree position by position. |
| `Rules.Manager.Detect` | common/rule/rule.go:76-113 | Rejects exactly when a rule in force matches, and records the first match unless it is a local rule or the key has no UID. |
| `Rules.Manager.GetDetectResult` | common/rule/rule.go:64-74 | Hands out every recorded hit exactly once and forgets it. |
| `Rules.RunMeans` | common/rule/rule.go:27-113 | In every run, rules and hits are those of a manager that always stores the latest list. |
| `Rules.RejectsIffLatestMatches` | common/rule/rule.go:76-91 | After every run, a destination is rejected exactly when some rule of the latest list matches. |
| `Rules.RecordsPrintedUid` | common/rule/rule.go:92-104 | The UID recorded for a hit is the one printed into the key, whatever separators the email holds. |
| `UserKey.AtoiItoa` | common/limiter/limiter.go:315-326 | Parsing undoes printing for every 64-bit integer. |
| `UserKey.UidOfKey` | service/controller/userbuilder.go:166-168 | The UID read back from a key is the one printed into it, even if the email holds separators. |
| `UserKey.UidOfAny` | common/rule/rule.go:93-102 | For any text the UID is the number after the last separator, and there is none without one. |
| `UserKey.AtoiAccepts` | common/rule/rule.go:98-101 | Only an optional sign and digits are a number. |
| `UserKey.TagOfKey` | service/controller/userbuilder.go:166-168 | A key gives back its tag if and only if the tag holds no separator. |
| `UserKey.KeyInjective` | common/limiter/limiter.go:315-326 | Under one tag, equal keys mean equal email and UID. |
| `UserKey.GlobalKeyDetermines` | common/limiter/limiter.go:250-251 | Two reservations share a key if and only if limit, email and UID agree, whatever their nodes. |

## Left out

- Tags with the separator `|`: registration and retirement are modelled for tags without it, so that a key determines its inbound; a tag is printed from a node type, a listen address and a port.
- Overflow of byte counters, time stamps and the speed threshold: these are unbounded integers here.
- A registration or retirement of several users holds one lock in the program; the model lets other threads in between users, which only adds runs.
- The compare-and-swap loop of a runtime's release is one atomic step.
- Several controllers on one dispatcher, and starting a controller twice without closing it.
- Recovery after a failed handler call in the node monitor, and the branch taken when the node itself changed.
- NodeMonitor.Node.SyncUsers: states the cycle for lists with unique UIDs and handler calls that succeed.
- UserDiff.SurvivesIff: speaks of lists with unique UIDs, as do Sync.IncrementalCovers, Sync.IncrementalKeys, Sync.IncrementalKeeps, Sync.IncrementalEqualsRebuild and Sync.AdmissionEqualsRebuild; for repeated UIDs only the three difference lists are stated.
- LimiterService.Service.GetOnlineDevice: is one step in its own contract; the critical sections it consists of are steps of the limiter's runs.
- A map entry replaced in the middle of an iteration of the limiter or the rule manager is not modelled.
- GlobalDevices.GetSetReserve: sees the cache through two calls that may fail, not the layers of the cache behind them.
- GlobalDeviceRuns.AcceptedPersists: assumes one clock for all processes and expiries that are all absent or all at least a common bound.
- Rate.WaitRateLimit: takes a wait that is given up to return its tokens, as an exact bucket does when nobody else uses it.
- Rate.ChunkingTransparent: is about an exact bucket over real numbers that nobody else uses; rounding is not modelled.
- Sniffing.Sniff: takes the content sniffers as a function of the payload and leaves the metadata result out.
- Interrupting a reader, which drops its cached bytes.
- AutoLimit.AutoLimiter.Pass: returns the lists it pushes; AutoSync joins the pushes with the limiter's user map, one user or one release at a time, and not with buckets and windows.
- Liveness: that a thread which can move is scheduled, and that a pass comes round.
- Regular expressions, JSON, msgpack and HTTP: patterns are an uninterpreted match on their text, messages are values.
- The clock, the network and the panel's answers are parameters or steps.
- Panel clients other than the cached user list, inbound and outbound builders, certificates, system status, start-up and configuration, which add no state worth proving.
