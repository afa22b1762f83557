# Verification of the workspace operator

This project models the parts of the workspace operator and its API server whose correctness
depends on many steps at once, and proves properties of the model with Dafny's verifier.

A *Workspace* is a custom resource. The operator keeps a Deployment for it, scales that to zero
when the Workspace is stopped or has been idle for longer than its timeout, and reports a
phase. The API server wakes, stops and edits Workspaces, and answers list requests
from a view that it builds from watch events.

- **The lifecycle protocol** (`Lifecycle`, `Protocol`, `Convergence`, `Timestamps`, `Phases`, `Timing`, `Settling`, `Sleep`,
  `NoCrash`, `Effects`, `Limits`, `LifecycleObjects`). One Workspace and its Deployment with their whole histories, two caches that
  lag and skip versions, watch events with the operator's two filters, a queue with a dirty bit,
  backoff and a requeue timer, all writers with their fetch and send as separate steps, and a
  clock. Everything is proved for all runs. `LifecycleObjects` has the closures in their
  imperative form.
- **The materialized view** (`Snapshot`, `ListQuery`, `WorkspaceCache`, `Debounce`, with `Sorting` and `Text`). The
  indexes, the queries, the page window, and the lock sections in every interleaving.
- **The phase metrics** (`Metrics`). Incremental counters against recounts, and the high-water mark.
- **The builders** (`Volumes`, `DeploymentSync`, `Egress`, `EgressRules`). Volume names, the field-by-field update, and
  the deduplicated egress rules with their meaning as a NetworkPolicy.
- **The shared policy** (`SharedPolicy`). Its lifetime over all Workspaces of a namespace.
- **Two small pieces** (`Csv`, `K8sName`).

`dafny verify dfyconfig.toml` checks everything.

## Where the code and its promises part

The model follows the code. These are proved, each with the exact condition or with a run:

- The status half of a reconcile dereferences a missing lastActiveTime if the second read of the Workspace
  does not find the one that the same reconcile has just filled in (`NoCrash.StatusHalfCrashesIff`,
  `NoCrash.StaleRefetchCrashes`).
- The stored phase can stay Running after a stale read (`Limits.StaleReadLeavesRunning`): the convergence of the
  Deployment does not extend to the phase, and `Phases.PhaseRightIff` says when it is right.
- A Deployment whose creation and deletion fall into one gap of the watch is not created again
  (`Limits.MissedDeletion`); `Convergence.DeliverFreshIff` says which deliveries do harm.
- Sleep is absorbing neither for a reconcile with an older spec nor for one that is in flight
  (`Limits.StaleSpecWantsReplica`, `Limits.InFlightStartsNewWindow`); `Sleep.SleepIsAbsorbingIff` says when it is.
- Idle expiry is watched in the phase Running only (`Limits.StartingIsNotBounded`).
- A stored time loses its fraction of a second, so the requeue may come almost a second after the
  stored window has ended (`Timing.RequeueIsDue`), and does (`Limits.RequeueIsLate`).
- Rebuilds of the view may overlap and publish out of order (`Debounce.OverlapLeavesStale`), as
  `docs/code_review_task_4.2_2.1_5.2.md:202` notes; `Debounce.QuiescentUpToDateIff` says when that does harm.
- Different user IDs can share one Workspace (`K8sName.ShareNameIff`).
- The bound on the page number keeps a request from a panic only up to a configured page size of 2^33 + 8
  (`ListQuery.PanicsIff`).
- The handler's documentation calls pageSize capped; an omitted one is not (`ListQuery.DefaultIgnoresCap`).
- A reset does not touch the gauge of Failed (`Metrics.Tracker.ResetAll`, `Metrics.FailedGaugeGoesStale`).
- A namespace exception whose ports are all out of range opens all ports, where
  `api/v1alpha1/workspace_types.go:257-258` gives 1 to 65535 as the valid range
  (`EgressRules.OutOfRangePortsOpenAll`).
- Waking one representative is not always enough to bring a deleted policy back, contrary to
  the comment at `internal/controller/workspace_controller.go:2111` (`SharedPolicy.RepresentativeMayBeGone`).
- An update keeps a rolling-update setting next to the type Recreate (`DeploymentSync.UpdateAgreesWithCreate`).

## Model

| member | source | states |
|---|---|---|
| `Convergence.DeploymentConverges` | internal/controller/workspace_controller.go:875-1367 | In every run, however stale the two caches were and whatever updates were dropped: once nothing is queued or running and the caches have caught up, the stored Deployment exists, created again if it was deleted; its template has the fields of the stored spec and the stored labels, and it has no replicas if the Workspace is stopped or its window was over at the clock reading of the last reconcile, and otherwise one; provided that from some moment on at which the Deployment was still to be read, no delivery hides a life of it that matters. |
| `Convergence.DeliverFreshIff` | internal/controller/workspace_controller.go:1872-1905 | A delivery keeps the Deployment on its way to what is wanted if and only if it tells of the lives it passes over, or the Deployment will be read again, or news of it is coming, or no reconcile is about to send and what it delivers is known to be behind or already as wanted. |
| `Convergence.TellsIffFresh` | internal/controller/workspace_controller.go:1872-1905 | The stretches of a run with that proviso are exactly those throughout which the Deployment stays on its way to what is wanted. |
| `Convergence.ConvergedIffFresh` | internal/controller/workspace_controller.go:1168-1367 | In a settled state of any run the Deployment has those fields, labels and replicas if and only if it is on that way still. |
| `Limits.MissedDeletion` | internal/controller/workspace_controller.go:1872-1905 | Without that proviso: the filter does not tell one life of the Deployment from another, and after a gap that swallows a creation and a deletion all is quiet while the wanted Deployment does not exist. |
| `Convergence.SettledState` | internal/controller/workspace_controller.go:1821-1907 | What the two watches drop cannot matter for the Workspace: in a settled state the version the reconcile worked with agrees with the stored one in spec, labels and lastActiveTime; and the Deployment is as that reconcile wanted it if and only if it is on its way there still. |
| `Convergence.SendSettles` | internal/controller/workspace_controller.go:1168-1342 | The create-or-update half leaves the cached Deployment as wanted, or known to be behind, or with news on its way, also when it decided on an old version or was allowed to skip the write. |
| `Convergence.ZeroOnlyWhenIdleOrStale` | internal/controller/workspace_controller.go:1350-1367 | A reconcile that is about to scale to 0 although the stored Workspace asks for a replica has read an old version, and the change it missed is queued, on its way, or not yet in the cache. |
| `Convergence.WritersAreSerializable` | cmd/api-server/main.go:540-668 | In every interleaving of fetches and sends by stop, wake-up, create/update, edits, backfill and reconcile, the stored Workspace is the initial one with the accepted closures applied one after another in acceptance order, and acceptance is final. |
| `Convergence.NoWriteReverted` | internal/controller/workspace_controller.go:419-436 | After any run a field holds what the last accepted write that is there to set it left behind: no write reverts a field that another one set. |
| `Lifecycle.LastWriterWins` | cmd/api-server/main.go:928-935 | For any log of writes, the value of a field is the one after the last write that assigns the field. |
| `Lifecycle.WriteFrame` | cmd/api-server/main.go:974-1003 | A write changes none of the fields it is not there to set. |
| `Lifecycle.AssignsIffCanChange` | cmd/api-server/main.go:540-1003 | The fields a write is there to set are exactly those it changes for some stored Workspace. |
| `Lifecycle.SpecWritesSet` | cmd/api-server/main.go:540-1003 | What a write leaves in the fields of spec and labels that it is there to set: stopped or not, each field that was passed, the label; and the generation goes up by one exactly when the spec changes. |
| `Lifecycle.StatusWritesSet` | internal/controller/workspace_controller.go:234-436 | The same for the status: a wake-up leaves its clock reading without the fraction, filling in leaves alone what is there, and of two times the later one stays. |
| `Lifecycle.NotSentIffNoChange` | cmd/api-server/main.go:540-648 | The closures that look before they send leave it exactly when they would change nothing. |
| `Lifecycle.EvaluateMeaning` | internal/controller/workspace_controller.go:314-405 | What the status half decides, aspect by aspect: the four cases behind the phase, the name of the Pod, a new window on moving to Running from a phase without activity, startedAt kept while running and otherwise the time of the Pod or the clock, and the requeue at the end of the window. |
| `Effects.CallShows` | cmd/api-server/main.go:540-1003 | In every run, right after a call that had fetched the latest version the stored Workspace has what the call is there to set: stopped, resumed, woken, edited, or with every field of the request. |
| `Effects.FieldStays` | cmd/api-server/main.go:540-1003 | From then on a field stays as it is until a write is accepted that is there to set it. |
| `Effects.StopScalesToZero` | cmd/api-server/main.go:928-935 | So a Workspace that is stopped, with no later write to that field, has its Deployment scaled to 0 once all has settled. |
| `Effects.WakeUpIsStored` | cmd/api-server/main.go:996-1003 | After an accepted wake-up the stored lastActiveTime is less than a second before its clock reading, or later, for the rest of the run. |
| `Effects.WokenHasReplica` | cmd/api-server/main.go:996-1003 | A settled state within the window after an accepted wake-up wants one replica unless the Workspace is stopped, and the Deployment has it unless a delivery has hidden a life of it. |
| `Effects.DeployIsSent` | internal/controller/workspace_controller.go:1168-1342 | The create-or-update half writes at most once: it creates a missing Deployment, leaves alone one that is as wanted, changes the version it has read, keeping what the cluster reports, or is refused and starts over. |
| `Effects.JudgeDecides` | internal/controller/workspace_controller.go:340-384 | A status half that comes to a decision takes the given Pod and clock: the name, the new window, and startedAt. |
| `Effects.SkippedIsSame` | internal/controller/workspace_controller.go:407-410 | It leaves the write out only if phase, name, links and startedAt are what it had read. |
| `Effects.DecisionIsStored` | internal/controller/workspace_controller.go:419-436 | An accepted write makes the decided phase, name and links the stored ones, and keeps the later of the stored and the decided times. |
| `Effects.InitIsStored` | internal/controller/workspace_controller.go:234-252 | An accepted filling-in leaves Pending for a missing phase and the clock for a missing lastActiveTime, and nothing else. |
| `Effects.LabelSkipped` | internal/controller/workspace_controller.go:260-265 | The reconcile goes on without setting the label only if it is switched off, the environment gives no value, or the label has it. |
| `Effects.LabelIsStored` | internal/controller/workspace_controller.go:260-280 | Otherwise it stores the value of the environment it has read, if nobody else has written since. |
| `Convergence.GenerationTellsSpec` | internal/controller/workspace_controller.go:1821-1840 | Along the stored versions the generation never goes back, and equal generations mean equal specs. |
| `Timestamps.TimestampsAscend` | internal/controller/workspace_controller.go:234-252 | Over any run neither stored lastActiveTime nor stored startedAt moves backwards or returns to nil; a reconcile that read an old value never undoes a wake-up. |
| `Timestamps.NoLostWakeup` | cmd/api-server/main.go:974-1003 | In a settled state the last reconcile wanted 0 replicas if and only if the Workspace is stopped or its idle window, counted from the stored lastActiveTime, was over at that reconcile, which is no older than that time; and unless a delivery has hidden a life of the Deployment, the stored Deployment has the wanted replicas. |
| `Timestamps.WriteAscends` | internal/controller/workspace_controller.go:378-436 | Each single write, with a clock reading that is not in the future, moves both timestamps forward or leaves them, and keeps them in the past. |
| `Timestamps.StartedAtIsLatest` | internal/controller/workspace_controller.go:470-478 | The stored startedAt is the latest of its initial value and everything that accepted writes proposed, in whatever interleaving they were accepted. |
| `Timestamps.LatestOfIsMaximum` | internal/controller/workspace_controller.go:466-478 | That latest value is one of the values and not before any of them. |
| `Timestamps.OrderDoesNotMatter` | internal/controller/workspace_controller.go:466-478 | The outcome is the same for every order of the same proposals. |
| `Timestamps.StoredStatusOk` | internal/controller/workspace_controller.go:326-384 | If it holds at first, every stored version has an empty podName outside Running, a startedAt while Running, and never the phase Failed. |
| `Timing.RequeueIsDue` | internal/controller/workspace_controller.go:390-405 | However stale the reads were: while a timed run is settled with the phase Running and a parsable timeout, and the last reconcile had a status to write or had read a version with that phase, a requeue is armed for less than a second after the end of the idle window, or for at most one second after the last reconcile, and the last reconcile was within the window. |
| `Timing.IdleScalesToZero` | internal/controller/workspace_controller.go:386-405 | However stale the reads were: more than a second after the end of the stored window a settled timed run has not decided on Running, and its Deployment, if as wanted, has 0 replicas wanted if and only if the last reconcile did not decide on Starting; unless a delivery has hidden a life of the Deployment it is as wanted. |
| `Timing.FreshRequeueIsDue` | internal/controller/workspace_controller.go:390-405 | If every read of the Workspace finds the latest version, and no delivery has hidden a life of the Deployment, the requeue is due whenever the stored phase is Running. |
| `Timing.RunningEndsByExpiry` | internal/controller/workspace_controller.go:386-405 | In the same runs, more than a second after the end of the window a settled Workspace is not stored as Running, and its Deployment has 0 replicas wanted, whether or not some are still ready, if and only if the phase is not Starting. |
| `Phases.PhaseRightIffDecided` | internal/controller/workspace_controller.go:326-376 | In a settled state of any run, after a reconcile that could read its Deployment, with the Deployment as wanted: the stored phase is the one that the stored spec, the wanted replicas and the ready replicas imply if and only if it is the one the reconcile decided on. |
| `Phases.PhaseRightIff` | internal/controller/workspace_controller.go:326-436 | In the same states the stored phase is the implied one if and only if that reconcile had a status to write or had read a version with the stored phase. |
| `Effects.SettledPhase` | internal/controller/workspace_controller.go:332-376 | Under these conditions the stored phase is Stopped for a stopped Workspace, and else Sleeping without replicas, Running with a ready one, and Starting without. |
| `Phases.ExistsIffFound` | internal/controller/workspace_controller.go:314-334 | In a settled state of any run, with whatever deletions hidden, the Deployment exists if and only if the last status half that could read it found it. |
| `Limits.StartingIsNotBounded` | internal/controller/workspace_controller.go:386-405 | The requeue is armed for Running only: a Workspace whose Pod never becomes ready keeps its replica for any length of time past its window with nothing queued. |
| `Limits.StaleReadLeavesRunning` | internal/controller/workspace_controller.go:1862-1866 | With a stale read the phase can stay Running for good, even if work takes no time, although no replica is ready, no requeue is armed, nothing is queued and both caches have caught up. |
| `Limits.RequeueIsLate` | internal/controller/workspace_controller.go:390-402 | A requeue computed at a clock reading with a fraction of a second comes later than the end of the stored window by exactly that fraction. |
| `Sleep.SleepIsAbsorbing` | internal/controller/workspace_controller.go:332-384 | Once the window is over, no reconcile is in flight, no version from the cached one on to which a reconcile can get asks for a replica and nobody but the operator writes: spec and lastActiveTime stay as they are, and every reconcile wants 0 replicas however many are still ready; after such a reconcile a settled Deployment has 0, unless a delivery has hidden a life of it. |
| `Sleep.SleepCanEnd` | internal/controller/workspace_controller.go:1350-1367 | The other way round: from any idle state in which some version from the cached one on, to which a reconcile can get, asks for a replica, the operator by itself reaches a reconcile that wants one. It cannot get to a version without its label, and to one without its status only past an older one without and one with it. |
| `Sleep.SleepIsAbsorbingIff` | internal/controller/workspace_controller.go:332-384 | So in an idle state after the window the operator by itself never wants a replica again if and only if no version to which it can still get asks for one. |
| `Limits.StaleSpecWantsReplica` | internal/controller/workspace_controller.go:1350-1367 | A reconcile that starts after the stored window has ended, but with the spec from before the window was shortened, still wants a replica. |
| `Limits.InFlightStartsNewWindow` | internal/controller/workspace_controller.go:378-384 | A reconcile that is in flight when the window ends can find its Pod ready and start a new window. |
| `Settling.CanSettle` | internal/controller/workspace_controller.go:225-436 | From every reachable state a settled one can be reached by steps of the operator, the caches and the queue alone, at the same clock reading: what is proved of settled states is never empty. |
| `NoCrash.StatusHalfNeverCrashes` | internal/controller/workspace_controller.go:225-258 | If the read that follows the filling-in finds a lastActiveTime, in whatever version, the idle calculation never meets a missing one. |
| `NoCrash.CrashesIff` | internal/controller/workspace_controller.go:370-405 | Which statuses, specs and Deployments lead to the nil dereference, exactly. |
| `NoCrash.StatusHalfCrashesIff` | internal/controller/workspace_controller.go:225-405 | In every run the status half dereferences nil if and only if the last read of the Workspace found no lastActiveTime and the version it found leads to the idle calculation without starting a new window; and that is never the first read of the reconcile. |
| `NoCrash.StaleRefetchCrashes` | internal/controller/workspace_controller.go:254-258 | If it does not, there is a run that starts with an empty status and a ready Deployment and ends in the nil dereference at the idle calculation. |
| `LifecycleObjects.StatusObject.Judge` | internal/controller/workspace_controller.go:314-405 | The status half as written, with its loop over Pods and its early outcomes, decides what the function Evaluate says, including when it dereferences nil; and it leaves the phase of the case that holds. |
| `LifecycleObjects.StatusObject.MergeFrom` | internal/controller/workspace_controller.go:419-436 | The closure that stores a status leaves the merge of the latest and the desired status: times only move forward. |
| `LifecycleObjects.StatusObject.FillMissing` | internal/controller/workspace_controller.go:235-251 | The init closure fills exactly what is missing and reports a change exactly when something was. |
| `LifecycleObjects.FirstLive` | internal/controller/workspace_controller.go:357-367 | The Pod chosen is the first running one that is not being deleted. |
| `LifecycleObjects.SelectedPod` | internal/controller/workspace_controller.go:351-368 | The Pod that gives name and start time is the first running one that is not being deleted, or else the first. |
| `LifecycleObjects.StatusObject.Wake` | cmd/api-server/main.go:996-1003 | The wake-up closure as written is the write that the protocol knows. |
| `LifecycleObjects.SpecObject.TakeRequest` | cmd/api-server/main.go:540-648 | The field-by-field closure of a create/update request sends the object exactly when the request changes it, and what it sends is the request applied. |
| `LifecycleObjects.SpecObject.ResumeIt` | cmd/api-server/main.go:974-984 | The wake-up closure sends only for a stopped Workspace and clears nothing but the stop. |
| `Snapshot.BuildSnapshot` | cmd/api-server/workspace_cache.go:203-235 | Sorting in place and one pass of appends give the sorted items and three indexes, each of which lists for every non-empty value exactly the offsets a scan finds, as 32-bit numbers. |
| `Snapshot.IndexesExactIff` | cmd/api-server/workspace_cache.go:220-230 | Those are the offsets themselves if and only if no item from the 2^31st on has a value to index. |
| `Snapshot.SortedIsStrict` | cmd/api-server/workspace_cache.go:205-211 | Items with distinct keys come out in strict (namespace, name) order and none is lost. |
| `Snapshot.SortedAscends` | cmd/api-server/workspace_cache.go:205-211 | That order: namespaces ascend, and names within one namespace, by the smaller character where two texts first differ. |
| `Snapshot.SortedIgnoresInputOrder` | cmd/api-server/workspace_cache.go:181-187 | The order of the input, which is the order of map iteration, does not show in the result. |
| `Snapshot.MatchOffsets` | cmd/api-server/workspace_cache.go:244-323 | For every valid view whose offsets fit and every filter, with the sentinels and unknown values, the result is the linear scan in 32 bits, and the number of loop iterations over items is at most the length of the shortest list of the active filters. |
| `Snapshot.ScanMeaning` | cmd/api-server/workspace_cache.go:237-243 | The linear scan has precisely the offsets of the matching items, in strictly increasing order. |
| `Snapshot.MatchingMeans` | cmd/api-server/workspace_cache.go:244-323 | Which items match: all namespaces for an empty text, all, * and _all, and otherwise the given one; the owner and the OA if given. |
| `Snapshot.KeepOfScan` | cmd/api-server/workspace_cache.go:282-298 | Filtering the candidates of one condition by all conditions gives the scan for all of them. |
| `WorkspaceCache.DeletionUndoesUpsert` | cmd/api-server/workspace_cache.go:142-164 | For every pending map: after an update and a deletion the object is not pending if and only if it has a namespace, and then nothing else is lost. |
| `WorkspaceCache.UpsertReplaces` | cmd/api-server/workspace_cache.go:154-164 | An added or updated object replaces what was under its key, and nothing else. |
| `WorkspaceCache.Cache.Upsert` | cmd/api-server/workspace_cache.go:154-164 | The lock section does that. |
| `WorkspaceCache.ImageIsUnique` | cmd/api-server/workspace_cache.go:178-190 | The snapshot of a pending map is its items, each once, in strict order, for every order of iteration. |
| `WorkspaceCache.Cache.Rebuild` | cmd/api-server/workspace_cache.go:178-190 | An undisturbed rebuild clears the timer and publishes a valid, strictly ordered view of exactly the pending items. |
| `WorkspaceCache.Cache.RebuildNow` | cmd/api-server/workspace_cache.go:193-201 | The forced rebuild does the same, whatever timer was recorded. |
| `WorkspaceCache.Cache.ScheduleRebuild` | cmd/api-server/workspace_cache.go:167-174 | A timer is armed if and only if none is recorded, and a recorded one is kept. |
| `WorkspaceCache.Cache.Lookup` | cmd/api-server/workspace_cache.go:116-124 | A single item is found exactly if it is pending under that key. |
| `Debounce.NoChangeDropped` | cmd/api-server/workspace_cache.go:142-201 | In every interleaving of handlers, timers and forced rebuilds each completed change is in some capture or a rebuild is still to capture; a recorded timer always means such a rebuild. |
| `Debounce.CompletedIsCovered` | cmd/api-server/workspace_cache.go:154-174 | From its second lock section on a handler counts as completed for good. |
| `Debounce.PublishedExisted` | cmd/api-server/workspace_cache.go:178-235 | Also when rebuilds overlap, every published view is the image of a pending state that existed: its items, each once, in strict order, with the indexes that the build gives them. |
| `Debounce.QuiescentUpToDateIff` | cmd/api-server/workspace_cache.go:154-201 | Once nothing is under way, the published snapshot is that of the current pending map if and only if every publication after the last capture published the newest capture or left it with another rebuild. |
| `Debounce.LatestStepIff` | cmd/api-server/workspace_cache.go:176-201 | A capture makes good whatever was published before it; any other step leaves the newest capture published or still to come if and only if it was so before and the step is no publication that hides it. |
| `Debounce.ForwardIsSafe` | cmd/api-server/workspace_cache.go:176-201 | Publishing in order is sufficient for that. |
| `Debounce.NoOverlapIsForward` | cmd/api-server/workspace_cache.go:176-201 | Rebuilds that do not overlap publish in order. |
| `Debounce.QuiescentAnswers` | cmd/api-server/workspace_cache.go:154-235 | Under that condition the published view answers every filtered and paged query as filter, sort and slice over the live objects would. |
| `Debounce.ViewHasLastChange` | cmd/api-server/workspace_cache.go:136-235 | Under that condition, when nothing is under way, the view has the live objects: for every key, the object as its last add or update event had it and no other with the key, or none after a deletion. |
| `Debounce.ViewHasOnlyLastChanges` | cmd/api-server/workspace_cache.go:136-235 | And every item of the view is what the last event of its key has added or updated. |
| `Debounce.ChangeSection` | cmd/api-server/workspace_cache.go:142-164 | The first lock section of a handler, run on the object, is the step of the interleaving. |
| `Debounce.ScheduleSection` | cmd/api-server/workspace_cache.go:167-174 | So is the second one. |
| `Debounce.ForceSection` | cmd/api-server/workspace_cache.go:193-201 | So is the cancelling of the timer. |
| `Debounce.CaptureSection` | cmd/api-server/workspace_cache.go:176-190 | So is the capture of a rebuild. |
| `Debounce.PublishSection` | cmd/api-server/workspace_cache.go:203-235 | So are its build and publication. |
| `Debounce.OverlapLeavesStale` | cmd/api-server/workspace_cache.go:176-190 | There is an overlapping run that ends with nothing under way and a view that still lists a deleted Workspace. |
| `ListQuery.Respond` | cmd/api-server/main.go:334-377 | The handler, with wrapping 64-bit arithmetic and for every page size, over any view of up to 2^31 items: it panics exactly where the slice bounds are bad, and otherwise, unless a sum or product overflows, answers with the filtered items and the requested page of them. |
| `ListQuery.ParsePagination` | cmd/api-server/main.go:268-301 | Which requests are refused and with which error, exactly; an accepted page is the number given, or 1, and an accepted page size the number given up to the cap, or 50. |
| `ListQuery.QuotientTruncates` | cmd/api-server/main.go:370-376 | The number of pages is computed with a division that truncates toward zero, also when the sum has overflowed. |
| `ListQuery.WrapKeepsLowBits` | cmd/api-server/main.go:359-376 | Sums and products outside 64 bits keep their low bits. |
| `ListQuery.AcceptableIsAccepted` | cmd/api-server/main.go:281-300 | Everything within those bounds can be requested, with the decimal numerals of the page and the page size. |
| `ListQuery.StartOverflowsIff` | cmd/api-server/main.go:359-362 | The offset of a page stays within 64 bits for every accepted request if and only if the configured maximal page size is at most 2^33 + 8. |
| `ListQuery.PanicsIff` | cmd/api-server/main.go:359-367 | Some accepted request makes the slice expression panic if and only if the configured maximal page size is above 2^33 + 8. |
| `ListQuery.DefaultIgnoresCap` | cmd/api-server/main.go:291-299 | The cap is exceeded exactly when the page size is omitted and the cap is below 50. |
| `ListQuery.PagesPartition` | cmd/api-server/main.go:359-376 | Pages 1 to totalPages make up the whole list, a page is empty exactly if it comes after them, and none is too long. |
| `ListQuery.PageMeans` | cmd/api-server/main.go:359-368 | A page is full unless the list ends in it, and its items are those that stand at its place in the list. |
| `ListQuery.AnswerMeans` | cmd/api-server/main.go:341-357 | An unpaged answer has every matching item as often as the view, and no other. |
| `ListQuery.FilterThenSort` | cmd/api-server/main.go:348-368 | Filtering the sorted items is sorting the filtered ones. |
| `Metrics.Tracker.SetPhase` | internal/controller/metrics.go:177-197 | The counters stay recounts: total and running agree with the map, every gauge but Failed with its label, and the gauge of Failed stays as right or wrong as it was; the high-water mark is the maximum ever reached. |
| `Metrics.Tracker.UnsetPhase` | internal/controller/metrics.go:200-214 | The same for a removal. |
| `Metrics.Tracker.ResetAll` | internal/controller/metrics.go:226-242 | The same for a listing, which the high-water mark survives; all gauges are right afterwards if and only if the gauge of Failed already showed the number of failed ones. |
| `Metrics.Tracker.PublishDerived` | internal/controller/metrics.go:246-256 | The mark is the maximum of all readings, stamped with the clock at the first one that reached it. |
| `Metrics.GaugesAreRecounts` | internal/controller/metrics.go:174-242 | After any sequence of calls every labelled gauge is the number of tracked Workspaces with its phase, and Failed too if the phase never occurs. |
| `Metrics.CountsAddUp` | internal/controller/metrics.go:140-143 | The labelled counts add up to the number of tracked Workspaces. |
| `Metrics.CountMeans` | internal/controller/metrics.go:226-242 | A recount is the number of tracked Workspaces with the phase. |
| `Metrics.MovedKeepsOff` | internal/controller/metrics.go:180-195 | Moving one Workspace between two series changes no gauge relative to its recount. |
| `Metrics.FailedGaugeGoesStale` | internal/controller/metrics.go:234-237 | With the phase Failed a reset leaves the gauge off its recount. |
| `Metrics.PeakIsMaximum` | internal/controller/metrics.go:244-256 | The mark is one of the readings and none is above it. |
| `Metrics.FirstReachedIsFirst` | internal/controller/metrics.go:250-255 | Its time belongs to the first reading that reached it. |
| `Volumes.Build` | internal/controller/workspace_controller.go:943-1124 | The loops with their shared maps and counters declare the volumes and mounts of the numbering by first mention, over the main container and all init containers. |
| `Volumes.BuildKeepsMeaning` | internal/controller/workspace_controller.go:950-1124 | Every mount of every container is the requested one, in the requested order, and its name belongs to exactly one declared volume, whose source is the requested claim, the requested ConfigMap with mode 0755, or the data directory. |
| `Volumes.AskedDataIsMounted` | internal/controller/workspace_controller.go:1015-1022 | For the main container, data directories that are asked for are mounted as asked. |
| `Volumes.DefaultDataIsMounted` | internal/controller/workspace_controller.go:1023-1053 | If none is asked for, the working directory is mounted, and four further directories exactly for images with smanx/opencode in their names. |
| `Volumes.MountsKeepMeaning` | internal/controller/workspace_controller.go:963-1044 | The same for one container at any place in the Pod. |
| `Volumes.VolumeNamesAreDistinct` | internal/controller/workspace_controller.go:943-948 | No two volumes have the same name, the data volume included. |
| `Volumes.EachSourceDeclaredOnce` | internal/controller/workspace_controller.go:950-1022 | Next to the data volume there is exactly one volume for each different claim and each different ConfigMap that any container asks for, with that claim or ConfigMap as its source. |
| `Volumes.VolumesAreNumbered` | internal/controller/workspace_controller.go:943-1000 | The volumes of each kind are named by their number in the order of declaration. |
| `Volumes.LaterNeedsRenameNothing` | internal/controller/workspace_controller.go:1062-1110 | An init container added at the end renames none of the declared volumes. |
| `Volumes.NameOfInjective` | internal/controller/workspace_controller.go:961-962 | Generated names of different kinds or numbers differ. |
| `DeploymentSync.ReconcileDeployment` | internal/controller/workspace_controller.go:1168-1342 | A missing Deployment is created, with owner, selector and container name; one without containers is an error without a write; and any other is written at most once and exactly if it differs. Afterwards every managed field is as the spec asks, and owner, selector, container name and whatever others set are as before. |
| `DeploymentSync.DeploymentObject.Sync` | internal/controller/workspace_controller.go:1230-1330 | The field-by-field comparisons leave the updated Deployment and ask for a write if and only if something was different. |
| `DeploymentSync.UpdateAgreesWithCreate` | internal/controller/workspace_controller.go:1168-1330 | One update makes every managed field what the create path writes and leaves the rest alone; the one exception, exactly, is a rolling-update setting left next to the type Recreate. |
| `DeploymentSync.SecondPassWritesNothing` | internal/controller/workspace_controller.go:1332-1340 | A second pass, and a pass over what was created, finds nothing to write. |
| `DeploymentSync.NoResidue` | internal/controller/workspace_controller.go:1230-1330 | However often the spec changed in between, only its last state shows in the Deployment. |
| `DeploymentSync.PartsDetermine` | internal/controller/workspace_controller.go:1168-1220 | The managed fields and the rest are all there is to a Deployment. |
| `Egress.RuleKey` | internal/controller/workspace_controller.go:1775-1788 | The loops over the selector, in any order of the map, and over the ports give one key. |
| `Egress.TextInAnyOrder` | internal/controller/workspace_controller.go:1776-1780 | The part of the key made from the selector does not depend on the order of iteration. |
| `Egress.KeysTellMeanings` | internal/controller/workspace_controller.go:1774-1788 | Without separators in namespaces and labels, two exceptions have the same key if and only if they have the same trimmed namespace, the same selector and the same multiset of ports. |
| `Text.TrimSpaceCuts` | internal/controller/workspace_controller.go:1788-1796 | Trimming the namespace cuts off spaces only, and all of them at both ends. |
| `Text.AtMostMeans` | internal/controller/workspace_controller.go:1776-1787 | The order of texts: a beginning of the other, or the smaller character where they first differ. |
| `Text.NumeralStandsFor` | internal/controller/workspace_controller.go:1782-1786 | The decimal numeral of a number stands for it. |
| `Egress.EqualsSignCollides` | internal/controller/workspace_controller.go:1778 | With an equals sign in a label key, exceptions with different selectors share a key. |
| `EgressRules.BuildSharedEgressRules` | internal/controller/workspace_controller.go:1689-1748 | The loop with its set of seen keys emits the base rules and, in order, the translation of each exception whose key is new. |
| `EgressRules.PolicyMeaning` | internal/controller/workspace_controller.go:1689-1819 | For every connection, of either version of the address and every protocol: leaving out repeated keys never allows what no exception grants, and if no separators occur the policy allows exactly name lookups, addresses outside the private ranges, and what some exception grants. |
| `EgressRules.TranslatedGrants` | internal/controller/workspace_controller.go:1791-1819 | The translated rule of one exception allows exactly the connections the exception grants, and there is none for an empty namespace. |
| `EgressRules.PublicIsOutsideBlocks` | internal/controller/workspace_controller.go:1704-1722 | The address block without its exceptions is every address of the fourth version outside the five private ranges, by its numbers. |
| `EgressRules.OutOfRangePortsOpenAll` | internal/controller/workspace_controller.go:1810-1817 | An exception is read as its description says, except exactly where ports are listed and all of them are out of range: that opens every port. |
| `EgressRules.CollisionLosesAGrant` | internal/controller/workspace_controller.go:1735-1741 | A collision of keys makes the policy refuse a connection that an exception grants. |
| `SharedPolicy.NoPolicyLeftBehind` | internal/controller/workspace_controller.go:1754-1772 | With overlapping reconciles, lagging caches, failures and outside deletions: whenever all is quiet and no Workspace is live, the policy is gone. |
| `SharedPolicy.LiveIffLastEvent` | internal/controller/workspace_controller.go:146-203 | A Workspace is live if and only if the last event about it was that it is. |
| `SharedPolicy.PolicyIffLive` | internal/controller/workspace_controller.go:146-203 | In the same runs the policy exists if and only if a live Workspace does, provided that whenever a live Workspace leaves the cache while the policy is missing, no event of it is on its way and others are live, another live one is queued or being reconciled. |
| `SharedPolicy.DeliverGuardedIff` | internal/controller/workspace_controller.go:1754-1772 | A delivery keeps the creation due if and only if it meets the proviso. |
| `SharedPolicy.OrderlyIffGuarded` | internal/controller/workspace_controller.go:146-203 | The runs with that proviso are exactly those in which the creation of a missing policy is always due while a live Workspace is known. |
| `SharedPolicy.RepresentativeMayBeGone` | internal/controller/workspace_controller.go:2111-2137 | Without that proviso the policy can be lost for good from every quiet state with two live Workspaces: the one Workspace that its deletion wakes may itself be gone. |
| `SharedPolicy.WholePolicyIffLive` | internal/controller/workspace_controller.go:1613-1684 | With uninterrupted reconciles that see the policy as it is and no outside deletion, no proviso is needed, however far the cache of Workspaces lags. |
| `SharedPolicy.WholeIsSteps` | internal/controller/workspace_controller.go:1628-1649 | An uninterrupted reconcile is a sequence of the single steps. |
| `SharedPolicy.OtherIsListed` | internal/controller/workspace_controller.go:1760-1765 | The loop over the listed Workspaces finds out whether a live one other than the one that is gone is left. |
| `SharedPolicy.MapPolicyToWorkspaces` | internal/controller/workspace_controller.go:2116-2137 | At most one Workspace is woken: the live one with the smallest name. |
| `Csv.RoundTrip` | web/portal/src/lib/utils.ts:95-108 | Reading a printed document by section 2 of RFC 4180, after the byte order mark, gives back header and rows for all field contents if and only if the header and every row have a field. |
| `Csv.QuotedIffSpecial` | web/portal/src/lib/utils.ts:95-101 | Quotes are used exactly for texts with a quote, a comma or a line break; any other text is printed as it is. |
| `Csv.FieldReads` | web/portal/src/lib/utils.ts:95-101 | A printed field reads back as itself before a comma, a line break or the end. |
| `K8sName.WorkspaceNameIsLabel` | cmd/api-server/main.go:1040-1049 | For every user ID the name of the Workspace is a lower-case host label of 2 to 63 characters that starts with ws and does not end in a hyphen. |
| `K8sName.UnchangedIffShaped` | cmd/api-server/main.go:1036-1049 | A name is left alone if and only if it already is such a label or empty. |
| `K8sName.RunBecomesHyphen` | cmd/api-server/main.go:1038-1043 | A run of characters that are not allowed becomes one hyphen, and plain text before it stays. |
| `K8sName.SanitizeIdempotent` | cmd/api-server/main.go:1040-1049 | Sanitizing twice is sanitizing once. |
| `K8sName.ShareNameIff` | cmd/api-server/main.go:1036-1049 | Two user IDs share one Workspace if and only if what lower-casing and replacing make of them agrees in the first 60 characters, where a missing character counts as a hyphen. |
| `K8sName.UnderscoreCollides` | cmd/api-server/main.go:1036-1049 | IDs that differ in an underscore for a hyphen, anywhere in whatever text, share one. |

## Left out

- Deletion of the Workspace and legacy finalizers in the lifecycle protocol, which follows one Workspace that stays; deletions of Workspaces are part of `SharedPolicy`.
- Creation of the Deployment by anyone but the operator.
- Reconciles of one Workspace by two operator processes at a time: the queue hands a key to one worker.
- The number of attempts of a retry: an attempt that is given up is a closure that sends nothing, or a reconcile that fails.
- PVC name and endpoint are one field, `links`; the spec other than `stopped` and `idleTimeout` is a map from field names to text, in which an absent list and an empty one are the same.
- `spec.idleTimeout` by the result of parsing it, which is taken as given; the listed Pods are a parameter.
- The clock is read once where the status half reads it several times in a row.
- The value of the `oa` label is looked up in the spec as one entry; which environment variables can give it is not modelled.
- Clock skew between processes: the writers share one clock that never goes back.
- `Timing.RequeueIsDue`: assumes that work takes no time, is done when due, and that the read of the Deployment in the status half does not fail; so do the other results of `Timing`. Reads may be stale, except where a name says `Fresh` and in `RunningEndsByExpiry`, which is about the stored phase.
- `Convergence.DeploymentConverges`: the proviso is exact for each delivery and for whole stretches (`DeliverFreshIff`, `TellsIffFresh`), the end state is right exactly when the Deployment is still on its way (`ConvergedIffFresh`); a stretch that leaves that way and comes back to it by a later change is not ruled out. The template of the Deployment is what the spec's fields and the labels decide, uninterpreted; `Volumes` and `DeploymentSync` say more about it.
- `Phases.PhaseRightIff`: a reconcile whose read of its Deployment fails decides on no phase.
- `Settling.CanSettle`: that a settled state can be reached, not that every schedule reaches one.
- Service, Ingress, PVC and PV reconciliation, resource requirements, probes and security contexts: the same comparisons or straight-line code, so only easy members.
- `Snapshot.MatchOffsets`: for a view with an indexed item beyond the 2^31st the number of items examined is bounded and the result is left open, and so is the answer of `ListQuery.Respond` for a view of more items than that.
- `ListQuery.AcceptableIsAccepted`: of the number parser it is assumed that it reads the decimal numeral of every number that fits.
- The encoded JSON of the list answers, HTTP, login, and the polling of the ingress.
- `WorkspaceCache.Cache.Rebuild`: the two steps of a rebuild without interference; with interference they are steps of `Debounce`.
- `Metrics.Tracker.SetPhase`: series are identified by the phase itself, Unset for the label Unknown; a gauge is an integer, and the time stamp is kept at full precision.
- `DeploymentSync.ReconcileDeployment`: one undisturbed pass in which the API server accepts the write and adds no defaults; refused writes are part of `Protocol`.
- `DeploymentSync.DeploymentObject.Sync`: quantities that are written differently but equal count as the same text; the Pod's spec is assigned as a value, the first container through an object of its own.
- `Volumes.Build`: the data volume's own source is a parameter; the two loops of the main container and those of the init containers, which repeat each other in the code, are one method each.
- `Egress.KeysTellMeanings`: the hypothesis names the separators where they matter: the bar in namespaces, the equals sign in label keys, the comma in labels.
- `EgressRules.PolicyMeaning`: egress; the ingress section, which allows everything, is left out.
- `SharedPolicy.PolicyIffLive`: the existence of the policy; drift of its content is the field-by-field comparison again, and legacy per-workspace policies are not part of this model.
- `SharedPolicy.NoPolicyLeftBehind`: a policy that exists when the operator starts and no Workspace exists is excluded at the start: no event leads to its removal.
- `K8sName.WorkspaceNameIsLabel`: lower-casing is a parameter of which only its effect on a to z, digits and the hyphen is assumed, and for `K8sName.UnderscoreCollides` that it leaves the underscore alone; text is a sequence of characters.
- `Csv.RoundTrip`: text is a sequence of characters, and the field value is never missing.
