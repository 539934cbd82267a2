# Verified model of the test framework's control plane

This project models the state machines of the chaos and load test framework's
control plane in Dafny and proves properties of them. Each module follows one
component.

- `Kube`, `ChaosClient`, `Targets`, `Router`, `Watchdog`: chaos resources in several
  clusters. A `Cloud` maps cluster names to objects; two clients may name the same
  cluster. A client operation takes a `Weather`, which says which of its calls fail and
  with what error, so every statement is about all failure patterns. Walks over Go maps
  are arbitrary choices. `Cleanup` states what one cross-cluster cleanup and one tick
  achieve; `Lifecycle` is the state machine of creates, deletes, cleanups, ticks, registry
  refreshes and outside interference, with theorems over all runs.
- `Argo`, `Fanout`, `Syncer`, `Sse`, `StreamLoss`, `Reports`: the informer pipeline. Bounded, lossy
  subscriptions, the coalescing writer of manifests, the event stream of one run, and the
  verdict cache, with theorems over all interleavings, lost events and silent removals.
- `Sorting`, `Lister`, `Queue`, `Relisting`, `MergePatch`, `Priorities`, `Runs`: the workflow list,
  the semaphore lanes and how they depend on the list, default priorities, submission,
  reprioritizing and cancelling.
- `Verdict`, `Steps`, `Strings`, `Rbac`, `OpMix`: verdict evaluation, the step timeline, the
  parser of role bindings, and the weighted operation picker.

State the source updates in place is a class whose methods are proved against closed
specification functions; the theorems are lemmas about those functions.

Eight places where the code does less than its comments or documents say. The model
follows the code, and the exact extent is proved.

- `docs/FINDINGS.md:731` says the watchdog reaps across clusters. It lists every cluster
  but deletes in the local one only: `TicksNeverReapRemotes`, `ReapsAllIffAllLocal`, and
  `RunningRunLosesIff` with `WrongVictim`, where a finished run on a target costs a running run
  its chaos.
- A cleanup without an error may leave chaos behind, since list errors are swallowed:
  `WhatANilErrorMeans`, `NilErrorIsNotAllGone`.
- The watchdog's checker takes a run unknown to the informer's cache for one that is over. A run
  the cache does not know yet is reaped as well: `UnfinishedIsReapedIff`.
- A deletion that the informer only finds out about by listing anew is not broadcast, so a stream
  goes on showing a run that is gone: `NoUpdateLost`, `StreamAgreesIff`, `VanishedIsMissed`. Its
  manifest keeps its last status for the same reason.
- The syncer's `last` is described as the last written status, but it is set before the write
  and a refused write is not repeated: `CurrentIffLastTouchFits`.
- The submit handler stores a manifest "Submitted" and counts on the informer to write a later
  one. If the syncer was first, there may be none for long: `LateSubmitStays`, `ResyncHeals`.
- The queue is said to be ordered by priority, then age. It is sorted stably, but from a list that
  an unstable sort by age has put together, so ties may change places from one request to the
  next: `LaneIsCanonicalIff`, `ReprioritizeThenRebuild`.
- The settings page shows an override as it is stored, while a run gets its low 32 bits:
  `ShownIsQueuedIff`, `OverflowingDefault`. Likewise the window validation adds durations in 64
  bits: `WindowsTile`, `OverflowIsAccepted`.

## Model

| member | source | states |
|---|---|---|
| Lifecycle.NothingCreatedIsLost | controlplane/internal/chaos/client.go:70-101 | over every run: a live object made by the control plane carries its run id and managed-by label whatever the body said, comes from one create for that run, and is in every result of both router lists while its target still leads to it and its own client answers, whatever the other clients do |
| Lifecycle.ServerTakesPart | controlplane/internal/chaos/router.go:101-117 | while the target still leads to the object's cluster, its client is in every fan-out |
| Lifecycle.Provenance | controlplane/internal/chaos/router.go:22-29 | over every run: a live object of ours goes back to one successful create and was unchanged at every step since |
| Lifecycle.RunKeepsInv | controlplane/internal/chaos/client.go:81-88 | over every run: labels, kind and, for local objects, cluster and namespace of ours are as the create made them |
| Lifecycle.WatchdogConverges | controlplane/internal/chaos/watchdog.go:49-67 | once nothing more is made for a run its local count never grows, and from the first tick that sees it terminal without local failures it is zero for good, for any registry |
| Lifecycle.ClearingTickClears | controlplane/internal/chaos/watchdog.go:55-65 | one such tick leaves no managed local object of the run |
| Lifecycle.CountAfterRemoval | controlplane/internal/chaos/client.go:103-110 | removing objects takes exactly those of the run off its count |
| Lifecycle.DeleteDropsCount | controlplane/internal/chaos/router.go:31-38 | a successful delete of one of the run's local objects drops the count by one, also through a target that is the local cluster |
| Lifecycle.TicksNeverReapRemotes | controlplane/internal/chaos/router.go:45-47 | no number of ticks changes any cluster but the local one |
| Cleanup.TickIsExact | controlplane/internal/chaos/watchdog.go:49-67 | a tick changes the local cluster only, and removes an object there iff some client reports it under a terminal run and a delete under that run succeeds |
| Cleanup.RunningRunLosesIff | controlplane/internal/chaos/router.go:45-47 | whatever calls fail: an object of a running run goes iff a client of another cluster reports a namesake under a terminal run and a delete under that run succeeds |
| Cleanup.RunningRunIsSafeIff | controlplane/internal/chaos/router.go:69-81 | when no call fails: it stays iff no client of another cluster reports a namesake under a terminal run |
| Cleanup.ReapedByCacheIff | controlplane/cmd/dlh-controlplane/main.go:85-96 | with the checker in use and no failing call, a local object goes iff the informer's cache does not know its run, or knows it as finished, or a terminal namesake is reported elsewhere |
| Cleanup.UnfinishedIsReapedIff | controlplane/cmd/dlh-controlplane/main.go:87-90 | of the unfinished runs, with a cache behind the server, exactly those unknown to the cache or with such a namesake lose a local object |
| Cleanup.ReapsAllIffAllLocal | controlplane/internal/chaos/router.go:69-81 | a tick without failures reaps every terminal run reported iff only clients of the local cluster reported any |
| Cleanup.WrongVictim | controlplane/internal/chaos/router.go:45-47 | a concrete state where a failure-free tick deletes a running run's object and spares the finished run's |
| Cleanup.CleanupIsExact | controlplane/internal/chaos/router.go:48-57 | a cleanup removes an object iff some client covers it (cluster, namespace, kind, run label) and its list and delete succeed; everything else keeps its contents |
| Cleanup.WhatANilErrorMeans | controlplane/internal/chaos/client.go:127-147 | after a cleanup without error, an object of the run is gone iff some covering client's list of its kind succeeded |
| Cleanup.NilErrorIsNotAllGone | controlplane/internal/chaos/client.go:133-135 | a concrete cleanup that returns no error and leaves an object of the run |
| Router.CleanedStep | controlplane/internal/chaos/router.go:51-55 | cleaning client after client equals the closed form, also when clients share a cluster |
| Router.FanOutMember | controlplane/internal/chaos/router.go:101-117 | for every order of the registry walk: the local client is first, and the others are the targets with a kubeconfig |
| Router.FlatIsListed | controlplane/internal/chaos/router.go:58-68 | the list of a run holds exactly what some client reports |
| Router.MergedIsView | controlplane/internal/chaos/router.go:76-78 | appending the clients' groupings holds, under each run id, exactly what some client reports |
| Router.Router.Pick | controlplane/internal/chaos/router.go:83-99 | empty id is local, a registered id a client in its target's cluster and namespace with its id, anything else an error |
| Router.Router.AllClients | controlplane/internal/chaos/router.go:101-117 | local plus every reachable target in walk order |
| Router.Router.CreateForTarget | controlplane/internal/chaos/router.go:22-29 | exactly when a create succeeds, the object it adds, filed under the resource of its kind in the namespace of its target, and no other change |
| Router.Router.DeleteForTarget | controlplane/internal/chaos/router.go:31-38 | exactly when a delete succeeds, and that it removes at most the one object in the target's cluster |
| Router.Router.Delete | controlplane/internal/chaos/router.go:45-47 | always the local cluster |
| Router.Router.DeleteByRun | controlplane/internal/chaos/router.go:48-57 | the clusters become the closed form, every client is tried, and the error is the first one in client order |
| Router.Router.ListByRun | controlplane/internal/chaos/router.go:58-68 | the concatenation, in client order, of each client's listing; failing clients give nothing |
| Router.Router.ListManaged | controlplane/internal/chaos/router.go:69-81 | under each run id the clients' lists appended in client order, hence exactly what some client reports |
| Router.MergeInto | controlplane/internal/chaos/router.go:76-78 | lists of the same run are appended, for every order of the map walk |
| Watchdog.Watchdog.Tick | controlplane/internal/chaos/watchdog.go:49-67 | takes the view over all clusters and deletes, for every order of the walk, exactly what is listed under terminal runs and can be deleted, in the local cluster |
| ChaosClient.ManagedKinds | controlplane/internal/chaos/client.go:176-202 | in chaos-mesh.org/v1alpha1, Schedule and Schedules in any capitals become schedules, PodChaos podchaos and NetworkChaos networkchaos; every other kind or version is refused |
| ChaosClient.Stamp | controlplane/internal/chaos/client.go:82-88 | run id, managed-by and, for remote clients, target label win over the body; all other labels are exactly those of the body |
| ChaosClient.CreateWith | controlplane/internal/chaos/remote.go:32-64 | success exactly for a managed kind, a reachable cluster and a free name; then one stamped object is added under the resource of its kind |
| ChaosClient.DeleteWith | controlplane/internal/chaos/remote.go:66-77 | removes at most the named object; a missing one is no error |
| ChaosClient.ListByRun | controlplane/internal/chaos/remote.go:93-114 | each object of the run in the client's namespace and a listable kind, once |
| ChaosClient.DeleteAll | controlplane/internal/chaos/client.go:118-124 | every delete is tried; the first error is kept |
| ChaosClient.DeleteByRun | controlplane/internal/chaos/client.go:112-125 | removes what was listed and can be deleted; the error is the first failed delete of some listing order, or the failure to reach the cluster |
| ChaosClient.ListManaged | controlplane/internal/chaos/client.go:149-173 | managed objects grouped by run id, each once, those without a run id left out |
| Targets.LoadIsExact | controlplane/internal/targets/registry.go:110-132 | an id is registered iff some entry with a secret names it, and then with the fields of the last such entry, its own namespace or dlh-test-fw, its own display name or the id, and the kubeconfig of its secret |
| Targets.LoadEntries | controlplane/internal/targets/registry.go:110-132 | the loop reaches that register |
| Targets.Registry.List | controlplane/internal/targets/registry.go:62-71 | every registered target once, in any order |
| Targets.Registry.Refresh | controlplane/internal/targets/registry.go:180-187 | a failed load keeps the old targets, a good one replaces all of them |
| Fanout.OrderedOverRuns | controlplane/internal/k8s/workflows.go:118-144 | over every run: what a subscriber read and has buffered is an in-order subsequence of the events broadcast between its subscription and its first cancel, and no buffer exceeds sixteen |
| Fanout.SentIsDuring | controlplane/internal/k8s/workflows.go:118-132 | who is known, who is open and what was broadcast to whom follow from the steps alone |
| Fanout.DroppedOnlyWhenFull | controlplane/internal/k8s/workflows.go:134-144 | in every reachable state a broadcast is appended iff the subscription is open and its buffer not full |
| Argo.NewsTells | controlplane/internal/k8s/workflows.go:84-104 | an event is DELETED iff the workflow has left the cache, ADDED iff it is new there, else MODIFIED, and carries its state |
| Fanout.NothingLostWithRoom | controlplane/internal/k8s/workflows.go:137-143 | while the broadcasts fit the room left, an open subscription loses nothing in any interleaving |
| Fanout.BurstKeepsFirst | controlplane/internal/k8s/workflows.go:119 | of an unread burst exactly the first sixteen events survive |
| Fanout.CancelTwice | controlplane/internal/k8s/workflows.go:123-130 | cancelling twice is cancelling once |
| Fanout.WorkflowLister.Subscribe | controlplane/internal/k8s/workflows.go:118-132 | adds one empty open subscription |
| Fanout.WorkflowLister.Cancel | controlplane/internal/k8s/workflows.go:123-130 | closes one subscription, never twice |
| Fanout.WorkflowLister.Broadcast | controlplane/internal/k8s/workflows.go:134-144 | offers the event to every open subscription, for every order of the walk, and never sends on a closed channel |
| Syncer.ResyncHeals | controlplane/internal/runs/syncer.go:60-101 | whatever was dropped before, after one resync round mixed with any updates, deletions and other writers, sixteen events at most, drained in any interleaving with the syncer's writes accepted, a stored status is the phase in the final cache iff nobody else had the last word with another status and a manifest not due for a write was right before |
| Syncer.CoalescingIsExact | controlplane/internal/runs/syncer.go:74-81 | with all writes accepted, the manifests written for a run are those of its first event, of each change of status and of each deletion, and without other writers the stored status is that of its last event |
| Syncer.CurrentIffLastTouchFits | controlplane/internal/runs/syncer.go:76-100 | with refused writes and other writers, the stored status is current iff the last due write was accepted, or overwrote a manifest of that status in vain, or another writer came last with that very status |
| Syncer.CurrentIffNotStale | controlplane/internal/runs/syncer.go:76-100 | the same for all inputs with the syncer's writes accepted |
| Syncer.LateSubmitStays | controlplane/internal/api/handlers.go:174-184 | a submit handler that stores its manifest after the syncer's first write leaves it at Submitted through every resync until the status changes |
| Syncer.StuckAfterLastTouch | controlplane/internal/runs/syncer.go:79-81 | after the last due event or foreign write the stored manifest does not change |
| Syncer.RemembersLast | controlplane/internal/runs/syncer.go:74-77 | the remembered status is that of the run's last event, whatever writes fail |
| Syncer.Syncer.Handle | controlplane/internal/runs/syncer.go:60-101 | the whole new state: remembered status, stored manifest and log |
| Syncer.HandledIsExact | controlplane/internal/runs/syncer.go:60-101 | the phase, or Pending for none, is remembered under the run-id label or else the name; on news or deletion a manifest with the workflow's own fields, and score 1 or 0 by the report, is stored if the write is accepted |
| Syncer.PhaseChangeIsWritten | controlplane/internal/runs/syncer.go:74-81 | an event whose phase differs from that of the run's last event is written with that phase, whatever lies between |
| Sse.NoUpdateLost | controlplane/internal/api/sse.go:43-77 | in every interleaving of cache updates, broadcasts, subscription, snapshot and reads, with no update of the run in flight and its newest event not dropped: frames sent and buffered end in what the cache says iff the run was not removed silently since it was last seen, or the stream has never shown it |
| Sse.GoneIffNotTold | controlplane/internal/k8s/workflows.go:98-102 | over every run: the phase last announced differs from the cache iff the run was removed without an event and not seen since |
| Sse.NothingShownIff | controlplane/internal/api/sse.go:46-52 | the stream shows nothing of the run iff neither its snapshot nor an event with room brought it |
| StreamLoss.StreamAgreesIff | controlplane/internal/k8s/workflows.go:137-143 | over every run, with the last broadcast about the run after the snapshot and nothing in flight: the exact condition for the stream to agree with the cache, from the room in the buffer, what the stream ended in before, and whether the run is silently gone |
| StreamLoss.VanishedIsMissed | controlplane/internal/k8s/workflows.go:98-102 | a run of the system in which nothing is dropped or in flight and the stream shows a workflow the cache has lost |
| StreamLoss.ResyncShows | controlplane/internal/k8s/workflows.go:53-54 | whatever was dropped, a read and the turn of the cached run in a resync bring the stream up to date |
| StreamLoss.OutIsHandled | controlplane/internal/api/sse.go:46-77 | the frames of the state machine are what the handler sends for the snapshot and the events read |
| StreamLoss.DroppedUpdateIsMissed | controlplane/internal/k8s/workflows.go:137-143 | for any workflow and new phase, a run in which that update is dropped and the stream is left in the old phase |
| Sse.Handle | controlplane/internal/api/sse.go:22-78 | 400 without an id, 500 without a flusher, else one snapshot if the run is cached and then what the wakeups add |
| Sse.EachWakeup | controlplane/internal/api/sse.go:56-76 | a timer adds a keepalive, an event about the run its frame, another event nothing; the end of the subscription or the request ends the stream |
| Reports.EveryAnswerIsTheReports | controlplane/internal/runs/verdictcache.go:28-55 | under every interleaving of callers and read failures, a score given out is 1 or 0 as the report says |
| Reports.AnsweredForGood | controlplane/internal/runs/verdictcache.go:32-36 | once given, every later terminal lookup gives the same score |
| Reports.OneUsefulReadEach | controlplane/internal/runs/verdictcache.go:39-54 | a sequential run makes at most one read per workflow that yields a score |
| Reports.VerdictCache.Score | controlplane/internal/runs/verdictcache.go:28-55 | unfinished runs get no answer, cached ones the cached score without a read, others 1 or 0 by the report read, which is then cached |
| Sorting.StableSortIsTheOne | controlplane/internal/queue/queue.go:128-137 | the stable sorted arrangement is unique, so the result does not depend on the sorting algorithm |
| Sorting.SortFilter | controlplane/internal/queue/queue.go:131-137 | stable sorting commutes with leaving elements out |
| Queue.LanesAreExact | controlplane/internal/queue/queue.go:96-141 | the running list shows every unfinished workflow that holds the key, the pending list every one that waits for it, each once with its own name, scenario, priority and age, and nothing else |
| Queue.HeadIsReleasable | controlplane/internal/queue/queue.go:131-137 | no waiting workflow has a higher priority than the head, none of its priority is older, and ties keep their order |
| Queue.ReprioritizeMovesOne | controlplane/internal/queue/queue.go:125-139 | a new priority for one workflow takes one entry out of its waiting lines and puts it back in order; all other entries, lanes and running lists stay |
| Queue.BuildLanes | controlplane/internal/queue/queue.go:96-141 | one lane per key in key order with its slots; running by age, pending by priority from high to low, none counting as zero, and then by age |
| Queue.LaneIsOrdered | controlplane/internal/queue/queue.go:128-137 | that order, for every list of workflows and every key |
| Queue.AddEntry | controlplane/internal/queue/queue.go:80-87 | an id is added at most once per key |
| Queue.LockKeyOf | controlplane/internal/queue/queue.go:69-74 | the part after the last slash |
| Runs.ReprioritizeThenRebuild | controlplane/internal/runs/reprioritize.go:20-32 | reprioritizing within 32 bits and rebuilding the queue, each time from its own list, moves that one entry for all lists iff no two holders of the lane are of one age and no two other waiters tie |
| Runs.GetQueue | controlplane/internal/api/handlers.go:353-372 | the ordered lanes of some newest-first list of everything cached, or the error of the keys or of the list |
| Relisting.LaneIsCanonicalIff | controlplane/internal/queue/queue.go:125-139 | a lane is the same for all lists of one cache iff no two holders are of one age and no two waiters of one priority and age |
| Relisting.LineIsCanonicalIff | controlplane/internal/queue/queue.go:128-137 | the same for either order of a lane and any choice of its contenders |
| Lister.FilterWorkflows | controlplane/internal/k8s/workflows.go:149-177 | the beginning, up to the limit, of some newest-first arrangement of the workflows that pass |
| Lister.PageIsExact | controlplane/internal/k8s/workflows.go:149-177 | a page holds only workflows of the wanted scenario, target, phase and age, newest first, at most the limit, and all of them when the limit is not reached |
| Lister.PageHasTheNewest | controlplane/internal/k8s/workflows.go:171-176 | what the limit cuts off is not newer than anything that stays |
| Lister.List | controlplane/internal/k8s/workflows.go:106-112 | for the query for everything: each cached workflow once, newest first, equal ages in any order |
| Runs.Submitter.Reprioritize | controlplane/internal/runs/reprioritize.go:20-32 | only a pending run is patched, only its priority changes, and to the low 32 bits |
| Runs.Submitter.Submit | controlplane/internal/runs/submit.go:52-115 | exactly when a submit succeeds, and every field of the one workflow it adds; its priority is the request's, else a readable stored default, else the template's |
| Runs.ArgumentsAreExact | controlplane/internal/runs/submit.go:80-87 | for every walk over the parameters: each of the request, nothing else but the target, and the target last |
| Runs.Submitter.ResolvePriority | controlplane/internal/runs/submit.go:120-136 | the request wins whatever is stored; without one a readable default wins over the template |
| Runs.CancelRun | controlplane/internal/api/handlers.go:200-217 | an unknown run changes nothing; otherwise chaos is cleaned as far as possible, if there is a chaos client, and the workflow is told to stop |
| MergePatch.SpecPatchSetsOneField | controlplane/internal/runs/reprioritize.go:28-30 | as a merge patch (section 2 of RFC 7396) the patch sets one spec field and touches nothing else in any JSON document |
| MergePatch.CancelAndReprioritizeCommute | controlplane/internal/api/handlers.go:208-211 | the priority and shutdown patches commute on every document |
| MergePatch.PatchesAsSent | controlplane/internal/runs/reprioritize.go:28 | the two patch documents literally |
| MergePatch.MergeRules | controlplane/internal/runs/reprioritize.go:29-30 | the merge follows RFC 7396: null removes, non-objects replace, unnamed fields stay |
| MergePatch.PatchesUpdateWorkflow | controlplane/internal/runs/reprioritize.go:28-30 | on a stored workflow, whatever else its document holds, the patches are updates of one field |
| Priorities.ShownIsQueued | controlplane/internal/api/handlers.go:375-402 | after any settings within 32 bits, the priority shown for a scenario is the one its next run is queued with |
| Priorities.ShownIsQueuedIff | controlplane/internal/runs/submit.go:125-129 | shown and queued priority agree iff the override, if any, fits 32 bits |
| Priorities.OverflowingDefault | controlplane/internal/api/handlers.go:418-428 | a default of 2^31 is shown as such and queued as -2^31 |
| Priorities.SetsReadBack | controlplane/internal/priorities/priorities.go:33-72 | settings are read back as made, through decimal printing and parsing, and leave other scenarios alone |
| Priorities.Store.All | controlplane/internal/priorities/priorities.go:33-48 | the integer values of the config map, none when it is absent |
| Priorities.Store.Set | controlplane/internal/priorities/priorities.go:51-72 | one value is written, creating the map if needed; a failed call changes nothing |
| Priorities.PutScenarioPriority | controlplane/internal/api/handlers.go:405-429 | the answer is what the settings page shows from then on |
| Priorities.GetScenarioPriorities | controlplane/internal/api/handlers.go:375-402 | the lines of the settings page, or the error of the template list or of the config map |
| Priorities.PageIsExact | controlplane/internal/api/handlers.go:384-400 | one line for each template of the scenario category in their order, with its baked priority, its override and the effective one |
| Strings.AtoiItoa | controlplane/internal/priorities/priorities.go:43 | parsing undoes printing for every 64-bit integer |
| Strings.AtoiReads | controlplane/internal/priorities/priorities.go:43 | digits with at most one sign before them are read as their value if it fits 64 bits |
| Strings.AtoiRefuses | controlplane/internal/priorities/priorities.go:43 | any other text is no integer |
| Verdict.VerdictIsSound | verdict-job/internal/eval/eval.go:35-87 | one result per threshold with the value at the end of the window its name says; a report passes iff every value meets its strict bound and a raw query yields 1; a chaos result is about the chaos window the report names; without overflow all these instants lie inside the load run |
| Verdict.WindowsAreExact | verdict-job/internal/window/window.go:38-53 | baseline ends and chaos starts chaosStartAfter into the load, chaos lasts chaosDuration, recovery and full end with the load; there is no window of another name |
| Verdict.AcceptedIff | verdict-job/internal/window/window.go:23-32 | parameters are accepted iff the durations make sense and chaos ends within the load, or the sum overflows |
| Verdict.NothingFails | verdict-job/internal/eval/eval.go:42-50 | a valid objective with accepted parameters and an answering server leaves no error to return |
| Verdict.WindowsTile | verdict-job/internal/window/window.go:34-53 | baseline, chaos and recovery tile the full window; all lie inside it iff the durations did not overflow |
| Verdict.OverflowIsAccepted | verdict-job/internal/window/window.go:27-30 | concrete parameters that are accepted although chaos ends long after the load |
| Verdict.Evaluate | verdict-job/internal/eval/eval.go:35-87 | one result per threshold in order and the overall verdict, or the error of the first failed measurement |
| Verdict.ValidateSlo | verdict-job/internal/slo/slo.go:53-75 | accepts exactly the well-formed objectives |
| Verdict.ValidThresholdIff | verdict-job/internal/slo/slo.go:57-70 | a threshold needs a metric, a query, exactly one bound and one of the four windows |
| Steps.ComparatorIsWeakOrder | controlplane/internal/model/types.go:207-221 | the comparator is a strict weak order, total on start and name |
| Steps.OrderIsCanonical | controlplane/internal/model/types.go:173-222 | any two walks over the same nodes give the same sequence of starts and names |
| Steps.TimelineIsCanonicalIff | controlplane/internal/model/types.go:182-222 | whole steps come in one order for all walks iff nodes with equal start and name show equal steps |
| Steps.Timeline | controlplane/internal/model/types.go:173-222 | one step for every node with its name, phase, times and message, earlier starts first, missing starts last, and then by name |
| Steps.StringBeforeIff | controlplane/internal/model/types.go:211-217 | the order of names is by the first character that differs, a beginning before the whole |
| Rbac.ParsingUndoesPrinting | controlplane/internal/auth/rbac.go:69-99 | parsing a printed bindings file, with comments, blank lines and lines without a colon anywhere, gives each group the role of the last line listing it |
| Rbac.ParseBindings | controlplane/internal/auth/rbac.go:69-99 | fails only without the key; otherwise the line by line reading |
| Rbac.Resolve | controlplane/internal/auth/rbac.go:103-115 | admin if a group is bound to it, else runner if one is, else viewer; unknown roles give nothing |
| Rbac.HighestIsUnique | controlplane/internal/auth/rbac.go:106-113 | order and repetition of groups do not matter |
| OpMix.PicksAreProportional | fixture-images/k6/lib/common.js:45-54 | among the draws 1 to total, exactly as many choose a name as its weights add up to |
| OpMix.ChoiceIsTheInterval | fixture-images/k6/lib/common.js:48-51 | a positive draw chooses the entry whose interval of prefix sums contains it |
| OpMix.PickIsDetermined | fixture-images/k6/lib/common.js:48-53 | a draw has at most one choice, and the fallback is taken exactly when it has none |
| OpMix.ChoiceExists | fixture-images/k6/lib/common.js:48-52 | no draw up to the total reaches the fallback |
| OpMix.ZeroDrawChoosesFirst | fixture-images/k6/lib/common.js:48-51 | a draw of zero chooses the first entry, even one of weight zero |
| OpMix.Pick | fixture-images/k6/lib/common.js:47-53 | the first entry whose prefix sum reaches the draw, else the last entry |
| OpMix.WeighedItem | fixture-images/k6/lib/common.js:41-44 | the name is what comes before the first colon, the weight what follows up to the next, read as 1 when empty |
| OpMix.BareItem | fixture-images/k6/lib/common.js:41-44 | without a colon the weight is 1 |
| OpMix.RefusedIff | fixture-images/k6/lib/common.js:37-40 | a mix is refused iff every part between the commas is blank |
| OpMix.ParsingUndoesPrinting | fixture-images/k6/lib/common.js:36-45 | parsing a printed mix gives its names and weights |

## Left out

- Lifecycle.WatchdogConverges: a tick is one atomic step; creates and deletes between its list and its deletes are not modelled.
- Lifecycle.NothingCreatedIsLost: run ids are taken as legal label values; others are refused by the API server or change the meaning of the selector.
- ChaosClient.DeleteWith: deletes are immediate; an object that waits for its finalizers is still listed for a while.
- ChaosClient.CreateWith: a body without metadata, for which setting the namespace writes to a nil map, is not modelled.
- Failed deletes: a delete that fails has no effect; one that takes effect although its reply is lost is not modelled.
- Sse.NoUpdateLost: of the informer it uses only that the cache is updated before the event is broadcast, in the same order, and that a deletion found by a new list reaches the handler as a marker it drops.
- Syncer.ResyncHeals: events of one run id are about one workflow.
- Queue.HeadIsReleasable: the release order is the one documented at docs/FINDINGS.md:473; Argo's semaphore manager is not part of this model.
- Steps.Timeline: the library's stable sort in place is the function `StableSort` on sequences; `StableSortIsTheOne` shows that no other result is possible.
- OpMix.PicksAreProportional: weights and draws are exact; `parseFloat` is a parameter and floating-point rounding is not modelled.
- Verdict.Evaluate: measured values are reals, without NaN; times are not formatted.
- Mutexes: every method is one step; the verdict cache is also split into its two halves.
- The default interval and the endless loops of watchdog, refresher and syncer; their bodies are modelled.
- The keys and slot counts of the lanes are given: reading them is the decoding of a config map.
- The other HTTP handlers: each is one call of a modelled operation with its errors as status codes.
- Encoding of refs, YAML and kubeconfig parsing, authentication, the web pages and the command line.
