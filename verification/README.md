# Workload lifecycle controller: verified model

The controller scales Kubernetes workloads down inside configured windows and when their
revision has expired, and gives them their replica count back afterwards. It remembers that
count in one durable document, kept in a ConfigMap, while the live scale lives elsewhere. The
two stores fail separately, so the question this project answers is whether a count can ever
be lost.

The answer, proved for every compiled policy, history of passes, failure and crash:

- `Exactness.KeepsCountIff`: a policy keeps the replica count of a workload through every run
  **if and only if** it has no schedule, or deletes on expiry, or its expired target is at most
  its scheduled target and no revision can expire inside the window instance it was deployed
  in. The condition is computed from the policy alone: `Weeks.OutlivesIff` reduces its
  last part to the minutes of one week, however windows overlap; for one window it is
  `maxAge >= window length` (`Exactness.SingleWindowOutlivedIff`), and a day is always enough
  (`Recency.DayCoversEveryWindow`). Where the condition fails, a losing run is constructed at
  any date asked for, over listed workloads and from a valid store, and every save in it is one
  the store accepts.
- `Edits.PoliciesKeepCountIff`: the same when the policy is edited, any number of times and at any
  moment. Policies taken in turn keep the count **if and only if** each does so alone and each
  later one with a schedule aims no lower than any earlier one may have scaled to, and deletes on
  expiry or outlives every instance the two schedules make between them. Again the condition is
  computed from the policies, and a losing run is constructed where it fails.
- `Edits.PassKeepsCountIff`: the two mistakes by which a single pass can lose a count, exactly, from
  any world and under any policy.
- `Outcomes.PassOutcome`: what a pass nothing goes wrong in does to the live count, the snapshot and
  the object, in every case, told from the recorded state, the live count and the clock alone;
  `Outcomes.DeletedIffRecordedLongAgo`: a workload is deleted exactly when its policy says so and
  its identity was made durable at least maxAge ago and never changed since.
- `Recovery.GoodPassRecovers`: after any well-run history one undisturbed pass outside the windows
  puts the original count back and leaves no snapshot; `Recovery.GoodPassScalesDown`: one
  undisturbed pass that a window holds down brings the workload to the smaller of target and
  count, except where it finds a live count it takes for an override.
- `Validity.NoSaveIsEverRefused`, `Retention.DeletedOnlyAfterMaxAge`,
  `Skips.SkipHoldsThroughInstance`, `Discipline.PlanDisciplined`: what every run keeps besides.
- `ConfigMapStore.Store.Save`: against arbitrary other writers a save commits at most once, only
  over a well-formed version, and changes only its own key.

## How a faulty pass is modelled

`Transition.Plan` lists, in order, the writes of a pass in which nothing goes wrong. Every
failure ends the pass. A write that fails, one that fails after taking effect, and a crash
between two steps all leave the stores as some **prefix** of that list does. The class
`Reconciling.Reconciler` edits the loaded document and writes the two stores step by step over a
`Reconciling.Cluster`, whose every call may fail in any of these ways, and its contract says that
the writes performed are a prefix of the plan, and all of it when the pass reports success.
`Runs` then speaks of sequences of passes each cut off anywhere.

The durable half of the cluster is not assumed: it is a `ConfigMapStore.Store` on a server with
no other writer, with all of that server's failures, retries and ambiguous replies, and the
cluster's invariant ties the document of the plan's prefix to the text stored in the ConfigMap.

Modules follow the source packages: `Schedule`, `Revision`, `Policies`, `Decision`, `State`,
`Cleanup`, `ConfigMapStore`, `Transition` (what a pass writes), `Reconciling` (the reconciler that
writes it), `Orchestrator`. `Runs`, `Intent`, `Recency`, `Weeks`, `Exactness`, `Edits`, `Recovery`,
`Outcomes`, `Discipline`, `Skips`, `Retention` and `Validity` hold the theorems about full passes
and whole runs. `Basics` and `Ordering` are shared vocabulary. In the order below, the hardest
results come first.

## Model

| member | source | states |
|---|---|---|
| Exactness.KeepsCountIff | internal/controller/transition.go:42-258 | for every compiled policy and any workload the store does not know, an earlier object of the same name notwithstanding, the intended count survives every run of passes over it and over others, with a monotone clock, failures and crashes, exactly when there is no schedule, or expiry deletes, or expired <= scheduledDown and no instance lasts longer than maxAge; the same over only those runs after a given date whose saves the store all accepts |
| Edits.PoliciesKeepCountIff | internal/controller/transition.go:42-258 | for any compiled policies that tell two revisions of a workload apart, going through them in turn, each for any number of passes, keeps the count through every run exactly when each policy keeps it alone and each may replace each earlier one: it has no schedule, or its scheduled target is at least what the earlier one may scale to and it deletes on expiry, or the earlier one has no schedule, or no instance the two report between them lasts longer than its maxAge; the same over only those runs after a given date whose saves the store all accepts |
| Exactness.ExpiredAboveScheduledLoses | internal/controller/transition.go:100-108 | if the expired target is above the scheduled one there is, after any date, a run of accepted saves whose override check takes the controller's own write for an outside one and loses the count |
| Exactness.ShortLivedRevisionLoses | internal/controller/transition.go:90-122 | if one instance is reported at two instants maxAge apart there is, after any date, a run of accepted saves that restores for a redeploy, captures the count read before, and loses the original |
| Exactness.SomeRedeploy | internal/lifecycle/revision.go:34-97 | for any compiled policies some listed workload has two revisions that every two of them tell apart, so failing policies always lose some count |
| Exactness.ClockedIsAccepted | internal/state/document.go:77-147 | from a healthy store, a run of listed workloads under compiled policies with a monotone clock plans only acceptable saves |
| Weeks.OutlivesIff | internal/schedule/instance.go:19-61 | whether an instance one schedule reports is ever reported maxAge later, by the same schedule or by the one that replaced it, is decided by a bounded check over the minutes of one week, for any overlapping windows and zones |
| Weeks.InstanceRepeats | internal/schedule/window.go:54-80 | every week reports the instances of the week before, seven days on |
| Weeks.ReportedAgain | internal/schedule/instance.go:19-61 | two reports of one instance, by one schedule or by two, recur equally far apart after any date |
| Weeks.ReportedIff | internal/controller/transition.go:68-79 | an instance is reported at an instant exactly when the windows give it at that local minute |
| Exactness.PassSafeIff | internal/controller/transition.go:42-139 | with bounded targets every write of a pass keeps count and bound if and only if the pass does not restore for a redeploy and then capture a stale count |
| Edits.PassKeepsCountIff | internal/controller/transition.go:42-139 | from any world and under any policy, every write of a pass keeps the intended count if and only if the pass neither captures a stale count after a redeploy restore nor accepts as an override a live count that is not the snapshot's |
| Edits.UnmistakenRunKeepsCount | internal/controller/transition.go:42-258 | whatever policies a run goes through, the intended count stays as long as no pass makes one of the two mistakes |
| Edits.LoweredTargetLoses | internal/controller/transition.go:100-108 | whenever an edited schedule aims lower than the one before there is, after any date, a run of accepted saves in which the controller's own downscale is taken for an override and the count is lost |
| Edits.NewScheduleLoses | internal/controller/transition.go:100-108 | the same where a schedule is added whose target is below the one expiry scaled to |
| Edits.StretchedInstanceLoses | internal/controller/transition.go:90-122 | where two schedules between them report one instance for longer than maxAge there is, after any date, a run of accepted saves in which a redeploy and a crash lose the count |
| Edits.SafePoliciesKeepCount | internal/controller/transition.go:42-258 | the sufficient half, which needs no revision told apart |
| Exactness.SingleWindowOutlivedIff | internal/schedule/window.go:54-80 | for a one-window schedule the recency condition is exactly window length <= maxAge |
| Intent.RunKeepsIntendedCount | internal/controller/transition.go:42-258 | over any run cut off anywhere, under policies that may change as long as a scheduled target does not fall, snapshot-else-live stays the starting count, and live is that count or at most both that count and the bound the policies left |
| Intent.PassSafe | internal/controller/transition.go:42-139 | the same after every single write of one pass |
| Intent.PassCounted | internal/controller/transition.go:42-139 | the count alone after every single write, for any policy and any state the pass finds, given neither of the two mistakes |
| Recency.ReplicaCountIsNeverLost | internal/controller/transition.go:42-258 | every run keeps the replica count of an object the store does not know, also where a former object's state is stored under its name, with policies, schedules and targets that may change from pass to pass, scheduled targets not falling and revisions deleted on expiry or outliving every window instance |
| Recency.NoReachableStaleCapture | internal/controller/transition.go:83-95 | in every run with a monotone clock and patient policies no pass both restores for a redeploy and finds the revision expired, whatever objects come and go under the name and whatever fails |
| Recency.FollowedIsAdmissible | internal/controller/transition.go:83-108 | such a run over one object under non-falling targets meets every hypothesis of the count theorem |
| Recency.TwoDaysCoverEdits | internal/schedule/instance.go:19-61 | windows may be edited, renamed, added or removed at any time if revisions live for two days plus the largest zone difference |
| Recency.PassKeepsTimely | internal/controller/transition.go:56-95 | every write keeps the invariant that an entry revision other than the recorded one implies the current revision was first seen within the recorded instance |
| Recency.PendingIsYoung | internal/controller/transition.go:83-95 | under that invariant a revision with a pending redeploy is not expired |
| Recency.InsideBounds | internal/schedule/instance.go:19-61 | the instance a schedule reports starts at or before now and now lies before its end |
| Recency.AgeCoversInstances | internal/controller/transition.go:83-122 | maxAge of at least every window's length means no instance is reported at two instants maxAge apart |
| Recency.DayCoversEveryWindow | internal/schedule/window.go:54-80 | maxAge of 24 hours covers every valid window |
| Recovery.GoodPassRecovers | internal/controller/transition.go:213-222 | after any well-run faulty history from a store that does not know the object, one full pass outside all windows with an unexpired revision sets live to the count the history started with and leaves no snapshot |
| Recovery.ActivePassRestores | internal/controller/transition.go:213-222 | the one-pass form of the recovery, from any world and with any policy |
| Recovery.DownPassScalesDown | internal/controller/transition.go:195-236 | from any world a full pass that a window holds down (unskipped, unexpired, no redeploy pending) leaves live at min(target, count) with the count in the durable snapshot, except exactly when a snapshot exists and live is above the target: then live stays and the snapshot goes |
| Recovery.GoodPassScalesDown | internal/controller/transition.go:100-122 | the same after any well-run faulty history, in terms of the count that history started with |
| Recovery.SecondPassIsQuiet | internal/controller/transition.go:80-138 | after a full pass a second full pass at the same instant leaves every live count unchanged; a deleted object is taken to be gone by then |
| Recovery.UnrecordedPassStartsOver | internal/controller/transition.go:124-167 | a pass over an object without state, such as a deleted one still listed, makes the count it finds the intended one and only in a window scales down from it |
| Outcomes.PassOutcome | internal/controller/transition.go:64-139 | over any world and under any policy, what a full pass leaves of object, state, live count and snapshot: gone when overdue under delete; min(expired, count) with the count kept when overdue otherwise; in a window min(scheduledDown, count) with the count kept; the count without a snapshot outside, or after a redeploy; an overridden count accepted; nothing under a skip; and what exactly an overdue redeploy or override captures instead |
| Outcomes.DeletedIffOverdue | internal/lifecycle/decision.go:39-43 | a full pass leaves neither object nor state exactly when the policy deletes and the revision is at least maxAge old |
| Outcomes.DeletionPlannedIff | internal/controller/transition.go:124-133 | a deletion is planned exactly then, of the pass's own workload only |
| Outcomes.DeletedIffRecordedLongAgo | internal/controller/transition.go:56-133 | after any run that did not start with the identity recorded, the next pass deletes exactly when the policy says so and some pass durably recorded the identity at least maxAge ago and it never changed since |
| Outcomes.OverduePassScalesDown | internal/controller/transition.go:197-236 | a full overdue pass under scale that makes neither mistake leaves live at min(expired, count) with the count in the durable snapshot, inside or outside windows |
| Outcomes.GoodPassExpires | internal/controller/transition.go:197-236 | the same as the last pass of any well-run faulty history, in terms of the count that history started with |
| Outcomes.ScheduleIsRead | internal/controller/transition.go:68-79 | under a compiled schedule a pass is inside exactly while some window runs by the local clock, in the one of the least name and in the instance dated by the day it started |
| Outcomes.ScheduleFails | internal/controller/transition.go:68-79 | an unknown zone or an invalid window stops the pass |
| Outcomes.PassRecords | internal/controller/transition.go:141-167 | a full pass leaves an entry with this workload's identity, policy, hashes, containers and clock, first seen when the unchanged identity was, else now |
| Outcomes.NewIdentityIsSavedFirst | internal/controller/transition.go:56-62 | an admitted pass that sees something new saves it before all else, with snapshot and window fields of the same UID and none of another, and nothing else changed |
| Outcomes.StoppedPassRecordsAtMostIdentity | internal/controller/transition.go:56-72 | a pass that cannot read the scale or evaluate the schedule does only that |
| Outcomes.PassMarksSkip | internal/controller/transition.go:90-108 | a redeploy and an override are each marked as skipped with their reason for the instance; any other pass leaves the skip as it was |
| Outcomes.PassNotesEntry | internal/controller/transition.go:80-87 | the entry revision of an instance is the one the first pass in it saw; outside all window fields are blank |
| Outcomes.PassReports | internal/lifecycle/decision.go:5-75 | the reported reason names what decided |
| Outcomes.PassReportsWhatRuns | internal/controller/transition.go:117-139 | the reported count is what the pass leaves running, unless it deletes or has just restored for a redeploy |
| Outcomes.PassCaptures | internal/controller/transition.go:197-202 | a new snapshot is of the count the pass read, at its clock, with its reason |
| Outcomes.IdlePassSavesOnce | internal/controller/transition.go:213-235 | outside windows a restore is written even where live matches; a pass with nothing to do saves once and scales nothing |
| Discipline.PlanDisciplined | internal/controller/transition.go:195-258 | each write, judged in the world it meets: scale writes are backed by a durable snapshot of this object and by a target the policy uses, saves keep, clear or create a snapshot but never replace one, and a snapshot is cleared only once live equals it or exceeds the scheduled target |
| Discipline.ScaleWritesNeverExceedSnapshot | internal/controller/transition.go:195-258 | at every scale write the durable document already holds this object's snapshot and the value written is not above it |
| Skips.PassKeepsSkip | internal/controller/transition.go:185-193 | while the instance lasts every write keeps a recorded skip durable and, unless the revision is expired, live is untouched |
| Skips.SkipHoldsThroughInstance | internal/controller/transition.go:185-193 | across any run of faulty passes within the instance that do not delete, the skip stays durable and only passes that find the revision expired touch the live count, also where it expires and is redeployed in between |
| Skips.SkipHoldsAt | internal/controller/transition.go:185-193 | the same read step by step |
| Skips.SkippedPassScalesNothing | internal/controller/transition.go:185-193 | an unexpired pass under a skip plans no scale write |
| Skips.OtherInstanceForgetsSkip | internal/controller/transition.go:185-193 | a pass that sees another instance or none follows the very course it would follow had no skip been recorded |
| Retention.DeletedOnlyAfterMaxAge | internal/controller/transition.go:124-133 | in any run that did not start with the identity recorded, a deletion is asked for by the policy, and the identity the pass sees was made durable by a pass at least maxAge earlier and never changed since |
| Retention.DeletionIsEarned | internal/controller/transition.go:124-133 | a planned deletion is of the pass's own workload, whose identity is already durable and at least maxAge old |
| Retention.FirstSeenIsLastChange | internal/controller/transition.go:141-167 | firstSeenAt is the clock of the last pass that durably recorded an identity change, after which the identity stayed |
| Retention.NewBaselineNeverExpires | internal/controller/transition.go:56-62 | a pass that records a new baseline neither deletes nor expires |
| Retention.StepKeepsIdentity | internal/controller/transition.go:141-167 | a faulty pass leaves either the recorded identity with its first-seen time, or a different one first seen by its own clock |
| Validity.NoSaveIsEverRefused | internal/state/document.go:77-147 | after any run over any number of workloads with a monotone clock and compiled policies the store is valid and no save of the next pass is refused |
| Validity.SavesAreAcceptedIff | internal/state/document.go:92-147 | over a valid store the saves of a pass that gets past its checks are all accepted exactly when the clock is not behind the first-seen time of an unchanged identity |
| Validity.RunStaysHealthy | internal/state/document.go:77-147 | runs keep every durable state valid, none last seen in the future, and every live count non-negative |
| Validity.PlanIsHealthy | internal/controller/transition.go:42-258 | every document a pass writes is valid and every count it writes is non-negative |
| Validity.BaselineIsFitIff | internal/controller/transition.go:141-167 | the reconciled identity is a valid state exactly when the identity is new or was not first seen in the future |
| Reconciling.Reconciler.Reconcile | internal/controller/transition.go:42-139 | whatever fails, in the ConfigMap store or the scale, the writes made are a prefix of the plan; success means all of it with the planned decision; a workload rejected by admission or without a revision leaves both stores and the ConfigMap exactly as they were; with no faults a pass that gets past its checks and whose documents are valid and fit succeeds |
| Reconciling.Reconciler.RunPass | internal/controller/transition.go:56-139 | the same over the loaded document |
| Reconciling.Reconciler.ContinuePass | internal/controller/transition.go:64-139 | the same from the live read on |
| Reconciling.Reconciler.FollowCourse | internal/controller/transition.go:80-139 | the same from the evaluated window on |
| Reconciling.Reconciler.PursueCourse | internal/controller/transition.go:90-139 | the same from the entered window on |
| Reconciling.Reconciler.SettleWindow | internal/controller/transition.go:90-108 | redeploy and override together write a prefix of their planned writes and leave the state the decision is made on |
| Reconciling.Reconciler.EstablishBaseline | internal/controller/transition.go:56-62 | the identity is saved exactly when it changed, and live is untouched |
| Reconciling.Reconciler.EvaluateSchedule | internal/controller/transition.go:68-79 | no window, or the window reported with the instance that dates it, or the error of either |
| Reconciling.Reconciler.BeginWindow | internal/controller/transition.go:80-87 | the edited document differs from the loaded one only in this workload's entered state |
| Reconciling.Reconciler.ReactToRedeploy | internal/controller/transition.go:90-95 | nothing is written without a pending redeploy; otherwise a prefix of the restore and the skip |
| Reconciling.Reconciler.HandleRedeployDuringWindow | internal/controller/transition.go:240-258 | the snapshot is restored before the skip and the cleared snapshot are saved together |
| Reconciling.Reconciler.AcceptOverride | internal/controller/transition.go:100-108 | a live count above the target under a snapshot is accepted with one save and no scale write |
| Reconciling.Reconciler.DeleteExpired | internal/controller/transition.go:124-133 | the object is deleted before its state is |
| Reconciling.Reconciler.ApplyDecision | internal/controller/transition.go:195-236 | the writes made are a prefix of those the decision asks for, in crash-safe order |
| Reconciling.Reconciler.CaptureThenScale | internal/controller/transition.go:197-211 | no scale write happens unless the snapshot was reported durable |
| Reconciling.Reconciler.RestoreThenClear | internal/controller/transition.go:213-222 | the snapshot is not cleared unless the scale write was reported done |
| Reconciling.Reconciler.ScaleThenRecord | internal/controller/transition.go:224-235 | scale first, then the record, each only when wanted |
| Reconciling.Cluster.Save | internal/controller/transition.go:260-265 | over the ConfigMap store, an invalid document is never stored; otherwise the write is lost, made, or made and reported as failed, and the stored text decodes to the recorded document |
| Reconciling.Cluster.Load | internal/state/configmap.go:66-84 | the loaded document is the durable one, and loading changes neither store, creating a missing ConfigMap included |
| ConfigMapStore.SavedStates | internal/state/configmap.go:104-113 | a commit makes the stored text stand for exactly the saved states and leaves the room for other documents as it was |
| ConfigMapStore.ProperSaveIs | internal/state/configmap.go:104-113 | a committed save writes its payload under states.json, keeps every other entry and all binary data, stays within 1 MiB, and replaced only a version that decoded |
| Transition.CourseFromSame | internal/controller/transition.go:80-139 | what a pass writes does not depend on the entry its own baseline overwrote |
| Runs.StepLeavesOthersAlone | internal/controller/transition.go:42-139 | whatever fails, a pass leaves every other workload's state and replicas as they were |
| Runs.RejectedStepChangesNothing | internal/controller/transition.go:42-50 | a pass over a workload rejected by admission or without a revision plans and changes nothing |
| Runs.RejectedRunChangesNothing | internal/controller/transition.go:43-45 | any run in which every pass over a workload is rejected leaves its state and replicas as they were |
| Orchestrator.Controller.ReconcileAll | internal/controller/orchestrator.go:171-185 | a batch is a run of passes over the governed listed workloads in order, all of them unless cancelled, and each completes when nothing fails over a healthy store with room for its documents |
| Orchestrator.Controller.ReconcileItems | internal/controller/orchestrator.go:178-183 | the same for the items of one list |
| Orchestrator.Controller.ReconcileOne | internal/controller/orchestrator.go:187-218 | exactly one faulty pass under the selected policy, or nothing at all without a policy set, on a conflict or with no match |
| Orchestrator.UnlistedIsUntouched | internal/controller/orchestrator.go:171-218 | a batch, wherever it stops, leaves every workload it does not list as it was |
| Orchestrator.BatchKeepsEveryCount | internal/controller/orchestrator.go:171-218 | with distinct keys, a pass that would make no mistake alone in the world the batch starts from makes none within the batch, so every intended count is kept at once |
| Orchestrator.OutcomeIsUnique | internal/policy/matcher.go:16-48 | a policy list and a workload have one match outcome |
| Orchestrator.GovernsIff | internal/controller/orchestrator.go:187-206 | a policy governs an item exactly when it takes its kind, name and labels and outranks every other one that does |
| Orchestrator.RequestCarriesItem | internal/controller/orchestrator.go:187-218 | its request is for the listed workload under that policy, as admitted and by its own clock |
| Orchestrator.ListsFollowEachOther | internal/controller/orchestrator.go:171-185 | a batch serves the lists one after another, a failed list counting for nothing |
| Orchestrator.RequestsFollowItems | internal/controller/orchestrator.go:178-183 | and the items one after another, one request each or none |
| ConfigMapStore.Store.Save | internal/state/configmap.go:86-119 | success is exactly one commit, over the version stored just before, of only the state key; failure on an unambiguous server commits nothing; with no other writer the store holds the old document or the saved one; with no faults it succeeds exactly when the stored state is well formed and the result fits |
| ConfigMapStore.Store.Load | internal/state/configmap.go:66-84 | the result is valid and is what the server stored at the read; nothing is ever replaced, at most a missing ConfigMap is created |
| ConfigMapStore.Store.Retry | internal/state/configmap.go:169-202 | attempts and sleeps alternate, only a conflict is retried, the k-th sleep is the k-th delay, the outcome is that of the last attempt, and at most one commit is made in all |
| ConfigMapStore.Store.SaveOnce | internal/state/configmap.go:91-114 | one attempt: malformed state is never overwritten and no commit exceeds the limit |
| ConfigMapStore.Store.LoadOnce | internal/state/configmap.go:68-79 | one attempt: the decoded document is that of the version read or created |
| ConfigMapStore.Store.CreatePayload | internal/state/configmap.go:129-138 | the created ConfigMap holds just the state key, within the limit |
| ConfigMapStore.Server.Update | internal/state/configmap.go:112-113 | an update made from a version takes effect only over that version's contents, whoever wrote in between |
| ConfigMapStore.CallIsBounded | internal/state/configmap.go:169-202 | every call makes at most max(1, Steps) attempts, exactly that many when it gives up, and with a positive maximum sleeps at most (max(1, Steps) - 1) times the larger of the initial and the maximum delay |
| ConfigMapStore.CallEnds | internal/state/configmap.go:179-201 | a conflict or already-exists reply, and nothing else, is followed by another attempt as long as any are left; otherwise the last attempt's result is the call's |
| ConfigMapStore.NextDelayIs | internal/state/configmap.go:174-199 | each delay is the one before times the factor, at least one, rounded towards zero and cut off at the maximum |
| ConfigMapStore.DefaultCallIsBounded | internal/state/configmap.go:37-39 | with the default settings a call makes at most five attempts and sleeps at most 150 ms, and gives up exactly after five conflicts and 150 ms |
| ConfigMapStore.DelaysAreGeometric | internal/state/configmap.go:196-199 | for a whole factor n the k-th delay is initial * n^k cut off at the maximum |
| ConfigMapStore.ObserveCapacity | internal/state/configmap.go:140-159 | the total is the combined length of all values whatever order they are visited in, with the warning and limit flags |
| ConfigMapStore.SumLengthsStep | internal/state/configmap.go:144-152 | the sum may be taken from any entry first |
| ConfigMapStore.NewDocumentEncodes | internal/state/types.go:69-75 | the empty document encodes, and decodes to itself |
| Schedule.MatchesIffOccurs | internal/schedule/window.go:54-80 | matching never fails on a valid window, holds exactly when some start day's half-open occurrence contains the minute, and that occurrence is unique and is the dated one |
| Schedule.SameInstanceIffSameOccurrence | internal/schedule/instance.go:36-60 | two matching minutes get the same date exactly when one occurrence contains both |
| Schedule.MatchReportsLeastName | internal/schedule/window.go:31-52 | on valid windows Match never fails, reports nothing exactly when nothing occurs, and otherwise the least name that does |
| Schedule.MatchIgnoresWindowOrder | internal/schedule/window.go:31-52 | the result is the same for every order of the windows, valid or not |
| Ordering.FirstDifferenceDecides | internal/schedule/window.go:47 | strings are sorted by the character where they first differ, and a string comes after its prefixes |
| Schedule.InstanceNamesTheOccurrence | internal/schedule/instance.go:19-61 | for compiled windows the instance of the reported name exists, dates the occurrence containing now, and starts on one of that window's days |
| Schedule.Match | internal/schedule/window.go:31-52 | the loop computes the match result that the members around this row characterise |
| Schedule.MatchFollowsTheClock | internal/schedule/window.go:31-80 | Match reports the least name of the windows running on the local clock, to the nanosecond, and nothing exactly when none runs |
| Schedule.MatchFailsIff | internal/schedule/window.go:32-42 | Match fails exactly in an unknown zone or on an invalid window, and no zone is UTC |
| Schedule.CalendarIsRight | internal/schedule/window.go:104-106 | weekdays follow each other in order and 1 January 1970 was a Thursday |
| Schedule.WindowInstanceID | internal/schedule/instance.go:19-61 | the loop computes the instance that the members around this row characterise |
| Schedule.InstanceFollowsTheClock | internal/schedule/instance.go:36-60 | the date of any instant is that of its local day, which runs from midnight, or from the window's end when that is not after its start; unparsable bounds fail |
| Schedule.InstanceFailsWithout | internal/schedule/instance.go:20-34 | there is no instance in an unknown zone or of an unknown window, and no zone is UTC |
| Schedule.ValidateWindow | internal/schedule/validate.go:5-40 | accepts exactly a named window with known, distinct start days that lasts all day without bounds or has two different readable ones |
| Schedule.ParseFormatRoundTrip | internal/schedule/window.go:82-93 | every minute of the day in canonical HH:MM parses back to itself |
| Schedule.ParseMinute | internal/schedule/window.go:82-93 | success yields a minute of the day |
| Schedule.ClockTextReads | internal/schedule/window.go:82-93 | four digits read as hours and minutes exactly when these are in range |
| Schedule.UnsignedTextIsCanonical | internal/schedule/window.go:82-93 | text without a sign parses to a minute exactly when it is that minute's HH:MM |
| Schedule.SignedText | internal/schedule/window.go:82-93 | a plus before a digit counts for nothing, a minus passes only with zero, any other character is refused |
| Revision.CalculateRevision | internal/lifecycle/revision.go:34-54 | the loops compute the specified identity; refused are exactly another source, incomplete, repeated or no containers, and an empty, repeating or unknown tracked list; what is kept is the tracked containers, strictly sorted |
| Revision.RevisionHashSees | internal/lifecycle/revision.go:47-53 | under any two specifications the revision hashes are equal exactly when the tracked containers are |
| Revision.TrackingHashSees | internal/lifecycle/revision.go:42-46 | the tracking hashes are equal exactly when both or neither list names and the tracked names are the same |
| Revision.KeysTellApart | internal/workload/types.go:25-27 | names without a slash tell workloads apart by key |
| Revision.SelectContainers | internal/lifecycle/revision.go:56-97 | accepted exactly when selectable, and then the canonical selection |
| Revision.PickableIffSelectable | internal/lifecycle/revision.go:84-95 | the after-sort adjacent check and lookup reject exactly the duplicated, unknown or unselectable lists |
| Revision.SelectionIsCanonical | internal/lifecycle/revision.go:56-97 | the selection is non-empty, strictly sorted by name and holds exactly the tracked containers |
| Revision.RevisionIgnoresOrder | internal/lifecycle/revision.go:34-97 | permuting containers or tracked names changes nothing, acceptance included |
| Revision.RevisionSeesExactlyTrackedContainers | internal/lifecycle/revision.go:34-97 | revision hashes are equal exactly when the tracked containers are |
| Policies.Match | internal/policy/matcher.go:16-48 | the loops compute the outcome that the members around this row characterise |
| Policies.SelectedIffOutranks | internal/policy/matcher.go:16-48 | a policy is selected exactly when it applies and outranks every other one that does |
| Policies.TargetsUnite | internal/policy/types.go:62-90 | a target takes what its selector or any of its patterns alone would take, and nothing without either |
| Policies.SelectorTakes | internal/policy/types.go:62-86 | a target with only a selector takes the listed kinds whose labels it accepts |
| Policies.PatternTakes | internal/policy/types.go:62-98 | a target with only a pattern takes the listed kinds whose non-empty names it accepts |
| Policies.WidenedStaysSelected | internal/policy/matcher.go:16-48 | a workload stays governed by its policy when kinds, a selector or patterns are added to it |
| Policies.MatchSelectsUniqueHighest | internal/policy/matcher.go:16-48 | a policy is selected exactly when it is the only applicable one that no applicable one outranks |
| Policies.ConflictListsTiedNames | internal/policy/matcher.go:38-47 | a conflict lists exactly the tied names, strictly sorted |
| Policies.NothingIffNoneApplies | internal/policy/matcher.go:16-48 | no policy and no conflict exactly when none applies |
| Policies.MatchIgnoresPolicyOrder | internal/policy/matcher.go:16-48 | the outcome is the same for every permutation of the policies |
| Policies.CompilePolicySet | internal/policy/validate.go:15-39 | accepted exactly when version and kind are the known ones, every policy is acceptable and no name repeats; each result says what its raw policy said, or the defaults, and is fit for every later stage |
| Policies.CompilePolicy | internal/policy/validate.go:41-65 | accepted exactly when every part is; the result carries each configured value or its default and satisfies what matching, decisions, windows and saves rely on |
| Policies.CompileLifecycle | internal/policy/validate.go:168-218 | accepted exactly when well formed; the age is the configured one or 72 hours, the source ContainerImages, and the action delete only when that word is given |
| Policies.CompileReplicas | internal/policy/validate.go:220-235 | compiled targets are non-negative |
| Policies.CompileSchedule | internal/policy/validate.go:237-262 | accepted exactly with a known zone and valid, uniquely named windows |
| Policies.CompileTarget | internal/policy/validate.go:67-110 | accepted exactly with distinct supported kinds and usable selectors or patterns, all of which it keeps in order |
| Decision.NeverAboveBaseline | internal/lifecycle/decision.go:39-75 | no decision goes above the live count without a snapshot, or above the larger of the two with one |
| Decision.PrecedenceHolds | internal/lifecycle/decision.go:39-65 | expiry decides alone, then the skip, then the window, then the snapshot; whatever comes later has no say |
| Decision.DownStateRaisesIff | internal/lifecycle/decision.go:67-75 | a scheduled down state raises live exactly when, unskipped, a snapshot exists and live is below min(target, snapshot) |
| State.ValidateDocument | internal/state/document.go:77-90 | accepts exactly version 1 documents with states, each of them valid under its key, in any map order |
| State.ValidateWorkloadState | internal/state/document.go:92-147 | accepts exactly the states whose every field is as persisted ones must be: kind, key, names, policy, hashes, source, sorted containers, UTC times in order, and a usable snapshot |
| State.HashIsDigestText | internal/state/document.go:148-162 | a hash is sha256: with 64 lowercase hexadecimal digits |
| State.ValidateContainers | internal/state/document.go:114-126 | the neighbour comparison accepts exactly the non-empty, fully named, strictly sorted lists |
| State.NormalizeDocument | internal/state/document.go:175-194 | the loop computes the normal form |
| State.NormalFormKeepsInstants | internal/state/document.go:175-194 | normalising puts times in UTC, moving no instant and touching nothing else |
| State.ValidIsNormal | internal/state/document.go:164-194 | a valid document is its own normal form |
| State.EncodeDecodeRoundTrip | internal/state/document.go:26-75 | whatever encodes decodes to its normal form |
| State.GatesRefuseIff | internal/state/document.go:39-75 | encoding refuses exactly what is not valid once in UTC, decoding exactly what does not parse to a valid document, and a valid document comes back as it was |
| State.DecodedIsValid | internal/state/document.go:51-75 | only valid documents are ever decoded, and each encodes again |
| Cleanup.CleanupDeleted | internal/state/cleanup.go:38-77 | a state goes exactly when its kind was listed completely, the list does not show its UID and its retention has passed, and the others stay as they are; removed and retained count the rest and the kept, in any map order; it fails exactly on an invalid document, an unset clock, a negative retention or an empty listed UID |
| Cleanup.CleanupKeepsLiveState | internal/state/cleanup.go:54-68 | no state of a workload listed with the same UID, or of an incompletely listed kind, is lost or altered, and the result is valid |

## Left out

- Kubernetes clients, watches, HPA listing, leader election, metrics, logs and the main wiring: HPA admission is a boolean checked first, scale and deletion are fallible steps.
- SHA-256 and JSON canonicalisation: a computed digest is represented by the canonical value it is computed from, so equal digests mean equal values and its text always has the form the validation asks for; any other text in a hash field is kept as text and validated.
- JSON text: encoding is an abstract pair of functions, assumed to round-trip only where a member says the codec is lawful.
- Label selectors and name patterns: the predicates they compile to; YAML decoding of a policy file.
- The time zone database and daylight saving: a zone is unset, unknown or a fixed offset.
- Clock text: strconv.Atoi also accepts signs, so text such as +5:30 parses; the model follows the code (SignedText).
- 64-bit overflow of durations and times, 32-bit replica counts and the rounding of a float factor; numbers are unbounded and the factor is a real number.
- Outside writers of the live scale: runs assume none, replacement of an object by another of the same name between runs aside, since an outside count above the target is accepted by design and below it is overwritten.
- Two controllers writing at once: Save overwrites the state key with the caller's whole document, so transitions assume one leader; the store itself is modelled against any other writers.
- An ambiguous server may fail a write that took effect, but a conflict or already-exists reply is taken to mean the write did not.
- The DesiredReplicas reported after a redeploy restore, which reflects the count read before it.
- Error texts and which of several errors is reported.
- The supervising loops around reconcileAll, request coalescing and tickers; a batch takes the policy set, admission and clock of each item as inputs.
- Reconcile: the source's single function is split into helper methods at its comments, each verified by itself.
- NewBaselineNeverExpires: needs a positive maxAge, which compilation guarantees.
- SecondPassIsQuiet: assumes a policy whose expiry never aims above a scheduled target and no stale capture, the same conditions as the count theorem, and takes a deleted object to be gone at once. The deleter asks for foreground propagation (internal/workload/deleter.go:29), so the object can still be listed with its state gone; what a pass then does is UnrecordedPassStartsOver, and the count theorem does not cover an object after its deletion was asked for.
- Older prose: proposal.md:294, proposal.md:492 and proposal.md:593-609 predate the redeploy skip and the override rule, and README.md:152 promises no upward scaling only on entry to a down state (Decision.DownStateRaisesIff); the model follows the code.
