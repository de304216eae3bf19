// What a pass nothing goes wrong in brings about, told from the recorded state, the live count
// and the clock alone.
module Outcomes {
  import opened Basics
  import opened Ordering
  import opened Schedule
  import opened Revision
  import opened Policies
  import opened Decision
  import opened State
  import opened Transition
  import opened Runs
  import opened Intent
  import opened Recency
  import opened Recovery
  import opened Retention

  // ----- What a pass finds -----

  // The revision the pass sees.
  function Seen(r: Request): Result<RevisionIdentity> {
    Calculate(r.current.containers, r.policy.lifecycle.revision)
  }

  // The store holds a state of this very object; one without a UID is never known.
  predicate Known(w: World, r: Request) {
    r.current.uid != "" && r.Key() in w.durable && w.durable[r.Key()].workloadUID == r.current.uid
  }

  // And of the revision and the tracking this pass sees.
  predicate Unchanged(w: World, r: Request)
    requires Seen(r).Ok?
  {
    && Known(w, r)
    && w.durable[r.Key()].trackingSpecHash == Seen(r).value.trackingSpecHash
    && w.durable[r.Key()].revisionHash == Seen(r).value.revisionHash
  }

  // The revision was first seen, or is seen now, at least maxAge ago.
  predicate Overdue(w: World, r: Request)
    requires Seen(r).Ok?
  {
    var first := if Unchanged(w, r) then w.durable[r.Key()].firstSeenAt.nanos else r.clock.nanos;
    r.clock.nanos - first >= r.policy.lifecycle.maxAge
  }

  function Found(w: World, r: Request): Option<int> {
    if Known(w, r) && w.durable[r.Key()].replicaSnapshot.Some?
    then Some(w.durable[r.Key()].replicaSnapshot.value.replicas) else None
  }

  // What the store says of windows it says of the one the pass is in.
  predicate SameInstance(w: World, r: Request, view: WindowView) {
    view.Inside? && Known(w, r) && w.durable[r.Key()].windowInstanceID == view.instance
  }

  predicate Skipping(w: World, r: Request, view: WindowView) {
    SameInstance(w, r, view) && w.durable[r.Key()].scaleDownSkipped
  }

  // The instance was entered with another revision, and nothing was done about it yet.
  predicate Redeployed(w: World, r: Request, view: WindowView)
    requires Seen(r).Ok?
  {
    && SameInstance(w, r, view) && !w.durable[r.Key()].scaleDownSkipped
    && w.durable[r.Key()].windowEntryRevision != NoDigest
    && w.durable[r.Key()].windowEntryRevision != Seen(r).value.revisionHash
  }

  // More replicas run in a window than the target, though there is a snapshot.
  predicate Overridden(w: World, r: Request, view: WindowView)
    requires Seen(r).Ok? && r.Key() in w.live
  {
    && view.Inside? && !Skipping(w, r, view) && !Redeployed(w, r, view)
    && Found(w, r).Some? && w.live[r.Key()] > r.policy.replicas.scheduledDown
  }

  // Nothing keeps the window from holding the workload down.
  predicate HeldDown(w: World, r: Request, view: WindowView)
    requires Seen(r).Ok? && r.Key() in w.live
  {
    view.Inside? && !Redeployed(w, r, view) && !Overridden(w, r, view) && !Skipping(w, r, view)
  }

  // Admitted, with a revision, a live object and a schedule that can be evaluated.
  predicate Runnable(w: World, r: Request, view: WindowView) {
    && r.current.uid != "" && r.admitted && r.Key() in w.live
    && Seen(r).Ok?
    && WindowAt(r.Now(), r.policy.schedule) == Ok(view)
  }

  // ----- Where now stands -----

  // Without a schedule a pass is outside all windows. Under a compiled one it is inside exactly
  // while a window runs by the local clock: in the one of the least name, and in the instance
  // dated by the day that window started.
  lemma ScheduleIsRead(now: Time, schedule: Option<DownSchedule>)
    requires schedule.Some? ==> CompiledSchedule(schedule.value)
    ensures WindowAt(now, schedule).Ok?
    ensures schedule.None? ==> WindowAt(now, schedule).value == Outside
    ensures schedule.Some? ==>
      var DownSchedule(zone, windows) := schedule.value;
      var view := WindowAt(now, schedule).value;
      && (view.Outside? <==> forall w, day :: w in windows ==> !Running(w, day, LocalNanos(now, zone.offset)))
      && (view.Inside? ==>
            && view.instance.Instance? && view.instance.name == view.name
            && (exists w :: w in windows && w.name == view.name
                            && Running(w, view.instance.startDay, LocalNanos(now, zone.offset)))
            && forall w, day :: w in windows && Running(w, day, LocalNanos(now, zone.offset)) ==>
                 StrLe(view.name, w.name))
  {
    if schedule.Some? {
      var DownSchedule(zone, windows) := schedule.value;
      MatchFollowsTheClock(now, zone.offset, windows);
      var found := Schedule.MatchResult(now, zone, windows).value;
      if found.Some? {
        InstanceNamesTheOccurrence(now, zone.offset, windows, found.value);
        var w := FirstNamed(windows, found.value).value;
        RunningIffOccurs(w, InstanceDay(w, LocalMinute(now, zone.offset)), now, zone.offset);
        assert found.value != "";
      }
    }
  }

  // A pass stops where the schedule names an unknown zone or holds an invalid window.
  lemma ScheduleFails(now: Time, schedule: DownSchedule)
    requires schedule.zone == Unknown || exists w :: w in schedule.windows && !ValidWindow(w)
    ensures WindowAt(now, Some(schedule)).Err?
  {
    MatchFailsIff(now, schedule.zone, schedule.windows);
  }

  // ----- The entered state says the same -----

  lemma EnteredMeans(w: World, r: Request, view: WindowView)
    requires r.current.uid != "" && Seen(r).Ok?
    ensures var entered := Entered(w.durable, r, Seen(r).value, view);
      && SnapshotOf(entered) == Found(w, r)
      && entered.workloadUID == r.current.uid
      && (entered.scaleDownSkipped <==> Skipping(w, r, view))
      && (RedeployPending(entered, view, entered.revisionHash) <==> Redeployed(w, r, view))
      && (forall live :: Expired(InputFor(entered, view, live, r.policy, r.Now())) <==> Overdue(w, r))
  {}

  // What the pass leaves of an entered state, case by case.
  lemma LeftFrom(entered: WorkloadState, view: WindowView, live: int, policy: Policy, now: Time, expired: bool)
    requires expired <==> Expired(InputFor(entered, view, live, policy, now))
    requires entered.scaleDownSkipped ==> view.Inside?
    ensures var s := Settled(entered, view, live, policy.replicas.scheduledDown);
      var d := Decide(InputFor(s, view, live, policy, now));
      var found := SnapshotOf(entered);
      var count := if found.Some? then found.value else live;
      var pending := RedeployPending(entered, view, entered.revisionHash);
      var seen := !pending && OverrideSeen(entered, view, live, policy.replicas.scheduledDown);
      var restored := if pending && found.Some? then count else live;
      var left, end := LeftState(s, live, d, now), LeftLive(restored, d);
      && (d.deleteWorkload <==> expired && policy.lifecycle.expiredAction == "delete")
      && (!d.deleteWorkload ==>
            && left.workloadUID == entered.workloadUID
            && (expired && pending ==>
                  SnapshotOf(left) == Some(live)
                  && end == (if live <= policy.replicas.expired then count else policy.replicas.expired))
            && (expired && seen ==> SnapshotOf(left) == Some(live) && end == Min(policy.replicas.expired, live))
            && (expired && !pending && !seen ==>
                  SnapshotOf(left) == Some(count) && end == Min(policy.replicas.expired, count))
            && (!expired && (view.Outside? || pending) ==> SnapshotOf(left).None? && end == count)
            && (!expired && seen ==> SnapshotOf(left).None? && end == live)
            && (!expired && entered.scaleDownSkipped ==> SnapshotOf(left) == found && end == live)
            && (!expired && view.Inside? && !pending && !seen && !entered.scaleDownSkipped ==>
                  SnapshotOf(left) == Some(count) && end == Min(policy.replicas.scheduledDown, count)))
  {}

  // ----- The outcome -----

  // The whole outcome of a pass nothing goes wrong in, over any world and under any policy.
  lemma PassOutcome(w: World, r: Request, view: WindowView)
    requires Runnable(w, r, view)
    ensures var live, expired := w.live[r.Key()], r.policy.replicas.expired;
      var count := if Found(w, r).Some? then Found(w, r).value else live;
      var end := Perform(w, Plan(w, r));
      if Overdue(w, r) && r.policy.lifecycle.expiredAction == "delete" then
        r.Key() !in end.live && r.Key() !in end.durable
      else
        && r.Key() in end.live && Known(end, r)
        && (Overdue(w, r) && Redeployed(w, r, view) ==>
              Found(end, r) == Some(live) && end.live[r.Key()] == if live <= expired then count else expired)
        && (Overdue(w, r) && Overridden(w, r, view) ==>
              Found(end, r) == Some(live) && end.live[r.Key()] == Min(expired, live))
        && (Overdue(w, r) && !Redeployed(w, r, view) && !Overridden(w, r, view) ==>
              Found(end, r) == Some(count) && end.live[r.Key()] == Min(expired, count))
        && (!Overdue(w, r) && (view.Outside? || Redeployed(w, r, view)) ==>
              Found(end, r).None? && end.live[r.Key()] == count)
        && (!Overdue(w, r) && Overridden(w, r, view) ==>
              Found(end, r).None? && end.live[r.Key()] == live)
        && (!Overdue(w, r) && Skipping(w, r, view) ==>
              Found(end, r) == Found(w, r) && end.live[r.Key()] == live)
        && (!Overdue(w, r) && HeldDown(w, r, view) ==>
              Found(end, r) == Some(count) && end.live[r.Key()] == Min(r.policy.replicas.scheduledDown, count))
  {
    var entered := Entered(w.durable, r, Seen(r).value, view);
    EnteredMeans(w, r, view);
    LeftFrom(entered, view, w.live[r.Key()], r.policy, r.Now(), Overdue(w, r));
    if DecisionOf(w, r).deleteWorkload {
      DeletedPass(w, r, view);
    } else {
      PassLeaves(w, r, view);
    }
  }

  // ----- What the outcome means -----

  // The workload is gone, object and state, after a full pass exactly when the policy deletes
  // and the revision is overdue.
  lemma DeletedIffOverdue(w: World, r: Request, view: WindowView)
    requires Runnable(w, r, view)
    ensures var end := Perform(w, Plan(w, r));
      && (r.Key() !in end.live <==> Overdue(w, r) && r.policy.lifecycle.expiredAction == "delete")
      && (r.Key() !in end.durable <==> Overdue(w, r) && r.policy.lifecycle.expiredAction == "delete")
  {
    PassOutcome(w, r, view);
  }

  lemma DeletesIff(w: World, r: Request, view: WindowView)
    requires Runnable(w, r, view)
    ensures DecisionOf(w, r).deleteWorkload <==> Overdue(w, r) && r.policy.lifecycle.expiredAction == "delete"
  {
    EnteredMeans(w, r, view);
    LeftFrom(Entered(w.durable, r, Seen(r).value, view), view, w.live[r.Key()], r.policy, r.Now(), Overdue(w, r));
  }

  lemma FinalDeletesIff(states: States, key: string, s: WorkloadState, view: WindowView,
                        live: int, policy: Policy, identitySaved: bool, now: Time, gone: string)
    ensures DeleteWorkload(gone) in FinalStage(states, key, s, view, live, policy, identitySaved, now)
       <==> gone == key && Decide(InputFor(s, view, live, policy, now)).deleteWorkload
  {
    if Decide(InputFor(s, view, live, policy, now)).deleteWorkload {
      assert DeleteWrites(states, key)[0] == DeleteWorkload(key);
    }
  }

  lemma CourseDeletesIff(states: States, key: string, entered: WorkloadState, view: WindowView,
                         live: int, policy: Policy, identitySaved: bool, now: Time, gone: string)
    ensures var s := Settled(entered, view, live, policy.replicas.scheduledDown);
      DeleteWorkload(gone) in Course(states, key, entered, view, live, policy, identitySaved, now)
      <==> gone == key && Decide(InputFor(s, view, live, policy, now)).deleteWorkload
  {
    FinalDeletesIff(states, key, Settled(entered, view, live, policy.replicas.scheduledDown), view, live, policy,
                    identitySaved, now, gone);
    assert DeleteWorkload(gone) !in SettleStages(states, key, entered, view, live, policy.replicas.scheduledDown);
  }

  // A deletion is planned exactly then, and of nothing but the pass's own workload.
  lemma DeletionPlannedIff(w: World, r: Request, view: WindowView, gone: string)
    requires Runnable(w, r, view)
    ensures DeleteWorkload(gone) in Plan(w, r)
       <==> gone == r.Key() && Overdue(w, r) && r.policy.lifecycle.expiredAction == "delete"
  {
    DeletesIff(w, r, view);
    CourseDeletesIff(w.durable, r.Key(), Entered(w.durable, r, Seen(r).value, view), view, w.live[r.Key()],
                     r.policy, IdentityChanged(w.durable, r, Seen(r).value), r.Now(), gone);
    assert DeleteWorkload(gone) !in BaselineWrites(w.durable, r, Seen(r).value);
  }

  // After any run that did not start with the identity recorded, a pass over the workload
  // deletes it exactly when its policy says so and the identity it sees was recorded durably,
  // at least maxAge ago, and never changed since.
  lemma DeletedIffRecordedLongAgo(w: World, steps: seq<Step>, r: Request, view: WindowView)
    requires Runnable(Run(w, steps), r, view) && r.policy.lifecycle.maxAge > 0
    requires !Unchanged(w, r)
    requires forall i :: 0 <= i < |steps| ==> steps[i].r.current.uid != ""
    ensures DeleteWorkload(r.Key()) in Plan(Run(w, steps), r)
       <==> && r.policy.lifecycle.expiredAction == "delete" && Unchanged(Run(w, steps), r)
            && exists j: nat :: RecordedBy(w, steps, r.Key(), j)
                           && r.clock.nanos >= steps[j].r.clock.nanos + r.policy.lifecycle.maxAge
  {
    DeletionPlannedIff(Run(w, steps), r, view, r.Key());
    if Unchanged(Run(w, steps), r) {
      var j := FirstSeenIsLastChange(w, steps, r.Key());
    }
  }

  // Whatever a pass under a schedule-less or scaling policy found before, an overdue revision
  // that it has not to restore for goes down to the expired target with its count kept safe.
  lemma OverduePassScalesDown(w: World, r: Request, view: WindowView, c: int)
    requires Runnable(w, r, view) && Counted(w, r.Key(), r.current.uid, c)
    requires Overdue(w, r) && r.policy.lifecycle.expiredAction != "delete"
    requires !StaleCapture(w, r) && !WrongOverride(w, r)
    ensures var end := Perform(w, Plan(w, r));
      && r.Key() in end.live && end.live[r.Key()] == Min(r.policy.replicas.expired, c)
      && DurableSnapshot(end.durable, r.Key(), r.current.uid) == Some(c)
  {
    PassOutcome(w, r, view);
    EnteredMeans(w, r, view);
  }

  lemma {:induction false} NeverStaleLast(w: World, steps: seq<Step>, last: Step, key: string)
    requires NeverStale(w, steps + [last], key) && last.r.Key() == key
    ensures !StaleCapture(Run(w, steps), last.r)
    decreases |steps|
  {
    if steps != [] {
      assert (steps + [last])[1..] == steps[1..] + [last];
      NeverStaleLast(After(w, steps[0]), steps[1..], last, key);
    }
  }

  lemma {:induction false} FollowedLast(steps: seq<Step>, last: Step, key: string, uid: string, t: int)
    requires Followed(steps + [last], key, uid, t) && last.r.Key() == key
    ensures Followed(steps, key, uid, t)
    ensures last.r.current.uid == uid && Follows(last.r.policy, FinalBound(steps, key, t))
    decreases |steps|
  {
    if steps != [] {
      assert (steps + [last])[1..] == steps[1..] + [last];
      FollowedLast(steps[1..], last, key, uid, if steps[0].r.Key() == key then NextBound(steps[0].r.policy, t) else t);
    }
  }

  lemma {:induction false} WellTimedPrefix(schedules: set<DownSchedule>, steps: seq<Step>, last: Step,
                                           key: string, who: Option<string>, clock: int)
    requires WellTimed(schedules, steps + [last], key, who, clock)
    ensures WellTimed(schedules, steps, key, who, clock)
    decreases |steps|
  {
    if steps != [] {
      var r := steps[0].r;
      assert (steps + [last])[1..] == steps[1..] + [last];
      if r.Key() == key {
        WellTimedPrefix(schedules + OwnSchedule(r.policy), steps[1..], last, key, who, r.clock.nanos);
      } else {
        WellTimedPrefix(schedules, steps[1..], last, key, who, clock);
      }
    }
  }

  // The last pass of a well-run history meets the count it started with and makes no mistake.
  lemma LastPassIsUnmistaken(w: World, steps: seq<Step>, r: Request, t: int, clock: int)
    requires WellRun(steps + [Step(r, 0)], r.Key(), r.current.uid, t, clock)
    requires r.current.uid != "" && Unrecorded(w, r.Key(), r.current.uid) && r.Key() in w.live
    ensures !StaleCapture(Run(w, steps), r) && !WrongOverride(Run(w, steps), r)
    ensures Counted(Run(w, steps), r.Key(), r.current.uid, w.live[r.Key()])
  {
    var key, uid, c, last := r.Key(), r.current.uid, w.live[r.Key()], Step(r, 0);
    var bound := FinalBound(steps, key, t);
    NoReachableStaleCapture({}, w, steps + [last], key, Some(uid), clock);
    NeverStaleLast(w, steps, last, key);
    FollowedLast(steps, last, key, uid, t);
    WellTimedPrefix({}, steps, last, key, Some(uid), clock);
    ReplicaCountIsNeverLost(w, steps, key, uid, t, clock);
    SafeUnderMore(Run(w, steps), key, uid, bound, NextBound(r.policy, bound), c);
    SafeOverrides(Run(w, steps), r, NextBound(r.policy, bound), c);
  }

  // The same after any well-run history, in terms of the count that history started with.
  lemma GoodPassExpires(w: World, steps: seq<Step>, r: Request, view: WindowView, t: int, clock: int)
    requires WellRun(steps + [Step(r, 0)], r.Key(), r.current.uid, t, clock)
    requires Unrecorded(w, r.Key(), r.current.uid) && r.Key() in w.live
    requires Runnable(Run(w, steps), r, view)
    requires Overdue(Run(w, steps), r) && r.policy.lifecycle.expiredAction != "delete"
    ensures var end := Perform(Run(w, steps), Plan(Run(w, steps), r));
      && r.Key() in end.live && end.live[r.Key()] == Min(r.policy.replicas.expired, w.live[r.Key()])
      && DurableSnapshot(end.durable, r.Key(), r.current.uid) == Some(w.live[r.Key()])
  {
    LastPassIsUnmistaken(w, steps, r, t, clock);
    OverduePassScalesDown(Run(w, steps), r, view, w.live[r.Key()]);
  }

  // ----- What a pass records -----

  // The state is this workload's as the pass saw it, first seen at the given time.
  predicate Describes(s: WorkloadState, r: Request, firstSeenAt: Time)
    requires Seen(r).Ok?
  {
    var revision := Seen(r).value;
    && s.kind == r.current.kind && s.namespace == r.current.namespace && s.name == r.current.name
    && s.workloadUID == r.current.uid && s.lastPolicyName == r.policy.name
    && s.trackingSpecHash == revision.trackingSpecHash && s.revisionHash == revision.revisionHash
    && s.source == "ContainerImages" && s.containers == revision.containers
    && s.firstSeenAt == firstSeenAt && s.lastSeenAt == Time(r.clock.nanos, 0)
  }

  predicate Records(states: States, r: Request, firstSeenAt: Time)
    requires Seen(r).Ok?
  {
    r.Key() in states && Describes(states[r.Key()], r, firstSeenAt)
  }

  // When the identity the pass sees was first seen.
  function FirstSeen(w: World, r: Request): Time
    requires Seen(r).Ok?
  {
    if Unchanged(w, r) then w.durable[r.Key()].firstSeenAt else Time(r.clock.nanos, 0)
  }

  lemma BaselineDescribes(w: World, r: Request)
    requires r.current.uid != "" && Seen(r).Ok?
    ensures Describes(Baseline(w.durable, r, Seen(r).value), r, FirstSeen(w, r))
  {}

  // The states differ at most in snapshot and window fields.
  predicate SameDescription(s: WorkloadState, t: WorkloadState) {
    s == t.(replicaSnapshot := s.replicaSnapshot, windowEntryRevision := s.windowEntryRevision,
            windowInstanceID := s.windowInstanceID, scaleDownSkipped := s.scaleDownSkipped,
            scaleDownSkipReason := s.scaleDownSkipReason)
  }

  lemma LeftDescribes(baseline: WorkloadState, view: WindowView, live: int, target: int, d: Decision, now: Time)
    ensures var entered := EnterWindow(baseline, view, baseline.revisionHash);
      SameDescription(LeftState(Settled(entered, view, live, target), live, d, now), baseline)
  {}

  // A full pass leaves an up-to-date entry, unless it deletes it.
  lemma PassRecords(w: World, r: Request, view: WindowView)
    requires Runnable(w, r, view)
    ensures !(Overdue(w, r) && r.policy.lifecycle.expiredAction == "delete") ==>
      Records(Perform(w, Plan(w, r)).durable, r, FirstSeen(w, r))
  {
    DeletesIff(w, r, view);
    if !DecisionOf(w, r).deleteWorkload {
      PassLeaves(w, r, view);
      BaselineDescribes(w, r);
      LeftDescribes(Baseline(w.durable, r, Seen(r).value), view, w.live[r.Key()],
                    r.policy.replicas.scheduledDown, DecisionOf(w, r), r.Now());
    }
  }

  // Both states say the same about windows.
  predicate SameWindowFields(s: WorkloadState, t: WorkloadState) {
    && s.windowEntryRevision == t.windowEntryRevision && s.windowInstanceID == t.windowInstanceID
    && s.scaleDownSkipped == t.scaleDownSkipped && s.scaleDownSkipReason == t.scaleDownSkipReason
  }

  // An admitted pass that sees something new saves it before anything else, keeping what is
  // recorded of the same object and nothing of another; one that sees nothing new does not.
  lemma NewIdentityIsSavedFirst(w: World, r: Request)
    requires r.admitted && Seen(r).Ok? && !Unchanged(w, r)
    ensures var saved := After(w, Step(r, 1));
      && Records(saved.durable, r, Time(r.clock.nanos, 0)) && saved.live == w.live
      && saved.durable == w.durable[r.Key() := saved.durable[r.Key()]]
      && (if Known(w, r) then
            && SameWindowFields(saved.durable[r.Key()], w.durable[r.Key()])
            && saved.durable[r.Key()].replicaSnapshot == w.durable[r.Key()].replicaSnapshot
          else
            && SameWindowFields(saved.durable[r.Key()], ZERO_STATE)
            && saved.durable[r.Key()].replicaSnapshot.None?)
  {
    var save := SaveDocument(w.durable[r.Key() := Baseline(w.durable, r, Seen(r).value)]);
    assert BaselineWrites(w.durable, r, Seen(r).value) == [save];
    assert Plan(w, r)[..1] == [save];
    PerformOne(w, save);
  }

  // A pass that cannot read the live scale or evaluate the schedule does nothing else.
  lemma StoppedPassRecordsAtMostIdentity(w: World, r: Request)
    requires r.admitted && Seen(r).Ok?
    requires r.Key() !in w.live || WindowAt(r.Now(), r.policy.schedule).Err?
    ensures Perform(w, Plan(w, r)) == if Unchanged(w, r) then w else After(w, Step(r, 1))
  {
    assert CourseOf(w, r) == [];
    if Unchanged(w, r) {
      assert Plan(w, r) == [];
    } else {
      assert |Plan(w, r)| == 1;
      assert Plan(w, r)[..1] == Plan(w, r);
    }
  }

  // ----- What a pass remembers of a window -----

  // A redeploy and an override are each marked as skipped, with their reason; any other pass
  // leaves a skip as it was.
  lemma PassMarksSkip(w: World, r: Request, view: WindowView)
    requires Runnable(w, r, view) && !(Overdue(w, r) && r.policy.lifecycle.expiredAction == "delete")
    ensures var end := Perform(w, Plan(w, r));
      && r.Key() in end.durable
      && var reason := end.durable[r.Key()].scaleDownSkipReason;
         && (Redeployed(w, r, view) ==> Skipping(end, r, view) && reason == "scale-down-skipped:redeploy")
         && (Overridden(w, r, view) ==> Skipping(end, r, view) && reason == "scale-down-skipped:replica-override")
         && (!Redeployed(w, r, view) && !Overridden(w, r, view) ==>
               && (Skipping(end, r, view) <==> Skipping(w, r, view))
               && (Skipping(w, r, view) ==> reason == w.durable[r.Key()].scaleDownSkipReason))
  {
    EnteredMeans(w, r, view);
    DeletesIff(w, r, view);
    PassLeaves(w, r, view);
  }

  // The revision a window instance was entered with is the first one a pass saw in it. Only a
  // pass that saves a new identity and finds nothing else to do leaves that to the next one.
  lemma PassNotesEntry(w: World, r: Request, view: WindowView)
    requires Runnable(w, r, view) && !(Overdue(w, r) && r.policy.lifecycle.expiredAction == "delete")
    requires Unchanged(w, r) || Found(Perform(w, Plan(w, r)), r) != Found(w, r)
    ensures var end := Perform(w, Plan(w, r));
      && r.Key() in end.durable
      && var after := end.durable[r.Key()];
         && (view.Outside? ==> SameWindowFields(after, ZERO_STATE))
         && (view.Inside? && view.instance.Instance? ==>
               && after.windowInstanceID == view.instance
               && after.windowEntryRevision
                  == if SameInstance(w, r, view) && w.durable[r.Key()].windowEntryRevision != NoDigest
                     then w.durable[r.Key()].windowEntryRevision else Seen(r).value.revisionHash)
  {
    EnteredMeans(w, r, view);
    DeletesIff(w, r, view);
    PassLeaves(w, r, view);
  }

  // ----- What a pass reports and captures -----

  function WindowReason(view: WindowView): string
    requires view.Inside?
  {
    if view.name == "" then "scale-down-window" else "scale-down-window" + ":" + view.name
  }

  // The reported reason names what decided.
  lemma PassReports(w: World, r: Request, view: WindowView)
    requires Runnable(w, r, view)
    ensures var d, deletes := DecisionOf(w, r), r.policy.lifecycle.expiredAction == "delete";
      && (Overdue(w, r) && deletes ==> d.reason == "revision-lifecycle-expired:deleted")
      && (Overdue(w, r) && !deletes ==> d.reason == "revision-lifecycle-expired")
      && (!Overdue(w, r) && Redeployed(w, r, view) ==> d.reason == "scale-down-skipped:redeploy")
      && (!Overdue(w, r) && Overridden(w, r, view) ==> d.reason == "scale-down-skipped:replica-override")
      && (!Overdue(w, r) && Skipping(w, r, view) ==>
            var marked := w.durable[r.Key()].scaleDownSkipReason;
            d.reason == if marked == "" then "scale-down-skipped:redeploy" else marked)
      && (!Overdue(w, r) && HeldDown(w, r, view) ==> d.reason == WindowReason(view))
      && (!Overdue(w, r) && view.Outside? ==>
            d.reason == if Found(w, r).Some? then "restore-previous-replicas" else "active-window")
  {
    EnteredMeans(w, r, view);
  }

  // The reported count is what the pass leaves running, unless it deletes the workload or has
  // just restored it for a redeploy.
  lemma PassReportsWhatRuns(w: World, r: Request, view: WindowView)
    requires Runnable(w, r, view) && !Redeployed(w, r, view)
    requires !(Overdue(w, r) && r.policy.lifecycle.expiredAction == "delete")
    ensures var end := Perform(w, Plan(w, r));
      r.Key() in end.live && DecisionOf(w, r).desiredReplicas == end.live[r.Key()]
  {
    EnteredMeans(w, r, view);
    DeletesIff(w, r, view);
    PassLeaves(w, r, view);
  }

  // A snapshot made by the pass is of the count it read, at its own clock, with its reason.
  lemma PassCaptures(w: World, r: Request, view: WindowView)
    requires Runnable(w, r, view) && Found(w, r).None?
    ensures var end := Perform(w, Plan(w, r));
      Found(end, r).Some? ==>
        end.durable[r.Key()].replicaSnapshot
        == Some(ReplicaSnapshot(w.live[r.Key()], Time(r.clock.nanos, 0),
                                if Overdue(w, r) then "revision-lifecycle-expired" else DecisionOf(w, r).reason))
  {
    EnteredMeans(w, r, view);
    PassOutcome(w, r, view);
    if !DecisionOf(w, r).deleteWorkload { PassLeaves(w, r, view); }
  }

  // Outside the windows a restore is written even where live already matches; a pass with
  // nothing to do saves once and scales nothing.
  lemma IdlePassSavesOnce(w: World, r: Request, view: WindowView)
    requires Runnable(w, r, view) && !Overdue(w, r)
    requires view.Outside? || Skipping(w, r, view)
    ensures var plan := Plan(w, r);
      if view.Outside? && Found(w, r).Some? then
        UpdateScale(r.Key(), Found(w, r).value) in plan
      else |plan| == 1 && plan[0].SaveDocument?
  {
    EnteredMeans(w, r, view);
    var entered := Entered(w.durable, r, Seen(r).value, view);
    var changed, live := IdentityChanged(w.durable, r, Seen(r).value), w.live[r.Key()];
    assert Plan(w, r) == BaselineWrites(w.durable, r, Seen(r).value)
        + ([] + [] + FinalStage(w.durable, r.Key(), entered, view, live, r.policy, changed, r.Now()));
    if view.Outside? && Found(w, r).Some? {
      assert FinalStage(w.durable, r.Key(), entered, view, live, r.policy, changed, r.Now())[0]
          == UpdateScale(r.Key(), Found(w, r).value);
    }
  }
}
