// The replica count a workload had before a downscale is never lost.
module Intent {
  import opened Basics
  import opened Policies
  import opened Decision
  import opened State
  import opened Transition
  import opened Runs
  import opened Discipline

  function SnapshotOf(s: WorkloadState): Option<int> {
    if s.replicaSnapshot.Some? then Some(s.replicaSnapshot.value.replicas) else None
  }

  // The durable snapshot recorded for this very object.
  function DurableSnapshot(states: States, key: string, uid: string): Option<int> {
    if key in states && states[key].workloadUID == uid then SnapshotOf(states[key]) else None
  }

  // What the workload should run with once nothing holds it down.
  function Intended(w: World, key: string, uid: string): int
    requires key in w.live
  {
    var snapshot := DurableSnapshot(w.durable, key, uid);
    if snapshot.Some? then snapshot.value else w.live[key]
  }

  // While the object exists its intended count is c.
  predicate Counted(w: World, key: string, uid: string, c: int) {
    key in w.live ==> Intended(w, key, uid) == c
  }

  // And a live count other than c is one the controller wrote: no more than the bound t on
  // its targets and no more than c.
  predicate Safe(w: World, key: string, uid: string, t: int, c: int) {
    Counted(w, key, uid, c) && (key in w.live ==> w.live[key] == c || (w.live[key] <= t && w.live[key] <= c))
  }

  // The working state of a pass carries the snapshot that is durable.
  predicate Aligned(w: World, key: string, uid: string, s: WorkloadState) {
    s.workloadUID == uid && DurableSnapshot(w.durable, key, uid) == SnapshotOf(s)
  }

  // From this entered state and live count, the pass restores a snapshot for a redeploy
  // and then, the revision being expired, captures the count it had read before.
  predicate CapturesStale(entered: WorkloadState, view: WindowView, live: int, policy: Policy, now: Time) {
    && RedeployPending(entered, view, entered.revisionHash)
    && entered.replicaSnapshot.Some?
    && entered.replicaSnapshot.value.replicas != live
    && Expired(InputFor(entered, view, live, policy, now))
    && policy.lifecycle.expiredAction != EXPIRED_ACTION_DELETE
  }

  predicate StaleCapture(w: World, r: Request) {
    && Proceeds(w, r)
    && var view := WindowAt(r.Now(), r.policy.schedule).value;
       CapturesStale(Entered(w.durable, r, r.Revise().value, view), view, w.live[r.Key()], r.policy, r.Now())
  }

  // From this entered state and live count, the pass accepts as an override, dropping the
  // snapshot, a count that is not the snapshot's.
  predicate AcceptsWrongly(entered: WorkloadState, view: WindowView, live: int, target: int) {
    && !RedeployPending(entered, view, entered.revisionHash)
    && OverrideSeen(entered, view, live, target)
    && entered.replicaSnapshot.value.replicas != live
  }

  predicate WrongOverride(w: World, r: Request) {
    && Proceeds(w, r)
    && var view := WindowAt(r.Now(), r.policy.schedule).value;
       AcceptsWrongly(Entered(w.durable, r, r.Revise().value, view), view,
                      w.live[r.Key()], r.policy.replicas.scheduledDown)
  }

  // The store holds no state for this object, though perhaps one for an earlier object
  // of the same name.
  predicate Unrecorded(w: World, key: string, uid: string) {
    key in w.durable ==> w.durable[key].workloadUID != uid
  }

  // Whatever the policy scales down to stays at or below t: the scheduled target, which only
  // matters under a schedule, is t, and expiry aims no higher or deletes instead.
  predicate TargetsBounded(policy: Policy, t: int) {
    && (policy.schedule.Some? ==> policy.replicas.scheduledDown == t)
    && (policy.replicas.expired <= t || policy.lifecycle.expiredAction == EXPIRED_ACTION_DELETE)
  }

  // Expiry never aims above a scheduled target.
  predicate Balanced(policy: Policy) {
    || policy.schedule.None?
    || policy.lifecycle.expiredAction == EXPIRED_ACTION_DELETE
    || policy.replicas.expired <= policy.replicas.scheduledDown
  }

  // The bound a balanced policy keeps its scale-downs under.
  function HeldAt(policy: Policy): (t: int)
    ensures TargetsBounded(policy, t) <==> Balanced(policy)
  {
    if policy.schedule.Some? then policy.replicas.scheduledDown else policy.replicas.expired
  }

  // A policy that may follow ones bounded by t: a scheduled target does not fall.
  predicate Follows(policy: Policy, t: int) {
    Balanced(policy) && (policy.schedule.Some? ==> t <= policy.replicas.scheduledDown)
  }

  // The bound after a pass under such a policy.
  function NextBound(policy: Policy, t: int): (next: int)
    ensures Follows(policy, t) ==> t <= next && TargetsBounded(policy, next)
  {
    if policy.schedule.Some? then policy.replicas.scheduledDown
    else if policy.lifecycle.expiredAction == EXPIRED_ACTION_DELETE then t
    else Max(t, policy.replicas.expired)
  }

  // ----- One pass, stage by stage: the count -----

  lemma BaselineCounted(w: World, r: Request, c: int)
    requires r.current.uid != "" && r.Revise().Ok?
    requires Counted(w, r.Key(), r.current.uid, c)
    ensures var revision := r.Revise().value;
      var after := Perform(w, BaselineWrites(w.durable, r, revision));
      && Throughout(w, BaselineWrites(w.durable, r, revision), x => Counted(x, r.Key(), r.current.uid, c))
      && Aligned(after, r.Key(), r.current.uid, Baseline(w.durable, r, revision))
      && after.live == w.live
  {
    var revision := r.Revise().value;
    if IdentityChanged(w.durable, r, revision) {
      var e := SaveDocument(w.durable[r.Key() := Baseline(w.durable, r, revision)]);
      PerformOne(w, e);
      ThroughoutOne(w, e, x => Counted(x, r.Key(), r.current.uid, c));
    }
  }

  lemma RedeployCounted(w: World, states: States, key: string, uid: string,
                        entered: WorkloadState, view: WindowView, c: int)
    requires key in w.live && Counted(w, key, uid, c) && Aligned(w, key, uid, entered)
    ensures var writes := RedeployStage(states, key, entered, view);
      var after := Perform(w, writes);
      && Throughout(w, writes, x => Counted(x, key, uid, c))
      && Aligned(after, key, uid, AfterRedeploy(entered, view, entered.revisionHash))
      && key in after.live
      && (|| after.live[key] == w.live[key]
          || (RedeployPending(entered, view, entered.revisionHash)
              && entered.replicaSnapshot.Some? && entered.replicaSnapshot.value.replicas != w.live[key]))
  {
    if RedeployPending(entered, view, entered.revisionHash) {
      var save := SaveDocument(states[key := MarkRedeployed(entered)]);
      if entered.replicaSnapshot.Some? {
        var scale := UpdateScale(key, entered.replicaSnapshot.value.replicas);
        assert [scale] + [save] == [scale, save];
        PerformTwo(w, scale, save);
        ThroughoutTwo(w, scale, save, x => Counted(x, key, uid, c));
      } else {
        assert [] + [save] == [save];
        PerformOne(w, save);
        ThroughoutOne(w, save, x => Counted(x, key, uid, c));
      }
    }
  }

  lemma OverrideCounted(w: World, states: States, key: string, uid: string,
                        s: WorkloadState, view: WindowView, live: int, target: int, c: int)
    requires key in w.live && Counted(w, key, uid, c) && Aligned(w, key, uid, s)
    requires OverrideSeen(s, view, live, target) ==> live == w.live[key] && SnapshotOf(s) == Some(live)
    ensures var writes := OverrideStage(states, key, s, view, live, target);
      var after := Perform(w, writes);
      && Throughout(w, writes, x => Counted(x, key, uid, c))
      && Aligned(after, key, uid, AfterOverride(s, view, live, target))
      && after.live == w.live
  {
    if OverrideSeen(s, view, live, target) {
      var save := SaveDocument(states[key := MarkOverridden(s)]);
      PerformOne(w, save);
      ThroughoutOne(w, save, x => Counted(x, key, uid, c));
    }
  }

  lemma FinalCounted(w: World, states: States, key: string, uid: string, s: WorkloadState,
                     view: WindowView, live: int, policy: Policy, identitySaved: bool, now: Time, c: int)
    requires key in w.live && Counted(w, key, uid, c) && Aligned(w, key, uid, s)
    requires Decide(InputFor(s, view, live, policy, now)).needsSnapshot ==> live == w.live[key]
    requires live != w.live[key] ==> s.scaleDownSkipped && view.Inside? && s.replicaSnapshot.None?
    ensures Throughout(w, FinalStage(states, key, s, view, live, policy, identitySaved, now),
                       x => Counted(x, key, uid, c))
  {
    var inv := (x: World) => Counted(x, key, uid, c);
    var d := Decide(InputFor(s, view, live, policy, now));
    var scale := UpdateScale(key, d.desiredReplicas);
    if d.deleteWorkload {
      assert DeleteWrites(states, key) == [DeleteWorkload(key)] + [SaveDocument(states - {key})];
      ThroughoutTwo(w, DeleteWorkload(key), SaveDocument(states - {key}), inv);
    } else if d.needsSnapshot {
      var save := SaveDocument(states[key := s.(replicaSnapshot := Some(ReplicaSnapshot(live, now, d.reason)))]);
      if d.shouldScale {
        ThroughoutTwo(w, save, scale, inv);
      } else {
        assert [save] + [] == [save];
        ThroughoutOne(w, save, inv);
      }
    } else if d.clearSnapshotAfterScale {
      ThroughoutTwo(w, scale, SaveDocument(states[key := s.(replicaSnapshot := None)]), inv);
    } else {
      var save := SaveDocument(states[key := s]);
      if d.shouldScale {
        ThroughoutTwo(w, scale, save, inv);
      } else if !identitySaved {
        assert [] + [save] == [save];
        ThroughoutOne(w, save, inv);
      }
    }
  }

  lemma CourseCounted(w: World, states: States, key: string, uid: string, entered: WorkloadState,
                      view: WindowView, policy: Policy, identitySaved: bool, now: Time, c: int)
    requires key in w.live && Counted(w, key, uid, c) && Aligned(w, key, uid, entered)
    requires !CapturesStale(entered, view, w.live[key], policy, now)
    requires !AcceptsWrongly(entered, view, w.live[key], policy.replicas.scheduledDown)
    ensures Throughout(w, Course(states, key, entered, view, w.live[key], policy, identitySaved, now),
                       x => Counted(x, key, uid, c))
  {
    var inv := (x: World) => Counted(x, key, uid, c);
    var live, target := w.live[key], policy.replicas.scheduledDown;
    var redeployed := AfterRedeploy(entered, view, entered.revisionHash);
    var settled := AfterOverride(redeployed, view, live, target);
    RedeployCounted(w, states, key, uid, entered, view, c);
    var first := RedeployStage(states, key, entered, view);
    var middle := Perform(w, first);
    ThroughoutEnd(w, first, inv);
    OverrideCounted(middle, states, key, uid, redeployed, view, live, target, c);
    var second := OverrideStage(states, key, redeployed, view, live, target);
    var last := Perform(middle, second);
    ThroughoutEnd(middle, second, inv);
    FinalCounted(last, states, key, uid, settled, view, live, policy, identitySaved, now, c);
    ThroughoutConcat(w, first, second, inv);
    PerformConcat(w, first, second);
    ThroughoutConcat(w, first + second, FinalStage(states, key, settled, view, live, policy, identitySaved, now), inv);
  }

  lemma CourseFromCounted(w: World, states: States, baseline: WorkloadState, identitySaved: bool, r: Request, c: int)
    requires Counted(w, r.Key(), r.current.uid, c) && Aligned(w, r.Key(), r.current.uid, baseline)
    requires r.Key() in w.live && WindowAt(r.Now(), r.policy.schedule).Ok? ==>
      var view := WindowAt(r.Now(), r.policy.schedule).value;
      var entered := EnterWindow(baseline, view, baseline.revisionHash);
      && !CapturesStale(entered, view, w.live[r.Key()], r.policy, r.Now())
      && !AcceptsWrongly(entered, view, w.live[r.Key()], r.policy.replicas.scheduledDown)
    ensures Throughout(w, CourseFrom(states, w.live, baseline, identitySaved, r),
                       x => Counted(x, r.Key(), r.current.uid, c))
  {
    if r.Key() in w.live && WindowAt(r.Now(), r.policy.schedule).Ok? {
      var view := WindowAt(r.Now(), r.policy.schedule).value;
      CourseCounted(w, states, r.Key(), r.current.uid, EnterWindow(baseline, view, baseline.revisionHash),
                    view, r.policy, identitySaved, r.Now(), c);
    }
  }

  // Every write of a pass keeps the workload's intended count, whatever the policy and
  // whatever state the pass finds, but for two mistakes.
  lemma PassCounted(w: World, r: Request, c: int)
    requires r.current.uid != "" && !StaleCapture(w, r) && !WrongOverride(w, r)
    requires Counted(w, r.Key(), r.current.uid, c)
    ensures Throughout(w, Plan(w, r), x => Counted(x, r.Key(), r.current.uid, c))
  {
    if r.admitted && r.Revise().Ok? {
      var revision := r.Revise().value;
      var first := BaselineWrites(w.durable, r, revision);
      var inv := (x: World) => Counted(x, r.Key(), r.current.uid, c);
      BaselineCounted(w, r, c);
      ThroughoutEnd(w, first, inv);
      CourseFromCounted(Perform(w, first), w.durable, Baseline(w.durable, r, revision),
                        IdentityChanged(w.durable, r, revision), r, c);
      ThroughoutConcat(w, first, CourseOf(w, r), inv);
    }
  }

  // ----- One pass: the bound -----

  lemma {:induction false} DisciplineBounds(w: World, writes: seq<Write>, r: Request, t: int, c: int)
    requires TargetsBounded(r.policy, t) && Safe(w, r.Key(), r.current.uid, t, c)
    requires Throughout(w, writes, x => Counted(x, r.Key(), r.current.uid, c)) && Disciplined(w, writes, r)
    ensures Throughout(w, writes, x => Safe(x, r.Key(), r.current.uid, t, c))
    decreases |writes|
  {
    if writes != [] {
      var next := Apply(w, writes[0]);
      assert Counted(next, r.Key(), r.current.uid, c) by {
        assert Throughout(next, writes[1..], x => Counted(x, r.Key(), r.current.uid, c));
      }
      assert DisciplinedWrite(w, writes[0], r);
      DisciplineBounds(next, writes[1..], r, t, c);
    }
  }

  // The entered state of a pass carries the snapshot that is durable for its object.
  lemma EnteredCarriesSnapshot(w: World, r: Request, view: WindowView)
    requires r.current.uid != "" && r.Revise().Ok?
    ensures SnapshotOf(Entered(w.durable, r, r.Revise().value,
                               view)) == DurableSnapshot(w.durable, r.Key(), r.current.uid)
  {}

  // Where live is the count or bounded by the policy's own target, no override is wrong.
  lemma SafeOverrides(w: World, r: Request, t: int, c: int)
    requires r.current.uid != "" && TargetsBounded(r.policy, t) && Safe(w, r.Key(), r.current.uid, t, c)
    ensures !WrongOverride(w, r)
  {
    if Proceeds(w, r) {
      var view := WindowAt(r.Now(), r.policy.schedule).value;
      EnteredCarriesSnapshot(w, r, view);
    }
  }

  // Under bounded targets every write keeps both the count and the bound.
  lemma PassSafe(w: World, r: Request, t: int, c: int)
    requires r.current.uid != "" && TargetsBounded(r.policy, t) && !StaleCapture(w, r)
    requires Safe(w, r.Key(), r.current.uid, t, c)
    ensures Throughout(w, Plan(w, r), x => Safe(x, r.Key(), r.current.uid, t, c))
  {
    SafeOverrides(w, r, t, c);
    PassCounted(w, r, c);
    PlanDisciplined(w, r);
    DisciplineBounds(w, Plan(w, r), r, t, c);
  }

  // ----- Whole runs -----

  // Every pass over the workload sees the same object under a policy that may follow the
  // ones before, and never captures a stale count. Passes over other workloads are
  // unrestricted.
  ghost predicate Admissible(w: World, steps: seq<Step>, key: string, uid: string, t: int)
    decreases |steps|
  {
    steps != [] ==>
      var r := steps[0].r;
      if r.Key() == key then
        && r.current.uid == uid && Follows(r.policy, t) && !StaleCapture(w, r)
        && Admissible(After(w, steps[0]), steps[1..], key, uid, NextBound(r.policy, t))
      else Admissible(After(w, steps[0]), steps[1..], key, uid, t)
  }

  // The bound the last policy of the workload left.
  function FinalBound(steps: seq<Step>, key: string, t: int): int
    decreases |steps|
  {
    if steps == [] then t
    else FinalBound(steps[1..], key, if steps[0].r.Key() == key then NextBound(steps[0].r.policy, t) else t)
  }

  lemma SafeUnderMore(w: World, key: string, uid: string, t: int, more: int, c: int)
    requires Safe(w, key, uid, t, c) && t <= more
    ensures Safe(w, key, uid, more, c)
  {}

  lemma AgreeingIsSafe(a: World, b: World, key: string, uid: string, t: int, c: int)
    requires AgreesOn(a, b, key) && Safe(a, key, uid, t, c)
    ensures Safe(b, key, uid, t, c)
  {}

  // Whatever fails and wherever passes crash, the intended count never changes.
  lemma {:induction false} RunKeepsIntendedCount(w: World, steps: seq<Step>, key: string, uid: string, t: int, c: int)
    requires uid != "" && Admissible(w, steps, key, uid, t) && Safe(w, key, uid, t, c)
    ensures Safe(Run(w, steps), key, uid, FinalBound(steps, key, t), c)
    decreases |steps|
  {
    if steps != [] {
      var s := steps[0];
      if s.r.Key() == key {
        var next := NextBound(s.r.policy, t);
        SafeUnderMore(w, key, uid, t, next, c);
        PassSafe(w, s.r, next, c);
        StepKeeps(w, s, x => Safe(x, key, uid, next, c));
        RunKeepsIntendedCount(After(w, s), steps[1..], key, uid, next, c);
      } else {
        StepLeavesOthersAlone(w, s, key);
        AgreeingIsSafe(w, After(w, s), key, uid, t, c);
        RunKeepsIntendedCount(After(w, s), steps[1..], key, uid, t, c);
      }
    }
  }
}
