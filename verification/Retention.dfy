// When a workload may be deleted.
module Retention {
  import opened Basics
  import opened Policies
  import opened Decision
  import opened State
  import opened Transition
  import opened Runs

  predicate RecordsSameIdentity(a: WorkloadState, b: WorkloadState) {
    a.workloadUID == b.workloadUID && a.trackingSpecHash == b.trackingSpecHash && a.revisionHash == b.revisionHash
  }

  // ----- One pass -----

  // A pass that records a new baseline neither deletes nor expires: its clock starts now.
  lemma NewBaselineNeverExpires(w: World, r: Request)
    requires Proceeds(w, r) && r.policy.lifecycle.maxAge > 0 && IdentityChanged(w.durable, r, r.Revise().value)
    ensures !DecisionOf(w, r).deleteWorkload
    ensures var view := WindowAt(r.Now(), r.policy.schedule).value;
      !Expired(InputFor(Entered(w.durable, r, r.Revise().value, view), view, w.live[r.Key()], r.policy, r.Now()))
  {}

  lemma CourseDeletes(states: States, key: string, entered: WorkloadState, view: WindowView,
                      live: int, policy: Policy, identitySaved: bool, now: Time, gone: string)
    requires DeleteWorkload(gone) in Course(states, key, entered, view, live, policy, identitySaved, now)
    ensures gone == key
    ensures policy.lifecycle.expiredAction == EXPIRED_ACTION_DELETE
    ensures now.nanos >= entered.firstSeenAt.nanos + policy.lifecycle.maxAge
  {
    var settled := Settled(entered, view, live, policy.replicas.scheduledDown);
    assert settled.firstSeenAt == entered.firstSeenAt;
    assert DeleteWorkload(gone) in FinalStage(states, key, settled, view, live, policy, identitySaved, now);
  }

  lemma CourseFromDeletes(states: States, live: map<string, int>, baseline: WorkloadState,
                          identitySaved: bool, r: Request, gone: string)
    requires DeleteWorkload(gone) in CourseFrom(states, live, baseline, identitySaved, r)
    ensures gone == r.Key() && r.Key() in live && WindowAt(r.Now(), r.policy.schedule).Ok?
    ensures r.policy.lifecycle.expiredAction == EXPIRED_ACTION_DELETE
    ensures r.clock.nanos >= baseline.firstSeenAt.nanos + r.policy.lifecycle.maxAge
  {
    var view := WindowAt(r.Now(), r.policy.schedule).value;
    CourseDeletes(states, r.Key(), EnterWindow(baseline, view, baseline.revisionHash),
                  view, live[r.Key()], r.policy, identitySaved, r.Now(), gone);
  }

  // A planned deletion is of the pass's own workload, is asked for by the policy, and
  // concerns an identity that is already durable and at least maxAge old.
  lemma DeletionIsEarned(w: World, r: Request, gone: string)
    requires r.policy.lifecycle.maxAge > 0
    requires DeleteWorkload(gone) in Plan(w, r)
    ensures gone == r.Key() && Proceeds(w, r)
    ensures r.policy.lifecycle.expiredAction == EXPIRED_ACTION_DELETE
    ensures r.Key() in w.durable && SameIdentity(w.durable[r.Key()], r.current, r.Revise().value)
    ensures r.clock.nanos >= w.durable[r.Key()].firstSeenAt.nanos + r.policy.lifecycle.maxAge
  {
    var revision := r.Revise().value;
    var identityChanged := IdentityChanged(w.durable, r, revision);
    assert DeleteWorkload(gone) !in BaselineWrites(w.durable, r, revision);
    CourseFromDeletes(w.durable, w.live, Baseline(w.durable, r, revision), identityChanged, r, gone);
  }

  // ----- Runs -----

  // Between two worlds of one pass the recorded identity either stays, first-seen time
  // included, or is the one the pass saw, first seen by the pass's own clock.
  predicate IdentityKept(before: World, after: World, key: string, clock: int) {
    key in after.durable ==>
      || (key in before.durable
          && RecordsSameIdentity(before.durable[key], after.durable[key])
          && before.durable[key].firstSeenAt == after.durable[key].firstSeenAt)
      || ((key in before.durable ==> !RecordsSameIdentity(before.durable[key], after.durable[key]))
          && after.durable[key].firstSeenAt.nanos == clock)
  }

  // Whatever world records the baseline keeps the identity of the base.
  ghost predicate KeptByBaseline(base: World, key: string, baseline: WorkloadState, clock: int) {
    forall x: World :: key in x.durable && KeepsBaseline(x.durable[key], baseline) ==> IdentityKept(base, x, key, clock)
  }

  predicate KeepsBaseline(s: WorkloadState, baseline: WorkloadState) {
    RecordsSameIdentity(s, baseline) && s.firstSeenAt == baseline.firstSeenAt
  }

  ghost predicate SavesBaseline(writes: seq<Write>, key: string, baseline: WorkloadState) {
    forall i :: 0 <= i < |writes| && writes[i].SaveDocument? && key in writes[i].states ==>
      KeepsBaseline(writes[i].states[key], baseline)
  }

  lemma FinalSavesBaseline(states: States, key: string, s: WorkloadState, view: WindowView,
                           live: int, policy: Policy, identitySaved: bool, now: Time)
    ensures SavesBaseline(FinalStage(states, key, s, view, live, policy, identitySaved, now), key, s)
  {}

  lemma CourseSavesBaseline(states: States, key: string, entered: WorkloadState, view: WindowView,
                            live: int, policy: Policy, identitySaved: bool, now: Time)
    ensures SavesBaseline(Course(states, key, entered, view, live, policy, identitySaved, now), key, entered)
  {
    var settled := Settled(entered, view, live, policy.replicas.scheduledDown);
    assert KeepsBaseline(settled, entered);
    FinalSavesBaseline(states, key, settled, view, live, policy, identitySaved, now);
  }

  lemma CourseFromSavesBaseline(states: States, live: map<string, int>,
                                baseline: WorkloadState, identitySaved: bool, r: Request)
    ensures SavesBaseline(CourseFrom(states, live, baseline, identitySaved, r), r.Key(), baseline)
  {
    if r.Key() in live && WindowAt(r.Now(), r.policy.schedule).Ok? {
      var view := WindowAt(r.Now(), r.policy.schedule).value;
      var entered := EnterWindow(baseline, view, baseline.revisionHash);
      assert KeepsBaseline(entered, baseline);
      CourseSavesBaseline(states, r.Key(), entered, view, live[r.Key()], r.policy, identitySaved, r.Now());
    }
  }

  lemma PlanSavesBaseline(w: World, r: Request)
    requires r.Revise().Ok?
    ensures SavesBaseline(Plan(w, r), r.Key(), Baseline(w.durable, r, r.Revise().value))
  {
    var revision := r.Revise().value;
    CourseFromSavesBaseline(w.durable, w.live, Baseline(w.durable, r, revision),
                            IdentityChanged(w.durable, r, revision), r);
  }

  lemma {:induction false} SavedBaselineKeepsIdentity(base: World, w: World, writes: seq<Write>,
                                                      key: string, baseline: WorkloadState, clock: int)
    requires IdentityKept(base, w, key, clock) && SavesBaseline(writes, key, baseline)
    requires KeptByBaseline(base, key, baseline, clock)
    ensures Throughout(w, writes, x => IdentityKept(base, x, key, clock))
    decreases |writes|
  {
    if writes != [] {
      assert IdentityKept(base, Apply(w, writes[0]), key, clock);
      SavedBaselineKeepsIdentity(base, Apply(w, writes[0]), writes[1..], key, baseline, clock);
    }
  }

  lemma StepKeepsIdentity(w: World, s: Step, key: string)
    requires s.r.current.uid != ""
    ensures IdentityKept(w, After(w, s), key, s.r.clock.nanos)
    ensures s.r.Key() != key ==> AgreesOn(w, After(w, s), key)
  {
    var inv := (x: World) => IdentityKept(w, x, key, s.r.clock.nanos);
    if s.r.Key() != key {
      StepLeavesOthersAlone(w, s, key);
    } else {
      if s.r.admitted && s.r.Revise().Ok? {
        PlanSavesBaseline(w, s.r);
        BaselineIdentityKept(w, s.r);
        SavedBaselineKeepsIdentity(w, w, Plan(w, s.r), key,
                                   Baseline(w.durable, s.r, s.r.Revise().value), s.r.clock.nanos);
      }
      StepKeeps(w, s, inv);
    }
  }

  lemma BaselineIdentityKept(w: World, r: Request)
    requires r.current.uid != "" && r.Revise().Ok?
    ensures KeptByBaseline(w, r.Key(), Baseline(w.durable, r, r.Revise().value), r.clock.nanos)
  {}

  // The identity durable at the end of the run was recorded by step j and stayed since.
  ghost predicate RecordedBy(w: World, steps: seq<Step>, key: string, j: nat)
    requires key in Run(w, steps).durable
  {
    && j < |steps|
    && steps[j].r.Key() == key
    && steps[j].r.clock.nanos == Run(w, steps).durable[key].firstSeenAt.nanos
    && StableSince(w, steps, key, j, Run(w, steps).durable[key])
    && !HasIdentity(Run(w, steps[..j]), key, Run(w, steps).durable[key])
  }

  predicate HasIdentity(w: World, key: string, s: WorkloadState) {
    key in w.durable && RecordsSameIdentity(w.durable[key], s)
  }

  ghost predicate StableSince(w: World, steps: seq<Step>, key: string, j: nat, s: WorkloadState) {
    forall i :: j < i <= |steps| ==> HasIdentity(Run(w, steps[..i]), key, s)
  }

  lemma StableExtends(w: World, steps: seq<Step>, last: Step, key: string, j: nat, s: WorkloadState, t: WorkloadState)
    requires StableSince(w, steps, key, j, s) && RecordsSameIdentity(s, t)
    requires HasIdentity(Run(w, steps + [last]), key, t)
    ensures StableSince(w, steps + [last], key, j, t)
  {
    forall i | j < i <= |steps + [last]| ensures HasIdentity(Run(w, (steps + [last])[..i]), key, t) {
      if i <= |steps| {
        assert (steps + [last])[..i] == steps[..i];
        assert HasIdentity(Run(w, steps[..i]), key, s);
      } else {
        assert (steps + [last])[..i] == steps + [last];
      }
    }
  }

  lemma RecordedEarlier(w: World, steps: seq<Step>, last: Step, key: string, j: nat)
    requires key in Run(w, steps).durable && RecordedBy(w, steps, key, j)
    requires HasIdentity(Run(w, steps + [last]), key, Run(w, steps).durable[key])
    requires Run(w, steps + [last]).durable[key].firstSeenAt == Run(w, steps).durable[key].firstSeenAt
    ensures RecordedBy(w, steps + [last], key, j)
  {
    var s, t := Run(w, steps).durable[key], Run(w, steps + [last]).durable[key];
    StableExtends(w, steps, last, key, j, s, t);
    assert (steps + [last])[..j] == steps[..j];
  }

  lemma RecordedNow(w: World, steps: seq<Step>, last: Step, key: string)
    requires last.r.Key() == key && key in Run(w, steps + [last]).durable
    requires Run(w, steps + [last]).durable[key].firstSeenAt.nanos == last.r.clock.nanos
    requires !HasIdentity(Run(w, steps), key, Run(w, steps + [last]).durable[key])
    ensures RecordedBy(w, steps + [last], key, |steps|)
  {
    var s := Run(w, steps + [last]).durable[key];
    assert (steps + [last])[..|steps|] == steps;
    forall i | |steps| < i <= |steps + [last]| ensures HasIdentity(Run(w, (steps + [last])[..i]), key, s) {
      assert (steps + [last])[..i] == steps + [last];
    }
  }

  // The last step keeps the identity with its first-seen time, or records another now.
  lemma LastStepRecords(w: World, init: seq<Step>, last: Step, key: string)
    requires last.r.current.uid != "" && key in Run(w, init + [last]).durable
    ensures var s := Run(w, init + [last]).durable[key];
      if HasIdentity(Run(w, init), key, s) then Run(w, init).durable[key].firstSeenAt == s.firstSeenAt
      else last.r.Key() == key && s.firstSeenAt.nanos == last.r.clock.nanos
  {
    RunAppend(w, init, last);
    StepKeepsIdentity(Run(w, init), last, key);
  }

  // First-seen time is the clock of the last pass that durably recorded an identity change,
  // when the run started from a store with no state or another identity under the name.
  lemma {:induction false} FirstSeenIsLastChange(w: World, steps: seq<Step>, key: string) returns (j: nat)
    requires key in Run(w, steps).durable && !HasIdentity(w, key, Run(w, steps).durable[key])
    requires forall i :: 0 <= i < |steps| ==> steps[i].r.current.uid != ""
    ensures RecordedBy(w, steps, key, j)
    decreases |steps|
  {
    assert steps != [];
    var init, last := steps[..|steps| - 1], steps[|steps| - 1];
    assert steps == init + [last];
    LastStepRecords(w, init, last, key);
    var s := Run(w, steps).durable[key];
    if HasIdentity(Run(w, init), key, s) {
      j := FirstSeenIsLastChange(w, init, key);
      RecordedEarlier(w, init, last, key, j);
    } else {
      j := |init|;
      RecordedNow(w, init, last, key);
    }
  }

  // In any run that did not start with the identity recorded, a pass deletes the workload
  // only when its policy says so and the very identity it sees was recorded durably, by a
  // pass whose clock is at least maxAge in the past, and never changed since.
  lemma DeletedOnlyAfterMaxAge(w: World, steps: seq<Step>, r: Request, gone: string) returns (j: nat)
    requires r.Revise().Ok? && !SameIdentity(Recorded(w.durable, r.Key()), r.current, r.Revise().value)
    requires r.policy.lifecycle.maxAge > 0
    requires forall i :: 0 <= i < |steps| ==> steps[i].r.current.uid != ""
    requires DeleteWorkload(gone) in Plan(Run(w, steps), r)
    ensures gone == r.Key() && r.policy.lifecycle.expiredAction == EXPIRED_ACTION_DELETE
    ensures j < |steps| && steps[j].r.Key() == gone
    ensures r.clock.nanos >= steps[j].r.clock.nanos + r.policy.lifecycle.maxAge
    ensures forall i :: j < i <= |steps| ==>
      gone in Run(w, steps[..i]).durable && SameIdentity(Run(w, steps[..i]).durable[gone], r.current, r.Revise().value)
  {
    DeletionIsEarned(Run(w, steps), r, gone);
    j := FirstSeenIsLastChange(w, steps, gone);
    forall i | j < i <= |steps|
      ensures gone in Run(w, steps[..i]).durable
      ensures SameIdentity(Run(w, steps[..i]).durable[gone], r.current, r.Revise().value)
    {
      assert HasIdentity(Run(w, steps[..i]), gone, Run(w, steps).durable[gone]);
    }
  }
}
