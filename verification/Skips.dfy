// A skip lasts exactly as long as the window instance it was recorded for.
module Skips {
  import opened Basics
  import opened Schedule
  import opened Policies
  import opened Decision
  import opened State
  import opened Transition
  import opened Runs

  // The skip of this object for this instance is durable.
  predicate SkippedIn(w: World, key: string, uid: string, id: InstanceID) {
    && key in w.durable
    && w.durable[key].workloadUID == uid
    && w.durable[key].scaleDownSkipped
    && w.durable[key].windowInstanceID == id
  }

  predicate SkippedState(s: WorkloadState, uid: string, id: InstanceID) {
    s.workloadUID == uid && s.scaleDownSkipped && s.windowInstanceID == id
  }

  // The pass sees the instance, if it gets as far as the schedule.
  predicate SeesInstance(r: Request, id: InstanceID) {
    var view := WindowAt(r.Now(), r.policy.schedule);
    view.Ok? ==> view.value.Inside? && view.value.instance == id
  }

  predicate SeesExpired(w: World, r: Request) {
    r.Revise().Ok? && r.clock.nanos >= Baseline(w.durable, r,
                                                r.Revise().value).firstSeenAt.nanos + r.policy.lifecycle.maxAge
  }

  // What one write must not disturb: the durable skip and, unless expired, every live count.
  predicate Undisturbed(base: World, w: World, key: string, uid: string, id: InstanceID, expired: bool) {
    SkippedIn(w, key, uid, id) && (!expired ==> w.live == base.live)
  }

  lemma SkippedFinal(base: World, w: World, states: States, key: string, uid: string, s: WorkloadState,
                     view: WindowView, live: int, policy: Policy, identitySaved: bool, now: Time, expired: bool)
    requires view.Inside? && SkippedState(s, uid, view.instance)
    requires Undisturbed(base, w, key, uid, view.instance, expired)
    requires Expired(InputFor(s, view, live, policy, now)) ==>
      expired && policy.lifecycle.expiredAction != EXPIRED_ACTION_DELETE
    ensures Throughout(w, FinalStage(states, key, s, view, live, policy, identitySaved, now),
                       x => Undisturbed(base, x, key, uid, view.instance, expired))
  {
    var inv := (x: World) => Undisturbed(base, x, key, uid, view.instance, expired);
    var d := Decide(InputFor(s, view, live, policy, now));
    var scale := UpdateScale(key, d.desiredReplicas);
    if d.needsSnapshot {
      var save := SaveDocument(states[key := s.(replicaSnapshot := Some(ReplicaSnapshot(live, now, d.reason)))]);
      if d.shouldScale {
        ThroughoutTwo(w, save, scale, inv);
      } else {
        assert [save] + [] == [save];
        ThroughoutOne(w, save, inv);
      }
    } else {
      var save := SaveDocument(states[key := s]);
      if d.shouldScale {
        ThroughoutTwo(w, scale, save, inv);
      } else if !identitySaved {
        assert [] + [save] == [save];
        ThroughoutOne(w, save, inv);
      }
    }
  }

  lemma SkippedCourse(base: World, w: World, states: States, baseline: WorkloadState,
                      identitySaved: bool, r: Request, id: InstanceID, expired: bool)
    requires id.Instance? && SeesInstance(r, id)
    requires SkippedState(baseline, r.current.uid, id)
    requires Undisturbed(base, w, r.Key(), r.current.uid, id, expired)
    requires r.clock.nanos >= baseline.firstSeenAt.nanos + r.policy.lifecycle.maxAge
             ==> expired && r.policy.lifecycle.expiredAction != EXPIRED_ACTION_DELETE
    ensures Throughout(w, CourseFrom(states, w.live, baseline, identitySaved, r),
                       x => Undisturbed(base, x, r.Key(), r.current.uid, id, expired))
  {
    if r.Key() in w.live && WindowAt(r.Now(), r.policy.schedule).Ok? {
      var view := WindowAt(r.Now(), r.policy.schedule).value;
      var entered := EnterWindow(baseline, view, baseline.revisionHash);
      var live := w.live[r.Key()];
      assert RedeployStage(states, r.Key(), entered, view) == [];
      assert OverrideStage(states, r.Key(), entered, view, live, r.policy.replicas.scheduledDown) == [];
      var final := FinalStage(states, r.Key(), entered, view, live, r.policy, identitySaved, r.Now());
      assert [] + [] + final == final;
      SkippedFinal(base, w, states, r.Key(), r.current.uid, entered,
                   view, live, r.policy, identitySaved, r.Now(), expired);
    }
  }

  // While the instance lasts, every write of a pass keeps the skip durable, and a pass
  // that does not find the revision expired writes no scale at all.
  lemma PassKeepsSkip(w: World, r: Request, id: InstanceID)
    requires r.current.uid != "" && id.Instance? && SeesInstance(r, id)
    requires SkippedIn(w, r.Key(), r.current.uid, id)
    requires SeesExpired(w, r) ==> r.policy.lifecycle.expiredAction != EXPIRED_ACTION_DELETE
    ensures Throughout(w, Plan(w, r), x => Undisturbed(w, x, r.Key(), r.current.uid, id, SeesExpired(w, r)))
  {
    if r.admitted && r.Revise().Ok? {
      var revision, expired := r.Revise().value, SeesExpired(w, r);
      var inv := (x: World) => Undisturbed(w, x, r.Key(), r.current.uid, id, expired);
      var baseline := Baseline(w.durable, r, revision);
      var first := BaselineWrites(w.durable, r, revision);
      if IdentityChanged(w.durable, r, revision) {
        var e := SaveDocument(w.durable[r.Key() := baseline]);
        PerformOne(w, e);
        ThroughoutOne(w, e, inv);
      }
      ThroughoutEnd(w, first, inv);
      assert Perform(w, first).live == w.live;
      SkippedCourse(w, Perform(w, first), w.durable, baseline, IdentityChanged(w.durable, r, revision), r, id, expired);
      ThroughoutConcat(w, first, CourseOf(w, r), inv);
    }
  }

  // Passes over the workload stay within one instance and do not delete it.
  ghost predicate WithinInstance(w: World, steps: seq<Step>, key: string, uid: string, id: InstanceID)
    decreases |steps|
  {
    steps != [] ==>
      var r := steps[0].r;
      && (r.Key() == key ==>
            && r.current.uid == uid && SeesInstance(r, id)
            && (SeesExpired(w, r) ==> r.policy.lifecycle.expiredAction != EXPIRED_ACTION_DELETE))
      && WithinInstance(After(w, steps[0]), steps[1..], key, uid, id)
  }

  predicate SameLive(a: World, b: World, key: string) {
    (key in a.live <==> key in b.live) && (key in a.live ==> b.live[key] == a.live[key])
  }

  predicate ExpiredPass(w: World, s: Step, key: string) { s.r.Key() == key && SeesExpired(w, s.r) }

  // The skip is durable all along, and only passes of the workload that find its revision
  // expired touch its live count.
  ghost predicate SkipHolds(w: World, steps: seq<Step>, key: string, uid: string, id: InstanceID)
    decreases |steps|
  {
    SkippedIn(w, key, uid, id)
    && (steps != [] ==>
          && (ExpiredPass(w, steps[0], key) || SameLive(w, After(w, steps[0]), key))
          && SkipHolds(After(w, steps[0]), steps[1..], key, uid, id))
  }

  // Across any number of passes, faults and restarts within the instance the skip holds,
  // also where the revision expires and is redeployed in between.
  lemma {:induction false} SkipHoldsThroughInstance(w: World, steps: seq<Step>, key: string,
                                                    uid: string, id: InstanceID)
    requires uid != "" && id.Instance? && SkippedIn(w, key, uid, id) && WithinInstance(w, steps, key, uid, id)
    ensures SkipHolds(w, steps, key, uid, id)
    decreases |steps|
  {
    if steps != [] {
      var s := steps[0];
      if s.r.Key() == key {
        PassKeepsSkip(w, s.r, id);
        StepKeeps(w, s, x => Undisturbed(w, x, key, uid, id, SeesExpired(w, s.r)));
      } else {
        StepLeavesOthersAlone(w, s, key);
      }
      SkipHoldsThroughInstance(After(w, s), steps[1..], key, uid, id);
    }
  }

  // Read step by step: after any number of them the skip is durable, and the next one leaves
  // the live count alone unless it is an expired pass of the workload.
  lemma {:induction false} SkipHoldsAt(w: World, steps: seq<Step>, key: string, uid: string, id: InstanceID, i: nat)
    requires SkipHolds(w, steps, key, uid, id) && i <= |steps|
    ensures SkippedIn(Run(w, steps[..i]), key, uid, id)
    ensures i < |steps| && !ExpiredPass(Run(w, steps[..i]), steps[i], key) ==>
      SameLive(Run(w, steps[..i]), Run(w, steps[..i + 1]), key)
    decreases |steps|
  {
    if i > 0 {
      RunUnfolds(w, steps, i);
      SkipHoldsAt(After(w, steps[0]), steps[1..], key, uid, id, i - 1);
      if i < |steps| { RunUnfolds(w, steps, i + 1); }
    } else if steps != [] {
      RunUnfolds(w, steps, 1);
    }
  }

  lemma RunUnfolds(w: World, steps: seq<Step>, i: nat)
    requires 0 < i <= |steps|
    ensures Run(w, steps[..i]) == Run(After(w, steps[0]), steps[1..][..i - 1])
  {
    assert steps[..i][0] == steps[0] && steps[..i][1..] == steps[1..][..i - 1];
  }

  lemma SkippedCourseScalesNothing(states: States, live: map<string, int>, baseline: WorkloadState,
                                   identitySaved: bool, r: Request, id: InstanceID)
    requires id.Instance? && SeesInstance(r, id) && SkippedState(baseline, r.current.uid, id)
    requires r.clock.nanos < baseline.firstSeenAt.nanos + r.policy.lifecycle.maxAge
    ensures forall e :: e in CourseFrom(states, live, baseline, identitySaved, r) ==> !e.UpdateScale?
  {
    if r.Key() in live && WindowAt(r.Now(), r.policy.schedule).Ok? {
      var view := WindowAt(r.Now(), r.policy.schedule).value;
      var entered := EnterWindow(baseline, view, baseline.revisionHash);
      assert RedeployStage(states, r.Key(), entered, view) == [];
      assert OverrideStage(states, r.Key(), entered, view, live[r.Key()], r.policy.replicas.scheduledDown) == [];
    }
  }

  // A pass under a skip plans no scale write unless it finds the revision expired.
  lemma SkippedPassScalesNothing(w: World, r: Request, id: InstanceID)
    requires r.current.uid != "" && id.Instance? && SeesInstance(r, id)
    requires SkippedIn(w, r.Key(), r.current.uid, id) && !SeesExpired(w, r)
    ensures forall e :: e in Plan(w, r) ==> !e.UpdateScale?
  {
    if r.admitted && r.Revise().Ok? {
      var revision := r.Revise().value;
      SkippedCourseScalesNothing(w.durable, w.live, Baseline(w.durable, r, revision),
                                 IdentityChanged(w.durable, r, revision), r, id);
    }
  }

  function ForgetSkip(states: States, key: string): States {
    if key in states then states[key := states[key].(scaleDownSkipped := false, scaleDownSkipReason := "")] else states
  }

  // A pass that sees another instance, or none, follows the very course it would have
  // followed had no skip been recorded.
  lemma OtherInstanceForgetsSkip(w: World, r: Request)
    requires r.Revise().Ok? && r.Key() in w.durable
    requires var view := WindowAt(r.Now(), r.policy.schedule);
      view.Ok? ==> view.value.Outside? || view.value.instance != w.durable[r.Key()].windowInstanceID
    ensures CourseOf(w, r) == CourseOf(World(ForgetSkip(w.durable, r.Key()), w.live), r)
  {
    var revision, key := r.Revise().value, r.Key();
    var forgotten := ForgetSkip(w.durable, key);
    var before, after := Baseline(w.durable, r, revision), Baseline(forgotten, r, revision);
    if r.Key() in w.live && WindowAt(r.Now(), r.policy.schedule).Ok? {
      var view := WindowAt(r.Now(), r.policy.schedule).value;
      var entered := EnterWindow(before, view, revision.revisionHash);
      assert entered == EnterWindow(after, view, revision.revisionHash);
      CourseSame(w.durable, key, forgotten[key], entered, view, w.live[key],
                 r.policy, IdentityChanged(w.durable, r, revision), r.Now());
    }
  }
}
