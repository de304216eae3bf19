// What passes nothing goes wrong in achieve: recovery after faults, and stability.
module Recovery {
  import opened Basics
  import opened Revision
  import opened Policies
  import opened Decision
  import opened State
  import opened Transition
  import opened Runs
  import opened Intent
  import opened Recency

  // ----- One good pass outside all windows undoes everything -----

  predicate ActivePass(w: World, r: Request) {
    && Proceeds(w, r)
    && WindowAt(r.Now(), r.policy.schedule) == Ok(Outside)
    && !Expired(InputFor(Baseline(w.durable, r, r.Revise().value), Outside, w.live[r.Key()], r.policy, r.Now()))
  }

  lemma ActiveCourse(w: World, states: States, key: string, uid: string, baseline: WorkloadState,
                     policy: Policy, identitySaved: bool, now: Time, c: int)
    requires key in w.live && Counted(w, key, uid, c) && Aligned(w, key, uid, baseline)
    requires !Expired(InputFor(baseline, Outside, w.live[key], policy, now))
    ensures var course := Course(states, key, EnterWindow(baseline, Outside, baseline.revisionHash),
                                 Outside, w.live[key], policy, identitySaved, now);
      var end := Perform(w, course);
      && key in end.live && end.live[key] == c
      && DurableSnapshot(end.durable, key, uid) == None
  {
    var entered := EnterWindow(baseline, Outside, baseline.revisionHash);
    var live := w.live[key];
    assert RedeployStage(states, key, entered, Outside) == [];
    assert OverrideStage(states, key, entered, Outside, live, policy.replicas.scheduledDown) == [];
    var final := FinalStage(states, key, entered, Outside, live, policy, identitySaved, now);
    assert [] + [] + final == final;
    if entered.replicaSnapshot.Some? {
      var scale := UpdateScale(key, entered.replicaSnapshot.value.replicas);
      var clear := SaveDocument(states[key := entered.(replicaSnapshot := None)]);
      assert final == [scale] + [clear] && [scale] + [clear] == [scale, clear];
      PerformTwo(w, scale, clear);
    } else if identitySaved {
      assert final == [];
    } else {
      var save := SaveDocument(states[key := entered]);
      assert final == [save];
      PerformOne(w, save);
    }
  }

  // Live replicas return to the intended count and no snapshot is left.
  lemma ActivePassRestores(w: World, r: Request, c: int)
    requires r.current.uid != "" && ActivePass(w, r) && Counted(w, r.Key(), r.current.uid, c)
    ensures var end := Perform(w, Plan(w, r));
      && r.Key() in end.live && end.live[r.Key()] == c
      && DurableSnapshot(end.durable, r.Key(), r.current.uid) == None
  {
    var revision := r.Revise().value;
    var first := BaselineWrites(w.durable, r, revision);
    BaselineCounted(w, r, c);
    ThroughoutEnd(w, first, x => Counted(x, r.Key(), r.current.uid, c));
    ActiveCourse(Perform(w, first), w.durable, r.Key(), r.current.uid, Baseline(w.durable, r, revision),
                 r.policy, IdentityChanged(w.durable, r, revision), r.Now(), c);
    PerformConcat(w, first, CourseOf(w, r));
  }

  // After any well-run history of failures and crashes, one good pass outside all windows
  // gives the workload back the replica count that history started with.
  lemma GoodPassRecovers(w: World, steps: seq<Step>, r: Request, t: int, clock: int)
    requires WellRun(steps, r.Key(), r.current.uid, t, clock)
    requires r.current.uid != "" && Unrecorded(w, r.Key(), r.current.uid) && r.Key() in w.live
    requires ActivePass(Run(w, steps), r)
    ensures var end := Perform(Run(w, steps), Plan(Run(w, steps), r));
      && r.Key() in end.live && end.live[r.Key()] == w.live[r.Key()]
      && DurableSnapshot(end.durable, r.Key(), r.current.uid) == None
  {
    WellRunKeepsCount(w, steps, r.Key(), r.current.uid, t, clock);
    ActivePassRestores(Run(w, steps), r, w.live[r.Key()]);
  }

  // ----- A second pass at the same instant changes nothing live -----

  // The state a pass leaves behind, and the live count.
  function LeftState(s: WorkloadState, live: int, d: Decision, now: Time): WorkloadState {
    if d.needsSnapshot then s.(replicaSnapshot := Some(ReplicaSnapshot(live, now, d.reason)))
    else if d.clearSnapshotAfterScale then s.(replicaSnapshot := None)
    else s
  }

  function LeftLive(live: int, d: Decision): int {
    if d.shouldScale || d.clearSnapshotAfterScale then d.desiredReplicas else live
  }

  lemma FinalLeaves(w: World, states: States, key: string, s: WorkloadState, view: WindowView,
                    live: int, policy: Policy, identitySaved: bool, now: Time)
    requires key in w.live && !Decide(InputFor(s, view, live, policy, now)).deleteWorkload
    ensures var d := Decide(InputFor(s, view, live, policy, now));
      var end := Perform(w, FinalStage(states, key, s, view, live, policy, identitySaved, now));
      && end.live == w.live[key := LeftLive(w.live[key], d)]
      && ((key in end.durable && end.durable[key] == LeftState(s, live, d, now))
          || (identitySaved && end == w && LeftState(s, live, d, now) == s))
  {
    var d := Decide(InputFor(s, view, live, policy, now));
    var scale := UpdateScale(key, d.desiredReplicas);
    var save := SaveDocument(states[key := LeftState(s, live, d, now)]);
    var final := FinalStage(states, key, s, view, live, policy, identitySaved, now);
    if d.needsSnapshot {
      assert final == [save] + ScaleIfNeeded(key, d);
      PerformConcat(w, [save], ScaleIfNeeded(key, d));
      PerformOne(w, save);
      if d.shouldScale { PerformOne(Apply(w, save), scale); }
    } else if d.clearSnapshotAfterScale {
      assert final == [scale] + [save] && [scale] + [save] == [scale, save];
      PerformTwo(w, scale, save);
    } else if d.shouldScale {
      assert final == [scale] + [save] && [scale] + [save] == [scale, save];
      PerformTwo(w, scale, save);
    } else if identitySaved {
      assert final == [];
    } else {
      assert final == [save];
      PerformOne(w, save);
    }
  }

  // The durable entry already enters the window as the given state.
  predicate Reenters(w: World, r: Request, revision: RevisionIdentity, view: WindowView, s: WorkloadState) {
    && r.Key() in w.durable
    && SameIdentity(w.durable[r.Key()], r.current, revision)
    && Entered(w.durable, r, revision, view) == s
  }

  // A state written by this pass is what the next pass at the same instant starts from.
  lemma WrittenReenters(w: World, r: Request, revision: RevisionIdentity,
                        view: WindowView, first: WorkloadState, s: WorkloadState)
    requires r.current.uid != ""
    requires r.Key() in w.durable && w.durable[r.Key()] == s
    requires first == EnterWindow(first, view, revision.revisionHash)
    requires first == ReconcileIdentity(first, r.current, r.policy.name, revision, r.Now())
    requires SameIdentity(first, r.current, revision)
    requires s == first.(replicaSnapshot := s.replicaSnapshot, scaleDownSkipped := s.scaleDownSkipped,
                         scaleDownSkipReason := s.scaleDownSkipReason)
    requires view.Outside? ==> !s.scaleDownSkipped && s.scaleDownSkipReason == ""
    ensures Reenters(w, r, revision, view, s)
  {}

  lemma EnteredIsFixed(states: States, r: Request, revision: RevisionIdentity, view: WindowView)
    requires r.current.uid != ""
    ensures var entered := Entered(states, r, revision, view);
      && entered == EnterWindow(entered, view, revision.revisionHash)
      && entered == ReconcileIdentity(entered, r.current, r.policy.name, revision, r.Now())
      && SameIdentity(entered, r.current, revision)
      && (view.Outside? ==> !entered.scaleDownSkipped && entered.scaleDownSkipReason == "")
  {}

  // The pass has a state to start from that no scale write follows from.
  predicate Quiet(s: WorkloadState, view: WindowView, live: int, policy: Policy, now: Time) {
    && !RedeployPending(s, view, s.revisionHash)
    && !OverrideSeen(s, view, live, policy.replicas.scheduledDown)
    && var d := Decide(InputFor(s, view, live, policy, now));
       !d.deleteWorkload && !d.shouldScale && !d.clearSnapshotAfterScale
  }

  // With bounded targets, what a pass leaves behind is quiet.
  lemma LeftIsQuiet(entered: WorkloadState, view: WindowView, live: int, policy: Policy, now: Time)
    requires Balanced(policy) && (view.Inside? ==> policy.schedule.Some?)
    requires view.Outside? ==> !entered.scaleDownSkipped
    requires !CapturesStale(entered, view, live, policy, now)
    requires var s := Settled(entered, view, live, policy.replicas.scheduledDown);
      !Decide(InputFor(s, view, live, policy, now)).deleteWorkload
    ensures var s := Settled(entered, view, live, policy.replicas.scheduledDown);
      var d := Decide(InputFor(s, view, live, policy, now));
      var restored := if RedeployPending(entered, view, entered.revisionHash) && entered.replicaSnapshot.Some?
                      then entered.replicaSnapshot.value.replicas else live;
      Quiet(LeftState(s, live, d, now), view, LeftLive(restored, d), policy, now)
  {}

  lemma QuietCourse(w: World, states: States, key: string, s: WorkloadState,
                    view: WindowView, policy: Policy, identitySaved: bool, now: Time)
    requires key in w.live && Quiet(s, view, w.live[key], policy, now)
    ensures Perform(w, Course(states, key, s, view, w.live[key], policy, identitySaved, now)).live == w.live
  {
    var live := w.live[key];
    assert RedeployStage(states, key, s, view) == [];
    assert OverrideStage(states, key, s, view, live, policy.replicas.scheduledDown) == [];
    var final := FinalStage(states, key, s, view, live, policy, identitySaved, now);
    assert [] + [] + final == final;
    FinalLeaves(w, states, key, s, view, live, policy, identitySaved, now);
    assert w.live[key := w.live[key]] == w.live;
  }

  lemma SettledLeaves(w: World, states: States, key: string, entered: WorkloadState,
                      view: WindowView, live: int, target: int)
    requires key in w.live && w.live[key] == live
    ensures var stages := SettleStages(states, key, entered, view, live, target);
      var end := Perform(w, stages);
      && key in end.live
      && end.live == w.live[key := if RedeployPending(entered, view,
                                                      entered.revisionHash) && entered.replicaSnapshot.Some?
                                   then entered.replicaSnapshot.value.replicas else live]
      && ((end == w && Settled(entered, view, live, target) == entered)
          || (key in end.durable && end.durable[key] == Settled(entered, view, live, target)))
  {
    var redeployed := AfterRedeploy(entered, view, entered.revisionHash);
    var first := RedeployStage(states, key, entered, view);
    var second := OverrideStage(states, key, redeployed, view, live, target);
    PerformConcat(w, first, second);
    assert w.live[key := live] == w.live;
    if RedeployPending(entered, view, entered.revisionHash) {
      assert second == [];
      assert first + second == first;
      var save := SaveDocument(states[key := redeployed]);
      if entered.replicaSnapshot.Some? {
        var scale := UpdateScale(key, entered.replicaSnapshot.value.replicas);
        assert first == [scale, save];
        PerformTwo(w, scale, save);
      } else {
        assert first == [save];
        PerformOne(w, save);
      }
    } else {
      assert first + second == second;
      if OverrideSeen(redeployed, view, live, target) {
        PerformOne(w, SaveDocument(states[key := MarkOverridden(redeployed)]));
      }
    }
  }

  // What a whole course leaves behind.
  lemma CourseLeaves(w: World, states: States, key: string, entered: WorkloadState,
                     view: WindowView, policy: Policy, identitySaved: bool, now: Time)
    requires key in w.live
    requires var s := Settled(entered, view, w.live[key], policy.replicas.scheduledDown);
      !Decide(InputFor(s, view, w.live[key], policy, now)).deleteWorkload
    ensures var live := w.live[key];
      var s := Settled(entered, view, live, policy.replicas.scheduledDown);
      var d := Decide(InputFor(s, view, live, policy, now));
      var restored := if RedeployPending(entered, view, entered.revisionHash) && entered.replicaSnapshot.Some?
                      then entered.replicaSnapshot.value.replicas else live;
      var end := Perform(w, Course(states, key, entered, view, live, policy, identitySaved, now));
      && key in end.live && end.live[key] == LeftLive(restored, d)
      && ((key in end.durable && end.durable[key] == LeftState(s, live, d, now))
          || (identitySaved && end.durable == w.durable && LeftState(s, live, d, now) == entered))
  {
    var live := w.live[key];
    var s := Settled(entered, view, live, policy.replicas.scheduledDown);
    var first := SettleStages(states, key, entered, view, live, policy.replicas.scheduledDown);
    var final := FinalStage(states, key, s, view, live, policy, identitySaved, now);
    SettledLeaves(w, states, key, entered, view, live, policy.replicas.scheduledDown);
    FinalLeaves(Perform(w, first), states, key, s, view, live, policy, identitySaved, now);
    PerformConcat(w, first, final);
  }

  lemma BaselineKeepsLive(w: World, r: Request, revision: RevisionIdentity)
    ensures Perform(w, BaselineWrites(w.durable, r, revision)).live == w.live
    ensures Perform(w, BaselineWrites(w.durable, r, revision)).durable
         == if IdentityChanged(w.durable, r, revision) then w.durable[r.Key() := Baseline(w.durable, r, revision)]
            else w.durable
  {
    if IdentityChanged(w.durable, r, revision) {
      PerformOne(w, SaveDocument(w.durable[r.Key() := Baseline(w.durable, r, revision)]));
    }
  }

  // A deleted workload has nothing left to scale.
  lemma DeletedCourse(w: World, states: States, key: string, entered: WorkloadState,
                      view: WindowView, policy: Policy, identitySaved: bool, now: Time)
    requires key in w.live
    requires var s := Settled(entered, view, w.live[key], policy.replicas.scheduledDown);
      Decide(InputFor(s, view, w.live[key], policy, now)).deleteWorkload
    ensures var end := Perform(w, Course(states, key, entered, view, w.live[key], policy, identitySaved, now));
      key !in end.live && key !in end.durable
  {
    var first := SettleStages(states, key, entered, view, w.live[key], policy.replicas.scheduledDown);
    SettledLeaves(w, states, key, entered, view, w.live[key], policy.replicas.scheduledDown);
    PerformConcat(w, first, DeleteWrites(states, key));
    PerformTwo(Perform(w, first), DeleteWorkload(key), SaveDocument(states - {key}));
  }

  lemma DeletedPass(w: World, r: Request, view: WindowView)
    requires Proceeds(w, r) && WindowAt(r.Now(), r.policy.schedule) == Ok(view)
    requires DecisionOf(w, r).deleteWorkload
    ensures var end := Perform(w, Plan(w, r));
      r.Key() !in end.live && r.Key() !in end.durable
  {
    var revision := r.Revise().value;
    var first := BaselineWrites(w.durable, r, revision);
    BaselineKeepsLive(w, r, revision);
    DeletedCourse(Perform(w, first), w.durable, r.Key(), Entered(w.durable, r, revision, view), view,
                  r.policy, IdentityChanged(w.durable, r, revision), r.Now());
    PerformConcat(w, first, CourseOf(w, r));
  }

  // A quiet state in the store makes for a quiet pass.
  lemma QuietPass(w: World, r: Request, view: WindowView, s: WorkloadState)
    requires r.admitted && r.Revise().Ok? && r.Key() in w.live && WindowAt(r.Now(), r.policy.schedule) == Ok(view)
    requires Reenters(w, r, r.Revise().value, view, s) && Quiet(s, view, w.live[r.Key()], r.policy, r.Now())
    ensures Perform(w, Plan(w, r)).live == w.live
  {
    QuietCourse(w, w.durable, r.Key(), s, view, r.policy, false, r.Now());
    assert [] + CourseOf(w, r) == CourseOf(w, r);
  }

  lemma AbsentPass(w: World, r: Request)
    requires r.admitted && r.Revise().Ok? && r.Key() !in w.live
    ensures Perform(w, Plan(w, r)).live == w.live
  {
    BaselineKeepsLive(w, r, r.Revise().value);
    var first := BaselineWrites(w.durable, r, r.Revise().value);
    assert first + [] == first;
  }

  // What a full pass leaves behind.
  lemma PassLeaves(w: World, r: Request, view: WindowView)
    requires Proceeds(w, r) && WindowAt(r.Now(), r.policy.schedule) == Ok(view)
    requires !DecisionOf(w, r).deleteWorkload
    ensures var revision, live := r.Revise().value, w.live[r.Key()];
      var entered := Entered(w.durable, r, revision, view);
      var left := LeftState(Settled(entered, view, live, r.policy.replicas.scheduledDown),
                            live, DecisionOf(w, r), r.Now());
      var restored := if RedeployPending(entered, view, entered.revisionHash) && entered.replicaSnapshot.Some?
                      then entered.replicaSnapshot.value.replicas else live;
      var end := Perform(w, Plan(w, r));
      && r.Key() in end.live && end.live[r.Key()] == LeftLive(restored, DecisionOf(w, r))
      && ((r.Key() in end.durable && end.durable[r.Key()] == left)
          || (IdentityChanged(w.durable, r, revision) && left == entered && r.Key() in end.durable
              && end.durable[r.Key()] == Baseline(w.durable, r, revision)))
  {
    var revision := r.Revise().value;
    var entered := Entered(w.durable, r, revision, view);
    var changed := IdentityChanged(w.durable, r, revision);
    var first := BaselineWrites(w.durable, r, revision);
    BaselineKeepsLive(w, r, revision);
    CourseLeaves(Perform(w, first), w.durable, r.Key(), entered, view, r.policy, changed, r.Now());
    PerformConcat(w, first, CourseOf(w, r));
  }

  // Starting from the baseline just recorded, the pass enters the same state again.
  lemma BaselineReenters(w: World, r: Request, revision: RevisionIdentity, view: WindowView, states: States)
    requires r.current.uid != ""
    requires r.Key() in w.durable && w.durable[r.Key()] == Baseline(states, r, revision)
    ensures Reenters(w, r, revision, view, Entered(states, r, revision, view))
  {}

  // What a full pass leaves in the store re-enters as the state its decision left.
  lemma PassReenters(w: World, r: Request, view: WindowView)
    requires r.current.uid != "" && Proceeds(w, r) && WindowAt(r.Now(), r.policy.schedule) == Ok(view)
    requires !DecisionOf(w, r).deleteWorkload
    ensures var live := w.live[r.Key()];
      var entered := Entered(w.durable, r, r.Revise().value, view);
      Reenters(Perform(w, Plan(w, r)), r, r.Revise().value, view,
               LeftState(Settled(entered, view, live, r.policy.replicas.scheduledDown),
                         live, DecisionOf(w, r), r.Now()))
  {
    var revision, live := r.Revise().value, w.live[r.Key()];
    var entered := Entered(w.durable, r, revision, view);
    PassLeaves(w, r, view);
    EnteredIsFixed(w.durable, r, revision, view);
    var left := LeftState(Settled(entered, view, live, r.policy.replicas.scheduledDown),
                          live, DecisionOf(w, r), r.Now());
    var end := Perform(w, Plan(w, r));
    if end.durable[r.Key()] == left {
      WrittenReenters(end, r, revision, view, entered, left);
    } else {
      BaselineReenters(end, r, revision, view, w.durable);
    }
  }

  // ----- A good pass inside a window scales down -----

  // A pass that the window holds down: nothing skips it, no redeploy is pending and the
  // revision has not expired.
  predicate DownPass(w: World, r: Request) {
    && Proceeds(w, r)
    && var view := WindowAt(r.Now(), r.policy.schedule).value;
       var entered := Entered(w.durable, r, r.Revise().value, view);
       && view.Inside? && !entered.scaleDownSkipped && !RedeployPending(entered, view, entered.revisionHash)
       && !Expired(InputFor(entered, view, w.live[r.Key()], r.policy, r.Now()))
  }

  // Such a pass takes a live count above the target for an override when there already is a
  // snapshot, which includes a downscale whose scale write had failed.
  predicate TakenForOverride(w: World, r: Request)
    requires r.Key() in w.live
  {
    DurableSnapshot(w.durable, r.Key(), r.current.uid).Some? && w.live[r.Key()] > r.policy.replicas.scheduledDown
  }

  lemma DownStateLeft(entered: WorkloadState, view: WindowView, live: int, policy: Policy, now: Time)
    requires view.Inside? && !entered.scaleDownSkipped && !RedeployPending(entered, view, entered.revisionHash)
    requires !Expired(InputFor(entered, view, live, policy, now))
    ensures var t := policy.replicas.scheduledDown;
      var s := Settled(entered, view, live, t);
      var d := Decide(InputFor(s, view, live, policy, now));
      var left := LeftState(s, live, d, now);
      && !d.deleteWorkload && left.workloadUID == entered.workloadUID
      && (if entered.replicaSnapshot.Some? && live > t then LeftLive(live, d) == live && left.replicaSnapshot.None?
          else
            var count := if entered.replicaSnapshot.Some? then entered.replicaSnapshot.value.replicas else live;
            LeftLive(live, d) == Min(t, count) && SnapshotOf(left) == Some(count))
  {}

  // Otherwise it leaves live at the smaller of target and intended count, with the count
  // safe in the durable snapshot; an override is left as it is and the snapshot dropped.
  lemma DownPassScalesDown(w: World, r: Request, c: int)
    requires r.current.uid != "" && DownPass(w, r) && Counted(w, r.Key(), r.current.uid, c)
    ensures var end := Perform(w, Plan(w, r));
      && r.Key() in end.live
      && end.live[r.Key()]
         == (if TakenForOverride(w, r) then w.live[r.Key()] else Min(r.policy.replicas.scheduledDown, c))
      && DurableSnapshot(end.durable, r.Key(), r.current.uid) == (if TakenForOverride(w, r) then None else Some(c))
  {
    var view := WindowAt(r.Now(), r.policy.schedule).value;
    var entered := Entered(w.durable, r, r.Revise().value, view);
    EnteredCarriesSnapshot(w, r, view);
    DownStateLeft(entered, view, w.live[r.Key()], r.policy, r.Now());
    PassLeaves(w, r, view);
  }

  // After any well-run history of failures and crashes the first undisturbed pass that the
  // window holds down brings the workload to its target, or accepts what it finds.
  lemma GoodPassScalesDown(w: World, steps: seq<Step>, r: Request, t: int, clock: int)
    requires WellRun(steps, r.Key(), r.current.uid, t, clock)
    requires r.current.uid != "" && Unrecorded(w, r.Key(), r.current.uid) && r.Key() in w.live
    requires DownPass(Run(w, steps), r)
    ensures var met := Run(w, steps);
      var end := Perform(met, Plan(met, r));
      && r.Key() in end.live
      && end.live[r.Key()]
         == (if TakenForOverride(met, r) then met.live[r.Key()]
             else Min(r.policy.replicas.scheduledDown, w.live[r.Key()]))
      && DurableSnapshot(end.durable, r.Key(), r.current.uid)
         == (if TakenForOverride(met, r) then None else Some(w.live[r.Key()]))
  {
    WellRunKeepsCount(w, steps, r.Key(), r.current.uid, t, clock);
    DownPassScalesDown(Run(w, steps), r, w.live[r.Key()]);
  }

  // A pass over an object the store does not know, which includes one whose deletion was asked
  // for but that is still listed, starts over: a new baseline, and in a window a new downscale
  // from the count it finds, which becomes the intended count.
  lemma UnrecordedPassStartsOver(w: World, r: Request)
    requires r.current.uid != "" && Proceeds(w, r) && r.policy.lifecycle.maxAge > 0
    requires Unrecorded(w, r.Key(), r.current.uid)
    ensures var live := w.live[r.Key()];
      var end := Perform(w, Plan(w, r));
      && Counted(end, r.Key(), r.current.uid, live)
      && r.Key() in end.live
      && end.live[r.Key()]
         == (if WindowAt(r.Now(), r.policy.schedule).value.Outside? then live
             else Min(r.policy.replicas.scheduledDown, live))
  {
    if WindowAt(r.Now(), r.policy.schedule).value.Outside? {
      ActivePassRestores(w, r, w.live[r.Key()]);
    } else {
      DownPassScalesDown(w, r, w.live[r.Key()]);
    }
  }

  // After a pass nothing went wrong in, a second pass at the same instant over the same
  // workload leaves every live count alone.
  lemma SecondPassIsQuiet(w: World, r: Request)
    requires r.current.uid != "" && Proceeds(w, r)
    requires Balanced(r.policy) && !StaleCapture(w, r)
    ensures var end := Perform(w, Plan(w, r));
      Perform(end, Plan(end, r)).live == end.live
  {
    var revision, view := r.Revise().value, WindowAt(r.Now(), r.policy.schedule).value;
    var entered := Entered(w.durable, r, revision, view);
    var end := Perform(w, Plan(w, r));
    if DecisionOf(w, r).deleteWorkload {
      DeletedPass(w, r, view);
      AbsentPass(end, r);
    } else {
      PassLeaves(w, r, view);
      PassReenters(w, r, view);
      EnteredIsFixed(w.durable, r, revision, view);
      LeftIsQuiet(entered, view, w.live[r.Key()], r.policy, r.Now());
      QuietPass(end, r, view,
                LeftState(Settled(entered, view, w.live[r.Key()], r.policy.replicas.scheduledDown), w.live[r.Key()],
                          DecisionOf(w, r), r.Now()));
    }
  }
}
