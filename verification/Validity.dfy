// No pass ever tries to save a document the store would refuse as invalid.
module Validity {
  import opened Basics
  import opened Revision
  import opened Policies
  import opened Decision
  import opened State
  import opened Transition
  import opened Runs

  // A listed workload under a compiled policy, seen by a clock that has been set.
  predicate WellFormed(r: Request) {
    && (r.current.kind == KIND_DEPLOYMENT || r.current.kind == KIND_STATEFUL_SET)
    && r.current.namespace != "" && r.current.name != "" && r.current.uid != ""
    && Compiled(r.policy)
    && !r.clock.IsZero()
  }

  // Valid states, none of them last seen after the limit.
  predicate HealthyStates(states: States, limit: int) {
    forall key :: key in states ==> ValidState(key, states[key]) && states[key].lastSeenAt.nanos <= limit
  }

  predicate Healthy(w: World, limit: int) {
    HealthyStates(w.durable, limit) && forall key :: key in w.live ==> w.live[key] >= 0
  }

  predicate HealthyWrite(e: Write, limit: int) {
    match e
    case SaveDocument(states) => HealthyStates(states, limit)
    case UpdateScale(_, replicas) => replicas >= 0
    case DeleteWorkload(_) => true
  }

  predicate HealthyWrites(writes: seq<Write>, limit: int) {
    forall i :: 0 <= i < |writes| ==> HealthyWrite(writes[i], limit)
  }

  // ----- One pass -----

  // The working state of a pass at this instant, fit to be saved.
  predicate Fit(key: string, s: WorkloadState, now: Time) {
    ValidState(key, s) && s.lastSeenAt == now
  }

  predicate RecordableRevision(revision: RevisionIdentity) {
    && ValidRevisionContainers(revision.containers)
    && ValidHash(revision.trackingSpecHash) && ValidHash(revision.revisionHash)
  }

  lemma CalculatedIsRecordable(r: Request)
    requires r.Revise().Ok?
    ensures RecordableRevision(r.Revise().value)
  {
    SelectionIsCanonical(r.current.containers, r.policy.lifecycle.revision.containers);
  }

  lemma ReconciledIsFitIff(previous: WorkloadState, r: Request, revision: RevisionIdentity)
    requires WellFormed(r) && RecordableRevision(revision)
    requires SameUID(previous, r.current) ==>
      && ValidUTC(previous.firstSeenAt)
      && (previous.replicaSnapshot.Some? ==> ValidSnapshot(previous.replicaSnapshot.value))
    ensures Fit(r.Key(), ReconcileIdentity(previous, r.current, r.policy.name, revision, r.Now()), r.Now())
       <==> (!SameIdentity(previous, r.current, revision) || previous.firstSeenAt.nanos <= r.clock.nanos)
  {}

  // The baseline is fit exactly when an unchanged identity was not first seen in the future.
  lemma BaselineIsFitIff(states: States, r: Request)
    requires WellFormed(r) && r.Revise().Ok? && ValidStates(states)
    ensures Fit(r.Key(), Baseline(states, r, r.Revise().value), r.Now())
       <==> (IdentityChanged(states, r, r.Revise().value) || states[r.Key()].firstSeenAt.nanos <= r.clock.nanos)
  {
    CalculatedIsRecordable(r);
    ReconciledIsFitIff(Recorded(states, r.Key()), r, r.Revise().value);
  }

  // What a decision asks for can be recorded and written.
  lemma DecisionIsRecordable(s: WorkloadState, view: WindowView, live: int, policy: Policy, now: Time)
    requires live >= 0 && CompiledReplicas(policy.replicas)
    requires s.replicaSnapshot.Some? ==> s.replicaSnapshot.value.replicas >= 0
    ensures var d := Decide(InputFor(s, view, live, policy, now));
      d.desiredReplicas >= 0 && (d.needsSnapshot ==> d.reason != "")
  {}

  lemma EditIsHealthy(states: States, key: string, s: WorkloadState, now: Time, limit: int)
    requires HealthyStates(states, limit) && Fit(key, s, now) && now.nanos <= limit
    ensures HealthyStates(states[key := s], limit)
  {}

  lemma ScaleWritesAreHealthy(states: States, key: string, s: WorkloadState, live: int,
                              d: Decision, identitySaved: bool, now: Time, limit: int)
    requires HealthyStates(states, limit) && Fit(key, s, now) && now.nanos <= limit
    requires live >= 0 && d.desiredReplicas >= 0 && (d.needsSnapshot ==> d.reason != "")
    ensures HealthyWrites(ScaleWrites(states, key, s, live, d, identitySaved, now), limit)
  {
    if d.needsSnapshot {
      EditIsHealthy(states, key, s.(replicaSnapshot := Some(ReplicaSnapshot(live, now, d.reason))), now, limit);
    } else if d.clearSnapshotAfterScale {
      EditIsHealthy(states, key, s.(replicaSnapshot := None), now, limit);
    } else {
      EditIsHealthy(states, key, s, now, limit);
    }
  }

  lemma FinalIsHealthy(states: States, key: string, s: WorkloadState, view: WindowView,
                       live: int, policy: Policy, identitySaved: bool, now: Time, limit: int)
    requires HealthyStates(states, limit) && Fit(key, s, now) && now.nanos <= limit
    requires live >= 0 && CompiledReplicas(policy.replicas)
    ensures HealthyWrites(FinalStage(states, key, s, view, live, policy, identitySaved, now), limit)
  {
    DecisionIsRecordable(s, view, live, policy, now);
    ScaleWritesAreHealthy(states, key, s, live, Decide(InputFor(s, view, live, policy, now)),
                          identitySaved, now, limit);
  }

  lemma SettleIsHealthy(states: States, key: string, entered: WorkloadState,
                        view: WindowView, live: int, target: int, now: Time, limit: int)
    requires HealthyStates(states, limit) && Fit(key, entered, now) && now.nanos <= limit
    ensures HealthyWrites(SettleStages(states, key, entered, view, live, target), limit)
    ensures Fit(key, Settled(entered, view, live, target), now)
  {
    var redeployed := AfterRedeploy(entered, view, entered.revisionHash);
    EditIsHealthy(states, key, MarkRedeployed(entered), now, limit);
    EditIsHealthy(states, key, MarkOverridden(redeployed), now, limit);
    var first := RedeployStage(states, key, entered, view);
    var second := OverrideStage(states, key, redeployed, view, live, target);
    assert HealthyWrites(first, limit) && HealthyWrites(second, limit);
    assert SettleStages(states, key, entered, view, live, target) == first + second;
  }

  lemma CourseFromIsHealthy(states: States, live: map<string, int>, baseline: WorkloadState,
                            identitySaved: bool, r: Request, limit: int)
    requires HealthyStates(states, limit) && Fit(r.Key(), baseline, r.Now()) && CompiledReplicas(r.policy.replicas)
    requires r.clock.nanos <= limit && (r.Key() in live ==> live[r.Key()] >= 0)
    ensures HealthyWrites(CourseFrom(states, live, baseline, identitySaved, r), limit)
  {
    if r.Key() in live && WindowAt(r.Now(), r.policy.schedule).Ok? {
      var view, count := WindowAt(r.Now(), r.policy.schedule).value, live[r.Key()];
      var entered := EnterWindow(baseline, view, baseline.revisionHash);
      assert Fit(r.Key(), entered, r.Now());
      SettleIsHealthy(states, r.Key(), entered, view, count, r.policy.replicas.scheduledDown, r.Now(), limit);
      FinalIsHealthy(states, r.Key(), Settled(entered, view, count, r.policy.replicas.scheduledDown),
                     view, count, r.policy, identitySaved, r.Now(), limit);
    }
  }

  // The clock shows a time before the one the recorded identity was first seen at.
  predicate ClockBehind(w: World, r: Request) {
    && r.Revise().Ok? && !IdentityChanged(w.durable, r, r.Revise().value)
    && r.Key() in w.durable && r.clock.nanos < w.durable[r.Key()].firstSeenAt.nanos
  }

  lemma PlanIsHealthy(w: World, r: Request, limit: int)
    requires WellFormed(r) && HealthyStates(w.durable, limit) && !ClockBehind(w, r) && r.clock.nanos <= limit
    requires r.Key() in w.live ==> w.live[r.Key()] >= 0
    ensures HealthyWrites(Plan(w, r), limit)
  {
    if r.admitted && r.Revise().Ok? {
      var revision := r.Revise().value;
      var baseline := Baseline(w.durable, r, revision);
      var first := BaselineWrites(w.durable, r, revision);
      BaselineIsFitIff(w.durable, r);
      EditIsHealthy(w.durable, r.Key(), baseline, r.Now(), limit);
      assert HealthyWrites(first, limit);
      CourseFromIsHealthy(w.durable, w.live, baseline, IdentityChanged(w.durable, r, revision), r, limit);
    }
  }

  // ----- Exactly when a pass can be refused -----

  lemma FinalOfUnfitIsRefused(states: States, key: string, s: WorkloadState,
                              view: WindowView, live: int, policy: Policy, now: Time)
    requires policy.lifecycle.maxAge > 0 && s.lastSeenAt == now && now.nanos < s.firstSeenAt.nanos
    ensures !Saveable(FinalStage(states, key, s, view, live, policy, false, now))
  {
    var d := Decide(InputFor(s, view, live, policy, now));
    var recorded := if d.needsSnapshot then s.(replicaSnapshot := Some(ReplicaSnapshot(live, now, d.reason)))
                    else if d.clearSnapshotAfterScale then s.(replicaSnapshot := None)
                    else s;
    assert SaveDocument(states[key := recorded]) in FinalStage(states, key, s, view, live, policy, false, now);
    assert !ValidState(key, states[key := recorded][key]);
  }

  lemma CourseOfUnfitIsRefused(states: States, live: map<string, int>, baseline: WorkloadState, r: Request)
    requires Compiled(r.policy) && r.Key() in live && WindowAt(r.Now(), r.policy.schedule).Ok?
    requires baseline.lastSeenAt == r.Now() && r.clock.nanos < baseline.firstSeenAt.nanos
    ensures !Saveable(CourseFrom(states, live, baseline, false, r))
  {
    var view, count := WindowAt(r.Now(), r.policy.schedule).value, live[r.Key()];
    var entered := EnterWindow(baseline, view, baseline.revisionHash);
    var s := Settled(entered, view, count, r.policy.replicas.scheduledDown);
    assert s.firstSeenAt == baseline.firstSeenAt && s.lastSeenAt == r.Now();
    FinalOfUnfitIsRefused(states, r.Key(), s, view, count, r.policy, r.Now());
    SaveableParts(SettleStages(states, r.Key(), entered, view, count, r.policy.replicas.scheduledDown),
                  FinalStage(states, r.Key(), s, view, count, r.policy, false, r.Now()));
  }

  lemma SomeLimit(states: States, least: int) returns (limit: int)
    requires ValidStates(states)
    ensures limit >= least && HealthyStates(states, limit)
  {
    limit := least;
    var pending := states.Keys;
    while pending != {}
      invariant pending <= states.Keys && limit >= least
      invariant forall key :: key in states && key !in pending ==> states[key].lastSeenAt.nanos <= limit
      decreases pending
    {
      var key :| key in pending;
      pending := pending - {key};
      limit := Max(limit, states[key].lastSeenAt.nanos);
    }
  }

  // Over a valid store, a pass that gets past its checks has every save accepted exactly
  // when the clock is not behind the time its unchanged identity was first seen at.
  lemma SavesAreAcceptedIff(w: World, r: Request)
    requires WellFormed(r) && Proceeds(w, r) && ValidStates(w.durable) && w.live[r.Key()] >= 0
    ensures Saveable(Plan(w, r)) <==> !ClockBehind(w, r)
  {
    if ClockBehind(w, r) {
      CourseOfUnfitIsRefused(w.durable, w.live, Baseline(w.durable, r, r.Revise().value), r);
      assert Plan(w, r) == [] + CourseOf(w, r) == CourseOf(w, r);
    } else {
      var limit := SomeLimit(w.durable, r.clock.nanos);
      PlanIsHealthy(w, r, limit);
    }
  }

  // ----- Runs -----

  lemma {:induction false} HealthyWritesKeep(w: World, writes: seq<Write>, limit: int)
    requires Healthy(w, limit) && HealthyWrites(writes, limit)
    ensures Throughout(w, writes, x => Healthy(x, limit))
    decreases |writes|
  {
    if writes != [] {
      assert HealthyWrite(writes[0], limit);
      HealthyWritesKeep(Apply(w, writes[0]), writes[1..], limit);
    }
  }

  // Every pass is well formed and the clock never goes back.
  predicate Clocked(steps: seq<Step>, clock: int)
    decreases |steps|
  {
    steps != [] ==>
      && WellFormed(steps[0].r) && clock <= steps[0].r.clock.nanos
      && Clocked(steps[1..], steps[0].r.clock.nanos)
  }

  function LastClock(steps: seq<Step>, clock: int): int {
    if steps == [] then clock else steps[|steps| - 1].r.clock.nanos
  }

  lemma StepIsHealthy(w: World, s: Step, clock: int)
    requires WellFormed(s.r) && Healthy(w, clock) && clock <= s.r.clock.nanos
    ensures Healthy(After(w, s), s.r.clock.nanos)
    ensures Saveable(Plan(w, s.r))
  {
    PlanIsHealthy(w, s.r, s.r.clock.nanos);
    HealthyWritesKeep(w, Plan(w, s.r), s.r.clock.nanos);
    StepKeeps(w, s, x => Healthy(x, s.r.clock.nanos));
  }

  lemma {:induction false} RunStaysHealthy(w: World, steps: seq<Step>, clock: int)
    requires Healthy(w, clock) && Clocked(steps, clock)
    ensures Healthy(Run(w, steps), LastClock(steps, clock))
    decreases |steps|
  {
    if steps != [] {
      StepIsHealthy(w, steps[0], clock);
      assert LastClock(steps, clock) == LastClock(steps[1..], steps[0].r.clock.nanos);
      RunStaysHealthy(After(w, steps[0]), steps[1..], steps[0].r.clock.nanos);
    }
  }

  // After any run over any number of workloads, with any failures and crashes, the store is
  // valid and the next pass of any workload has no save refused.
  lemma NoSaveIsEverRefused(w: World, steps: seq<Step>, r: Request, clock: int)
    requires Healthy(w, clock) && Clocked(steps, clock)
    requires WellFormed(r) && LastClock(steps, clock) <= r.clock.nanos
    ensures ValidStates(Run(w, steps).durable)
    ensures Saveable(Plan(Run(w, steps), r))
  {
    RunStaysHealthy(w, steps, clock);
    StepIsHealthy(Run(w, steps), Step(r, 0), LastClock(steps, clock));
  }
}
