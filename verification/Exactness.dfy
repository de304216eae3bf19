// The hypotheses under which the intended count is kept are exactly the ones needed.
module Exactness {
  import opened Basics
  import opened Ordering
  import opened Schedule
  import opened Revision
  import opened Policies
  import opened Decision
  import opened State
  import opened Transition
  import opened Runs
  import opened Intent
  import opened Recency
  import opened Validity
  import opened Weeks

  // ----- A redeploy that meets an expired revision -----

  lemma CourseCapturesStale(w: World, states: States, key: string, uid: string, entered: WorkloadState,
                            view: WindowView, policy: Policy, identitySaved: bool, now: Time)
    requires key in w.live && entered.workloadUID == uid
    requires CapturesStale(entered, view, w.live[key], policy, now)
    ensures var end := Perform(w, Course(states, key, entered, view, w.live[key], policy, identitySaved, now));
      key in end.live && Intended(end, key, uid) == w.live[key]
  {
    var live := w.live[key];
    var redeployed := AfterRedeploy(entered, view, entered.revisionHash);
    var first := RedeployStage(states, key, entered, view);
    var second := OverrideStage(states, key, redeployed, view, live, policy.replicas.scheduledDown);
    var d := Decide(InputFor(redeployed, view, live, policy, now));
    var scale := UpdateScale(key, entered.replicaSnapshot.value.replicas);
    var save := SaveDocument(states[key := redeployed]);
    assert first == [scale, save] && second == [];
    assert first + second == first;
    PerformTwo(w, scale, save);
    var third := FinalStage(states, key, redeployed, view, live, policy, identitySaved, now);
    var captured := redeployed.(replicaSnapshot := Some(ReplicaSnapshot(live, now, d.reason)));
    var capture := SaveDocument(states[key := captured]);
    assert third == [capture] + ScaleIfNeeded(key, d);
    PerformConcat(w, first + second, third);
    var middle := Perform(w, first);
    PerformConcat(middle, [capture], ScaleIfNeeded(key, d));
    PerformOne(middle, capture);
    if d.shouldScale { PerformOne(Apply(middle, capture), UpdateScale(key, d.desiredReplicas)); }
  }

  // With bounded targets, every write of the pass keeps the intended count if and only if
  // the pass does not capture a stale count.
  lemma PassSafeIff(w: World, r: Request, t: int, c: int)
    requires r.current.uid != "" && TargetsBounded(r.policy, t)
    requires Safe(w, r.Key(), r.current.uid, t, c)
    ensures Throughout(w, Plan(w, r), x => Safe(x, r.Key(), r.current.uid, t, c)) <==> !StaleCapture(w, r)
  {
    var inv := (x: World) => Safe(x, r.Key(), r.current.uid, t, c);
    if StaleCapture(w, r) {
      var revision := r.Revise().value;
      var first := BaselineWrites(w.durable, r, revision);
      var view := WindowAt(r.Now(), r.policy.schedule).value;
      var entered := Entered(w.durable, r, revision, view);
      BaselineCounted(w, r, c);
      CourseCapturesStale(Perform(w, first), w.durable, r.Key(), r.current.uid, entered,
                          view, r.policy, IdentityChanged(w.durable, r, revision), r.Now());
      PerformConcat(w, first, CourseOf(w, r));
      StaleCaptureLoses(w, r, t, c);
      if Throughout(w, Plan(w, r), inv) { ThroughoutEnd(w, Plan(w, r), inv); }
    } else {
      PassSafe(w, r, t, c);
    }
  }

  // The snapshot a stale capture replaces was the intended count, and the count read differs.
  lemma StaleCaptureLoses(w: World, r: Request, t: int, c: int)
    requires r.current.uid != "" && Safe(w, r.Key(), r.current.uid, t, c) && StaleCapture(w, r)
    ensures w.live[r.Key()] != c
  {}

  // ----- An expired target above the scheduled one -----

  lemma DayNamed(day: Day) returns (d: int)
    requires ValidDay(day)
    ensures FromWeekday(d) == day
  {
    match day
    case Monday => d := 0;
    case Tuesday => d := 1;
    case Wednesday => d := 2;
    case Thursday => d := 3;
    case Friday => d := 4;
    case Saturday => d := 5;
    case Sunday => d := 6;
  }

  // Every compiled schedule holds instants down, however late.
  lemma SomeInstantInside(schedule: DownSchedule, since: int) returns (nanos: int, view: WindowView)
    requires CompiledSchedule(schedule)
    ensures nanos > since
    ensures WindowAt(Time(nanos, 0), Some(schedule)) == Ok(view)
    ensures view.Inside? && view.instance.Instance?
  {
    var w := schedule.windows[0];
    assert w in schedule.windows;
    assert w.startDays[0] in w.startDays;
    var day := DayNamed(w.startDays[0]);
    var minute := OccurrenceStart(w, day);
    var first := minute * NANOS_PER_MINUTE - schedule.zone.offset;
    assert LocalMinute(Time(first, 0), schedule.zone.offset) == minute;
    assert Occurs(w, day, minute);
    assert NameCovers(schedule.windows, w.name, minute) by { assert Covers(w, minute); }
    MatchReportsLeastName(Time(first, 0), schedule.zone.offset, schedule.windows);
    InsideBounds(schedule, Time(first, 0));
    var id := WindowAt(Time(first, 0), Some(schedule)).value.instance;
    var later, again, _ := ReportedAgain(schedule, schedule, id, first, first, since);
    nanos, view := again, WindowAt(Time(again, 0), Some(schedule)).value;
  }

  // Passes over the workload see one object under one policy, with a clock that never runs
  // backwards. Passes over other workloads are unrestricted.
  ghost predicate UnderPolicy(policy: Policy, steps: seq<Step>, key: string, uid: string, clock: int)
    decreases |steps|
  {
    steps != [] ==>
      var r := steps[0].r;
      if r.Key() == key then
        && r.current.uid == uid && r.policy == policy
        && clock <= r.clock.nanos
        && UnderPolicy(policy, steps[1..], key, uid, r.clock.nanos)
      else UnderPolicy(policy, steps[1..], key, uid, clock)
  }

  predicate KeepsCount(w: World, steps: seq<Step>, key: string, uid: string)
    requires key in w.live
  {
    key in Run(w, steps).live ==> Intended(Run(w, steps), key, uid) == w.live[key]
  }

  // The policy keeps the replica count of a workload the store does not know, come what may.
  ghost predicate AlwaysKeepsCount(policy: Policy, key: string, uid: string) {
    forall w: World, steps: seq<Step>, clock: int ::
      UnderPolicy(policy, steps, key, uid, clock) && Unrecorded(w, key, uid) && key in w.live
      ==> KeepsCount(w, steps, key, uid)
  }

  // Every document each pass would save is one the store accepts.
  ghost predicate Accepted(w: World, steps: seq<Step>)
    decreases |steps|
  {
    steps != [] ==> Saveable(Plan(w, steps[0].r)) && Accepted(After(w, steps[0]), steps[1..])
  }

  // A run that can happen: a valid store to start from, listed workloads, compiled policies,
  // clocks after the given time that never run backwards, and no save refused.
  ghost predicate Sound(w: World, steps: seq<Step>, since: int) {
    Healthy(w, since) && Clocked(steps, since) && Accepted(w, steps)
  }

  // The same promise for runs that can happen after the given time.
  ghost predicate SoundlyKeepsCount(policy: Policy, key: string, uid: string, since: int) {
    forall w: World, steps: seq<Step> ::
      UnderPolicy(policy, steps, key, uid, since) && Sound(w, steps, since) && Unrecorded(w, key, uid) && key in w.live
      ==> KeepsCount(w, steps, key, uid)
  }

  lemma {:induction false} ClockedIsAccepted(w: World, steps: seq<Step>, clock: int)
    requires Healthy(w, clock) && Clocked(steps, clock)
    ensures Accepted(w, steps)
    decreases |steps|
  {
    if steps != [] {
      StepIsHealthy(w, steps[0], clock);
      ClockedIsAccepted(After(w, steps[0]), steps[1..], steps[0].r.clock.nanos);
    }
  }

  // seen is what the workload was under so far: nothing, or the policy's own schedule.
  lemma {:induction false} UnderPolicyIsTimed(policy: Policy, steps: seq<Step>, key: string,
                                              uid: string, seen: set<DownSchedule>, clock: int)
    requires Compiled(policy) && Patient(policy, OwnSchedule(policy)) && seen <= OwnSchedule(policy)
    requires UnderPolicy(policy, steps, key, uid, clock)
    ensures WellTimed(seen, steps, key, Some(uid), clock)
    decreases |steps|
  {
    if steps != [] {
      var r := steps[0].r;
      assert seen + OwnSchedule(policy) == OwnSchedule(policy);
      if r.Key() == key {
        UnderPolicyIsTimed(policy, steps[1..], key, uid, OwnSchedule(policy), r.clock.nanos);
      } else {
        UnderPolicyIsTimed(policy, steps[1..], key, uid, seen, clock);
      }
    }
  }

  lemma {:induction false} UnderPolicyIsFollowed(policy: Policy, steps: seq<Step>,
                                                 key: string, uid: string, t: int, clock: int)
    requires Follows(policy, t) && UnderPolicy(policy, steps, key, uid, clock)
    ensures Followed(steps, key, uid, t)
    decreases |steps|
  {
    if steps != [] {
      var r := steps[0].r;
      if r.Key() == key {
        UnderPolicyIsFollowed(policy, steps[1..], key, uid, NextBound(policy, t), r.clock.nanos);
      } else {
        UnderPolicyIsFollowed(policy, steps[1..], key, uid, t, clock);
      }
    }
  }

  // The first contact: record the identity and crash.
  lemma FirstContact(w: World, r: Request)
    requires r.admitted && r.Revise().Ok? && r.Key() !in w.durable
    ensures After(w, Step(r, 1)) == w.(durable := w.durable[r.Key() := Baseline(w.durable, r, r.Revise().value)])
  {
    var save := SaveDocument(w.durable[r.Key() := Baseline(w.durable, r, r.Revise().value)]);
    assert BaselineWrites(w.durable, r, r.Revise().value) == [save];
    assert Plan(w, r)[..1] == [save];
    PerformOne(w, save);
  }

  // The state is known under the request's identity and old enough to be expired.
  predicate KnownExpired(w: World, r: Request, view: WindowView) {
    && r.admitted && r.Revise().Ok? && r.current.uid != ""
    && r.Key() in w.durable && r.Key() in w.live
    && SameIdentity(w.durable[r.Key()], r.current, r.Revise().value)
    && WindowAt(r.Now(), r.policy.schedule) == Ok(view)
    && r.clock.nanos >= w.durable[r.Key()].firstSeenAt.nanos + r.policy.lifecycle.maxAge
    && r.policy.lifecycle.expiredAction != EXPIRED_ACTION_DELETE
  }

  // And now is inside a window.
  predicate KnownAndExpired(w: World, r: Request, view: WindowView) {
    KnownExpired(w, r, view) && view.Inside? && view.instance.Instance?
  }

  lemma CourseCaptures(states: States, key: string, entered: WorkloadState,
                       view: WindowView, live: int, policy: Policy, now: Time)
    returns (recorded: WorkloadState)
    requires entered.replicaSnapshot.None? && (view.Inside? ==> entered.windowEntryRevision == entered.revisionHash)
    requires Expired(InputFor(entered, view, live, policy, now))
    requires policy.lifecycle.expiredAction != EXPIRED_ACTION_DELETE
    requires live > policy.replicas.expired
    ensures recorded == entered.(replicaSnapshot := recorded.replicaSnapshot) && SnapshotOf(recorded) == Some(live)
    ensures Course(states, key, entered, view, live, policy, false, now)
         == [SaveDocument(states[key := recorded]), UpdateScale(key, policy.replicas.expired)]
  {
    var d := Decide(InputFor(entered, view, live, policy, now));
    recorded := entered.(replicaSnapshot := Some(ReplicaSnapshot(live, now, d.reason)));
    assert RedeployStage(states, key, entered, view) == [];
    assert OverrideStage(states, key, entered, view, live, policy.replicas.scheduledDown) == [];
    assert FinalStage(states, key, entered, view, live, policy, false, now)
        == [SaveDocument(states[key := recorded])] + [UpdateScale(key, policy.replicas.expired)];
  }

  // An unchanged identity is not saved again before the course.
  lemma UnchangedPlan(w: World, r: Request)
    requires r.admitted && r.Revise().Ok? && !IdentityChanged(w.durable, r, r.Revise().value)
    ensures Plan(w, r) == CourseFrom(w.durable, w.live, Baseline(w.durable, r, r.Revise().value), false, r)
  {
    var course := CourseFrom(w.durable, w.live, Baseline(w.durable, r, r.Revise().value), false, r);
    assert Plan(w, r) == [] + course == course;
  }

  lemma KnownPlan(w: World, r: Request, view: WindowView)
    requires KnownExpired(w, r, view)
    ensures Plan(w, r)
         == Course(w.durable, r.Key(), Entered(w.durable, r, r.Revise().value, view),
                   view, w.live[r.Key()], r.policy, false, r.Now())
  {
    UnchangedPlan(w, r);
  }

  lemma TwoWritesDone(w: World, r: Request, e: Write, f: Write)
    requires Plan(w, r) == [e, f]
    ensures After(w, Step(r, 2)) == Apply(Apply(w, e), f)
  {
    assert [e, f][..2] == [e, f];
    PerformTwo(w, e, f);
  }

  // An unsnapshotted expired workload is captured and scaled to the expired target.
  lemma ExpiredPassCaptures(w: World, r: Request, view: WindowView) returns (recorded: WorkloadState)
    requires KnownExpired(w, r, view) && (view.Inside? ==> view.instance.Instance?)
    requires w.durable[r.Key()].replicaSnapshot.None? && w.durable[r.Key()].windowInstanceID == NoInstance
    requires w.live[r.Key()] > r.policy.replicas.expired
    ensures After(w, Step(r, 2))
         == World(w.durable[r.Key() := recorded], w.live[r.Key() := r.policy.replicas.expired])
    ensures SameIdentity(recorded, r.current, r.Revise().value)
    ensures recorded.firstSeenAt == w.durable[r.Key()].firstSeenAt
    ensures SnapshotOf(recorded) == Some(w.live[r.Key()]) && !recorded.scaleDownSkipped
    ensures recorded.windowInstanceID == InstanceIn(view)
    ensures view.Inside? ==>
      recorded.windowEntryRevision == r.Revise().value.revisionHash && recorded.windowEntryRevision != NoDigest
  {
    var key, live := r.Key(), w.live[r.Key()];
    KnownPlan(w, r, view);
    recorded := CourseCaptures(w.durable, key, Entered(w.durable, r, r.Revise().value, view),
                               view, live, r.policy, r.Now());
    TwoWritesDone(w, r, SaveDocument(w.durable[key := recorded]), UpdateScale(key, r.policy.replicas.expired));
  }

  lemma CourseForgets(w: World, states: States, key: string, uid: string,
                      entered: WorkloadState, view: WindowView, policy: Policy, now: Time)
    requires key in w.live && view.Inside? && entered.workloadUID == uid
    requires entered.replicaSnapshot.Some? && !entered.scaleDownSkipped
    requires entered.windowEntryRevision == entered.revisionHash
    requires Expired(InputFor(entered, view, w.live[key], policy, now))
    requires policy.lifecycle.expiredAction != EXPIRED_ACTION_DELETE
    requires policy.replicas.scheduledDown < w.live[key] == policy.replicas.expired
    ensures var course := Course(states, key, entered, view, w.live[key], policy, false, now);
      && |course| == 2
      && key in Perform(w, course).live
      && Intended(Perform(w, course), key, uid) == w.live[key]
  {
    var live := w.live[key];
    var settled := MarkOverridden(entered);
    var d := Decide(InputFor(settled, view, live, policy, now));
    var drop := SaveDocument(states[key := settled]);
    var capture := SaveDocument(states[key := settled.(replicaSnapshot := Some(ReplicaSnapshot(live, now, d.reason)))]);
    assert RedeployStage(states, key, entered, view) == [];
    assert OverrideStage(states, key, entered, view, live, policy.replicas.scheduledDown) == [drop];
    assert FinalStage(states, key, settled, view, live, policy, false, now) == [capture] + [];
    assert Course(states, key, entered, view, live, policy, false, now) == [drop, capture];
    PerformTwo(w, drop, capture);
  }

  // Its own expired write then looks like an external override: the snapshot is dropped
  // and the scaled-down count is captured in its place.
  lemma ExpiredPassForgets(w: World, r: Request, view: WindowView)
    requires KnownAndExpired(w, r, view)
    requires var s := w.durable[r.Key()];
      s.replicaSnapshot.Some? && !s.scaleDownSkipped && s.windowInstanceID == view.instance
      && s.windowEntryRevision == r.Revise().value.revisionHash && s.windowEntryRevision != NoDigest
    requires r.policy.replicas.scheduledDown < w.live[r.Key()] == r.policy.replicas.expired
    ensures r.Key() in After(w, Step(r, 2)).live
    ensures Intended(After(w, Step(r, 2)), r.Key(), r.current.uid) == w.live[r.Key()]
  {
    var entered := Entered(w.durable, r, r.Revise().value, view);
    assert entered == Baseline(w.durable, r, r.Revise().value);
    KnownPlan(w, r, view);
    CourseForgets(w, w.durable, r.Key(), r.current.uid, entered, view, r.policy, r.Now());
    assert Plan(w, r)[..2] == Plan(w, r);
  }

  lemma ThreeSteps(w: World, a: Step, b: Step, c: Step)
    ensures Run(w, [a, b, c]) == After(After(After(w, a), b), c)
  {
    assert [a, b, c][1..] == [b, c];
    assert [b, c][1..] == [c];
    assert [c][1..] == [];
    assert Run(After(After(After(w, a), b), c), []) == After(After(After(w, a), b), c);
    assert Run(After(After(w, a), b), [c]) == After(After(After(w, a), b), c);
    assert Run(After(w, a), [b, c]) == After(After(After(w, a), b), c);
  }

  lemma PolicyTriple(policy: Policy, a: Step, b: Step, c: Step, key: string, uid: string, since: int)
    requires forall s :: s in {a, b, c} ==> s.r.Key() == key && s.r.current.uid == uid && s.r.policy == policy
    requires since <= a.r.clock.nanos <= b.r.clock.nanos <= c.r.clock.nanos
    ensures UnderPolicy(policy, [a, b, c], key, uid, since)
  {
    assert [a, b, c][1..] == [b, c] && [b, c][1..] == [c] && [c][1..] == [];
    assert a in {a, b, c} && b in {a, b, c} && c in {a, b, c};
    assert UnderPolicy(policy, [c], key, uid, b.r.clock.nanos);
    assert UnderPolicy(policy, [b, c], key, uid, a.r.clock.nanos);
  }

  lemma SoundTriple(w: World, a: Step, b: Step, c: Step, since: int)
    requires Healthy(w, since) && WellFormed(a.r) && WellFormed(b.r) && WellFormed(c.r)
    requires since <= a.r.clock.nanos <= b.r.clock.nanos <= c.r.clock.nanos
    ensures Sound(w, [a, b, c], since)
  {
    assert [a, b, c][1..] == [b, c] && [b, c][1..] == [c] && [c][1..] == [];
    assert Clocked([c], b.r.clock.nanos);
    assert Clocked([b, c], a.r.clock.nanos);
    ClockedIsAccepted(w, [a, b, c], since);
  }

  // After the first contact the workload is known, and expired once maxAge has passed.
  lemma KnownAfterFirstContact(w: World, early: Request, late: Request, view: WindowView)
    requires early.admitted && early.Revise().Ok? && early.Key() !in w.durable && early.Key() in w.live
    requires late == early.(clock := late.clock) && early.current.uid != ""
    requires late.clock.nanos == early.clock.nanos + early.policy.lifecycle.maxAge
    requires WindowAt(late.Now(), late.policy.schedule) == Ok(view)
    requires early.policy.lifecycle.expiredAction != EXPIRED_ACTION_DELETE
    ensures KnownExpired(After(w, Step(early, 1)), late, view)
    ensures var s := After(w, Step(early, 1)).durable[early.Key()];
      s.replicaSnapshot.None? && s.windowInstanceID == NoInstance && s.workloadUID == early.current.uid
    ensures After(w, Step(early, 1)).live == w.live
  {
    FirstContact(w, early);
  }

  // A workload as the controller lists it.
  predicate Listable(sample: Workload) {
    && (sample.kind == KIND_DEPLOYMENT || sample.kind == KIND_STATEFUL_SET)
    && sample.namespace != "" && sample.name != "" && sample.uid != ""
  }

  // For any policy whose expired target exceeds the scheduled one, three passes over any
  // workload it can track, at any time, lose the count that workload had.
  lemma ExpiredAboveScheduledLoses(policy: Policy, sample: Workload, since: int) returns (w: World, steps: seq<Step>)
    requires Compiled(policy) && policy.schedule.Some? && policy.lifecycle.expiredAction == EXPIRED_ACTION_SCALE
    requires Calculate(sample.containers, policy.lifecycle.revision).Ok? && Listable(sample)
    requires policy.replicas.expired > policy.replicas.scheduledDown && since > 0
    ensures UnderPolicy(policy, steps, sample.Key(), sample.uid, since) && Sound(w, steps, since)
    ensures Unrecorded(w, sample.Key(), sample.uid) && sample.Key() in w.live
    ensures !KeepsCount(w, steps, sample.Key(), sample.uid)
  {
    var key := sample.Key();
    var now, view := SomeInstantInside(policy.schedule.value, since + policy.lifecycle.maxAge);
    var early := Request(sample, policy, true, Time(now - policy.lifecycle.maxAge, 0));
    var late := Request(sample, policy, true, Time(now, 0));
    w := World(map[], map[key := policy.replicas.expired + 1]);
    steps := [Step(early, 1), Step(late, 2), Step(late, 2)];
    PolicyTriple(policy, steps[0], steps[1], steps[2], key, sample.uid, since);
    SoundTriple(w, steps[0], steps[1], steps[2], since);
    ThreeSteps(w, steps[0], steps[1], steps[2]);
    KnownAfterFirstContact(w, early, late, view);
    LateStepsLose(After(w, Step(early, 1)), late, view);
  }

  lemma LateStepsLose(w: World, late: Request, view: WindowView)
    requires KnownAndExpired(w, late, view)
    requires w.durable[late.Key()].replicaSnapshot.None? && w.durable[late.Key()].windowInstanceID == NoInstance
    requires late.policy.replicas.scheduledDown < late.policy.replicas.expired < w.live[late.Key()]
    ensures var end := After(After(w, Step(late, 2)), Step(late, 2));
      late.Key() in end.live && Intended(end, late.Key(), late.current.uid) == late.policy.replicas.expired
  {
    var recorded := ExpiredPassCaptures(w, late, view);
    ExpiredPassForgets(After(w, Step(late, 2)), late, view);
  }

  // ----- A revision that can expire within one window instance -----

  lemma CourseDownscales(w: World, states: States, key: string, entered: WorkloadState,
                         view: WindowView, policy: Policy, now: Time) returns (recorded: WorkloadState)
    requires key in w.live && view.Inside?
    requires entered.replicaSnapshot.None? && !entered.scaleDownSkipped
    requires entered.windowEntryRevision == entered.revisionHash
    requires !Expired(InputFor(entered, view, w.live[key], policy, now)) && w.live[key] > policy.replicas.scheduledDown
    ensures recorded == entered.(replicaSnapshot := recorded.replicaSnapshot)
    ensures SnapshotOf(recorded) == Some(w.live[key])
    ensures Course(states, key, entered, view, w.live[key], policy, true, now)
         == [SaveDocument(states[key := recorded]), UpdateScale(key, policy.replicas.scheduledDown)]
  {
    var live := w.live[key];
    var d := Decide(InputFor(entered, view, live, policy, now));
    recorded := entered.(replicaSnapshot := Some(ReplicaSnapshot(live, now, d.reason)));
    assert RedeployStage(states, key, entered, view) == [];
    assert OverrideStage(states, key, entered, view, live, policy.replicas.scheduledDown) == [];
    assert FinalStage(states, key, entered, view, live, policy, true, now)
        == [SaveDocument(states[key := recorded])] + [UpdateScale(key, policy.replicas.scheduledDown)];
  }

  // First contact inside a window with more replicas than the target: baseline, snapshot, scale.
  lemma FirstDownscale(w: World, r: Request, view: WindowView) returns (recorded: WorkloadState)
    requires r.admitted && r.Revise().Ok? && r.Key() !in w.durable && r.Key() in w.live
    requires WindowAt(r.Now(), r.policy.schedule) == Ok(view) && view.Inside? && view.instance.Instance?
    requires r.policy.lifecycle.maxAge > 0 && w.live[r.Key()] > r.policy.replicas.scheduledDown
    ensures After(w, Step(r, 3)) == World(w.durable[r.Key() := recorded],
                                          w.live[r.Key() := r.policy.replicas.scheduledDown])
    ensures recorded.workloadUID == r.current.uid && recorded.revisionHash == r.Revise().value.revisionHash
    ensures SnapshotOf(recorded) == Some(w.live[r.Key()]) && !recorded.scaleDownSkipped
    ensures recorded.windowInstanceID == view.instance && recorded.windowEntryRevision == recorded.revisionHash
  {
    var revision, key := r.Revise().value, r.Key();
    var baseline := Baseline(w.durable, r, revision);
    recorded := CourseDownscales(w, w.durable, key, Entered(w.durable, r, revision, view), view, r.policy, r.Now());
    var first, save, scale := SaveDocument(w.durable[key := baseline]), SaveDocument(w.durable[key := recorded]),
                              UpdateScale(key, r.policy.replicas.scheduledDown);
    assert BaselineWrites(w.durable, r, revision) == [first];
    assert CourseOf(w, r) == [save, scale];
    assert Plan(w, r) == [first] + [save, scale];
    ThreeWrites(w, first, save, scale);
    assert Performed(w, Step(r, 3)) == [first] + [save, scale];
  }

  lemma ThreeWrites(w: World, a: Write, b: Write, c: Write)
    ensures Perform(w, [a] + [b, c]) == Apply(Apply(Apply(w, a), b), c)
  {
    PerformConcat(w, [a], [b, c]);
    PerformOne(w, a);
    PerformTwo(Apply(w, a), b, c);
  }

  // A new revision of a known workload: record it and crash.
  lemma RedeployThenCrash(w: World, r: Request)
    requires r.admitted && r.Revise().Ok? && r.Key() in w.durable
    requires w.durable[r.Key()].revisionHash != r.Revise().value.revisionHash
    ensures After(w, Step(r, 1)) == w.(durable := w.durable[r.Key() := Baseline(w.durable, r, r.Revise().value)])
  {
    var save := SaveDocument(w.durable[r.Key() := Baseline(w.durable, r, r.Revise().value)]);
    assert BaselineWrites(w.durable, r, r.Revise().value) == [save];
    assert Plan(w, r)[..1] == [save];
    PerformOne(w, save);
  }

  // The redeploy is noticed once it has expired: the snapshot gives way to the live count.
  lemma ExpiredRedeployLoses(w: World, r: Request, view: WindowView) returns (s: Step)
    requires KnownAndExpired(w, r, view)
    requires var state := w.durable[r.Key()];
      && !state.scaleDownSkipped && state.windowInstanceID == view.instance
      && state.windowEntryRevision != NoDigest && state.windowEntryRevision != state.revisionHash
      && state.replicaSnapshot.Some? && state.replicaSnapshot.value.replicas != w.live[r.Key()]
    ensures s.r == r
    ensures r.Key() in After(w, s).live && Intended(After(w, s), r.Key(), r.current.uid) == w.live[r.Key()]
  {
    var entered := Entered(w.durable, r, r.Revise().value, view);
    assert entered == Baseline(w.durable, r, r.Revise().value);
    CourseCapturesStale(w, w.durable, r.Key(), r.current.uid, entered, view, r.policy, false, r.Now());
    var course := Course(w.durable, r.Key(), entered, view, w.live[r.Key()], r.policy, false, r.Now());
    assert Plan(w, r) == [] + course;
    s := Step(r, |course|);
    assert Plan(w, r)[..|course|] == course;
  }

  lemma SomeReportsApart(maxAge: int, past: DownSchedule, current: DownSchedule)
    returns (id: InstanceID, a: int, b: int)
    requires !Outlives(maxAge, {past}, current)
    ensures id.Instance? && ReportedAt(past, id, a) && ReportedAt(current, id, b) && b >= a + maxAge
  {
    id, a, b :| id.Instance? && Reported({past}, id, a) && ReportedAt(current, id, b) && b >= a + maxAge;
  }

  // If one instance is reported at two instants a revision's lifetime apart, a redeploy
  // followed by a crash loses the count, and can do so at any time.
  lemma ShortLivedRevisionLoses(policy: Policy, before: Workload, after: Workload, since: int)
    returns (w: World, steps: seq<Step>)
    requires Compiled(policy) && policy.schedule.Some? && policy.lifecycle.expiredAction == EXPIRED_ACTION_SCALE
    requires Redeployable(policy, before, after) && since > 0
    requires !Outlives(policy.lifecycle.maxAge, {policy.schedule.value}, policy.schedule.value)
    ensures UnderPolicy(policy, steps, before.Key(), before.uid, since) && Sound(w, steps, since)
    ensures Unrecorded(w, before.Key(), before.uid) && before.Key() in w.live
    ensures !KeepsCount(w, steps, before.Key(), before.uid)
  {
    var schedule := policy.schedule.value;
    var id, a, b := SomeReportsApart(policy.lifecycle.maxAge, schedule, schedule);
    var later, first, second := ReportedAgain(schedule, schedule, id, a, b, since);
    w, steps := RedeployRunLoses(policy, policy, before, after, later, first, second);
    RedeployIsUnderPolicy(policy, before, after, w, steps, since);
  }

  lemma RedeployIsUnderPolicy(policy: Policy, before: Workload, after: Workload, w: World, steps: seq<Step>, since: int)
    requires Compiled(policy) && Redeployable(policy, before, after) && 0 < since && Healthy(w, since)
    requires Redeploys(steps, policy, policy, before, after) && since <= steps[0].r.clock.nanos
    ensures UnderPolicy(policy, steps, before.Key(), before.uid, since) && Sound(w, steps, since)
  {
    SoundTriple(w, steps[0], steps[1], steps[2], since);
    PolicyTriple(policy, steps[0], steps[1], steps[2], before.Key(), before.uid, since);
    assert steps == [steps[0], steps[1], steps[2]];
  }

  // One pass over a revision under a policy, then two over the next under another or the same.
  ghost predicate Redeploys(steps: seq<Step>, a: Policy, b: Policy, before: Workload, after: Workload) {
    && |steps| == 3
    && steps[0].r.current == before && steps[1].r.current == steps[2].r.current == after
    && steps[0].r.policy == a && steps[1].r.policy == steps[2].r.policy == b
    && steps[0].r.clock.nanos <= steps[1].r.clock.nanos <= steps[2].r.clock.nanos
  }

  // First downscale under one policy, redeploy and crash under another or the same, and a last
  // pass at the other end of the instance.
  lemma RedeployRunLoses(a: Policy, b: Policy, before: Workload, after: Workload,
                         id: InstanceID, first: int, second: int)
    returns (w: World, steps: seq<Step>)
    requires Compiled(a) && Compiled(b) && a.schedule.Some? && b.schedule.Some?
    requires b.lifecycle.expiredAction == EXPIRED_ACTION_SCALE && ToldApart(a, b, before, after)
    requires id.Instance? && ReportedAt(a.schedule.value, id, first) && ReportedAt(b.schedule.value, id, second)
    requires second >= first + b.lifecycle.maxAge
    ensures w == World(map[], map[before.Key() := a.replicas.scheduledDown + 1])
    ensures Redeploys(steps, a, b, before, after) && steps[0].r.clock == Time(first, 0)
    ensures !KeepsCount(w, steps, before.Key(), before.uid)
  {
    var key := before.Key();
    var r0 := Request(before, a, true, Time(first, 0));
    var r1 := Request(after, b, true, Time(first, 0));
    var r2 := Request(after, b, true, Time(second, 0));
    var view := WindowAt(Time(first, 0), a.schedule).value;
    var later := WindowAt(Time(second, 0), b.schedule).value;
    w := World(map[], map[key := a.replicas.scheduledDown + 1]);
    var recorded := FirstDownscale(w, r0, view);
    var x, y := Step(r0, 3), Step(r1, 1);
    var z := RedeployThenExpiryLoses(After(w, x), r1, r2, later);
    ThreeSteps(w, x, y, z);
    steps := [x, y, z];
  }

  // A downscaled workload is redeployed, and found expired in the instance it was entered in.
  lemma RedeployThenExpiryLoses(w: World, r: Request, q: Request, view: WindowView) returns (last: Step)
    requires r.admitted && r.Revise().Ok? && r.Key() in w.durable && r.Key() in w.live && r.current.uid != ""
    requires q == r.(clock := q.clock) && q.clock.nanos >= r.clock.nanos + r.policy.lifecycle.maxAge
    requires WindowAt(q.Now(), q.policy.schedule) == Ok(view) && view.Inside? && view.instance.Instance?
    requires q.policy.lifecycle.expiredAction != EXPIRED_ACTION_DELETE
    requires var s := w.durable[r.Key()];
      && s.workloadUID == r.current.uid && s.revisionHash != r.Revise().value.revisionHash
      && !s.scaleDownSkipped && s.windowInstanceID == view.instance
      && s.windowEntryRevision == s.revisionHash && s.windowEntryRevision != NoDigest
      && s.replicaSnapshot.Some? && s.replicaSnapshot.value.replicas != w.live[r.Key()]
    ensures last.r == q
    ensures var end := After(After(w, Step(r, 1)), last);
      r.Key() in end.live && Intended(end, r.Key(), r.current.uid) == w.live[r.Key()]
  {
    RedeployThenCrash(w, r);
    last := ExpiredRedeployLoses(After(w, Step(r, 1)), q, view);
  }

  // Two workloads of one listed object that are different revisions, one under each policy.
  predicate ToldApart(a: Policy, b: Policy, before: Workload, after: Workload) {
    && Listable(before) && Listable(after)
    && before.Key() == after.Key() && before.uid == after.uid
    && Calculate(before.containers, a.lifecycle.revision).Ok?
    && Calculate(after.containers, b.lifecycle.revision).Ok?
    && Calculate(before.containers, a.lifecycle.revision).value.revisionHash
       != Calculate(after.containers, b.lifecycle.revision).value.revisionHash
  }

  // Two revisions of one listed object under one policy.
  predicate Redeployable(policy: Policy, before: Workload, after: Workload) {
    ToldApart(policy, policy, before, after)
  }

  predicate AllCompiled(policies: seq<Policy>) {
    forall i :: 0 <= i < |policies| ==> Compiled(policies[i])
  }

  // Every two of the policies tell the two workloads apart.
  predicate AllTellApart(policies: seq<Policy>, before: Workload, after: Workload) {
    forall i, j :: 0 <= i <= j < |policies| ==> ToldApart(policies[i], policies[j], before, after)
  }

  // Every name some policy tracks.
  function TrackedNames(policies: seq<Policy>): (names: seq<string>)
    requires AllCompiled(policies)
    ensures "" !in names
    ensures forall i :: 0 <= i < |policies| && policies[i].lifecycle.revision.containers.Some? ==>
      forall name :: name in policies[i].lifecycle.revision.containers.value ==> name in names
  {
    if policies == [] then []
    else
      var tracked := policies[0].lifecycle.revision.containers;
      var rest := policies[1..];
      assert forall i :: 1 <= i < |policies| ==> policies[i] == rest[i - 1];
      (if tracked.Some? then tracked.value else []) + TrackedNames(rest)
  }

  // Any compiled policies tell some two such workloads apart.
  lemma SomeRedeploy(policies: seq<Policy>) returns (before: Workload, after: Workload)
    requires AllCompiled(policies)
    ensures AllTellApart(policies, before, after) && Listable(before)
  {
    var names := Deduplicated(["app"] + TrackedNames(policies));
    assert "app" in ["app"] + TrackedNames(policies);
    before := Workload(KIND_DEPLOYMENT, "default", "app", "uid", map[], Imaged(names, "image:1"), 0);
    after := before.(containers := Imaged(names, "image:2"));
    forall i, j | 0 <= i <= j < |policies| ensures ToldApart(policies[i], policies[j], before, after) {
      var p, q := policies[i].lifecycle.revision.containers, policies[j].lifecycle.revision.containers;
      ImagedIsSelectable(names, p, "image:1");
      ImagedIsSelectable(names, q, "image:2");
      ImagesDiffer(names, p, q, "image:1", "image:2");
    }
  }

  // What a policy must satisfy: it has no schedule, or deletes on expiry, or its expiry aims
  // no higher than its schedule and no revision can expire within the window instance it was
  // deployed in. All of it can be evaluated from the policy alone.
  predicate CountIsSafeUnder(policy: Policy)
    requires Compiled(policy)
  {
    || policy.schedule.None?
    || policy.lifecycle.expiredAction == EXPIRED_ACTION_DELETE
    || (policy.replicas.expired <= policy.replicas.scheduledDown
        && InstancesFit(policy.schedule.value, policy.schedule.value, policy.lifecycle.maxAge))
  }

  lemma SafePolicyKeepsCount(policy: Policy, key: string, uid: string)
    requires Compiled(policy) && CountIsSafeUnder(policy) && uid != ""
    ensures AlwaysKeepsCount(policy, key, uid)
  {
    if policy.schedule.Some? { OutlivesIff(policy.lifecycle.maxAge, policy.schedule.value, policy.schedule.value); }
    forall w: World, steps: seq<Step>, clock: int
      | UnderPolicy(policy, steps, key, uid, clock) && Unrecorded(w, key, uid) && key in w.live
      ensures KeepsCount(w, steps, key, uid)
    {
      UnderPolicyIsTimed(policy, steps, key, uid, {}, clock);
      UnderPolicyIsFollowed(policy, steps, key, uid, 0, clock);
      WellRunKeepsCount(w, steps, key, uid, 0, clock);
    }
  }

  // For every compiled policy, keeping the count of a workload through every run of passes,
  // failures and crashes is the same as being safe in that sense. Restricting the runs to
  // those that can happen after any given time, with every save acceptable, changes nothing.
  lemma KeepsCountIff(policy: Policy, before: Workload, after: Workload, since: int)
    requires Compiled(policy) && Redeployable(policy, before, after) && since > 0
    ensures AlwaysKeepsCount(policy, before.Key(), before.uid) <==> CountIsSafeUnder(policy)
    ensures SoundlyKeepsCount(policy, before.Key(), before.uid, since) <==> CountIsSafeUnder(policy)
  {
    var key, uid := before.Key(), before.uid;
    if CountIsSafeUnder(policy) {
      SafePolicyKeepsCount(policy, key, uid);
    } else {
      OutlivesIff(policy.lifecycle.maxAge, policy.schedule.value, policy.schedule.value);
      var w, steps;
      if policy.replicas.expired > policy.replicas.scheduledDown {
        w, steps := ExpiredAboveScheduledLoses(policy, before, since);
      } else {
        w, steps := ShortLivedRevisionLoses(policy, before, after, since);
      }
      assert UnderPolicy(policy, steps, key, uid, since) && Sound(w, steps, since) && !KeepsCount(w, steps, key, uid);
    }
  }

  // For a single window the second condition is plain arithmetic: maxAge covers its length.
  lemma SingleWindowOutlivedIff(policy: Policy, zone: Zone, window: Window)
    requires CompiledSchedule(DownSchedule(zone, [window]))
    ensures Outlives(policy.lifecycle.maxAge, {DownSchedule(zone, [window])}, DownSchedule(zone, [window]))
       <==> Length(window) * NANOS_PER_MINUTE <= policy.lifecycle.maxAge
  {
    var schedule := DownSchedule(zone, [window]);
    assert window in schedule.windows;
    if Length(window) * NANOS_PER_MINUTE <= policy.lifecycle.maxAge {
      AgeCoversInstances(policy, schedule);
    } else {
      var day := DayNamed(window.startDays[0]);
      assert window.startDays[0] in window.startDays;
      var first := OccurrenceStart(window, day) * NANOS_PER_MINUTE - zone.offset;
      var second := first + Length(window) * NANOS_PER_MINUTE - 1;
      SingleWindowReported(zone, window, day, first);
      SingleWindowReported(zone, window, day, second);
      assert Reported({schedule}, Instance(window.name, day), first);
      assert Reported({schedule}, Instance(window.name, day), second);
    }
  }

  lemma SingleWindowReported(zone: Zone, window: Window, day: int, nanos: int)
    requires CompiledSchedule(DownSchedule(zone, [window])) && ValidWindow(window)
    requires Occurs(window, day, LocalMinute(Time(nanos, 0), zone.offset))
    ensures ReportedAt(DownSchedule(zone, [window]), Instance(window.name, day), nanos)
  {
    var windows, minute := [window], LocalMinute(Time(nanos, 0), zone.offset);
    MatchesIffOccurs(window, minute);
    assert window in windows;
    assert Covers(window, minute);
    assert NameCovers(windows, window.name, minute);
    MatchReportsLeastName(Time(nanos, 0), zone.offset, windows);
    var found := Schedule.MatchResult(Time(nanos, 0), zone, windows).value.value;
    assert NameCovers(windows, found, minute);
    assert found == window.name;
    InstanceNamesTheOccurrence(Time(nanos, 0), zone.offset, windows, found);
  }
}
