// What one pass, and what a change of policy, can do to the intended count.
module Edits {
  import opened Basics
  import opened Schedule
  import opened Revision
  import opened Policies
  import opened State
  import opened Transition
  import opened Runs
  import opened Intent
  import opened Recency
  import opened Validity
  import opened Weeks
  import opened Exactness

  // ----- One pass, exactly -----

  // Accepting a count that is not the snapshot's loses the count with a single write.
  lemma WrongOverrideLoses(w: World, r: Request, c: int) returns (done: nat)
    requires r.current.uid != "" && Counted(w, r.Key(), r.current.uid, c) && WrongOverride(w, r)
    ensures done <= |Plan(w, r)| && !Counted(Perform(w, Plan(w, r)[..done]), r.Key(), r.current.uid, c)
  {
    var revision := r.Revise().value;
    var view := WindowAt(r.Now(), r.policy.schedule).value;
    var first := BaselineWrites(w.durable, r, revision);
    var drop, rest := DropsFirst(w.durable, r.Key(), Entered(w.durable, r, revision, view), view,
                                 w.live[r.Key()], r.policy, IdentityChanged(w.durable, r, revision), r.Now());
    done := |first| + 1;
    WritesUpTo(first, drop, rest);
    assert Plan(w, r) == first + ([drop] + rest);
    BaselineCounted(w, r, c);
    EnteredCarriesSnapshot(w, r, view);
    DropForgets(w, Perform(w, first), r, view, drop, c);
    PerformConcat(w, first, [drop]);
  }

  lemma WritesUpTo(first: seq<Write>, e: Write, rest: seq<Write>)
    ensures |first| < |first + ([e] + rest)|
    ensures (first + ([e] + rest))[..|first| + 1] == first + [e]
  {}

  lemma DropForgets(w: World, met: World, r: Request, view: WindowView, drop: Write, c: int)
    requires r.Revise().Ok? && r.Key() in w.live && met.live == w.live
    requires var entered := Entered(w.durable, r, r.Revise().value, view);
      && drop == SaveDocument(w.durable[r.Key() := MarkOverridden(entered)])
      && SnapshotOf(entered) == Some(c) && c != w.live[r.Key()]
    ensures !Counted(Perform(met, [drop]), r.Key(), r.current.uid, c)
  {
    PerformOne(met, drop);
  }

  lemma DropsFirst(states: States, key: string, entered: WorkloadState, view: WindowView, live: int,
                   policy: Policy, identitySaved: bool, now: Time) returns (drop: Write, rest: seq<Write>)
    requires AcceptsWrongly(entered, view, live, policy.replicas.scheduledDown)
    ensures drop == SaveDocument(states[key := MarkOverridden(entered)])
    ensures Course(states, key, entered, view, live, policy, identitySaved, now) == [drop] + rest
  {
    drop := SaveDocument(states[key := MarkOverridden(entered)]);
    rest := FinalStage(states, key, Settled(entered, view, live, policy.replicas.scheduledDown),
                       view, live, policy, identitySaved, now);
    assert RedeployStage(states, key, entered, view) == [];
    assert OverrideStage(states, key, entered, view, live, policy.replicas.scheduledDown) == [drop];
  }

  lemma StaleCaptureForgets(w: World, r: Request, c: int)
    requires r.current.uid != "" && Counted(w, r.Key(), r.current.uid, c) && StaleCapture(w, r)
    ensures !Counted(Perform(w, Plan(w, r)), r.Key(), r.current.uid, c)
  {
    var revision := r.Revise().value;
    var first := BaselineWrites(w.durable, r, revision);
    var view := WindowAt(r.Now(), r.policy.schedule).value;
    var entered := Entered(w.durable, r, revision, view);
    BaselineCounted(w, r, c);
    EnteredCarriesSnapshot(w, r, view);
    CourseCapturesStale(Perform(w, first), w.durable, r.Key(), r.current.uid, entered,
                        view, r.policy, IdentityChanged(w.durable, r, revision), r.Now());
    PerformConcat(w, first, CourseOf(w, r));
  }

  // From any world and under any policy, every write of a pass keeps the intended count if
  // and only if the pass makes neither of the two mistakes.
  lemma PassKeepsCountIff(w: World, r: Request, c: int)
    requires r.current.uid != "" && Counted(w, r.Key(), r.current.uid, c)
    ensures Throughout(w, Plan(w, r), x => Counted(x, r.Key(), r.current.uid, c))
       <==> !StaleCapture(w, r) && !WrongOverride(w, r)
  {
    var inv := (x: World) => Counted(x, r.Key(), r.current.uid, c);
    if StaleCapture(w, r) {
      StaleCaptureForgets(w, r, c);
      if Throughout(w, Plan(w, r), inv) { ThroughoutEnd(w, Plan(w, r), inv); }
    } else if WrongOverride(w, r) {
      var done := WrongOverrideLoses(w, r, c);
      if Throughout(w, Plan(w, r), inv) { ThroughoutPrefix(w, Plan(w, r), done, inv); }
    } else {
      PassCounted(w, r, c);
    }
  }

  // ----- Any policies at all -----

  // Passes over the workload see one object and make neither mistake; their policies may
  // change in any way from pass to pass.
  ghost predicate Unmistaken(w: World, steps: seq<Step>, key: string, uid: string)
    decreases |steps|
  {
    steps != [] ==>
      var r := steps[0].r;
      && (r.Key() == key ==> r.current.uid == uid && !StaleCapture(w, r) && !WrongOverride(w, r))
      && Unmistaken(After(w, steps[0]), steps[1..], key, uid)
  }

  lemma {:induction false} UnmistakenRunKeepsCount(w: World, steps: seq<Step>, key: string, uid: string, c: int)
    requires uid != "" && Unmistaken(w, steps, key, uid) && Counted(w, key, uid, c)
    ensures Counted(Run(w, steps), key, uid, c)
    decreases |steps|
  {
    if steps != [] {
      var s := steps[0];
      if s.r.Key() == key {
        PassCounted(w, s.r, c);
        StepKeeps(w, s, x => Counted(x, key, uid, c));
      } else {
        StepLeavesOthersAlone(w, s, key);
      }
      UnmistakenRunKeepsCount(After(w, s), steps[1..], key, uid, c);
    }
  }

  // ----- Policies in turn -----

  // Passes over the workload see one object under the listed policies in turn, the first of
  // them the one at from, each for any number of passes, with a clock that never runs
  // backwards. Passes over other workloads are unrestricted.
  ghost predicate UnderPolicies(policies: seq<Policy>, from: nat, steps: seq<Step>,
                                key: string, uid: string, clock: int)
    decreases |steps|
  {
    steps != [] ==>
      var r := steps[0].r;
      if r.Key() == key then
        && r.current.uid == uid && clock <= r.clock.nanos
        && exists i :: from <= i < |policies| && r.policy == policies[i]
                       && UnderPolicies(policies, i, steps[1..], key, uid, r.clock.nanos)
      else UnderPolicies(policies, from, steps[1..], key, uid, clock)
  }

  ghost predicate AlwaysKeepsUnder(policies: seq<Policy>, key: string, uid: string) {
    forall w: World, steps: seq<Step>, clock: int ::
      UnderPolicies(policies, 0, steps, key, uid, clock) && Unrecorded(w, key, uid) && key in w.live
      ==> KeepsCount(w, steps, key, uid)
  }

  ghost predicate SoundlyKeepsUnder(policies: seq<Policy>, key: string, uid: string, since: int) {
    forall w: World, steps: seq<Step> ::
      && UnderPolicies(policies, 0, steps, key, uid, since) && Sound(w, steps, since)
      && Unrecorded(w, key, uid) && key in w.live
      ==> KeepsCount(w, steps, key, uid)
  }

  // The highest target a policy may scale to.
  function ScalesTo(policy: Policy): Option<int> {
    if policy.schedule.Some? then Some(policy.replicas.scheduledDown)
    else if policy.lifecycle.expiredAction == EXPIRED_ACTION_DELETE then None
    else Some(policy.replicas.expired)
  }

  // b has no schedule, or its scheduled target is at least what a may scale to, and it deletes
  // on expiry or its revisions outlive what a's windows and its own make of one instance. All
  // of it can be evaluated from the two policies.
  predicate EditIsSafe(a: Policy, b: Policy)
    requires Compiled(a) && Compiled(b)
  {
    || b.schedule.None?
    || (&& (ScalesTo(a).Some? ==> ScalesTo(a).value <= b.replicas.scheduledDown)
        && (|| b.lifecycle.expiredAction == EXPIRED_ACTION_DELETE
            || a.schedule.None?
            || InstancesFit(a.schedule.value, b.schedule.value, b.lifecycle.maxAge)))
  }

  // Every policy keeps the count alone, and every later one may replace every earlier one.
  predicate PoliciesAreSafe(policies: seq<Policy>)
    requires AllCompiled(policies)
  {
    && (forall i :: 0 <= i < |policies| ==> CountIsSafeUnder(policies[i]))
    && forall i, j :: 0 <= i < j < |policies| ==> EditIsSafe(policies[i], policies[j])
  }

  // What may follow t from here on.
  predicate MayGoOn(policies: seq<Policy>, from: nat, t: int) {
    forall i :: from <= i < |policies| ==> Follows(policies[i], t)
  }

  lemma {:induction false} UnderPoliciesIsFollowed(policies: seq<Policy>, from: nat, steps: seq<Step>,
                                                   key: string, uid: string, t: int, clock: int)
    requires AllCompiled(policies) && PoliciesAreSafe(policies) && MayGoOn(policies, from, t)
    requires UnderPolicies(policies, from, steps, key, uid, clock)
    ensures Followed(steps, key, uid, t)
    decreases |steps|
  {
    if steps != [] {
      var r := steps[0].r;
      if r.Key() == key {
        var i :| from <= i < |policies| && r.policy == policies[i]
          && UnderPolicies(policies, i, steps[1..], key, uid, r.clock.nanos);
        UnderPoliciesIsFollowed(policies, i, steps[1..], key, uid, NextBound(r.policy, t), r.clock.nanos);
      } else {
        UnderPoliciesIsFollowed(policies, from, steps[1..], key, uid, t, clock);
      }
    }
  }

  // The schedules of the policies before an index.
  ghost function SchedulesBefore(policies: seq<Policy>, end: nat): set<DownSchedule>
    requires end <= |policies|
  {
    set i | 0 <= i < end && policies[i].schedule.Some? :: policies[i].schedule.value
  }

  lemma SafeEditOutlives(a: Policy, b: Policy)
    requires Compiled(a) && Compiled(b) && a.schedule.Some? && b.schedule.Some?
    requires EditIsSafe(a, b) || (a == b && CountIsSafeUnder(b))
    requires b.lifecycle.expiredAction != EXPIRED_ACTION_DELETE
    ensures Outlives(b.lifecycle.maxAge, {a.schedule.value}, b.schedule.value)
  {
    OutlivesIff(b.lifecycle.maxAge, a.schedule.value, b.schedule.value);
  }

  // Outliving each of some schedules is outliving them all.
  lemma OutlivesEach(maxAge: int, past: set<DownSchedule>, current: DownSchedule)
    requires forall schedule :: schedule in past ==> Outlives(maxAge, {schedule}, current)
    ensures Outlives(maxAge, past, current)
  {
    forall id: InstanceID, first: int, second: int
      | id.Instance? && Reported(past, id, first) && ReportedAt(current, id, second)
      ensures second < first + maxAge
    {
      var schedule :| schedule in past && ReportedAt(schedule, id, first);
      assert Reported({schedule}, id, first);
    }
  }

  // A safe policy is patient with respect to every schedule up to its own.
  lemma SafeIsPatient(policies: seq<Policy>, j: nat)
    requires AllCompiled(policies) && PoliciesAreSafe(policies) && j < |policies|
    ensures Patient(policies[j], SchedulesBefore(policies, j + 1))
  {
    var policy := policies[j];
    if policy.schedule.Some? && policy.lifecycle.expiredAction != EXPIRED_ACTION_DELETE {
      var past := SchedulesBefore(policies, j + 1);
      forall schedule | schedule in past
        ensures Outlives(policy.lifecycle.maxAge, {schedule}, policy.schedule.value)
      {
        var i: nat :| i <= j && policies[i].schedule.Some? && policies[i].schedule.value == schedule;
        SafeEditOutlives(policies[i], policies[j]);
      }
      OutlivesEach(policy.lifecycle.maxAge, past, policy.schedule.value);
    }
  }

  // Patience with respect to some schedules is patience with respect to fewer.
  lemma PatientWithFewer(policy: Policy, schedules: set<DownSchedule>, fewer: set<DownSchedule>)
    requires Patient(policy, schedules) && fewer <= schedules
    ensures Patient(policy, fewer)
  {
    forall id, nanos | Reported(fewer, id, nanos) ensures Reported(schedules, id, nanos) {
      var schedule :| schedule in fewer && ReportedAt(schedule, id, nanos);
    }
  }

  lemma {:induction false} UnderPoliciesIsTimed(policies: seq<Policy>, from: nat, steps: seq<Step>,
                                                key: string, uid: string, seen: set<DownSchedule>, clock: int)
    requires AllCompiled(policies) && PoliciesAreSafe(policies)
    requires forall schedule :: schedule in seen ==>
      exists i :: 0 <= i <= from && i < |policies| && policies[i].schedule == Some(schedule)
    requires UnderPolicies(policies, from, steps, key, uid, clock)
    ensures WellTimed(seen, steps, key, Some(uid), clock)
    decreases |steps|
  {
    if steps != [] {
      var r := steps[0].r;
      if r.Key() == key {
        var i :| from <= i < |policies| && r.policy == policies[i]
          && UnderPolicies(policies, i, steps[1..], key, uid, r.clock.nanos);
        SafeIsPatient(policies, i);
        PatientWithFewer(r.policy, SchedulesBefore(policies, i + 1), seen + OwnSchedule(r.policy));
        UnderPoliciesIsTimed(policies, i, steps[1..], key, uid, seen + OwnSchedule(r.policy), r.clock.nanos);
      } else {
        UnderPoliciesIsTimed(policies, from, steps[1..], key, uid, seen, clock);
      }
    }
  }

  lemma SafePoliciesKeepCount(policies: seq<Policy>, key: string, uid: string)
    requires AllCompiled(policies) && PoliciesAreSafe(policies) && uid != ""
    ensures AlwaysKeepsUnder(policies, key, uid)
  {
    forall w: World, steps: seq<Step>, clock: int
      | UnderPolicies(policies, 0, steps, key, uid, clock) && Unrecorded(w, key, uid) && key in w.live
      ensures KeepsCount(w, steps, key, uid)
    {
      UnderPoliciesIsFollowed(policies, 0, steps, key, uid, 0, clock);
      UnderPoliciesIsTimed(policies, 0, steps, key, uid, {}, clock);
      WellRunKeepsCount(w, steps, key, uid, 0, clock);
    }
  }

  // A run under one policy of the list is a run under the list.
  lemma {:induction false} OneOfPolicies(policies: seq<Policy>, i: nat, steps: seq<Step>, key: string, uid: string,
                                         clock: int)
    requires i < |policies| && UnderPolicy(policies[i], steps, key, uid, clock)
    ensures forall from :: 0 <= from <= i ==> UnderPolicies(policies, from, steps, key, uid, clock)
    decreases |steps|
  {
    if steps != [] {
      var r := steps[0].r;
      OneOfPolicies(policies, i, steps[1..], key, uid, if r.Key() == key then r.clock.nanos else clock);
    }
  }

  // So is a run under an earlier and then a later one.
  lemma {:induction false} TwoOfPolicies(policies: seq<Policy>, i: nat, j: nat, at: nat, steps: seq<Step>,
                                         key: string, uid: string, clock: int)
    requires i < j < |policies| && at <= 1 && UnderPolicies([policies[i], policies[j]], at, steps, key, uid, clock)
    ensures forall from :: 0 <= from <= (if at == 0 then i else j) ==>
      UnderPolicies(policies, from, steps, key, uid, clock)
    decreases |steps|
  {
    if steps != [] {
      var r, pair := steps[0].r, [policies[i], policies[j]];
      if r.Key() == key {
        var k :| at <= k < 2 && r.policy == pair[k] && UnderPolicies(pair, k, steps[1..], key, uid, r.clock.nanos);
        TwoOfPolicies(policies, i, j, k, steps[1..], key, uid, r.clock.nanos);
      } else {
        TwoOfPolicies(policies, i, j, at, steps[1..], key, uid, clock);
      }
    }
  }

  // ----- How an edit loses a count -----

  lemma PairForgets(w: World, x: Step, y: Step, key: string, uid: string)
    requires key in w.live && !Counted(After(After(w, x), y), key, uid, w.live[key])
    ensures !KeepsCount(w, [x, y], key, uid)
  {
    assert [x] + [y] == [x, y] && [x][1..] == [];
    assert Run(After(w, x), []) == After(w, x);
    RunAppend(w, [x], y);
  }

  ghost predicate Concerning(s: Step, key: string, uid: string, policy: Policy) {
    s.r.Key() == key && s.r.current.uid == uid && s.r.policy == policy && WellFormed(s.r)
  }

  lemma EditedPair(a: Policy, b: Policy, w: World, x: Step, y: Step, key: string, uid: string, since: int)
    requires Concerning(x, key, uid, a) && Concerning(y, key, uid, b)
    requires Healthy(w, since) && since <= x.r.clock.nanos <= y.r.clock.nanos
    ensures UnderPolicies([a, b], 0, [x, y], key, uid, since) && Sound(w, [x, y], since)
  {
    assert [x, y][1..] == [y] && [y][1..] == [];
    assert [a, b][1] == b && UnderPolicies([a, b], 1, [], key, uid, y.r.clock.nanos);
    assert UnderPolicies([a, b], 0, [y], key, uid, x.r.clock.nanos);
    assert [a, b][0] == a;
    assert Clocked([y], x.r.clock.nanos);
    ClockedIsAccepted(w, [x, y], since);
  }

  lemma EditedTriple(a: Policy, b: Policy, w: World, x: Step, y: Step, z: Step, key: string, uid: string, since: int)
    requires Concerning(x, key, uid, a) && Concerning(z, key, uid, b)
    requires Concerning(y, key, uid, a) || Concerning(y, key, uid, b)
    requires Healthy(w, since) && since <= x.r.clock.nanos <= y.r.clock.nanos <= z.r.clock.nanos
    ensures UnderPolicies([a, b], 0, [x, y, z], key, uid, since) && Sound(w, [x, y, z], since)
  {
    var both := [a, b];
    assert [x, y, z][1..] == [y, z] && [y, z][1..] == [z] && [z][1..] == [];
    assert both[0] == a && both[1] == b && UnderPolicies(both, 1, [], key, uid, z.r.clock.nanos);
    assert UnderPolicies(both, 0, [z], key, uid, y.r.clock.nanos);
    assert UnderPolicies(both, 1, [z], key, uid, y.r.clock.nanos);
    assert UnderPolicies(both, 0, [y, z], key, uid, x.r.clock.nanos);
    SoundTriple(w, x, y, z, since);
  }

  // A count the controller scaled down to, above the target and entering another instance, is
  // taken for an override.
  lemma EnteringIsTakenForOverride(w: World, r: Request, view: WindowView) returns (last: Step)
    requires Proceeds(w, r) && r.current.uid != ""
    requires WindowAt(r.Now(), r.policy.schedule) == Ok(view) && view.Inside? && view.instance.Instance?
    requires r.Key() in w.durable && w.durable[r.Key()].workloadUID == r.current.uid
    requires w.durable[r.Key()].windowInstanceID != view.instance
    requires w.durable[r.Key()].replicaSnapshot.Some?
    requires w.durable[r.Key()].replicaSnapshot.value.replicas != w.live[r.Key()]
    requires w.live[r.Key()] > r.policy.replicas.scheduledDown
    ensures last.r == r
    ensures !Counted(After(w, last), r.Key(), r.current.uid, w.durable[r.Key()].replicaSnapshot.value.replicas)
  {
    assert WrongOverride(w, r);
    var done := WrongOverrideLoses(w, r, w.durable[r.Key()].replicaSnapshot.value.replicas);
    last := Step(r, done);
    assert After(w, last) == Perform(w, Plan(w, r)[..done]);
  }

  // Instants inside a's windows and, later, inside another instance of b's.
  lemma TwoInstances(a: DownSchedule, b: DownSchedule, since: int)
    returns (now: int, view: WindowView, later: int, entering: WindowView)
    requires CompiledSchedule(a) && CompiledSchedule(b)
    ensures since < now < later
    ensures WindowAt(Time(now, 0), Some(a)) == Ok(view) && view.Inside? && view.instance.Instance?
    ensures WindowAt(Time(later, 0), Some(b)) == Ok(entering) && entering.Inside? && entering.instance.Instance?
    ensures view.instance != entering.instance
  {
    now, view := SomeInstantInside(a, since);
    assert ReportedAt(a, view.instance, now);
    later, entering := SomeInstantInside(b, Max(now, now + 2 * NANOS_PER_DAY + a.zone.offset - b.zone.offset));
    assert ReportedAt(b, entering.instance, later);
    InstanceIsNearItsDate(a, view.instance, now);
    InstanceIsNearItsDate(b, entering.instance, later);
  }

  // A first downscale, and a later pass with a lower target in another instance.
  lemma DownscaledIsForgotten(w: World, r: Request, view: WindowView, q: Request, entering: WindowView)
    returns (last: Step)
    requires r.admitted && r.Revise().Ok? && r.Key() !in w.durable && r.Key() in w.live && r.current.uid != ""
    requires WindowAt(r.Now(), r.policy.schedule) == Ok(view) && view.Inside? && view.instance.Instance?
    requires r.policy.lifecycle.maxAge > 0 && w.live[r.Key()] > r.policy.replicas.scheduledDown
    requires q.admitted && q.Revise().Ok? && q.Key() == r.Key() && q.current.uid == r.current.uid
    requires WindowAt(q.Now(), q.policy.schedule) == Ok(entering) && entering.Inside? && entering.instance.Instance?
    requires entering.instance != view.instance
    requires q.policy.replicas.scheduledDown < r.policy.replicas.scheduledDown
    ensures last.r == q
    ensures !Counted(After(After(w, Step(r, 3)), last), r.Key(), r.current.uid, w.live[r.Key()])
  {
    var recorded := FirstDownscale(w, r, view);
    last := EnteringIsTakenForOverride(After(w, Step(r, 3)), q, entering);
  }

  // Lowering a scheduled target loses a count, at any time.
  lemma LoweredTargetLoses(a: Policy, b: Policy, before: Workload, after: Workload, since: int)
    returns (w: World, steps: seq<Step>)
    requires Compiled(a) && Compiled(b) && a.schedule.Some? && b.schedule.Some?
    requires a.replicas.scheduledDown > b.replicas.scheduledDown && ToldApart(a, b, before, after) && since > 0
    ensures UnderPolicies([a, b], 0, steps, before.Key(), before.uid, since) && Sound(w, steps, since)
    ensures Unrecorded(w, before.Key(), before.uid) && before.Key() in w.live
    ensures !KeepsCount(w, steps, before.Key(), before.uid)
  {
    var key := before.Key();
    var now, view, later, entering := TwoInstances(a.schedule.value, b.schedule.value, since);
    var r, q := Request(before, a, true, Time(now, 0)), Request(after, b, true, Time(later, 0));
    w := World(map[], map[key := a.replicas.scheduledDown + 1]);
    var last := DownscaledIsForgotten(w, r, view, q, entering);
    steps := [Step(r, 3), last];
    PairForgets(w, Step(r, 3), last, key, before.uid);
    EditedPair(a, b, w, Step(r, 3), last, key, before.uid, since);
  }

  // So does a schedule whose target is below what a policy without one scaled to on expiry.
  lemma NewScheduleLoses(a: Policy, b: Policy, before: Workload, after: Workload, since: int)
    returns (w: World, steps: seq<Step>)
    requires Compiled(a) && Compiled(b) && a.schedule.None? && b.schedule.Some?
    requires a.lifecycle.expiredAction == EXPIRED_ACTION_SCALE
    requires a.replicas.expired > b.replicas.scheduledDown && ToldApart(a, b, before, after) && since > 0
    ensures UnderPolicies([a, b], 0, steps, before.Key(), before.uid, since) && Sound(w, steps, since)
    ensures Unrecorded(w, before.Key(), before.uid) && before.Key() in w.live
    ensures !KeepsCount(w, steps, before.Key(), before.uid)
  {
    var key := before.Key();
    var early := Request(before, a, true, Time(since, 0));
    var late := Request(before, a, true, Time(since + a.lifecycle.maxAge, 0));
    var moment, entering := SomeInstantInside(b.schedule.value, since + a.lifecycle.maxAge);
    var q := Request(after, b, true, Time(moment, 0));
    w := World(map[], map[key := a.replicas.expired + 1]);
    var met := ExpiresOutside(w, early, late);
    var last := EnteringIsTakenForOverride(met, q, entering);
    steps := [Step(early, 1), Step(late, 2), last];
    ThreeSteps(w, Step(early, 1), Step(late, 2), last);
    EditedTriple(a, b, w, Step(early, 1), Step(late, 2), last, key, before.uid, since);
  }

  // First contact, and an expiry outside all windows.
  lemma ExpiresOutside(w: World, early: Request, late: Request) returns (met: World)
    requires early.admitted && early.Revise().Ok? && early.Key() !in w.durable && early.Key() in w.live
    requires late == early.(clock := late.clock) && early.current.uid != "" && early.policy.schedule.None?
    requires late.clock.nanos == early.clock.nanos + early.policy.lifecycle.maxAge
    requires early.policy.lifecycle.expiredAction != EXPIRED_ACTION_DELETE
    requires w.live[early.Key()] > early.policy.replicas.expired
    ensures met == After(After(w, Step(early, 1)), Step(late, 2))
    ensures met.live == w.live[early.Key() := early.policy.replicas.expired]
    ensures early.Key() in met.durable && var s := met.durable[early.Key()];
      && s.workloadUID == early.current.uid && s.windowInstanceID == NoInstance
      && SnapshotOf(s) == Some(w.live[early.Key()])
  {
    KnownAfterFirstContact(w, early, late, Outside);
    var recorded := ExpiredPassCaptures(After(w, Step(early, 1)), late, Outside);
    met := After(After(w, Step(early, 1)), Step(late, 2));
  }

  // Instants after any given one at which two schedules report an instance that outlasts maxAge.
  lemma StretchedInstants(maxAge: int, past: DownSchedule, current: DownSchedule, since: int)
    returns (id: InstanceID, first: int, second: int)
    requires CompiledSchedule(past) && CompiledSchedule(current) && maxAge > 0
    requires !InstancesFit(past, current, maxAge)
    ensures id.Instance? && ReportedAt(past, id, first) && ReportedAt(current, id, second)
    ensures first > since && second >= first + maxAge
  {
    OutlivesIff(maxAge, past, current);
    var found, m, n := SomeReportsApart(maxAge, past, current);
    id, first, second := ReportedAgain(past, current, found, m, n, since);
  }

  // And so do windows that put together an instance longer than revisions live.
  lemma StretchedInstanceLoses(a: Policy, b: Policy, before: Workload, after: Workload, since: int)
    returns (w: World, steps: seq<Step>)
    requires Compiled(a) && Compiled(b) && a.schedule.Some? && b.schedule.Some?
    requires b.lifecycle.expiredAction == EXPIRED_ACTION_SCALE
    requires !InstancesFit(a.schedule.value, b.schedule.value, b.lifecycle.maxAge)
    requires ToldApart(a, b, before, after) && since > 0
    ensures UnderPolicies([a, b], 0, steps, before.Key(), before.uid, since) && Sound(w, steps, since)
    ensures Unrecorded(w, before.Key(), before.uid) && before.Key() in w.live
    ensures !KeepsCount(w, steps, before.Key(), before.uid)
  {
    var id, first, second := StretchedInstants(b.lifecycle.maxAge, a.schedule.value, b.schedule.value, since);
    w, steps := RedeployRunLoses(a, b, before, after, id, first, second);
    RedeployIsEdit(a, b, before, after, w, steps, since);
  }

  lemma RedeployIsEdit(a: Policy, b: Policy, before: Workload, after: Workload, w: World, steps: seq<Step>, since: int)
    requires Compiled(a) && Compiled(b) && ToldApart(a, b, before, after) && 0 < since && Healthy(w, since)
    requires Redeploys(steps, a, b, before, after) && since <= steps[0].r.clock.nanos
    ensures UnderPolicies([a, b], 0, steps, before.Key(), before.uid, since) && Sound(w, steps, since)
  {
    EditedTriple(a, b, w, steps[0], steps[1], steps[2], before.Key(), before.uid, since);
    assert steps == [steps[0], steps[1], steps[2]];
  }

  lemma UnsafePolicyLoses(policies: seq<Policy>, i: nat, before: Workload, after: Workload, since: int)
    returns (w: World, steps: seq<Step>)
    requires AllCompiled(policies) && i < |policies| && !CountIsSafeUnder(policies[i])
    requires Redeployable(policies[i], before, after) && since > 0
    ensures UnderPolicies(policies, 0, steps, before.Key(), before.uid, since) && Sound(w, steps, since)
    ensures Unrecorded(w, before.Key(), before.uid) && before.Key() in w.live
    ensures !KeepsCount(w, steps, before.Key(), before.uid)
  {
    KeepsCountIff(policies[i], before, after, since);
    w, steps :|
      && UnderPolicy(policies[i], steps, before.Key(), before.uid, since) && Sound(w, steps, since)
      && Unrecorded(w, before.Key(), before.uid) && before.Key() in w.live
      && !KeepsCount(w, steps, before.Key(), before.uid);
    OneOfPolicies(policies, i, steps, before.Key(), before.uid, since);
  }

  lemma UnsafeEditLoses(policies: seq<Policy>, i: nat, j: nat, before: Workload, after: Workload, since: int)
    returns (w: World, steps: seq<Step>)
    requires AllCompiled(policies) && i < j < |policies| && !EditIsSafe(policies[i], policies[j])
    requires CountIsSafeUnder(policies[i]) && CountIsSafeUnder(policies[j])
    requires ToldApart(policies[i], policies[j], before, after) && since > 0
    ensures UnderPolicies(policies, 0, steps, before.Key(), before.uid, since) && Sound(w, steps, since)
    ensures Unrecorded(w, before.Key(), before.uid) && before.Key() in w.live
    ensures !KeepsCount(w, steps, before.Key(), before.uid)
  {
    var a, b := policies[i], policies[j];
    if ScalesTo(a).Some? && ScalesTo(a).value > b.replicas.scheduledDown {
      if a.schedule.Some? {
        w, steps := LoweredTargetLoses(a, b, before, after, since);
      } else {
        w, steps := NewScheduleLoses(a, b, before, after, since);
      }
    } else {
      w, steps := StretchedInstanceLoses(a, b, before, after, since);
    }
    TwoOfPolicies(policies, i, j, 0, steps, before.Key(), before.uid, since);
  }

  // Going through any policies in turn, edited at any moment and in any respect, keeps every
  // count through every run if and only if each is safe alone and each may replace each
  // earlier one; the same over only those runs after a given time that can happen.
  lemma PoliciesKeepCountIff(policies: seq<Policy>, before: Workload, after: Workload, since: int)
    requires AllCompiled(policies) && AllTellApart(policies, before, after) && Listable(before) && since > 0
    ensures AlwaysKeepsUnder(policies, before.Key(), before.uid) <==> PoliciesAreSafe(policies)
    ensures SoundlyKeepsUnder(policies, before.Key(), before.uid, since) <==> PoliciesAreSafe(policies)
  {
    if PoliciesAreSafe(policies) {
      SafePoliciesKeepCount(policies, before.Key(), before.uid);
    } else {
      var w, steps;
      if i :| 0 <= i < |policies| && !CountIsSafeUnder(policies[i]) {
        assert ToldApart(policies[i], policies[i], before, after);
        w, steps := UnsafePolicyLoses(policies, i, before, after, since);
      } else {
        var i, j :| 0 <= i < j < |policies| && !EditIsSafe(policies[i], policies[j]);
        assert ToldApart(policies[i], policies[j], before, after);
        w, steps := UnsafeEditLoses(policies, i, j, before, after, since);
      }
      assert UnderPolicies(policies, 0, steps, before.Key(), before.uid, since) && Sound(w, steps, since);
      assert !KeepsCount(w, steps, before.Key(), before.uid);
    }
  }
}
