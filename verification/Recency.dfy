// A redeploy inside a window never meets an expired revision, as long as revisions live at
// least as long as one window instance.
module Recency {
  import opened Basics
  import opened Schedule
  import opened Revision
  import opened Policies
  import opened Decision
  import opened State
  import opened Transition
  import opened Runs
  import opened Intent

  // The first nanosecond of the named occurrence.
  function InstanceStart(schedule: DownSchedule, id: InstanceID): int
    requires CompiledSchedule(schedule) && id.Instance? && FirstNamed(schedule.windows, id.name).Some?
  {
    FirstNamedIn(schedule.windows, id.name);
    OccurrenceStart(FirstNamed(schedule.windows, id.name).value, id.startDay) * NANOS_PER_MINUTE - schedule.zone.offset
  }

  lemma {:induction false} FirstNamedIn(windows: seq<Window>, name: string)
    requires FirstNamed(windows, name).Some?
    ensures FirstNamed(windows, name).value in windows
  {
    if windows[0].name != name { FirstNamedIn(windows[1..], name); }
  }

  // The schedules a workload is put under in turn, as compilation leaves them.
  ghost predicate Usable(schedules: set<DownSchedule>) {
    forall schedule :: schedule in schedules ==> CompiledSchedule(schedule)
  }

  predicate Among(schedule: Option<DownSchedule>, schedules: set<DownSchedule>) {
    schedule.Some? ==> schedule.value in schedules
  }

  // The schedule reports this instance at that instant.
  predicate ReportedAt(schedule: DownSchedule, id: InstanceID, nanos: int) {
    var view := WindowAt(Time(nanos, 0), Some(schedule));
    view.Ok? && view.value.Inside? && view.value.instance == id
  }

  // One of the schedules reports the instance at that instant.
  ghost predicate Reported(schedules: set<DownSchedule>, id: InstanceID, nanos: int) {
    exists schedule :: schedule in schedules && ReportedAt(schedule, id, nanos)
  }

  // The instance had been reported by then.
  ghost predicate ReportedBy(schedules: set<DownSchedule>, id: InstanceID, nanos: int) {
    id.Instance? ==> exists past :: past <= nanos && Reported(schedules, id, past)
  }

  // No instance that was ever reported is reported again a revision's lifetime later.
  ghost predicate Outlives(maxAge: int, past: set<DownSchedule>, current: DownSchedule) {
    forall id: InstanceID, first: int, second: int ::
      id.Instance? && Reported(past, id, first) && ReportedAt(current, id, second) ==> second < first + maxAge
  }

  ghost predicate OutlivesInstances(policy: Policy, schedules: set<DownSchedule>) {
    policy.schedule.Some? ==> Outlives(policy.lifecycle.maxAge, schedules, policy.schedule.value)
  }

  // The schedule of a policy, if it has one.
  function OwnSchedule(policy: Policy): set<DownSchedule> {
    if policy.schedule.Some? then {policy.schedule.value} else {}
  }

  // Every revision outlives one occurrence of every window.
  predicate AgeCoversWindows(policy: Policy, schedule: DownSchedule)
    requires CompiledSchedule(schedule)
  {
    forall w :: w in schedule.windows ==> Length(w) * NANOS_PER_MINUTE <= policy.lifecycle.maxAge
  }

  // The recorded instance had been reported when the state was last seen, and a revision other
  // than the one recorded on entry was first seen no earlier than that.
  ghost predicate TimelyState(schedules: set<DownSchedule>, s: WorkloadState) {
    && ReportedBy(schedules, s.windowInstanceID, s.lastSeenAt.nanos)
    && (s.windowEntryRevision != NoDigest && s.windowEntryRevision != s.revisionHash ==>
          ReportedBy(schedules, s.windowInstanceID, s.firstSeenAt.nanos))
  }

  // The state is the given object's; None stands for any object.
  predicate Concerns(s: WorkloadState, who: Option<string>) {
    who.Some? ==> s.workloadUID == who.value
  }

  ghost predicate Timely(schedules: set<DownSchedule>, w: World, key: string, who: Option<string>, clock: int) {
    key in w.durable && Concerns(w.durable[key], who) ==>
      w.durable[key].lastSeenAt.nanos <= clock && TimelyState(schedules, w.durable[key])
  }

  // The window containing now, and the bounds of its occurrence.
  lemma InsideBounds(schedule: DownSchedule, now: Time)
    requires CompiledSchedule(schedule)
    ensures WindowAt(now, Some(schedule)).Ok?
    ensures var view := WindowAt(now, Some(schedule)).value;
      view.Inside? ==>
        && view.instance.Instance? && view.instance.name == view.name
        && FirstNamed(schedule.windows, view.name).Some?
        && FirstNamed(schedule.windows, view.name).value in schedule.windows
        && var length := Length(FirstNamed(schedule.windows, view.name).value) * NANOS_PER_MINUTE;
           InstanceStart(schedule, view.instance) <= now.nanos < InstanceStart(schedule, view.instance) + length
  {
    var DownSchedule(zone, windows) := schedule;
    MatchReportsLeastName(now, zone.offset, windows);
    var matched := Schedule.MatchResult(now, zone, windows).value;
    if matched.Some? {
      InstanceNamesTheOccurrence(now, zone.offset, windows, matched.value);
    }
  }

  // A pass over one object need only find that object's state timely.
  lemma BaselineTimely(schedules: set<DownSchedule>, w: World, r: Request,
                       revision: RevisionIdentity, who: Option<string>, clock: int)
    requires Timely(schedules, w, r.Key(), who, clock) && clock <= r.clock.nanos
    requires who.Some? ==> r.current.uid == who.value
    ensures TimelyState(schedules, Baseline(w.durable, r, revision))
    ensures Baseline(w.durable, r, revision).lastSeenAt == r.Now()
  {}

  lemma EnterTimely(schedules: set<DownSchedule>, s: WorkloadState, schedule: Option<DownSchedule>, now: Time)
    requires Usable(schedules) && Among(schedule, schedules)
    requires TimelyState(schedules, s) && s.lastSeenAt == now && now.zone == 0
    ensures WindowAt(now, schedule).Ok?
    ensures TimelyState(schedules, EnterWindow(s, WindowAt(now, schedule).value, s.revisionHash))
  {
    if schedule.Some? { InsideBounds(schedule.value, now); }
    var view := WindowAt(now, schedule).value;
    if view.Inside? { SeenInside(schedules, schedule, now); }
  }

  lemma SeenInside(schedules: set<DownSchedule>, schedule: Option<DownSchedule>, now: Time)
    requires Among(schedule, schedules) && now.zone == 0
    requires WindowAt(now, schedule).Ok? && WindowAt(now, schedule).value.Inside?
    ensures Reported(schedules, WindowAt(now, schedule).value.instance, now.nanos)
  {
    ReportedNow(schedule.value, now);
  }

  // A redeploy is only pending within the recorded instance.
  lemma PendingIsRecorded(s: WorkloadState, view: WindowView)
    requires RedeployPending(EnterWindow(s, view, s.revisionHash), view, s.revisionHash)
    ensures s.windowInstanceID == view.instance && s.windowEntryRevision != NoDigest
    ensures s.windowEntryRevision != s.revisionHash && EnterWindow(s, view, s.revisionHash) == s
  {}

  // In a timely state a pending redeploy belongs to a revision too young to have expired.
  lemma PendingIsYoung(schedules: set<DownSchedule>, s: WorkloadState, policy: Policy, live: int, now: Time)
    requires Usable(schedules) && Among(policy.schedule, schedules) && TimelyState(schedules, s) && now.zone == 0
    requires OutlivesInstances(policy, schedules)
    ensures WindowAt(now, policy.schedule).Ok?
    ensures var view := WindowAt(now, policy.schedule).value;
      var entered := EnterWindow(s, view, s.revisionHash);
      RedeployPending(entered, view, entered.revisionHash) ==> !Expired(InputFor(entered, view, live, policy, now))
  {
    if policy.schedule.Some? { InsideBounds(policy.schedule.value, now); }
    var view := WindowAt(now, policy.schedule).value;
    if RedeployPending(EnterWindow(s, view, s.revisionHash), view, s.revisionHash) {
      PendingIsRecorded(s, view);
      var past :| past <= s.firstSeenAt.nanos && Reported(schedules, view.instance, past);
      ReportedNow(policy.schedule.value, now);
      assert now.nanos < past + policy.lifecycle.maxAge;
    }
  }

  lemma ReportedNow(schedule: DownSchedule, now: Time)
    requires now.zone == 0 && WindowAt(now, Some(schedule)).Ok? && WindowAt(now, Some(schedule)).value.Inside?
    ensures ReportedAt(schedule, WindowAt(now, Some(schedule)).value.instance, now.nanos)
  {
    assert now == Time(now.nanos, 0);
  }

  // ----- Runs -----

  // The states a pass saves all come from its entered state.
  predicate Derived(s: WorkloadState, entered: WorkloadState) {
    && s.windowEntryRevision == entered.windowEntryRevision
    && s.windowInstanceID == entered.windowInstanceID
    && s.revisionHash == entered.revisionHash
    && s.firstSeenAt == entered.firstSeenAt
    && s.lastSeenAt == entered.lastSeenAt
  }

  ghost predicate SavesDerived(writes: seq<Write>, key: string, entered: WorkloadState) {
    forall i :: 0 <= i < |writes| && writes[i].SaveDocument? && key in writes[i].states ==>
      Derived(writes[i].states[key], entered)
  }

  lemma CourseSavesDerived(states: States, key: string, entered: WorkloadState, view: WindowView,
                           live: int, policy: Policy, identitySaved: bool, now: Time)
    ensures SavesDerived(Course(states, key, entered, view, live, policy, identitySaved, now), key, entered)
  {
    var settled := Settled(entered, view, live, policy.replicas.scheduledDown);
    assert Derived(settled, entered);
    FinalSavesDerived(states, key, settled, view, live, policy, identitySaved, now);
  }

  lemma FinalSavesDerived(states: States, key: string, s: WorkloadState, view: WindowView,
                          live: int, policy: Policy, identitySaved: bool, now: Time)
    ensures SavesDerived(FinalStage(states, key, s, view, live, policy, identitySaved, now), key, s)
  {}

  lemma {:induction false} DerivedKeepsTimely(schedules: set<DownSchedule>, w: World, writes: seq<Write>,
                                              key: string, who: Option<string>, entered: WorkloadState, clock: int)
    requires Timely(schedules, w, key, who, clock)
    requires TimelyState(schedules, entered) && entered.lastSeenAt.nanos <= clock
    requires SavesDerived(writes, key, entered)
    ensures Throughout(w, writes, x => Timely(schedules, x, key, who, clock))
    decreases |writes|
  {
    if writes != [] {
      DerivedKeepsTimely(schedules, Apply(w, writes[0]), writes[1..], key, who, entered, clock);
    }
  }

  lemma CourseKeepsTimely(schedules: set<DownSchedule>, w: World, states: States, live: map<string, int>,
                          baseline: WorkloadState, identitySaved: bool, r: Request, who: Option<string>)
    requires Usable(schedules) && Among(r.policy.schedule, schedules)
    requires Timely(schedules, w, r.Key(), who, r.clock.nanos)
    requires TimelyState(schedules, baseline) && baseline.lastSeenAt == r.Now()
    ensures Throughout(w, CourseFrom(states, live, baseline, identitySaved, r),
                       x => Timely(schedules, x, r.Key(), who, r.clock.nanos))
  {
    EnterTimely(schedules, baseline, r.policy.schedule, r.Now());
    var view := WindowAt(r.Now(), r.policy.schedule).value;
    var entered := EnterWindow(baseline, view, baseline.revisionHash);
    if r.Key() in live {
      CourseSavesDerived(states, r.Key(), entered, view, live[r.Key()], r.policy, identitySaved, r.Now());
    }
    DerivedKeepsTimely(schedules, w, CourseFrom(states, live, baseline, identitySaved, r),
                       r.Key(), who, entered, r.clock.nanos);
  }

  // Every write of a pass leaves a timely world.
  lemma PassKeepsTimely(schedules: set<DownSchedule>, w: World, r: Request, who: Option<string>, clock: int)
    requires Usable(schedules) && Among(r.policy.schedule, schedules)
    requires Timely(schedules, w, r.Key(), who, clock) && clock <= r.clock.nanos
    requires who.Some? ==> r.current.uid == who.value
    ensures Throughout(w, Plan(w, r), x => Timely(schedules, x, r.Key(), who, r.clock.nanos))
  {
    if r.admitted && r.Revise().Ok? {
      var revision := r.Revise().value;
      var inv := (x: World) => Timely(schedules, x, r.Key(), who, r.clock.nanos);
      var baseline := Baseline(w.durable, r, revision);
      var first := BaselineWrites(w.durable, r, revision);
      BaselineTimely(schedules, w, r, revision, who, clock);
      DerivedKeepsTimely(schedules, w, first, r.Key(), who, baseline, r.clock.nanos);
      ThroughoutEnd(w, first, inv);
      CourseKeepsTimely(schedules, Perform(w, first), w.durable, w.live, baseline,
                        IdentityChanged(w.durable, r, revision), r, who);
      ThroughoutConcat(w, first, CourseOf(w, r), inv);
    }
  }

  // Revisions are deleted on expiry, or outlive every window instance.
  ghost predicate Patient(policy: Policy, schedules: set<DownSchedule>) {
    policy.lifecycle.expiredAction == EXPIRED_ACTION_DELETE || OutlivesInstances(policy, schedules)
  }

  // No pass in a timely world captures a stale count.
  lemma NoStaleCapture(schedules: set<DownSchedule>, w: World, r: Request, who: Option<string>, clock: int)
    requires Usable(schedules) && Among(r.policy.schedule, schedules) && Patient(r.policy, schedules)
    requires Timely(schedules, w, r.Key(), who, clock) && clock <= r.clock.nanos
    requires who.Some? ==> r.current.uid == who.value
    ensures !StaleCapture(w, r)
  {
    if Proceeds(w, r) && r.policy.lifecycle.expiredAction != EXPIRED_ACTION_DELETE {
      var revision := r.Revise().value;
      BaselineTimely(schedules, w, r, revision, who, clock);
      PendingIsYoung(schedules, Baseline(w.durable, r, revision), r.policy, w.live[r.Key()], r.Now());
    }
  }

  // Passes over the workload are under policies that may change from pass to pass, each
  // patient with respect to every schedule so far, with a clock that never runs backwards.
  // Passes over other workloads are unrestricted.
  ghost predicate WellTimed(schedules: set<DownSchedule>, steps: seq<Step>,
                            key: string, who: Option<string>, clock: int)
    decreases |steps|
  {
    steps != [] ==>
      var r := steps[0].r;
      var seen := schedules + OwnSchedule(r.policy);
      if r.Key() == key then
        && (who.Some? ==> r.current.uid == who.value)
        && Usable(OwnSchedule(r.policy)) && Patient(r.policy, seen)
        && clock <= r.clock.nanos
        && WellTimed(seen, steps[1..], key, who, r.clock.nanos)
      else WellTimed(schedules, steps[1..], key, who, clock)
  }

  lemma TimelyUnderMore(schedules: set<DownSchedule>, more: set<DownSchedule>,
                        w: World, key: string, who: Option<string>, clock: int)
    requires schedules <= more && Timely(schedules, w, key, who, clock)
    ensures Timely(more, w, key, who, clock)
  {
    forall id, nanos | ReportedBy(schedules, id, nanos) ensures ReportedBy(more, id, nanos) {
      if id.Instance? {
        var past :| past <= nanos && Reported(schedules, id, past);
        assert Reported(more, id, past);
      }
    }
  }

  // No pass of the run over the workload captures a stale count.
  ghost predicate NeverStale(w: World, steps: seq<Step>, key: string)
    decreases |steps|
  {
    steps != [] ==>
      (steps[0].r.Key() == key ==> !StaleCapture(w, steps[0].r)) && NeverStale(After(w, steps[0]), steps[1..], key)
  }

  // No reachable pass both restores for a redeploy and finds the revision expired, whatever
  // fails and even where objects are deleted and recreated under the same name.
  lemma {:induction false} NoReachableStaleCapture(schedules: set<DownSchedule>, w: World, steps: seq<Step>,
                                                   key: string, who: Option<string>, clock: int)
    requires Usable(schedules) && WellTimed(schedules, steps, key, who, clock) && Timely(schedules, w, key, who, clock)
    ensures NeverStale(w, steps, key)
    decreases |steps|
  {
    if steps != [] {
      var s := steps[0];
      if s.r.Key() == key {
        var seen := schedules + OwnSchedule(s.r.policy);
        TimelyUnderMore(schedules, seen, w, key, who, clock);
        NoStaleCapture(seen, w, s.r, who, clock);
        PassKeepsTimely(seen, w, s.r, who, clock);
        StepKeeps(w, s, x => Timely(seen, x, key, who, s.r.clock.nanos));
        NoReachableStaleCapture(seen, After(w, s), steps[1..], key, who, s.r.clock.nanos);
      } else {
        StepLeavesOthersAlone(w, s, key);
        NoReachableStaleCapture(schedules, After(w, s), steps[1..], key, who, clock);
      }
    }
  }

  // Passes over the workload see one object, under policies each of which may follow the
  // ones before.
  ghost predicate Followed(steps: seq<Step>, key: string, uid: string, t: int)
    decreases |steps|
  {
    steps != [] ==>
      var r := steps[0].r;
      if r.Key() == key then
        r.current.uid == uid && Follows(r.policy, t) && Followed(steps[1..], key, uid, NextBound(r.policy, t))
      else Followed(steps[1..], key, uid, t)
  }

  // What an operator controls.
  ghost predicate WellRun(steps: seq<Step>, key: string, uid: string, t: int, clock: int) {
    WellTimed({}, steps, key, Some(uid), clock) && Followed(steps, key, uid, t)
  }

  lemma {:induction false} FollowedIsAdmissible(w: World, steps: seq<Step>, key: string, uid: string, t: int)
    requires NeverStale(w, steps, key) && Followed(steps, key, uid, t)
    ensures Admissible(w, steps, key, uid, t)
    decreases |steps|
  {
    if steps != [] {
      var r := steps[0].r;
      FollowedIsAdmissible(After(w, steps[0]), steps[1..], key, uid,
                           if r.Key() == key then NextBound(r.policy, t) else t);
    }
  }

  // Every well-run sequence of passes, with any failures and crashes, keeps the replica count
  // of a workload the store does not know, a former object's state under its name or not.
  lemma ReplicaCountIsNeverLost(w: World, steps: seq<Step>, key: string, uid: string, t: int, clock: int)
    requires WellRun(steps, key, uid, t, clock)
    requires uid != "" && Unrecorded(w, key, uid) && key in w.live
    ensures Safe(Run(w, steps), key, uid, FinalBound(steps, key, t), w.live[key])
    ensures key in Run(w, steps).live ==> Intended(Run(w, steps), key, uid) == w.live[key]
    ensures key in Run(w, steps).live ==>
      Run(w, steps).live[key] == w.live[key] || Run(w, steps).live[key] <= Min(FinalBound(steps, key, t), w.live[key])
  {
    NoReachableStaleCapture({}, w, steps, key, Some(uid), clock);
    FollowedIsAdmissible(w, steps, key, uid, t);
    RunKeepsIntendedCount(w, steps, key, uid, t, w.live[key]);
  }

  // The count alone.
  lemma WellRunKeepsCount(w: World, steps: seq<Step>, key: string, uid: string, t: int, clock: int)
    requires WellRun(steps, key, uid, t, clock)
    requires uid != "" && Unrecorded(w, key, uid) && key in w.live
    ensures Counted(Run(w, steps), key, uid, w.live[key])
  {
    ReplicaCountIsNeverLost(w, steps, key, uid, t, clock);
  }

  // ----- How long is long enough -----

  // Outliving every window is enough, and a day outlives every window.
  lemma AgeCoversInstances(policy: Policy, schedule: DownSchedule)
    requires CompiledSchedule(schedule) && AgeCoversWindows(policy, schedule)
    ensures Outlives(policy.lifecycle.maxAge, {schedule}, schedule)
  {
    forall id: InstanceID, first: int, second: int
      | id.Instance? && Reported({schedule}, id, first) && ReportedAt(schedule, id, second)
      ensures second < first + policy.lifecycle.maxAge
    {
      InsideBounds(schedule, Time(first, 0));
      InsideBounds(schedule, Time(second, 0));
    }
  }

  lemma DayCoversEveryWindow(policy: Policy, schedule: DownSchedule)
    requires CompiledSchedule(schedule) && policy.lifecycle.maxAge >= NANOS_PER_DAY
    ensures AgeCoversWindows(policy, schedule)
  {
    forall w | w in schedule.windows ensures Length(w) * NANOS_PER_MINUTE <= policy.lifecycle.maxAge {
      assert Length(w) <= MINUTES_PER_DAY;
    }
  }

  // An instance lies within two days of its date on the local clock.
  lemma InstanceIsNearItsDate(schedule: DownSchedule, id: InstanceID, nanos: int)
    requires CompiledSchedule(schedule) && id.Instance? && ReportedAt(schedule, id, nanos)
    ensures id.startDay * NANOS_PER_DAY <= nanos + schedule.zone.offset < (id.startDay + 2) * NANOS_PER_DAY
  {
    InsideBounds(schedule, Time(nanos, 0));
    var w := FirstNamed(schedule.windows, id.name).value;
    assert StartMinute(w) < MINUTES_PER_DAY && Length(w) <= MINUTES_PER_DAY;
  }

  // Windows may be edited, renamed, added and removed at any time as long as revisions live
  // for two days and the zones they were ever put in differ by no more than the rest.
  lemma TwoDaysCoverEdits(maxAge: int, past: set<DownSchedule>, current: DownSchedule, skew: int)
    requires Usable(past) && CompiledSchedule(current) && maxAge >= 2 * NANOS_PER_DAY + skew
    requires forall schedule :: schedule in past ==> schedule.zone.offset - current.zone.offset <= skew
    ensures Outlives(maxAge, past, current)
  {
    forall id: InstanceID, first: int, second: int
      | id.Instance? && Reported(past, id, first) && ReportedAt(current, id, second)
      ensures second < first + maxAge
    {
      var schedule :| schedule in past && ReportedAt(schedule, id, first);
      InstanceIsNearItsDate(schedule, id, first);
      InstanceIsNearItsDate(current, id, second);
    }
  }
}
