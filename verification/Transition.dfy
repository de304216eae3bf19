// One reconcile pass over one workload: the writes it intends, in order, and the
// reconciler that performs them against two separately failing stores.
module Transition {
  import opened Basics
  import opened Schedule
  import opened Revision
  import opened Policies
  import opened Decision
  import opened State

  // The two stores: the durable document and the live replicas of the workloads that exist.
  datatype World = World(durable: States, live: map<string, int>)

  datatype Write =
    | SaveDocument(states: States)
    | UpdateScale(key: string, replicas: int)
    | DeleteWorkload(key: string)

  function Apply(w: World, e: Write): World {
    match e
    case SaveDocument(states) => w.(durable := states)
    case UpdateScale(key, replicas) => if key in w.live then w.(live := w.live[key := replicas]) else w
    case DeleteWorkload(key) => w.(live := w.live - {key})
  }

  function Perform(w: World, writes: seq<Write>): World
    decreases |writes|
  {
    if writes == [] then w else Perform(Apply(w, writes[0]), writes[1..])
  }

  lemma {:induction false} PerformConcat(w: World, a: seq<Write>, b: seq<Write>)
    ensures Perform(w, a + b) == Perform(Perform(w, a), b)
    decreases |a|
  {
    if a == [] {
      assert a + b == b;
    } else {
      assert (a + b)[1..] == a[1..] + b;
      PerformConcat(Apply(w, a[0]), a[1..], b);
    }
  }

  lemma PerformOne(w: World, e: Write)
    ensures Perform(w, [e]) == Apply(w, e)
  {}

  lemma PerformTwo(w: World, e: Write, f: Write)
    ensures Perform(w, [e, f]) == Apply(Apply(w, e), f)
  {
    PerformConcat(w, [e], [f]);
    assert [e] + [f] == [e, f];
  }

  // ----- Inputs of a pass -----

  // What the caller and the environment supply: the listed workload, its policy, the HPA
  // admission verdict and the clock reading.
  datatype Request = Request(current: Workload, policy: Policy, admitted: bool, clock: Time) {
    function Key(): string { current.Key() }

    function Now(): Time { clock.UTC() }

    function Revise(): Result<RevisionIdentity> { Calculate(current.containers, policy.lifecycle.revision) }
  }

  const ZERO_STATE := WorkloadState("", "", "", "", "", NoDigest, NoDigest, "", [], Time(0, 0),
                                    Time(0, 0), None, NoDigest, NoInstance, false, "")

  // Reading a missing key of the map gives the zero state.
  function Recorded(states: States, key: string): WorkloadState {
    if key in states then states[key] else ZERO_STATE
  }

  predicate SameUID(previous: WorkloadState, current: Workload) {
    previous.workloadUID != "" && previous.workloadUID == current.uid
  }

  predicate SameIdentity(previous: WorkloadState, current: Workload, revision: RevisionIdentity) {
    && SameUID(previous, current)
    && previous.trackingSpecHash == revision.trackingSpecHash
    && previous.revisionHash == revision.revisionHash
  }

  function ReconcileIdentity(previous: WorkloadState, current: Workload, policyName: string,
                             revision: RevisionIdentity, now: Time): WorkloadState
  {
    var sameUID := SameUID(previous, current);
    WorkloadState(
      current.kind, current.namespace, current.name, current.uid, policyName,
      revision.trackingSpecHash, revision.revisionHash, SOURCE_CONTAINER_IMAGES, revision.containers,
      if SameIdentity(previous, current, revision) then previous.firstSeenAt else now,
      now,
      if sameUID then previous.replicaSnapshot else None,
      if sameUID then previous.windowEntryRevision else NoDigest,
      if sameUID then previous.windowInstanceID else NoInstance,
      sameUID && previous.scaleDownSkipped,
      if sameUID then previous.scaleDownSkipReason else "")
  }

  // Where now stands with respect to the configured windows.
  datatype WindowView = Outside | Inside(name: string, instance: InstanceID)

  function WindowAt(now: Time, schedule: Option<DownSchedule>): Result<WindowView> {
    if schedule.None? then Ok(Outside)
    else
      var DownSchedule(zone, windows) := schedule.value;
      match Schedule.MatchResult(now, zone, windows)
      case Err => Err
      case Ok(None) => Ok(Outside)
      case Ok(Some(name)) =>
        if name == "" then Ok(Inside(name, NoInstance))
        else
          (match InstanceOf(now, zone, name, windows)
           case Err => Err
           case Ok(id) => Ok(Inside(name, id)))
  }

  function InstanceIn(view: WindowView): InstanceID {
    if view.Inside? then view.instance else NoInstance
  }

  // Window fields only outlive a pass within the instance they were recorded for.
  function ReconcileWindowCycle(s: WorkloadState, instance: InstanceID, scheduledDown: bool): WorkloadState {
    if !scheduledDown || instance != s.windowInstanceID then
      s.(windowEntryRevision := NoDigest, windowInstanceID := NoInstance,
         scaleDownSkipped := false, scaleDownSkipReason := "")
    else s
  }

  // The state after the window cycle, with an entry revision whenever there is an instance.
  function EnterWindow(s: WorkloadState, view: WindowView, revisionHash: Digest): WorkloadState {
    var cycled := ReconcileWindowCycle(s, InstanceIn(view), view.Inside?);
    if view.Inside? && view.instance != NoInstance && cycled.windowEntryRevision == NoDigest then
      cycled.(windowEntryRevision := revisionHash, windowInstanceID := view.instance)
    else cycled
  }

  // ----- The writes a pass intends -----

  predicate RedeployPending(s: WorkloadState, view: WindowView, revisionHash: Digest) {
    view.Inside? && !s.scaleDownSkipped && s.windowEntryRevision != NoDigest && s.windowEntryRevision != revisionHash
  }

  function MarkRedeployed(s: WorkloadState): WorkloadState {
    s.(replicaSnapshot := None, scaleDownSkipped := true, scaleDownSkipReason := REASON_SCALE_DOWN_SKIPPED)
  }

  function RedeployWrites(states: States, key: string, s: WorkloadState): seq<Write> {
    (if s.replicaSnapshot.Some? then [UpdateScale(key, s.replicaSnapshot.value.replicas)] else [])
    + [SaveDocument(states[key := MarkRedeployed(s)])]
  }

  predicate OverrideSeen(s: WorkloadState, view: WindowView, live: int, target: int) {
    view.Inside? && !s.scaleDownSkipped && s.replicaSnapshot.Some? && live > target
  }

  function MarkOverridden(s: WorkloadState): WorkloadState {
    s.(replicaSnapshot := None, scaleDownSkipped := true, scaleDownSkipReason := REASON_REPLICA_OVERRIDE)
  }

  function AfterRedeploy(s: WorkloadState, view: WindowView, revisionHash: Digest): WorkloadState {
    if RedeployPending(s, view, revisionHash) then MarkRedeployed(s) else s
  }

  function AfterOverride(s: WorkloadState, view: WindowView, live: int, target: int): WorkloadState {
    if OverrideSeen(s, view, live, target) then MarkOverridden(s) else s
  }

  function InputFor(s: WorkloadState, view: WindowView, live: int, policy: Policy, now: Time): DecisionInput {
    DecisionInput(
      now, s.firstSeenAt, policy.lifecycle.maxAge, live,
      if s.replicaSnapshot.Some? then Some(s.replicaSnapshot.value.replicas) else None,
      view.Inside?, if view.Inside? then view.name else "",
      policy.replicas.scheduledDown, policy.replicas.expired,
      s.scaleDownSkipped, s.scaleDownSkipReason, policy.lifecycle.expiredAction)
  }

  function DeleteWrites(states: States, key: string): seq<Write> {
    [DeleteWorkload(key), SaveDocument(states - {key})]
  }

  function ScaleIfNeeded(key: string, d: Decision): seq<Write> {
    if d.shouldScale then [UpdateScale(key, d.desiredReplicas)] else []
  }

  function ScaleWrites(states: States, key: string, s: WorkloadState, live: int,
                       d: Decision, identitySaved: bool, now: Time): seq<Write>
  {
    if d.needsSnapshot then
      var captured := s.(replicaSnapshot := Some(ReplicaSnapshot(live, now, d.reason)));
      [SaveDocument(states[key := captured])] + ScaleIfNeeded(key, d)
    else if d.clearSnapshotAfterScale then
      [UpdateScale(key, d.desiredReplicas)] + [SaveDocument(states[key := s.(replicaSnapshot := None)])]
    else
      ScaleIfNeeded(key, d) + (if !identitySaved || d.shouldScale then [SaveDocument(states[key := s])] else [])
  }

  function RedeployStage(states: States, key: string, entered: WorkloadState, view: WindowView): seq<Write> {
    if RedeployPending(entered, view, entered.revisionHash) then RedeployWrites(states, key, entered) else []
  }

  function OverrideStage(states: States, key: string, s: WorkloadState,
                         view: WindowView, live: int, target: int): seq<Write> {
    if OverrideSeen(s, view, live, target) then [SaveDocument(states[key := MarkOverridden(s)])] else []
  }

  function SettleStages(states: States, key: string, entered: WorkloadState,
                        view: WindowView, live: int, target: int): seq<Write> {
    RedeployStage(states, key, entered, view)
    + OverrideStage(states, key, AfterRedeploy(entered, view, entered.revisionHash), view, live, target)
  }

  function FinalStage(states: States, key: string, s: WorkloadState, view: WindowView,
                      live: int, policy: Policy, identitySaved: bool, now: Time): seq<Write>
  {
    var d := Decide(InputFor(s, view, live, policy, now));
    if d.deleteWorkload then DeleteWrites(states, key) else ScaleWrites(states, key, s, live, d, identitySaved, now)
  }

  // The state the decision is made on.
  function Settled(entered: WorkloadState, view: WindowView, live: int, target: int): WorkloadState {
    AfterOverride(AfterRedeploy(entered, view, entered.revisionHash), view, live, target)
  }

  // From the entered window to the end of the pass, given the live count read.
  function Course(states: States, key: string, entered: WorkloadState, view: WindowView,
                  live: int, policy: Policy, identitySaved: bool, now: Time): seq<Write>
  {
    var target := policy.replicas.scheduledDown;
    SettleStages(states, key, entered, view, live, target)
    + FinalStage(states, key, Settled(entered, view, live, target), view, live, policy, identitySaved, now)
  }

  function Baseline(states: States, r: Request, revision: RevisionIdentity): WorkloadState {
    ReconcileIdentity(Recorded(states, r.Key()), r.current, r.policy.name, revision, r.Now())
  }

  predicate IdentityChanged(states: States, r: Request, revision: RevisionIdentity) {
    !SameIdentity(Recorded(states, r.Key()), r.current, revision)
  }

  function BaselineWrites(states: States, r: Request, revision: RevisionIdentity): seq<Write> {
    if IdentityChanged(states, r, revision) then [SaveDocument(states[r.Key() := Baseline(states, r, revision)])]
    else []
  }

  function Entered(states: States, r: Request, revision: RevisionIdentity, view: WindowView): WorkloadState {
    EnterWindow(Baseline(states, r, revision), view, revision.revisionHash)
  }

  // The pass gets past every check: admission, revision, live read and schedule.
  predicate Proceeds(w: World, r: Request) {
    && r.admitted
    && r.Revise().Ok?
    && r.Key() in w.live
    && WindowAt(r.Now(), r.policy.schedule).Ok?
  }

  // The course of a pass that has its baseline, or nothing when a check stops it.
  function CourseFrom(states: States, live: map<string, int>, current: WorkloadState,
                      identityChanged: bool, r: Request): seq<Write> {
    if r.Key() in live && WindowAt(r.Now(), r.policy.schedule).Ok? then
      var view := WindowAt(r.Now(), r.policy.schedule).value;
      Course(states, r.Key(), EnterWindow(current, view, current.revisionHash),
             view, live[r.Key()], r.policy, identityChanged, r.Now())
    else []
  }

  function CourseOf(w: World, r: Request): seq<Write>
    requires r.Revise().Ok?
  {
    var revision := r.Revise().value;
    CourseFrom(w.durable, w.live, Baseline(w.durable, r, revision), IdentityChanged(w.durable, r, revision), r)
  }

  // The writes of a pass nothing goes wrong in. Every failure and every crash stops the
  // pass, so a pass performs some prefix of this list.
  function Plan(w: World, r: Request): seq<Write> {
    if !r.admitted || r.Revise().Err? then []
    else BaselineWrites(w.durable, r, r.Revise().value) + CourseOf(w, r)
  }

  // The decision a pass reports when nothing goes wrong.
  function DecisionOf(w: World, r: Request): Decision
    requires Proceeds(w, r)
  {
    var view := WindowAt(r.Now(), r.policy.schedule).value;
    var live := w.live[r.Key()];
    Decide(InputFor(Settled(Entered(w.durable, r, r.Revise().value, view), view, live, r.policy.replicas.scheduledDown),
                    view, live, r.policy, r.Now()))
  }

  // One map is the other with the entry of the key replaced.
  predicate EditedAt(before: States, after: States, key: string, s: WorkloadState) {
    after == before[key := s]
  }

  // Replacing the entry of a key forgets what was there before.
  lemma SameWrites(states: States, key: string, s: WorkloadState, t: WorkloadState)
    ensures states[key := s][key := t] == states[key := t]
    ensures states[key := s] - {key} == states - {key}
  {}

  lemma StagesSame(states: States, key: string, x: WorkloadState,
                   s: WorkloadState, view: WindowView, live: int, target: int)
    ensures RedeployStage(states[key := x], key, s, view) == RedeployStage(states, key, s, view)
    ensures OverrideStage(states[key := x], key, s, view, live,
                          target) == OverrideStage(states, key, s, view, live, target)
  {
    SameWrites(states, key, x, MarkRedeployed(s));
    SameWrites(states, key, x, MarkOverridden(s));
  }

  lemma FinalSame(states: States, key: string, x: WorkloadState, s: WorkloadState,
                  view: WindowView, live: int, policy: Policy, identitySaved: bool, now: Time)
    ensures FinalStage(states[key := x], key, s, view, live, policy, identitySaved, now)
         == FinalStage(states, key, s, view, live, policy, identitySaved, now)
  {
    var d := Decide(InputFor(s, view, live, policy, now));
    SameWrites(states, key, x, s);
    SameWrites(states, key, x, s.(replicaSnapshot := None));
    SameWrites(states, key, x, s.(replicaSnapshot := Some(ReplicaSnapshot(live, now, d.reason))));
  }

  lemma CourseSame(states: States, key: string, x: WorkloadState, entered: WorkloadState,
                   view: WindowView, live: int, policy: Policy, identitySaved: bool, now: Time)
    ensures Course(states[key := x], key, entered, view, live, policy, identitySaved, now)
         == Course(states, key, entered, view, live, policy, identitySaved, now)
  {
    StagesSame(states, key, x, entered, view, live, policy.replicas.scheduledDown);
    StagesSame(states, key, x, AfterRedeploy(entered, view, entered.revisionHash),
               view, live, policy.replicas.scheduledDown);
    FinalSame(states, key, x, Settled(entered, view, live, policy.replicas.scheduledDown),
              view, live, policy, identitySaved, now);
  }

  lemma CourseFromSame(states: States, live: map<string, int>,
                       current: WorkloadState, identityChanged: bool, r: Request)
    ensures CourseFrom(states[r.Key() := current], live, current, identityChanged, r)
         == CourseFrom(states, live, current, identityChanged, r)
  {
    if r.Key() in live && WindowAt(r.Now(), r.policy.schedule).Ok? {
      var view := WindowAt(r.Now(), r.policy.schedule).value;
      CourseSame(states, r.Key(), current, EnterWindow(current, view, current.revisionHash),
                 view, live[r.Key()], r.policy, identityChanged, r.Now());
    }
  }

  // Every document among the writes is one the store accepts.
  ghost predicate Saveable(writes: seq<Write>) {
    forall e :: e in writes && e.SaveDocument? ==> ValidStates(e.states)
  }

  lemma SaveableParts(a: seq<Write>, b: seq<Write>)
    ensures Saveable(a + b) <==> Saveable(a) && Saveable(b)
  {
    forall e ensures e in a + b <==> e in a || e in b {}
  }
}
