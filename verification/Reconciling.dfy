// The reconciler, step by step, over a ConfigMap store and a live scale that fail separately.
module Reconciling {
  import opened Basics
  import opened Schedule
  import opened Revision
  import opened Policies
  import opened Decision
  import opened State
  import opened Transition
  import opened ConfigMapStore

  // Writes happened in order and stopped somewhere in the plan.
  predicate Extends(before: seq<Write>, after: seq<Write>, plan: seq<Write>, complete: bool) {
    && before <= after
    && after[|before|..] <= plan
    && (complete ==> after == before + plan)
  }

  lemma ExtendsThen(a: seq<Write>, b: seq<Write>, c: seq<Write>, first: seq<Write>, second: seq<Write>, complete: bool)
    requires Extends(a, b, first, true) && Extends(b, c, second, complete)
    ensures Extends(a, c, first + second, complete)
  {
    assert c == b + c[|b|..];
    assert c[|a|..] == first + c[|b|..];
    assert (first + second)[..|first| + |c[|b|..]|] == first + second[..|c[|b|..]|];
  }

  lemma ExtendsStops(a: seq<Write>, b: seq<Write>, first: seq<Write>, second: seq<Write>)
    requires Extends(a, b, first, false)
    ensures Extends(a, b, first + second, false)
  {
    assert (first + second)[..|b| - |a|] == first[..|b| - |a|];
  }

  // The loaded copy of the document that a pass edits in place.
  class LoadedDocument {
    var states: States

    // A loaded document carries UTC times only, and passes keep it so.
    ghost predicate Valid()
      reads this
    {
      UTCStates(states)
    }

    constructor (states: States)
      ensures this.states == states
    {
      this.states := states;
    }
  }

  // The durable document, in a ConfigMap nobody else writes, and the live scale. Each write
  // succeeds, fails, or fails after taking effect; a crash between two steps leaves the same
  // worlds behind as a failure. A reliable cluster has no such faults.
  class Cluster {
    const store: Store
    const reliable: bool
    var live: map<string, int>
    ghost const fits: iset<States>
    ghost var durable: States
    ghost var origin: World
    ghost var trace: seq<Write>

    // durable is what the server stores, and the two stores are where the recorded writes
    // lead from the origin. On a reliable cluster the stored document is well formed and the
    // documents in fits are within the size limit.
    ghost predicate Valid()
      reads this, store, store.server
    {
      && store.server.Valid() && store.server.alone && store.codec.Lawful()
      && durable == StoredStates(store.codec, store.server.stored)
      && World(durable, live) == Perform(origin, trace)
      && (reliable ==>
            && store.server.quiet
            && Acceptable(store.codec, LoadOperation, store.server.stored)
            && forall states :: states in fits ==> Room(store.codec, store.server.stored, states))
    }

    ghost function Now(): World
      reads this
    {
      World(durable, live)
    }

    constructor (store: Store, live: map<string, int>, reliable: bool, ghost fits: iset<States>)
      requires store.server.Valid() && store.server.alone && store.codec.Lawful()
      requires reliable ==>
        && store.server.quiet
        && Acceptable(store.codec, LoadOperation, store.server.stored)
        && forall states :: states in fits ==> Room(store.codec, store.server.stored, states)
      ensures Valid() && trace == [] && this.store == store && this.live == live
      ensures this.reliable == reliable && this.fits == fits
    {
      this.store, this.reliable, this.live, this.fits := store, reliable, live, fits;
      durable := StoredStates(store.codec, store.server.stored);
      origin, trace := World(StoredStates(store.codec, store.server.stored), live), [];
    }

    // What the store promises when nothing fails: room for these documents.
    ghost function Promise(): Option<iset<States>> { if reliable then Some(fits) else None }

    // Every document among the writes is valid and fits.
    ghost predicate Accepts(writes: seq<Write>) {
      forall e :: e in writes && e.SaveDocument? ==> ValidStates(e.states) && e.states in fits
    }

    lemma AcceptsParts(a: seq<Write>, b: seq<Write>)
      ensures Accepts(a + b) <==> Accepts(a) && Accepts(b)
    {
      forall e ensures e in a + b <==> e in a || e in b {}
    }

    method Load() returns (r: Result<LoadedDocument>)
      requires Valid()
      modifies this, store, store.server
      ensures Valid() && origin == old(origin) && trace == old(trace) && durable == old(durable) && live == old(live)
      ensures r.Ok? ==> fresh(r.value) && r.value.states == durable && r.value.Valid()
      ensures reliable ==> r.Ok?
    {
      ghost var before := store.server.commits;
      var loaded := store.Load();
      if store.server.commits != before { CreatedStates(store.codec, store.server.commits[|before|]); }
      StoredStatesAreValid(store.codec, store.server.stored);
      if loaded.Err? { return Err; }
      var document := new LoadedDocument(loaded.value.states.value);
      return Ok(document);
    }

    method ReadScale(key: string) returns (r: Result<int>)
      ensures r.Ok? ==> key in live && r.value == live[key]
      ensures reliable && key in live ==> r.Ok?
    {
      if key !in live { return Err; }
      var fault: bool := *;
      if !reliable && fault { return Err; }
      return Ok(live[key]);
    }

    // An invalid document is refused before it is stored.
    method Save(document: LoadedDocument) returns (ok: bool)
      requires Valid() && document.Valid()
      modifies this, store, store.server
      ensures Valid() && Extends(old(trace), trace, [SaveDocument(document.states)], ok)
      ensures ok ==> durable == document.states
      ensures origin == old(origin) && live == old(live)
      ensures reliable && ValidStates(document.states) && document.states in fits ==> ok
    {
      ghost var before, stored := store.server.commits, store.server.stored;
      var whole := Document(FORMAT_VERSION, Some(document.states));
      UTCIsNormal(document.states);
      assert Normalize(whole) == whole;
      ok := store.Save(whole);
      if store.server.commits != before {
        SavedStates(store.codec, store.server.commits[|before|], document.states);
        durable := document.states;
        Record(SaveDocument(document.states));
      }
    }

    method UpdateScale(key: string, replicas: int) returns (ok: bool)
      requires Valid()
      modifies this
      ensures Valid() && Extends(old(trace), trace, [Write.UpdateScale(key, replicas)], ok)
      ensures origin == old(origin) && durable == old(durable) && live.Keys == old(live.Keys)
      ensures reliable && key in old(live) ==> ok
    {
      if key !in live { return false; }
      var lost: bool, unheard: bool := *, *;
      if !reliable && lost { return false; }
      live := live[key := replicas];
      Record(Write.UpdateScale(key, replicas));
      ok := reliable || !unheard;
    }

    method Delete(key: string) returns (ok: bool)
      requires Valid()
      modifies this
      ensures Valid() && Extends(old(trace), trace, [DeleteWorkload(key)], ok)
      ensures origin == old(origin) && durable == old(durable)
      ensures reliable && key in old(live) ==> ok
    {
      if key !in live { return false; }
      var lost: bool, unheard: bool := *, *;
      if !reliable && lost { return false; }
      live := live - {key};
      Record(DeleteWorkload(key));
      ok := reliable || !unheard;
    }

    // Note a write that has just been applied.
    ghost method Record(e: Write)
      requires World(durable, live) == Apply(Perform(origin, trace), e)
      modifies this`trace
      ensures World(durable, live) == Perform(origin, trace) && trace == old(trace) + [e]
    {
      PerformConcat(origin, trace, [e]);
      PerformOne(Perform(origin, trace), e);
      trace := trace + [e];
    }
  }

  // The live read and the schedule can be had.
  predicate Reaches(live: map<string, int>, r: Request) {
    r.Key() in live && WindowAt(r.Now(), r.policy.schedule).Ok?
  }

  // The decision reported by a pass with this baseline.
  function DecisionFrom(live: map<string, int>, baseline: WorkloadState, r: Request): Decision
    requires Reaches(live, r)
  {
    var view := WindowAt(r.Now(), r.policy.schedule).value;
    var settled := Settled(EnterWindow(baseline, view, baseline.revisionHash),
                           view, live[r.Key()], r.policy.replicas.scheduledDown);
    Decide(InputFor(settled, view, live[r.Key()], r.policy, r.Now()))
  }

  // Runs one pass: stages write in order and any failure ends the pass.
  class Reconciler {
    const cluster: Cluster

    constructor (cluster: Cluster)
      ensures this.cluster == cluster
    {
      this.cluster := cluster;
    }

    // Restore a snapshot if there is one, then record the skip.
    method HandleRedeployDuringWindow(document: LoadedDocument, current: WorkloadState, key: string)
      returns (r: Result<WorkloadState>)
      requires cluster.Valid() && document.Valid() && UTCState(current)
      modifies cluster, cluster.store, cluster.store.server, document
      ensures document.Valid()
      ensures cluster.Valid() && cluster.origin == old(cluster.origin)
      ensures Extends(old(cluster.trace), cluster.trace, RedeployWrites(old(document.states), key, current), r.Ok?)
      ensures (cluster.reliable && key in old(cluster.live)
               && cluster.Accepts(RedeployWrites(old(document.states), key, current))) ==> r.Ok?
      ensures cluster.live.Keys == old(cluster.live.Keys)
      ensures r.Ok? ==> r.value == MarkRedeployed(current) && document.states == old(document.states)[key := r.value]
    {
      ghost var plan := RedeployWrites(document.states, key, current);
      ghost var start := cluster.trace;
      var next := current;
      if next.replicaSnapshot.Some? {
        var restored := cluster.UpdateScale(key, next.replicaSnapshot.value.replicas);
        if !restored {
          ExtendsStops(start, cluster.trace, [UpdateScale(key, current.replicaSnapshot.value.replicas)],
                       [SaveDocument(document.states[key := MarkRedeployed(current)])]);
          return Err;
        }
        next := next.(replicaSnapshot := None);
      }
      ghost var middle := cluster.trace;
      next := next.(scaleDownSkipped := true, scaleDownSkipReason := REASON_SCALE_DOWN_SKIPPED);
      assert next == MarkRedeployed(current);
      document.states := document.states[key := next];
      var saved := cluster.Save(document);
      ExtendsThen(start, middle, cluster.trace,
                  if current.replicaSnapshot.None? then []
                  else [UpdateScale(key, current.replicaSnapshot.value.replicas)],
                  [SaveDocument(document.states)], saved);
      if !saved { return Err; }
      return Ok(next);
    }

    // First downscale: the snapshot is durable before the scale write is tried.
    method CaptureThenScale(document: LoadedDocument, captured: WorkloadState, key: string, decision: Decision)
      returns (ok: bool)
      requires cluster.Valid() && document.Valid() && UTCState(captured)
      modifies cluster, cluster.store, cluster.store.server, document
      ensures document.Valid()
      ensures cluster.Valid() && cluster.origin == old(cluster.origin)
      ensures Extends(old(cluster.trace), cluster.trace,
                      [SaveDocument(old(document.states)[key := captured])] + ScaleIfNeeded(key, decision), ok)
      ensures (cluster.reliable && key in old(cluster.live)
               && cluster.Accepts([SaveDocument(old(document.states)[key := captured])])) ==> ok
    {
      ghost var start := cluster.trace;
      document.states := document.states[key := captured];
      ok := cluster.Save(document);
      ghost var middle := cluster.trace;
      if !ok {
        ExtendsStops(start, middle, [SaveDocument(document.states)], ScaleIfNeeded(key, decision));
        return;
      }
      if decision.shouldScale { ok := cluster.UpdateScale(key, decision.desiredReplicas); }
      ExtendsThen(start, middle, cluster.trace, [SaveDocument(document.states)], ScaleIfNeeded(key, decision), ok);
    }

    // Restore: the scale write succeeds before the snapshot is cleared.
    method RestoreThenClear(document: LoadedDocument, cleared: WorkloadState, key: string, replicas: int)
      returns (ok: bool)
      requires cluster.Valid() && document.Valid() && UTCState(cleared)
      modifies cluster, cluster.store, cluster.store.server, document
      ensures document.Valid()
      ensures cluster.Valid() && cluster.origin == old(cluster.origin)
      ensures Extends(old(cluster.trace), cluster.trace,
                      [UpdateScale(key, replicas)] + [SaveDocument(old(document.states)[key := cleared])], ok)
      ensures (cluster.reliable && key in old(cluster.live)
               && cluster.Accepts([SaveDocument(old(document.states)[key := cleared])])) ==> ok
    {
      ghost var start := cluster.trace;
      ok := cluster.UpdateScale(key, replicas);
      ghost var middle := cluster.trace;
      if !ok {
        ExtendsStops(start, middle, [UpdateScale(key, replicas)], [SaveDocument(document.states[key := cleared])]);
        return;
      }
      document.states := document.states[key := cleared];
      ok := cluster.Save(document);
      ExtendsThen(start, middle, cluster.trace, [UpdateScale(key, replicas)], [SaveDocument(document.states)], ok);
    }

    // No snapshot change: scale if needed, then record the pass.
    method ScaleThenRecord(document: LoadedDocument, current: WorkloadState,
                           key: string, decision: Decision, record: bool)
      returns (ok: bool)
      requires cluster.Valid() && document.Valid() && UTCState(current)
      modifies cluster, cluster.store, cluster.store.server, document
      ensures document.Valid()
      ensures cluster.Valid() && cluster.origin == old(cluster.origin)
      ensures Extends(old(cluster.trace), cluster.trace,
                      ScaleIfNeeded(key, decision)
                      + (if record then [SaveDocument(old(document.states)[key := current])] else []), ok)
      ensures (cluster.reliable && key in old(cluster.live)
               && (record ==> cluster.Accepts([SaveDocument(old(document.states)[key := current])]))) ==> ok
    {
      ghost var start := cluster.trace;
      ghost var rest := if record then [SaveDocument(document.states[key := current])] else [];
      ok := true;
      if decision.shouldScale {
        ok := cluster.UpdateScale(key, decision.desiredReplicas);
        if !ok {
          ExtendsStops(start, cluster.trace, ScaleIfNeeded(key, decision), rest);
          return;
        }
      }
      ghost var middle := cluster.trace;
      if record {
        document.states := document.states[key := current];
        ok := cluster.Save(document);
      }
      ExtendsThen(start, middle, cluster.trace, ScaleIfNeeded(key, decision), rest, ok);
    }

    method ApplyDecision(document: LoadedDocument, current: WorkloadState, key: string,
                         live: int, decision: Decision, identitySaved: bool, now: Time)
      returns (ok: bool)
      requires cluster.Valid() && document.Valid() && UTCState(current) && now.zone == 0
      modifies cluster, cluster.store, cluster.store.server, document
      ensures document.Valid()
      ensures cluster.Valid() && cluster.origin == old(cluster.origin)
      ensures Extends(old(cluster.trace), cluster.trace,
                      ScaleWrites(old(document.states), key, current, live, decision, identitySaved, now), ok)
      ensures (cluster.reliable && key in old(cluster.live)
               && cluster.Accepts(ScaleWrites(old(document.states), key, current, live,
                                              decision, identitySaved, now))) ==> ok
    {
      ghost var plan := ScaleWrites(document.states, key, current, live, decision, identitySaved, now);
      if decision.needsSnapshot {
        var captured := current.(replicaSnapshot := Some(ReplicaSnapshot(live, now, decision.reason)));
        assert SaveDocument(document.states[key := captured]) in plan;
        ok := CaptureThenScale(document, captured, key, decision);
      } else if decision.clearSnapshotAfterScale {
        var cleared := current.(replicaSnapshot := None);
        assert SaveDocument(document.states[key := cleared]) in plan;
        ok := RestoreThenClear(document, cleared, key, decision.desiredReplicas);
      } else {
        var record := !identitySaved || decision.shouldScale;
        assert record ==> SaveDocument(document.states[key := current]) in plan;
        ok := ScaleThenRecord(document, current, key, decision, record);
      }
    }

    // Delete the object, then its state.
    method DeleteExpired(document: LoadedDocument, key: string) returns (ok: bool)
      requires cluster.Valid() && document.Valid()
      modifies cluster, cluster.store, cluster.store.server, document
      ensures document.Valid()
      ensures cluster.Valid() && cluster.origin == old(cluster.origin)
      ensures Extends(old(cluster.trace), cluster.trace, DeleteWrites(old(document.states), key), ok)
      ensures (cluster.reliable && key in old(cluster.live)
               && cluster.Accepts(DeleteWrites(old(document.states), key))) ==> ok
    {
      ghost var start := cluster.trace;
      ok := cluster.Delete(key);
      ghost var middle := cluster.trace;
      ghost var states := document.states - {key};
      assert DeleteWrites(document.states, key) == [DeleteWorkload(key)] + [SaveDocument(states)];
      if !ok {
        ExtendsStops(start, cluster.trace, [DeleteWorkload(key)], [SaveDocument(states)]);
        return;
      }
      document.states := document.states - {key};
      ok := cluster.Save(document);
      ExtendsThen(start, middle, cluster.trace, [DeleteWorkload(key)], [SaveDocument(states)], ok);
    }

    // Window cycle and entry revision; the edited document is not saved yet.
    method BeginWindow(document: LoadedDocument, baseline: WorkloadState, view: WindowView, key: string)
      returns (current: WorkloadState)
      requires document.Valid() && UTCState(baseline)
      modifies document
      ensures document.Valid()
      ensures current == EnterWindow(baseline, view, baseline.revisionHash)
      ensures document.states == old(document.states)[key := current]
    {
      var instance := InstanceIn(view);
      current := ReconcileWindowCycle(baseline, instance, view.Inside?);
      if view.Inside? && instance != NoInstance && current.windowEntryRevision == NoDigest {
        current := current.(windowEntryRevision := baseline.revisionHash, windowInstanceID := instance);
      }
      document.states := document.states[key := current];
    }

    // Detect a revision change inside the window.
    method ReactToRedeploy(document: LoadedDocument, current: WorkloadState, view: WindowView, key: string)
      returns (r: Result<WorkloadState>)
      requires cluster.Valid() && document.Valid() && UTCState(current)
      modifies cluster, cluster.store, cluster.store.server, document
      ensures document.Valid()
      ensures cluster.Valid() && cluster.origin == old(cluster.origin)
      ensures Extends(old(cluster.trace), cluster.trace, RedeployStage(old(document.states), key, current, view), r.Ok?)
      ensures (cluster.reliable && key in old(cluster.live)
               && cluster.Accepts(RedeployStage(old(document.states), key, current, view))) ==> r.Ok?
      ensures cluster.live.Keys == old(cluster.live.Keys)
      ensures r.Ok? ==> r.value == AfterRedeploy(current, view, current.revisionHash)
      ensures r.Ok? ==>
        document.states == old(document.states) || document.states == old(document.states)[key := r.value]
    {
      if view.Inside? && !current.scaleDownSkipped && current.windowEntryRevision != NoDigest
         && current.windowEntryRevision != current.revisionHash {
        r := HandleRedeployDuringWindow(document, current, key);
      } else {
        r := Ok(current);
      }
    }

    // Accept a live count above the scheduled target and drop the snapshot.
    method AcceptOverride(document: LoadedDocument, current: WorkloadState,
                          view: WindowView, live: int, target: int, key: string)
      returns (r: Result<WorkloadState>)
      requires cluster.Valid() && document.Valid() && UTCState(current)
      modifies cluster, cluster.store, cluster.store.server, document
      ensures document.Valid()
      ensures cluster.Valid() && cluster.origin == old(cluster.origin)
      ensures Extends(old(cluster.trace), cluster.trace,
                      OverrideStage(old(document.states), key, current, view, live, target), r.Ok?)
      ensures (cluster.reliable && key in old(cluster.live)
               && cluster.Accepts(OverrideStage(old(document.states), key, current, view, live, target))) ==> r.Ok?
      ensures cluster.live.Keys == old(cluster.live.Keys)
      ensures r.Ok? ==> r.value == AfterOverride(current, view, live, target)
      ensures r.Ok? ==>
        document.states == old(document.states) || document.states == old(document.states)[key := r.value]
    {
      if view.Inside? && !current.scaleDownSkipped && current.replicaSnapshot.Some? && live > target {
        var next := current.(scaleDownSkipped := true,
                             scaleDownSkipReason := REASON_REPLICA_OVERRIDE, replicaSnapshot := None);
        document.states := document.states[key := next];
        var saved := cluster.Save(document);
        if !saved { return Err; }
        return Ok(next);
      }
      return Ok(current);
    }

    method Conclude(document: LoadedDocument, current: WorkloadState, view: WindowView,
                    live: int, policy: Policy, key: string, identitySaved: bool, now: Time)
      returns (r: (Decision, bool))
      requires cluster.Valid() && document.Valid() && UTCState(current) && now.zone == 0
      modifies cluster, cluster.store, cluster.store.server, document
      ensures document.Valid()
      ensures cluster.Valid() && cluster.origin == old(cluster.origin)
      ensures Extends(old(cluster.trace), cluster.trace,
                      FinalStage(old(document.states), key, current, view, live, policy, identitySaved, now), r.1)
      ensures (cluster.reliable && key in old(cluster.live)
               && cluster.Accepts(FinalStage(old(document.states), key, current, view, live,
                                             policy, identitySaved, now))) ==> r.1
      ensures r.0 == Decide(InputFor(current, view, live, policy, now))
    {
      var decision := Decide(InputFor(current, view, live, policy, now));
      var done: bool;
      if decision.deleteWorkload {
        done := DeleteExpired(document, key);
      } else {
        done := ApplyDecision(document, current, key, live, decision, identitySaved, now);
      }
      return (decision, done);
    }

    // Redeploy and override: everything between the entered window and the decision.
    method SettleWindow(document: LoadedDocument, entered: WorkloadState,
                        view: WindowView, live: int, target: int, key: string)
      returns (r: Result<WorkloadState>)
      requires cluster.Valid() && document.Valid() && UTCState(entered)
      modifies cluster, cluster.store, cluster.store.server, document
      ensures document.Valid()
      ensures cluster.Valid() && cluster.origin == old(cluster.origin) && cluster.live.Keys == old(cluster.live.Keys)
      ensures Extends(old(cluster.trace), cluster.trace,
                      SettleStages(old(document.states), key, entered, view, live, target), r.Ok?)
      ensures r.Ok? ==> r.value == Settled(entered, view, live, target) && UTCState(r.value)
      ensures r.Ok? ==>
        document.states == old(document.states) || exists x :: EditedAt(old(document.states), document.states, key, x)
      ensures (cluster.reliable && key in old(cluster.live)
               && cluster.Accepts(SettleStages(old(document.states), key, entered, view, live, target))) ==> r.Ok?
    {
      ghost var start, states := cluster.trace, document.states;
      ghost var redeployed := AfterRedeploy(entered, view, entered.revisionHash);
      ghost var first := RedeployStage(states, key, entered, view);
      ghost var second := OverrideStage(states, key, redeployed, view, live, target);
      cluster.AcceptsParts(first, second);
      var handled := ReactToRedeploy(document, entered, view, key);
      if handled.Err? {
        ExtendsStops(start, cluster.trace, first, second);
        return Err;
      }
      ghost var middle, met := cluster.trace, document.states;
      StagesSame(states, key, redeployed, redeployed, view, live, target);
      r := AcceptOverride(document, handled.value, view, live, target, key);
      ExtendsThen(start, middle, cluster.trace, first, second, r.Ok?);
      if r.Ok? { EditedTwice(states, met, document.states, key, redeployed, r.value); }
    }

    // The pass from the entered window on.
    method PursueCourse(document: LoadedDocument, entered: WorkloadState, view: WindowView,
                        live: int, policy: Policy, key: string, identitySaved: bool, now: Time)
      returns (r: (Decision, bool))
      requires cluster.Valid() && document.Valid() && UTCState(entered) && now.zone == 0
      modifies cluster, cluster.store, cluster.store.server, document
      ensures document.Valid()
      ensures cluster.Valid() && cluster.origin == old(cluster.origin)
      ensures Extends(old(cluster.trace), cluster.trace,
                      Course(old(document.states), key, entered, view, live, policy, identitySaved, now), r.1)
      ensures r.1 ==>
        r.0 == Decide(InputFor(Settled(entered, view, live, policy.replicas.scheduledDown), view, live, policy, now))
      ensures (cluster.reliable && key in old(cluster.live)
               && cluster.Accepts(Course(old(document.states), key, entered, view, live,
                                         policy, identitySaved, now))) ==> r.1
    {
      ghost var start, states := cluster.trace, document.states;
      ghost var first := SettleStages(states, key, entered, view, live, policy.replicas.scheduledDown);
      ghost var settled := Settled(entered, view, live, policy.replicas.scheduledDown);
      ghost var second := FinalStage(states, key, settled, view, live, policy, identitySaved, now);
      cluster.AcceptsParts(first, second);
      var current := SettleWindow(document, entered, view, live, policy.replicas.scheduledDown, key);
      if current.Err? {
        ExtendsStops(start, cluster.trace, first, second);
        return (NoDecision(), false);
      }
      ghost var middle := cluster.trace;
      FinalSameAfterEdit(states, document.states, key, settled, view, live, policy, identitySaved, now);
      r := Conclude(document, current.value, view, live, policy, key, identitySaved, now);
      ExtendsThen(start, middle, cluster.trace, first, second, r.1);
    }

    // The pass after the live read and the schedule.
    method FollowCourse(document: LoadedDocument, baseline: WorkloadState, view: WindowView,
                        live: int, policy: Policy, key: string, identitySaved: bool, now: Time)
      returns (r: (Decision, bool))
      requires cluster.Valid() && document.Valid() && UTCState(baseline) && now.zone == 0
      modifies cluster, cluster.store, cluster.store.server, document
      ensures document.Valid()
      ensures cluster.Valid() && cluster.origin == old(cluster.origin)
      ensures var entered := EnterWindow(baseline, view, baseline.revisionHash);
        && Extends(old(cluster.trace), cluster.trace,
                   Course(old(document.states), key, entered, view, live, policy, identitySaved, now), r.1)
        && (r.1 ==> r.0 == Decide(InputFor(Settled(entered, view, live, policy.replicas.scheduledDown),
                                           view, live, policy, now)))
        && ((cluster.reliable && key in old(cluster.live)
             && cluster.Accepts(Course(old(document.states), key, entered, view, live,
                                       policy, identitySaved, now))) ==> r.1)
    {
      ghost var states := document.states;
      var entered := BeginWindow(document, baseline, view, key);
      CourseSame(states, key, entered, entered, view, live, policy, identitySaved, now);
      r := PursueCourse(document, entered, view, live, policy, key, identitySaved, now);
    }

    // Record the identity seen by this pass, saving it when it changed.
    method EstablishBaseline(document: LoadedDocument, r: Request, revision: RevisionIdentity)
      returns (result: Result<(WorkloadState, bool)>)
      requires cluster.Valid() && document.Valid()
      modifies cluster, cluster.store, cluster.store.server, document
      ensures document.Valid()
      ensures cluster.Valid() && cluster.origin == old(cluster.origin)
      ensures Extends(old(cluster.trace), cluster.trace, BaselineWrites(old(document.states), r, revision), result.Ok?)
      ensures cluster.reliable && cluster.Accepts(BaselineWrites(old(document.states), r, revision)) ==> result.Ok?
      ensures result.Ok? ==>
        result.value == (Baseline(old(document.states), r, revision),
                         IdentityChanged(old(document.states), r, revision))
      ensures result.Ok? ==> document.states == old(document.states)[r.Key() := result.value.0]
      ensures cluster.live == old(cluster.live)
    {
      var key := r.Key();
      var previous := Recorded(document.states, key);
      var current := ReconcileIdentity(previous, r.current, r.policy.name, revision, r.Now());
      var identityChanged := !SameIdentity(previous, r.current, revision);
      document.states := document.states[key := current];
      if identityChanged {
        var saved := cluster.Save(document);
        if !saved { return Err; }
      }
      return Ok((current, identityChanged));
    }

    method Reconcile(r: Request) returns (result: (Decision, bool))
      requires cluster.Valid()
      modifies cluster, cluster.store, cluster.store.server
      ensures cluster.Valid() && cluster.origin == old(cluster.origin)
      ensures Extends(old(cluster.trace), cluster.trace, Plan(old(cluster.Now()), r), result.1)
      // A workload rejected by admission, or without a revision, is left alone: nothing is
      // loaded, saved or scaled.
      ensures !r.admitted || Calculate(r.current.containers, r.policy.lifecycle.revision).Err? ==>
        && !result.1 && cluster.trace == old(cluster.trace) && cluster.Now() == old(cluster.Now())
        && cluster.store.server.stored == old(cluster.store.server.stored)
        && cluster.store.server.commits == old(cluster.store.server.commits)
      ensures result.1 ==> Proceeds(old(cluster.Now()), r) && result.0 == DecisionOf(old(cluster.Now()), r)
      ensures cluster.reliable && Proceeds(old(cluster.Now()), r) && cluster.Accepts(Plan(old(cluster.Now()), r)) ==>
        result.1
    {
      if !r.admitted { return (NoDecision(), false); }
      var revised := CalculateRevision(r.current.containers, r.policy.lifecycle.revision);
      if revised.Err? { return (NoDecision(), false); }
      var loaded := cluster.Load();
      if loaded.Err? { return (NoDecision(), false); }
      result := RunPass(loaded.value, r, revised.value);
    }

    // The pass over the loaded document.
    method RunPass(document: LoadedDocument, r: Request, revision: RevisionIdentity) returns (result: (Decision, bool))
      requires cluster.Valid() && document.Valid() && document.states == cluster.durable
      requires r.Revise() == Ok(revision)
      modifies cluster, cluster.store, cluster.store.server, document
      ensures cluster.Valid() && cluster.origin == old(cluster.origin)
      ensures Extends(old(cluster.trace), cluster.trace,
                      BaselineWrites(old(cluster.durable), r, revision) + CourseOf(old(cluster.Now()), r), result.1)
      ensures result.1 ==>
        && Reaches(old(cluster.live), r)
        && result.0 == DecisionFrom(old(cluster.live), Baseline(old(cluster.durable), r, revision), r)
      ensures (cluster.reliable && Reaches(old(cluster.live), r)
               && cluster.Accepts(BaselineWrites(old(cluster.durable), r,
                                                 revision) + CourseOf(old(cluster.Now()), r))) ==> result.1
    {
      ghost var start, w := cluster.trace, cluster.Now();
      ghost var first, rest := BaselineWrites(w.durable, r, revision), CourseOf(w, r);
      cluster.AcceptsParts(first, rest);
      var established := EstablishBaseline(document, r, revision);
      if established.Err? {
        ExtendsStops(start, cluster.trace, first, rest);
        return (NoDecision(), false);
      }
      ghost var middle := cluster.trace;
      var (current, identityChanged) := established.value;
      CourseFromSame(w.durable, w.live, current, identityChanged, r);
      result := ContinuePass(document, current, identityChanged, r);
      ExtendsThen(start, middle, cluster.trace, first, rest, result.1);
    }

    // Read the live scale, evaluate the schedule and follow the course.
    method ContinuePass(document: LoadedDocument, current: WorkloadState, identityChanged: bool, r: Request)
      returns (result: (Decision, bool))
      requires cluster.Valid() && document.Valid() && UTCState(current)
      modifies cluster, cluster.store, cluster.store.server, document
      ensures document.Valid()
      ensures cluster.Valid() && cluster.origin == old(cluster.origin)
      ensures Extends(old(cluster.trace), cluster.trace,
                      CourseFrom(old(document.states), old(cluster.live), current, identityChanged, r), result.1)
      ensures result.1 ==> Reaches(old(cluster.live), r) && result.0 == DecisionFrom(old(cluster.live), current, r)
      ensures (cluster.reliable && Reaches(old(cluster.live), r)
               && cluster.Accepts(CourseFrom(old(document.states), old(cluster.live), current, identityChanged,
                                             r))) ==> result.1
    {
      ghost var start := cluster.trace;
      var read := cluster.ReadScale(r.Key());
      if read.Err? { return (NoDecision(), false); }
      var view := EvaluateSchedule(r.Now(), r.policy.schedule);
      if view.Err? { return (NoDecision(), false); }
      result := FollowCourse(document, current, view.value, read.value, r.policy, r.Key(), identityChanged, r.Now());
    }

    method EvaluateSchedule(now: Time, schedule: Option<DownSchedule>) returns (r: Result<WindowView>)
      ensures r == WindowAt(now, schedule)
    {
      if schedule.None? { return Ok(Outside); }
      var matched := Schedule.Match(now, schedule.value.zone, schedule.value.windows);
      if matched.Err? { return Err; }
      if matched.value.None? { return Ok(Outside); }
      var name := matched.value.value;
      if name == "" { return Ok(Inside(name, NoInstance)); }
      var id := WindowInstanceID(now, schedule.value.zone, name, schedule.value.windows);
      if id.Err? { return Err; }
      return Ok(Inside(name, id.value));
    }
  }

  // Two edits of one entry, either of them perhaps skipped, amount to at most one.
  lemma EditedTwice(states: States, met: States, last: States, key: string, x: WorkloadState, y: WorkloadState)
    requires met == states || met == states[key := x]
    requires last == met || last == met[key := y]
    ensures last == states || exists z :: EditedAt(states, last, key, z)
  {
    SameWrites(states, key, x, y);
    assert EditedAt(states, states[key := x], key, x) && EditedAt(states, states[key := y], key, y);
  }

  lemma FinalSameAfterEdit(states: States, met: States, key: string, s: WorkloadState,
                           view: WindowView, live: int, policy: Policy, identitySaved: bool, now: Time)
    requires met == states || exists x :: EditedAt(states, met, key, x)
    ensures FinalStage(met, key, s, view, live, policy, identitySaved,
                       now) == FinalStage(states, key, s, view, live, policy, identitySaved, now)
  {
    if met != states {
      var x :| EditedAt(states, met, key, x);
      FinalSame(states, key, x, s, view, live, policy, identitySaved, now);
    }
  }

  // The decision value returned beside an error.
  function NoDecision(): Decision { Decision(0, "", false, false, false, false) }
}
