// What every single write of a pass respects, whatever the policy, the clock and the state.
module Discipline {
  import opened Basics
  import opened Policies
  import opened Decision
  import opened State
  import opened Transition

  // The snapshot recorded for this very object, in full.
  function RecordedSnapshot(states: States, key: string, uid: string): Option<ReplicaSnapshot> {
    if key in states && states[key].workloadUID == uid then states[key].replicaSnapshot else None
  }

  // A scale write happens only while the object's snapshot is durable, and writes that
  // snapshot or the smaller of it and a target the policy uses.
  predicate ScaleIsBacked(w: World, e: Write, r: Request) {
    e.UpdateScale? ==>
      && e.key == r.Key()
      && var snapshot := RecordedSnapshot(w.durable, r.Key(), r.current.uid);
         && snapshot.Some?
         && (|| e.replicas == snapshot.value.replicas
             || (r.policy.schedule.Some? && e.replicas == Min(r.policy.replicas.scheduledDown, snapshot.value.replicas))
             || (r.policy.lifecycle.expiredAction != EXPIRED_ACTION_DELETE
                 && e.replicas == Min(r.policy.replicas.expired, snapshot.value.replicas)))
  }

  // A save for the same object keeps its snapshot as it is, clears it, or creates one from
  // none; it never replaces a snapshot by another.
  predicate SnapshotIsDisciplined(w: World, e: Write, r: Request) {
    && e.SaveDocument? && r.Key() in e.states
    && r.Key() in w.durable && w.durable[r.Key()].workloadUID == r.current.uid ==>
      && e.states[r.Key()].workloadUID == r.current.uid
      && var before, after := w.durable[r.Key()].replicaSnapshot, e.states[r.Key()].replicaSnapshot;
         after == before || after.None? || before.None?
  }

  // A snapshot that is cleared was, at that moment, either the live count or overridden by
  // a larger live count in a down window.
  predicate ClearIsJustified(w: World, e: Write, r: Request) {
    e.SaveDocument? && r.Key() in e.states && r.Key() in w.live ==>
      var before, after := RecordedSnapshot(w.durable, r.Key(),
                                            r.current.uid), RecordedSnapshot(e.states, r.Key(), r.current.uid);
      before.Some? && after.None? ==>
        w.live[r.Key()] == before.value.replicas || w.live[r.Key()] > r.policy.replicas.scheduledDown
  }

  predicate DisciplinedWrite(w: World, e: Write, r: Request) {
    ScaleIsBacked(w, e, r) && SnapshotIsDisciplined(w, e, r) && ClearIsJustified(w, e, r)
  }

  // Each write is judged against the world it is made in.
  predicate Disciplined(w: World, writes: seq<Write>, r: Request)
    decreases |writes|
  {
    writes != [] ==> DisciplinedWrite(w, writes[0], r) && Disciplined(Apply(w, writes[0]), writes[1..], r)
  }

  lemma {:induction false} DisciplinedConcat(w: World, a: seq<Write>, b: seq<Write>, r: Request)
    requires Disciplined(w, a, r) && Disciplined(Perform(w, a), b, r)
    ensures Disciplined(w, a + b, r)
    decreases |a|
  {
    if a == [] {
      assert a + b == b;
    } else {
      assert (a + b)[1..] == a[1..] + b;
      DisciplinedConcat(Apply(w, a[0]), a[1..], b, r);
    }
  }

  // Spelled out by position: the i-th write is disciplined in the world it meets.
  lemma {:induction false} DisciplinedAt(w: World, writes: seq<Write>, r: Request, i: nat)
    requires Disciplined(w, writes, r) && i < |writes|
    ensures DisciplinedWrite(Perform(w, writes[..i]), writes[i], r)
    decreases |writes|
  {
    if i > 0 {
      assert writes[..i][0] == writes[0] && writes[..i][1..] == writes[1..][..i - 1];
      DisciplinedAt(Apply(w, writes[0]), writes[1..], r, i - 1);
    }
  }

  lemma DisciplinedOne(w: World, e: Write, r: Request)
    requires DisciplinedWrite(w, e, r)
    ensures Disciplined(w, [e], r)
  {
    assert [e][1..] == [];
  }

  lemma DisciplinedTwo(w: World, e: Write, f: Write, r: Request)
    requires DisciplinedWrite(w, e, r) && DisciplinedWrite(Apply(w, e), f, r)
    ensures Disciplined(w, [e] + [f], r)
  {
    DisciplinedOne(Apply(w, e), f, r);
    assert ([e] + [f])[1..] == [f];
  }

  // The durable entry is this object's and carries the working snapshot.
  predicate InStep(w: World, r: Request, s: WorkloadState) {
    && r.Key() in w.durable && w.durable[r.Key()].workloadUID == r.current.uid == s.workloadUID
    && w.durable[r.Key()].replicaSnapshot == s.replicaSnapshot
  }

  lemma BaselineDisciplined(w: World, r: Request)
    requires r.current.uid != "" && r.Revise().Ok?
    ensures var revision := r.Revise().value;
      var after := Perform(w, BaselineWrites(w.durable, r, revision));
      && Disciplined(w, BaselineWrites(w.durable, r, revision), r)
      && InStep(after, r, Baseline(w.durable, r, revision))
      && after.live == w.live
  {
    var revision := r.Revise().value;
    if IdentityChanged(w.durable, r, revision) {
      var e := SaveDocument(w.durable[r.Key() := Baseline(w.durable, r, revision)]);
      PerformOne(w, e);
      DisciplinedOne(w, e, r);
    }
  }

  lemma RedeployDisciplined(w: World, states: States, r: Request, entered: WorkloadState, view: WindowView)
    requires r.Key() in w.live && InStep(w, r, entered)
    ensures var writes := RedeployStage(states, r.Key(), entered, view);
      && Disciplined(w, writes, r)
      && InStep(Perform(w, writes), r, AfterRedeploy(entered, view, entered.revisionHash))
      && r.Key() in Perform(w, writes).live
      && (!RedeployPending(entered, view, entered.revisionHash) ==> Perform(w, writes) == w)
  {
    var key := r.Key();
    if RedeployPending(entered, view, entered.revisionHash) {
      var save := SaveDocument(states[key := MarkRedeployed(entered)]);
      if entered.replicaSnapshot.Some? {
        var scale := UpdateScale(key, entered.replicaSnapshot.value.replicas);
        assert [scale] + [save] == [scale, save];
        PerformTwo(w, scale, save);
        DisciplinedTwo(w, scale, save, r);
      } else {
        assert [] + [save] == [save];
        PerformOne(w, save);
        DisciplinedOne(w, save, r);
      }
    }
  }

  lemma OverrideDisciplined(w: World, states: States, r: Request, s: WorkloadState, view: WindowView, live: int)
    requires r.Key() in w.live && InStep(w, r, s)
    requires OverrideSeen(s, view, live, r.policy.replicas.scheduledDown) ==> live == w.live[r.Key()]
    ensures var writes := OverrideStage(states, r.Key(), s, view, live, r.policy.replicas.scheduledDown);
      && Disciplined(w, writes, r)
      && InStep(Perform(w, writes), r, AfterOverride(s, view, live, r.policy.replicas.scheduledDown))
      && Perform(w, writes).live == w.live
  {
    if OverrideSeen(s, view, live, r.policy.replicas.scheduledDown) {
      var save := SaveDocument(states[r.Key() := MarkOverridden(s)]);
      PerformOne(w, save);
      DisciplinedOne(w, save, r);
    }
  }

  lemma FinalDisciplined(w: World, states: States, r: Request, s: WorkloadState,
                         view: WindowView, live: int, identitySaved: bool)
    requires r.Key() in w.live && InStep(w, r, s) && (view.Inside? ==> r.policy.schedule.Some?)
    ensures Disciplined(w, FinalStage(states, r.Key(), s, view, live, r.policy, identitySaved, r.Now()),
                        r) || live != w.live[r.Key()]
    ensures s.replicaSnapshot.None? ==>
      Disciplined(w, FinalStage(states, r.Key(), s, view, live, r.policy, identitySaved, r.Now()), r)
  {
    var key := r.Key();
    var d := Decide(InputFor(s, view, live, r.policy, r.Now()));
    var scale := UpdateScale(key, d.desiredReplicas);
    if d.deleteWorkload {
      assert DeleteWrites(states, key) == [DeleteWorkload(key)] + [SaveDocument(states - {key})];
      DisciplinedTwo(w, DeleteWorkload(key), SaveDocument(states - {key}), r);
    } else if d.needsSnapshot {
      var save := SaveDocument(states[key := s.(replicaSnapshot := Some(ReplicaSnapshot(live, r.Now(), d.reason)))]);
      if d.shouldScale {
        DisciplinedTwo(w, save, scale, r);
      } else {
        assert [save] + [] == [save];
        DisciplinedOne(w, save, r);
      }
    } else if d.clearSnapshotAfterScale {
      DisciplinedTwo(w, scale, SaveDocument(states[key := s.(replicaSnapshot := None)]), r);
    } else {
      var save := SaveDocument(states[key := s]);
      if d.shouldScale {
        DisciplinedTwo(w, scale, save, r);
      } else if !identitySaved {
        assert [] + [save] == [save];
        DisciplinedOne(w, save, r);
      }
    }
  }

  lemma CourseDisciplined(w: World, states: States, r: Request, entered: WorkloadState,
                          view: WindowView, identitySaved: bool)
    requires r.Key() in w.live && InStep(w, r, entered) && (view.Inside? ==> r.policy.schedule.Some?)
    ensures Disciplined(w, Course(states, r.Key(), entered, view, w.live[r.Key()], r.policy, identitySaved, r.Now()), r)
  {
    var key, live := r.Key(), w.live[r.Key()];
    var redeployed := AfterRedeploy(entered, view, entered.revisionHash);
    RedeployDisciplined(w, states, r, entered, view);
    var first := RedeployStage(states, key, entered, view);
    var middle := Perform(w, first);
    OverrideDisciplined(middle, states, r, redeployed, view, live);
    var second := OverrideStage(states, key, redeployed, view, live, r.policy.replicas.scheduledDown);
    var last := Perform(middle, second);
    var settled := Settled(entered, view, live, r.policy.replicas.scheduledDown);
    FinalDisciplined(last, states, r, settled, view, live, identitySaved);
    DisciplinedConcat(w, first, second, r);
    PerformConcat(w, first, second);
    DisciplinedConcat(w, first + second,
                      FinalStage(states, key, settled, view, live, r.policy, identitySaved, r.Now()), r);
  }

  lemma CourseFromDisciplined(w: World, states: States, r: Request, baseline: WorkloadState, identitySaved: bool)
    requires InStep(w, r, baseline)
    ensures Disciplined(w, CourseFrom(states, w.live, baseline, identitySaved, r), r)
  {
    if r.Key() in w.live && WindowAt(r.Now(), r.policy.schedule).Ok? {
      var view := WindowAt(r.Now(), r.policy.schedule).value;
      CourseDisciplined(w, states, r, EnterWindow(baseline, view, baseline.revisionHash), view, identitySaved);
    }
  }

  // Every write of every pass is disciplined; a faulty pass performs a prefix, so this
  // covers all of its writes too.
  lemma PlanDisciplined(w: World, r: Request)
    requires r.current.uid != ""
    ensures Disciplined(w, Plan(w, r), r)
  {
    if r.admitted && r.Revise().Ok? {
      var first := BaselineWrites(w.durable, r, r.Revise().value);
      BaselineDisciplined(w, r);
      CourseFromDisciplined(Perform(w, first), w.durable, r, Baseline(w.durable, r, r.Revise().value),
                            IdentityChanged(w.durable, r, r.Revise().value));
      DisciplinedConcat(w, first, CourseOf(w, r), r);
    }
  }

  // The controller never writes a count above the snapshot that is durable at that moment.
  lemma ScaleWritesNeverExceedSnapshot(w: World, r: Request, i: nat)
    requires r.current.uid != "" && i < |Plan(w, r)| && Plan(w, r)[i].UpdateScale?
    ensures var met := Perform(w, Plan(w, r)[..i]);
      var snapshot := RecordedSnapshot(met.durable, r.Key(), r.current.uid);
      snapshot.Some? && Plan(w, r)[i].replicas <= snapshot.value.replicas
  {
    PlanDisciplined(w, r);
    DisciplinedAt(w, Plan(w, r), r, i);
  }
}
