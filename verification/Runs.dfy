// Runs: sequences of passes, each stopped after any number of its intended writes.
module Runs {
  import opened Basics
  import opened Revision
  import opened Policies
  import opened State
  import opened Transition

  // The invariant holds now and after every single write.
  ghost predicate Throughout(w: World, writes: seq<Write>, inv: World -> bool)
    decreases |writes|
  {
    inv(w) && (writes != [] ==> Throughout(Apply(w, writes[0]), writes[1..], inv))
  }

  lemma {:induction false} ThroughoutConcat(w: World, a: seq<Write>, b: seq<Write>, inv: World -> bool)
    requires Throughout(w, a, inv) && Throughout(Perform(w, a), b, inv)
    ensures Throughout(w, a + b, inv)
    decreases |a|
  {
    if a == [] {
      assert a + b == b;
    } else {
      assert (a + b)[1..] == a[1..] + b;
      ThroughoutConcat(Apply(w, a[0]), a[1..], b, inv);
    }
  }

  lemma {:induction false} ThroughoutPrefix(w: World, writes: seq<Write>, n: nat, inv: World -> bool)
    requires Throughout(w, writes, inv) && n <= |writes|
    ensures inv(Perform(w, writes[..n]))
    decreases |writes|
  {
    if n > 0 {
      assert writes[..n][0] == writes[0] && writes[..n][1..] == writes[1..][..n - 1];
      ThroughoutPrefix(Apply(w, writes[0]), writes[1..], n - 1, inv);
    }
  }

  lemma ThroughoutEnd(w: World, writes: seq<Write>, inv: World -> bool)
    requires Throughout(w, writes, inv)
    ensures inv(Perform(w, writes))
  {
    ThroughoutPrefix(w, writes, |writes|, inv);
    assert writes[..|writes|] == writes;
  }

  lemma ThroughoutOne(w: World, e: Write, inv: World -> bool)
    requires inv(w) && inv(Apply(w, e))
    ensures Throughout(w, [e], inv)
  {
    assert [e][1..] == [];
  }

  lemma ThroughoutTwo(w: World, e: Write, f: Write, inv: World -> bool)
    requires inv(w) && inv(Apply(w, e)) && inv(Apply(Apply(w, e), f))
    ensures Throughout(w, [e] + [f], inv)
  {
    ThroughoutOne(Apply(w, e), f, inv);
    assert ([e] + [f])[1..] == [f];
  }

  // A pass that performed the first `done` writes of its plan: all of it, or as much as a
  // failure or a crash allowed.
  datatype Step = Step(r: Request, done: nat)

  function Performed(w: World, s: Step): seq<Write> {
    var plan := Plan(w, s.r);
    if s.done <= |plan| then plan[..s.done] else plan
  }

  function After(w: World, s: Step): World { Perform(w, Performed(w, s)) }

  function Run(w: World, steps: seq<Step>): World
    decreases |steps|
  {
    if steps == [] then w else Run(After(w, steps[0]), steps[1..])
  }

  lemma {:induction false} RunAppend(w: World, steps: seq<Step>, s: Step)
    ensures Run(w, steps + [s]) == After(Run(w, steps), s)
    decreases |steps|
  {
    if steps == [] {
      assert steps + [s] == [s] && [s][1..] == [];
    } else {
      assert (steps + [s])[1..] == steps[1..] + [s];
      RunAppend(After(w, steps[0]), steps[1..], s);
    }
  }

  lemma {:induction false} RunConcat(w: World, a: seq<Step>, b: seq<Step>)
    ensures Run(w, a + b) == Run(Run(w, a), b)
    decreases |a|
  {
    if a == [] {
      assert a + b == b;
    } else {
      assert (a + b)[1..] == a[1..] + b;
      RunConcat(After(w, a[0]), a[1..], b);
    }
  }

  // An invariant kept by every write of a plan is kept by every step.
  lemma StepKeeps(w: World, s: Step, inv: World -> bool)
    requires Throughout(w, Plan(w, s.r), inv)
    ensures inv(After(w, s))
  {
    var plan := Plan(w, s.r);
    ThroughoutPrefix(w, plan, if s.done <= |plan| then s.done else |plan|, inv);
    assert plan[..|plan|] == plan;
  }

  // A pass over a workload rejected by admission, or without a revision, changes nothing.
  lemma RejectedStepChangesNothing(w: World, s: Step)
    requires !s.r.admitted || Calculate(s.r.current.containers, s.r.policy.lifecycle.revision).Err?
    ensures Plan(w, s.r) == [] && After(w, s) == w
  {}

  // Nor does any number of them, whatever objects and policies they see.
  lemma {:induction false} RejectedRunChangesNothing(w: World, steps: seq<Step>, key: string)
    requires forall i :: 0 <= i < |steps| && steps[i].r.Key() == key ==> !steps[i].r.admitted
    ensures AgreesOn(w, Run(w, steps), key)
    decreases |steps|
  {
    if steps != [] {
      if steps[0].r.Key() == key {
        RejectedStepChangesNothing(w, steps[0]);
      } else {
        StepLeavesOthersAlone(w, steps[0], key);
      }
      RejectedRunChangesNothing(After(w, steps[0]), steps[1..], key);
    }
  }

  // ----- A pass touches only its own workload -----

  predicate AgreesOn(a: World, b: World, key: string) {
    && (key in a.durable <==> key in b.durable)
    && (key in a.durable ==> a.durable[key] == b.durable[key])
    && (key in a.live <==> key in b.live)
    && (key in a.live ==> a.live[key] == b.live[key])
  }

  // A write that changes nothing recorded or running under other keys.
  ghost predicate Local(base: States, e: Write, own: string) {
    match e
    case SaveDocument(states) => forall key :: key != own ==>
        (key in states <==> key in base) && (key in states ==> states[key] == base[key])
    case UpdateScale(key, _) => key == own
    case DeleteWorkload(key) => key == own
  }

  ghost predicate AllLocal(base: States, writes: seq<Write>, own: string) {
    forall i :: 0 <= i < |writes| ==> Local(base, writes[i], own)
  }

  lemma FinalIsLocal(states: States, key: string, s: WorkloadState, view: WindowView,
                     live: int, policy: Policy, identitySaved: bool, now: Time)
    ensures AllLocal(states, FinalStage(states, key, s, view, live, policy, identitySaved, now), key)
  {}

  lemma CourseIsLocal(states: States, key: string, entered: WorkloadState, view: WindowView,
                      live: int, policy: Policy, identitySaved: bool, now: Time)
    ensures AllLocal(states, Course(states, key, entered, view, live, policy, identitySaved, now), key)
  {
    FinalIsLocal(states, key, Settled(entered, view, live, policy.replicas.scheduledDown),
                 view, live, policy, identitySaved, now);
  }

  lemma PlanIsLocal(w: World, r: Request)
    ensures AllLocal(w.durable, Plan(w, r), r.Key())
  {
    if Proceeds(w, r) {
      var view := WindowAt(r.Now(), r.policy.schedule).value;
      CourseIsLocal(w.durable, r.Key(), Entered(w.durable, r, r.Revise().value, view), view,
                    w.live[r.Key()], r.policy, IdentityChanged(w.durable, r, r.Revise().value), r.Now());
    }
  }

  lemma {:induction false} LocalKeeps(base: World, w: World, writes: seq<Write>, own: string, key: string)
    requires AllLocal(base.durable, writes, own) && key != own && AgreesOn(base, w, key)
    ensures Throughout(w, writes, x => AgreesOn(base, x, key))
    decreases |writes|
  {
    if writes != [] {
      assert Local(base.durable, writes[0], own);
      LocalKeeps(base, Apply(w, writes[0]), writes[1..], own, key);
    }
  }

  // Whatever fails, a pass leaves every other workload's state and replicas alone.
  lemma StepLeavesOthersAlone(w: World, s: Step, key: string)
    requires key != s.r.Key()
    ensures AgreesOn(w, After(w, s), key)
  {
    PlanIsLocal(w, s.r);
    LocalKeeps(w, w, Plan(w, s.r), s.r.Key(), key);
    StepKeeps(w, s, x => AgreesOn(w, x, key));
  }
}
