// A batch: one pass for every listed workload that has a policy, over the shared stores.
module Orchestrator {
  import opened Basics
  import opened Revision
  import opened Policies
  import opened State
  import opened Transition
  import opened Reconciling
  import opened Runs
  import opened Intent
  import opened Validity

  // A listed workload with what the controller finds when its turn comes: the current policy
  // set, the admission verdict and the clock reading.
  datatype Item = Item(current: Workload, policies: Option<seq<Policy>>, admitted: bool, clock: Time) {
    function Subject(): Subject { Policies.Subject(current.kind, current.name, current.labels) }
  }

  // The single policy that governs the item, if the policy set selects one.
  ghost predicate Governs(item: Item, policy: Policy) {
    item.policies.Some? && IsOutcome(item.policies.value, item.Subject(), Policies.MatchResult(Some(policy), []))
  }

  ghost predicate Governed(item: Item) { exists policy :: Governs(item, policy) }

  ghost function GoverningPolicy(item: Item): Policy
    requires Governed(item)
  {
    var policy :| Governs(item, policy);
    policy
  }

  ghost function RequestOf(item: Item): Request
    requires Governed(item)
  {
    Request(item.current, GoverningPolicy(item), item.admitted, item.clock)
  }

  // The passes a batch over these items makes when it is not cancelled, in order.
  ghost function RequestsOf(items: seq<Item>): seq<Request> {
    if items == [] then []
    else
      var item := items[|items| - 1];
      RequestsOf(items[..|items| - 1])
      + (if Governed(item) then [RequestOf(item)] else [])
  }

  function Requests(steps: seq<Step>): (r: seq<Request>)
    ensures |r| == |steps| && forall i :: 0 <= i < |r| ==> r[i] == steps[i].r
  {
    seq(|steps|, i requires 0 <= i < |steps| => steps[i].r)
  }

  // What the lists that did not fail contain.
  function Listed(listings: seq<Result<seq<Item>>>): seq<Item> {
    if listings == [] then []
    else
      var last := listings[|listings| - 1];
      Listed(listings[..|listings| - 1]) + (if last.Ok? then last.value else [])
  }

  lemma HighestIsUnique(matches: seq<Policy>, a: int, b: int)
    requires IsHighest(matches, a) && IsHighest(matches, b)
    ensures a == b
  {}

  lemma OutcomeIsUnique(policies: seq<Policy>, w: Subject, a: Policies.MatchResult, b: Policies.MatchResult)
    requires IsOutcome(policies, w, a) && IsOutcome(policies, w, b)
    ensures a == b
  {
    var matches := Applicable(policies, w);
    if matches != [] {
      var x :| IsHighest(matches, x) && a == OutcomeOf(AtPriority(matches, x));
      var y :| IsHighest(matches, y) && b == OutcomeOf(AtPriority(matches, y));
      HighestIsUnique(matches, x, y);
    }
  }

  lemma RequestsOfSnoc(items: seq<Item>, item: Item)
    ensures RequestsOf(items + [item])
         == RequestsOf(items) + (if Governed(item) then [RequestOf(item)] else [])
  {
    assert (items + [item])[..|items|] == items;
  }

  lemma {:induction false} RequestsOfPrefix(items: seq<Item>, more: seq<Item>)
    ensures RequestsOf(items) <= RequestsOf(items + more)
    decreases |more|
  {
    if more == [] {
      assert items + more == items;
    } else {
      var init, last := more[..|more| - 1], more[|more| - 1];
      RequestsOfPrefix(items, init);
      RequestsOfSnoc(items + init, last);
      assert items + init + [last] == items + more;
    }
  }

  lemma ListedSnoc(listings: seq<Result<seq<Item>>>, k: nat)
    requires k < |listings|
    ensures listings[k].Ok? ==> Listed(listings[..k + 1]) == Listed(listings[..k]) + listings[k].value
    ensures listings[k].Err? ==> Listed(listings[..k + 1]) == Listed(listings[..k])
  {
    assert listings[..k + 1][..k] == listings[..k];
  }

  lemma {:induction false} ListedPrefix(listings: seq<Result<seq<Item>>>, i: nat)
    requires i < |listings|
    ensures Listed(listings[..i]) + (if listings[i].Ok? then listings[i].value else []) <= Listed(listings)
    decreases |listings|
  {
    var init := listings[..|listings| - 1];
    if i < |listings| - 1 {
      ListedPrefix(init, i);
      assert init[..i] == listings[..i];
    }
  }

  // What the lists contain one after another; a failed list counts for nothing.
  lemma {:induction false} ListsFollowEachOther(a: seq<Result<seq<Item>>>, b: seq<Result<seq<Item>>>, items: seq<Item>)
    ensures Listed(a + b) == Listed(a) + Listed(b)
    ensures Listed([Ok(items)]) == items && Listed([Err]) == []
    decreases |b|
  {
    var one, none: seq<Result<seq<Item>>> := [Ok(items)], [Err];
    assert one[..0] == [] && none[..0] == [];
    if b == [] {
      assert a + b == a;
    } else {
      assert (a + b)[..|a + b| - 1] == a + b[..|b| - 1];
      ListsFollowEachOther(a, b[..|b| - 1], items);
    }
  }

  // Items are served one after another: one request each, or none.
  lemma {:induction false} RequestsFollowItems(a: seq<Item>, b: seq<Item>, item: Item)
    ensures RequestsOf(a + b) == RequestsOf(a) + RequestsOf(b)
    ensures RequestsOf([item]) == if Governed(item) then [RequestOf(item)] else []
    decreases |b|
  {
    assert [item][..0] == [];
    if b == [] {
      assert a + b == a;
    } else {
      assert (a + b)[..|a + b| - 1] == a + b[..|b| - 1];
      RequestsFollowItems(a, b[..|b| - 1], item);
    }
  }

  // A policy governs an item when it takes its kind, name and labels and outranks every other
  // one that does.
  lemma GovernsIff(item: Item, p: Policy)
    requires item.policies.Some? ==> UniquePolicyNames(item.policies.value)
    ensures Governs(item, p) <==>
      && item.policies.Some? && p in item.policies.value
      && p.target.Matches(item.current.kind, item.current.name, item.current.labels)
      && forall q :: q in item.policies.value && q != p ==>
           q.target.Matches(item.current.kind, item.current.name, item.current.labels) ==> q.priority < p.priority
  {
    if item.policies.Some? {
      var policies, w := item.policies.value, item.Subject();
      var r := SomeOutcome(policies, w);
      SelectedIffOutranks(policies, w, r, p);
      if Governs(item, p) { OutcomeIsUnique(policies, w, r, Policies.MatchResult(Some(p), [])); }
    }
  }

  // Its request is for the listed workload under that policy, as admitted, by its own clock.
  lemma RequestCarriesItem(item: Item)
    requires Governed(item)
    ensures Governs(item, RequestOf(item).policy) && RequestOf(item).current == item.current
    ensures RequestOf(item).admitted == item.admitted && RequestOf(item).clock == item.clock
  {}

  // Every pass that gets past its checks performed its whole plan.
  ghost predicate Complete(w: World, steps: seq<Step>) {
    forall i :: 0 <= i < |steps| ==> PassComplete(Run(w, steps[..i]), steps[i])
  }

  predicate PassComplete(w: World, s: Step) { Proceeds(w, s.r) ==> s.done >= |Plan(w, s.r)| }

  lemma CompleteSnoc(w: World, steps: seq<Step>, s: Step)
    requires Complete(w, steps) && PassComplete(Run(w, steps), s)
    ensures Complete(w, steps + [s])
  {
    forall i | 0 <= i < |steps + [s]| ensures PassComplete(Run(w, (steps + [s])[..i]), (steps + [s])[i]) {
      assert (steps + [s])[..i] == steps[..i];
      if i == |steps| { assert steps[..i] == steps; }
    }
  }

  lemma {:induction false} ClockedSnoc(steps: seq<Step>, s: Step, clock: int)
    requires Clocked(steps + [s], clock)
    ensures Clocked(steps, clock) && WellFormed(s.r) && LastClock(steps, clock) <= s.r.clock.nanos
    decreases |steps|
  {
    if steps != [] {
      assert (steps + [s])[1..] == steps[1..] + [s];
      ClockedSnoc(steps[1..], s, steps[0].r.clock.nanos);
      assert LastClock(steps, clock) == LastClock(steps[1..], steps[0].r.clock.nanos);
    }
  }

  // A trace that grew by part of a plan is one step of a run.
  lemma TraceIsStep(origin: World, before: seq<Write>, after: seq<Write>, r: Request, complete: bool)
    requires Extends(before, after, Plan(Perform(origin, before), r), complete)
    ensures Perform(origin, after) == After(Perform(origin, before), Step(r, |after| - |before|))
    ensures complete ==> |after| - |before| == |Plan(Perform(origin, before), r)|
  {
    var plan := Plan(Perform(origin, before), r);
    assert after == before + after[|before|..];
    PerformConcat(origin, before, after[|before|..]);
    assert after[|before|..] == plan[..|after| - |before|];
  }

  // ----- The controller -----

  class Controller {
    const transition: Reconciler

    constructor (transition: Reconciler)
      ensures this.transition == transition
    {
      this.transition := transition;
    }

    ghost function Now(): World
      reads transition.cluster
    {
      transition.cluster.Now()
    }

    // No policy set, a conflict or no match: nothing is touched. Otherwise one pass.
    method ReconcileOne(item: Item) returns (ghost pass: Option<Step>)
      requires transition.cluster.Valid()
      modifies transition.cluster, transition.cluster.store, transition.cluster.store.server
      ensures transition.cluster.Valid()
      ensures pass.Some? <==> Governed(item)
      ensures pass.None? ==> Now() == old(Now())
      ensures pass.Some? ==>
        && pass.value.r == RequestOf(item)
        && Now() == After(old(Now()), pass.value)
      ensures pass.Some? ==> MadeGood(old(Now()), pass.value, transition.cluster.Promise())
    {
      if item.policies.None? { return None; }
      var matched := Policies.Match(item.policies.value, item.Subject());
      OnlyOutcome(item, matched);
      if matched.Conflict() { return None; }
      if matched.policy.None? { return None; }
      ghost var made := MakePass(Request(item.current, matched.policy.value, item.admitted, item.clock));
      return Some(made);
    }

    method MakePass(r: Request) returns (ghost pass: Step)
      requires transition.cluster.Valid()
      modifies transition.cluster, transition.cluster.store, transition.cluster.store.server
      ensures transition.cluster.Valid()
      ensures pass.r == r && Now() == After(old(Now()), pass)
      ensures MadeGood(old(Now()), pass, transition.cluster.Promise())
    {
      ghost var before, w := transition.cluster.trace, Now();
      var decision := transition.Reconcile(r);
      TraceIsStep(transition.cluster.origin, before, transition.cluster.trace, r, decision.1);
      pass := Step(r, |transition.cluster.trace| - |before|);
      PromiseIsMadeGood(w, pass, transition.cluster, decision.1);
    }

    // The next item of a batch.
    method ReconcileNext(item: Item, ghost start: World, ghost done: seq<Item>, ghost past: seq<Step>, ghost clock: int)
      returns (ghost steps: seq<Step>)
      requires transition.cluster.Valid()
      requires Underway(start, done, past, false, clock)
      modifies transition.cluster, transition.cluster.store, transition.cluster.store.server
      ensures transition.cluster.Valid() && Underway(start, done + [item], steps, false, clock)
    {
      ghost var pass := ReconcileOne(item);
      BatchGrows(start, done, item, past, pass, transition.cluster.Promise(), clock);
      steps := Extended(past, pass);
    }

    // Since the start a batch over these items has been run.
    ghost predicate Underway(start: World, items: seq<Item>, steps: seq<Step>, cancelled: bool, clock: int)
      reads transition.cluster
    {
      Now() == Run(start, steps) && Batch(start, items, steps, cancelled, transition.cluster.Promise(), clock)
    }

    lemma UnderwayStops(start: World, done: seq<Item>, all: seq<Item>, steps: seq<Step>, cancelled: bool, clock: int)
      requires done <= all && Underway(start, done, steps, cancelled, clock)
      ensures Underway(start, all, steps, true, clock)
    {
      RequestsOfPrefix(done, all[|done|..]);
      assert done + all[|done|..] == all;
    }

    // One list of items, in order, until the context is cancelled.
    method ReconcileItems(items: seq<Item>, ghost start: World, ghost earlier: seq<Item>,
                          ghost past: seq<Step>, ghost clock: int)
      returns (cancelled: bool, ghost steps: seq<Step>)
      requires transition.cluster.Valid()
      requires Underway(start, earlier, past, false, clock)
      modifies transition.cluster, transition.cluster.store, transition.cluster.store.server
      ensures transition.cluster.Valid() && Underway(start, earlier + items, steps, cancelled, clock)
    {
      steps := past;
      assert earlier + items[..0] == earlier && earlier + items[..|items|] == earlier + items;
      for i := 0 to |items|
        invariant transition.cluster.Valid() && Underway(start, earlier + items[..i], steps, false, clock)
      {
        PartsOf(earlier, items, i);
        var stop: bool := *;
        if stop {
          UnderwayStops(start, earlier + items[..i], earlier + items, steps, false, clock);
          return true, steps;
        }
        steps := ReconcileNext(items[i], start, earlier + items[..i], steps, clock);
      }
      return false, steps;
    }

    // Deployments first, then stateful sets; a list that fails is passed over.
    method ReconcileAll(listings: seq<Result<seq<Item>>>, ghost clock: int)
      returns (cancelled: bool, ghost steps: seq<Step>)
      requires transition.cluster.Valid()
      modifies transition.cluster, transition.cluster.store, transition.cluster.store.server
      ensures transition.cluster.Valid() && Now() == Run(old(Now()), steps)
      ensures Batch(old(Now()), Listed(listings), steps, cancelled, transition.cluster.Promise(), clock)
    {
      ghost var start, done := Now(), Listed([]);
      cancelled, steps := false, [];
      for k := 0 to |listings|
        invariant done == Listed(listings[..k])
        invariant transition.cluster.Valid() && Underway(start, done, steps, false, clock)
      {
        ListedSnoc(listings, k);
        if listings[k].Ok? {
          cancelled, steps := ReconcileItems(listings[k].value, start, done, steps, clock);
          if cancelled {
            ListedPrefix(listings, k);
            UnderwayStops(start, done + listings[k].value, Listed(listings), steps, true, clock);
            return;
          }
        }
        done := Listed(listings[..k + 1]);
      }
      assert listings[..|listings|] == listings;
    }
  }

  function Extended(steps: seq<Step>, pass: Option<Step>): seq<Step> {
    if pass.Some? then steps + [pass.value] else steps
  }

  // These steps are a batch over these items: the governed ones in order, all of them unless
  // cancelled, and each complete when nothing fails,
  // the documents fit and the clock is sound.
  ghost predicate Batch(start: World, items: seq<Item>, steps: seq<Step>,
                        cancelled: bool, promise: Option<iset<States>>, clock: int) {
    && Requests(steps) <= RequestsOf(items)
    && (!cancelled ==> Requests(steps) == RequestsOf(items))
    && (AllFit(start, steps, promise) && Healthy(start, clock) && Clocked(steps, clock) ==> Complete(start, steps))
  }

  lemma PartsOf(earlier: seq<Item>, items: seq<Item>, i: nat)
    requires i < |items|
    ensures earlier + items[..i] <= earlier + items
    ensures earlier + items[..i] + [items[i]] == earlier + items[..i + 1]
  {
    assert earlier + items == earlier + items[..i] + items[i..];
  }

  // There is a promise and it covers every document among the writes.
  ghost predicate DocumentsFit(writes: seq<Write>, promise: Option<iset<States>>) {
    promise.Some? && forall e :: e in writes && e.SaveDocument? ==> e.states in promise.value
  }

  ghost predicate AllFit(start: World, steps: seq<Step>, promise: Option<iset<States>>) {
    promise.Some? && forall i :: 0 <= i < |steps| ==> DocumentsFit(Plan(Run(start, steps[..i]), steps[i].r), promise)
  }

  // A pass whose documents are valid and promised room performs its whole plan.
  ghost predicate MadeGood(w: World, s: Step, promise: Option<iset<States>>) {
    DocumentsFit(Plan(w, s.r), promise) && Saveable(Plan(w, s.r)) ==> PassComplete(w, s)
  }

  lemma PromiseIsMadeGood(w: World, s: Step, cluster: Cluster, complete: bool)
    requires complete ==> s.done == |Plan(w, s.r)|
    requires cluster.reliable && Proceeds(w, s.r) && cluster.Accepts(Plan(w, s.r)) ==> complete
    ensures MadeGood(w, s, cluster.Promise())
  {}

  lemma AllFitSnoc(start: World, steps: seq<Step>, s: Step, promise: Option<iset<States>>)
    requires AllFit(start, steps + [s], promise)
    ensures AllFit(start, steps, promise) && DocumentsFit(Plan(Run(start, steps), s.r), promise)
  {
    var all := steps + [s];
    assert all[..|steps|] == steps && all[|steps|] == s;
    assert DocumentsFit(Plan(Run(start, all[..|steps|]), all[|steps|].r), promise);
    forall i | 0 <= i < |steps| ensures DocumentsFit(Plan(Run(start, steps[..i]), steps[i].r), promise) {
      assert all[..i] == steps[..i] && all[i] == steps[i];
      assert DocumentsFit(Plan(Run(start, all[..i]), all[i].r), promise);
    }
  }

  lemma CompleteGrows(start: World, steps: seq<Step>, s: Step, promise: Option<iset<States>>, clock: int)
    requires AllFit(start, steps, promise) && Healthy(start, clock) && Clocked(steps, clock) ==> Complete(start, steps)
    requires MadeGood(Run(start, steps), s, promise)
    ensures AllFit(start, steps + [s], promise) && Healthy(start, clock) && Clocked(steps + [s], clock) ==>
      Complete(start, steps + [s])
  {
    if AllFit(start, steps + [s], promise) && Healthy(start, clock) && Clocked(steps + [s], clock) {
      AllFitSnoc(start, steps, s, promise);
      ClockedSnoc(steps, s, clock);
      NoSaveIsEverRefused(start, steps, s.r, clock);
      CompleteSnoc(start, steps, s);
    }
  }

  lemma BatchGrows(start: World, done: seq<Item>, item: Item, steps: seq<Step>,
                   pass: Option<Step>, promise: Option<iset<States>>, clock: int)
    requires Batch(start, done, steps, false, promise, clock)
    requires pass.Some? <==> Governed(item)
    requires pass.Some? ==>
      && pass.value.r == RequestOf(item)
      && MadeGood(Run(start, steps), pass.value, promise)
    ensures Batch(start, done + [item], Extended(steps, pass), false, promise, clock)
    ensures Run(start, Extended(steps, pass))
         == if pass.Some? then After(Run(start, steps), pass.value) else Run(start, steps)
  {
    RequestsOfSnoc(done, item);
    if pass.Some? {
      RunAppend(start, steps, pass.value);
      assert Requests(steps + [pass.value]) == Requests(steps) + [pass.value.r];
      CompleteGrows(start, steps, pass.value, promise, clock);
    }
  }

  lemma OnlyOutcome(item: Item, matched: Policies.MatchResult)
    requires item.policies.Some? && IsOutcome(item.policies.value, item.Subject(), matched)
    ensures Governed(item) <==> matched.policy.Some?
    ensures Governed(item) ==>
      RequestOf(item) == Request(item.current, matched.policy.value, item.admitted, item.clock)
    ensures matched.policy.Some? ==> !matched.Conflict()
  {
    NothingIffNoneApplies(item.policies.value, item.Subject(), matched);
    if matched.policy.Some? {
      assert Governs(item, matched.policy.value);
    }
    if Governed(item) {
      OutcomeIsUnique(item.policies.value, item.Subject(), matched,
                      Policies.MatchResult(Some(GoverningPolicy(item)), []));
    }
  }

  // ----- What a batch leaves alone, and what it keeps -----

  // Runs over other workloads leave this one alone.
  lemma {:induction false} RunElsewhere(w: World, steps: seq<Step>, key: string)
    requires forall i :: 0 <= i < |steps| ==> steps[i].r.Key() != key
    ensures AgreesOn(w, Run(w, steps), key)
    decreases |steps|
  {
    if steps != [] {
      StepLeavesOthersAlone(w, steps[0], key);
      RunElsewhere(After(w, steps[0]), steps[1..], key);
    }
  }

  lemma {:induction false} RequestsComeFromItems(items: seq<Item>, i: nat)
    requires i < |RequestsOf(items)|
    ensures exists item :: item in items && RequestsOf(items)[i].current == item.current
    decreases |items|
  {
    var init, last := items[..|items| - 1], items[|items| - 1];
    if i < |RequestsOf(init)| {
      RequestsComeFromItems(init, i);
      var item :| item in init && RequestsOf(init)[i].current == item.current;
      assert item in items;
    } else {
      assert last in items;
    }
  }

  // A batch, wherever it stops and whatever fails, touches only the workloads it lists.
  lemma UnlistedIsUntouched(w: World, items: seq<Item>, steps: seq<Step>, cancelled: bool,
                            promise: Option<iset<States>>, clock: int, key: string)
    requires Batch(w, items, steps, cancelled, promise, clock)
    requires forall item :: item in items ==> item.current.Key() != key
    ensures AgreesOn(w, Run(w, steps), key)
  {
    forall i | 0 <= i < |steps| ensures steps[i].r.Key() != key {
      assert Requests(steps)[i] == RequestsOf(items)[i];
      RequestsComeFromItems(items, i);
    }
    RunElsewhere(w, steps, key);
  }

  // The pass would make neither mistake if it were made now.
  predicate Ready(w: World, r: Request) {
    r.current.uid != "" && !StaleCapture(w, r) && !WrongOverride(w, r)
  }

  lemma ReadyIsLocal(a: World, b: World, r: Request)
    requires AgreesOn(a, b, r.Key())
    ensures Ready(a, r) <==> Ready(b, r)
  {
    assert Recorded(a.durable, r.Key()) == Recorded(b.durable, r.Key());
  }

  lemma AgreeingIsCounted(a: World, b: World, key: string, uid: string, c: int)
    requires AgreesOn(a, b, key) && Counted(a, key, uid, c)
    ensures Counted(b, key, uid, c)
  {}

  lemma ReadyStepKeepsCount(w: World, met: World, s: Step)
    requires Ready(w, s.r) && AgreesOn(w, met, s.r.Key()) && s.r.Key() in w.live
    ensures Counted(After(met, s), s.r.Key(), s.r.current.uid, Intended(w, s.r.Key(), s.r.current.uid))
  {
    var key, uid := s.r.Key(), s.r.current.uid;
    var c := Intended(w, key, uid);
    ReadyIsLocal(w, met, s.r);
    assert Counted(met, key, uid, c);
    PassCounted(met, s.r, c);
    StepKeeps(met, s, x => Counted(x, key, uid, c));
  }

  lemma RunAround(w: World, before: seq<Step>, s: Step, after: seq<Step>)
    ensures Run(w, before + [s] + after) == Run(After(Run(w, before), s), after)
  {
    RunConcat(w, before + [s], after);
    RunAppend(w, before, s);
  }

  lemma OnlyOwnPassCounts(w: World, before: seq<Step>, s: Step, after: seq<Step>)
    requires forall i :: 0 <= i < |before| ==> before[i].r.Key() != s.r.Key()
    requires forall i :: 0 <= i < |after| ==> after[i].r.Key() != s.r.Key()
    requires Ready(w, s.r) && s.r.Key() in w.live
    ensures Counted(Run(w, before + [s] + after), s.r.Key(), s.r.current.uid, Intended(w, s.r.Key(), s.r.current.uid))
  {
    var met := Run(w, before);
    RunAround(w, before, s, after);
    RunElsewhere(w, before, s.r.Key());
    ReadyStepKeepsCount(w, met, s);
    RunElsewhere(After(met, s), after, s.r.Key());
    AgreeingIsCounted(After(met, s), Run(After(met, s), after), s.r.Key(),
                      s.r.current.uid, Intended(w, s.r.Key(), s.r.current.uid));
  }

  predicate DistinctKeys(steps: seq<Step>) {
    forall i, j :: 0 <= i < j < |steps| ==> steps[i].r.Key() != steps[j].r.Key()
  }

  // Passes of a batch do not disturb each other: if each would keep its count on its own in
  // the world the batch starts from, the batch keeps every intended count at once.
  lemma BatchKeepsEveryCount(w: World, steps: seq<Step>, i: nat)
    requires DistinctKeys(steps) && i < |steps| && Ready(w, steps[i].r) && steps[i].r.Key() in w.live
    ensures Counted(Run(w, steps), steps[i].r.Key(), steps[i].r.current.uid,
                    Intended(w, steps[i].r.Key(), steps[i].r.current.uid))
  {
    assert steps == steps[..i] + [steps[i]] + steps[i + 1..];
    OnlyOwnPassCounts(w, steps[..i], steps[i], steps[i + 1..]);
  }
}
