// Policies: what compilation guarantees to every later stage, and which policy a
// workload is governed by.
module Policies {
  import opened Basics
  import opened Ordering
  import opened Schedule
  import opened Revision

  const API_VERSION := "lifecycle.example.com/v1alpha1"
  const POLICY_SET_KIND := "WorkloadLifecyclePolicySet"
  const DEFAULT_MAX_AGE := 3 * NANOS_PER_DAY
  const EXPIRED_ACTION_SCALE := "scale"
  const EXPIRED_ACTION_DELETE := "delete"

  type Labels = map<string, string>

  // Label selectors and name patterns are kept as the predicates they compile to.
  datatype Target = Target(kinds: seq<string>, selector: Option<Labels -> bool>, patterns: seq<string -> bool>) {
    predicate Matches(kind: string, name: string, labels: Labels) {
      && kind in kinds
      && ((selector.Some? && selector.value(labels))
          || (name != "" && exists i :: 0 <= i < |patterns| && patterns[i](name)))
    }
  }

  datatype Lifecycle = Lifecycle(maxAge: int, revision: TrackingSpec, expiredAction: string)

  datatype Replicas = Replicas(scheduledDown: int, expired: int)

  datatype DownSchedule = DownSchedule(zone: Zone, windows: seq<Window>)

  datatype Policy = Policy(name: string, priority: int, target: Target, lifecycle: Lifecycle,
                           replicas: Replicas, schedule: Option<DownSchedule>)

  // ----- Compilation -----

  // maxAge None is omitted, Some(None) is text that is not a duration.
  datatype RawRevision = RawRevision(source: Option<string>, containers: Option<seq<string>>)
  datatype RawLifecycle = RawLifecycle(maxAge: Option<Option<int>>, revision: Option<RawRevision>,
                                       expiredAction: Option<string>)
  datatype RawReplicas = RawReplicas(scheduledDown: Option<int>, expired: Option<int>)
  datatype RawSchedule = RawSchedule(zone: Zone, windows: Option<seq<Window>>)
  // An absent or empty selector is None; Err is one the selector or pattern library refuses.
  datatype RawTarget = RawTarget(kinds: Option<seq<string>>, selector: Option<Result<Labels -> bool>>,
                                 patterns: seq<Result<string -> bool>>)
  datatype RawPolicy = RawPolicy(name: string, priority: Option<int>, target: Option<RawTarget>,
                                 lifecycle: Option<RawLifecycle>, replicas: Option<RawReplicas>,
                                 schedule: Option<RawSchedule>)

  // policies None is a missing spec or a missing list in it.
  datatype RawPolicySet = RawPolicySet(apiVersion: string, kind: string, policies: Option<seq<RawPolicy>>)

  predicate CompiledTarget(t: Target) {
    && t.kinds != []
    && Distinct(t.kinds)
    && (forall kind :: kind in t.kinds ==> kind == KIND_DEPLOYMENT || kind == KIND_STATEFUL_SET)
    && (t.selector.Some? || t.patterns != [])
  }

  predicate CompiledLifecycle(l: Lifecycle) {
    && l.maxAge > 0
    && l.revision.source == SOURCE_CONTAINER_IMAGES
    && (l.revision.containers.Some? ==>
          && l.revision.containers.value != []
          && Distinct(l.revision.containers.value)
          && "" !in l.revision.containers.value)
    && (l.expiredAction == EXPIRED_ACTION_SCALE || l.expiredAction == EXPIRED_ACTION_DELETE)
  }

  predicate CompiledReplicas(r: Replicas) { r.scheduledDown >= 0 && r.expired >= 0 }

  predicate CompiledSchedule(s: DownSchedule) {
    s.zone.Fixed? && s.windows != [] && AllValid(s.windows) && UniqueNames(s.windows)
  }

  // Everything later stages rely on about a policy in use.
  predicate Compiled(p: Policy) {
    && p.name != ""
    && CompiledTarget(p.target)
    && CompiledLifecycle(p.lifecycle)
    && CompiledReplicas(p.replicas)
    && (p.schedule.Some? ==> CompiledSchedule(p.schedule.value))
  }

  predicate TargetAccepted(raw: RawTarget) {
    && raw.kinds.Some? && raw.kinds.value != []
    && (forall kind :: kind in raw.kinds.value ==> kind == "Deployment" || kind == "StatefulSet")
    && Distinct(raw.kinds.value)
    && (raw.selector.Some? || raw.patterns != [])
    && (raw.selector.Some? ==> raw.selector.value.Ok?)
    && (forall i :: 0 <= i < |raw.patterns| ==> raw.patterns[i].Ok?)
  }

  // The target an accepted raw target stands for.
  function TargetOf(raw: RawTarget): Target
    requires TargetAccepted(raw)
  {
    Target(raw.kinds.value,
           if raw.selector.Some? then Some(raw.selector.value.value) else None,
           seq(|raw.patterns|, i requires 0 <= i < |raw.patterns| => raw.patterns[i].value))
  }

  method CompileTarget(raw: Option<RawTarget>) returns (r: Result<Target>)
    ensures r.Ok? ==> CompiledTarget(r.value)
    ensures r.Ok? <==> raw.Some? && TargetAccepted(raw.value)
    ensures r.Ok? ==> r.value == TargetOf(raw.value)
  {
    if raw.None? || raw.value.kinds.None? || |raw.value.kinds.value| == 0 { return Err; }
    var kinds := raw.value.kinds.value;
    var seen: set<string> := {};
    for i := 0 to |kinds|
      invariant seen == set k | 0 <= k < i :: kinds[k]
      invariant forall k :: 0 <= k < i ==> kinds[k] == KIND_DEPLOYMENT || kinds[k] == KIND_STATEFUL_SET
      invariant forall j, k :: 0 <= j < k < i ==> kinds[j] != kinds[k]
    {
      if kinds[i] != KIND_DEPLOYMENT && kinds[i] != KIND_STATEFUL_SET {
        assert kinds[i] in kinds;
        return Err;
      }
      if kinds[i] in seen {
        var k :| 0 <= k < i && kinds[k] == kinds[i];
        return Err;
      }
      seen := seen + {kinds[i]};
    }
    if raw.value.selector.None? && |raw.value.patterns| == 0 { return Err; }
    if raw.value.selector.Some? && raw.value.selector.value.Err? { return Err; }
    var patterns: seq<string -> bool> := [];
    for i := 0 to |raw.value.patterns|
      invariant |patterns| == i
      invariant forall k :: 0 <= k < i ==> raw.value.patterns[k].Ok? && patterns[k] == raw.value.patterns[k].value
    {
      if raw.value.patterns[i].Err? { return Err; }
      patterns := patterns + [raw.value.patterns[i].value];
    }
    var selector := if raw.value.selector.Some? then Some(raw.value.selector.value.value) else None;
    return Ok(Target(kinds, selector, patterns));
  }

  predicate TrackedNamesAccepted(names: seq<string>) {
    names != [] && Distinct(names) && "" !in names
  }

  method CheckTrackedNames(names: seq<string>) returns (accepted: bool)
    ensures accepted <==> TrackedNamesAccepted(names)
  {
    if |names| == 0 { return false; }
    var seen: set<string> := {};
    for i := 0 to |names|
      invariant seen == set k | 0 <= k < i :: names[k]
      invariant forall k :: 0 <= k < i ==> names[k] != ""
      invariant forall j, k :: 0 <= j < k < i ==> names[j] != names[k]
    {
      if names[i] == "" { return false; }
      if names[i] in seen {
        var k :| 0 <= k < i && names[k] == names[i];
        return false;
      }
      seen := seen + {names[i]};
    }
    return true;
  }

  predicate LifecycleAccepted(raw: RawLifecycle) {
    && (raw.maxAge.Some? ==> raw.maxAge.value.Some? && raw.maxAge.value.value > 0)
    && (raw.revision.Some? ==>
          && (raw.revision.value.source.Some? ==> raw.revision.value.source.value == "ContainerImages")
          && (raw.revision.value.containers.Some? ==> TrackedNamesAccepted(raw.revision.value.containers.value)))
    && (raw.expiredAction.Some? ==>
          || raw.expiredAction.value == ""
          || raw.expiredAction.value == "scale"
          || raw.expiredAction.value == "delete")
  }

  // The containers a raw lifecycle asks to track, if it names any.
  function TrackedBy(raw: Option<RawLifecycle>): Option<seq<string>> {
    if raw.Some? && raw.value.revision.Some? then raw.value.revision.value.containers else None
  }

  method CompileLifecycle(raw: Option<RawLifecycle>) returns (r: Result<Lifecycle>)
    ensures r.Ok? ==> CompiledLifecycle(r.value)
    ensures r.Ok? && (raw.None? || raw.value.maxAge.None?) ==> r.value.maxAge == 72 * 3_600_000_000_000
    ensures r.Ok? && raw.Some? && raw.value.maxAge.Some? ==> raw.value.maxAge.value == Some(r.value.maxAge)
    // Deletion is opt-in: only the explicit word selects it.
    ensures r.Ok? ==>
      r.value.expiredAction == if raw.Some? && raw.value.expiredAction == Some("delete") then "delete" else "scale"
    ensures r.Ok? ==> r.value.revision == TrackingSpec("ContainerImages", TrackedBy(raw))
    ensures r.Ok? <==> (raw.Some? ==> LifecycleAccepted(raw.value))
  {
    var result := Lifecycle(DEFAULT_MAX_AGE, TrackingSpec(SOURCE_CONTAINER_IMAGES, None), EXPIRED_ACTION_SCALE);
    if raw.None? { return Ok(result); }
    if raw.value.maxAge.Some? {
      var parsed := raw.value.maxAge.value;
      if parsed.None? || parsed.value <= 0 { return Err; }
      result := result.(maxAge := parsed.value);
    }
    if raw.value.revision.Some? {
      var revision := raw.value.revision.value;
      if revision.source.Some? {
        if revision.source.value != SOURCE_CONTAINER_IMAGES { return Err; }
      }
      if revision.containers.Some? {
        var accepted := CheckTrackedNames(revision.containers.value);
        if !accepted { return Err; }
        result := result.(revision := TrackingSpec(SOURCE_CONTAINER_IMAGES, revision.containers));
      }
    }
    if raw.value.expiredAction.Some? && raw.value.expiredAction.value != "" {
      var action := raw.value.expiredAction.value;
      if action != EXPIRED_ACTION_SCALE && action != EXPIRED_ACTION_DELETE { return Err; }
      result := result.(expiredAction := action);
    }
    return Ok(result);
  }

  function OrZero(value: Option<int>): int { if value.Some? then value.value else 0 }

  method CompileReplicas(raw: Option<RawReplicas>) returns (r: Result<Replicas>)
    ensures r.Ok? ==> CompiledReplicas(r.value)
    ensures r.Ok? <==> (raw.Some? ==> OrZero(raw.value.scheduledDown) >= 0 && OrZero(raw.value.expired) >= 0)
    ensures r.Ok? && raw.Some? ==> r.value == Replicas(OrZero(raw.value.scheduledDown), OrZero(raw.value.expired))
    ensures r.Ok? && raw.None? ==> r.value == Replicas(0, 0)
  {
    var result := Replicas(0, 0);
    if raw.None? { return Ok(result); }
    if raw.value.scheduledDown.Some? { result := result.(scheduledDown := raw.value.scheduledDown.value); }
    if raw.value.expired.Some? { result := result.(expired := raw.value.expired.value); }
    if result.scheduledDown < 0 || result.expired < 0 { return Err; }
    return Ok(result);
  }

  method CompileSchedule(raw: Option<RawSchedule>) returns (r: Result<Option<DownSchedule>>)
    ensures r.Ok? && r.value.Some? ==> CompiledSchedule(r.value.value)
    ensures r.Ok? <==> (raw.Some? ==>
      raw.value.windows.Some? && CompiledSchedule(DownSchedule(raw.value.zone, raw.value.windows.value)))
    ensures r.Ok? ==> r.value == if raw.None? then None else Some(DownSchedule(raw.value.zone, raw.value.windows.value))
  {
    if raw.None? { return Ok(None); }
    if raw.value.zone.Unset? { return Err; }
    var location := LoadLocation(raw.value.zone);
    if location.Err? { return Err; }
    if raw.value.windows.None? || |raw.value.windows.value| == 0 { return Err; }
    var windows := raw.value.windows.value;
    var names: set<string> := {};
    for i := 0 to |windows|
      invariant names == set k | 0 <= k < i :: windows[k].name
      invariant forall k :: 0 <= k < i ==> ValidWindow(windows[k])
      invariant forall j, k :: 0 <= j < k < i ==> windows[j].name != windows[k].name
    {
      var valid := ValidateWindow(windows[i]);
      if !valid {
        assert windows[i] in windows;
        return Err;
      }
      if windows[i].name in names {
        var k :| 0 <= k < i && windows[k].name == windows[i].name;
        return Err;
      }
      names := names + {windows[i].name};
    }
    return Ok(Some(DownSchedule(raw.value.zone, windows)));
  }

  predicate PolicyAccepted(raw: RawPolicy) {
    && raw.name != ""
    && raw.priority.Some?
    && raw.target.Some? && TargetAccepted(raw.target.value)
    && (raw.lifecycle.Some? ==> LifecycleAccepted(raw.lifecycle.value))
    && (raw.replicas.Some? ==> OrZero(raw.replicas.value.scheduledDown) >= 0 && OrZero(raw.replicas.value.expired) >= 0)
    && (raw.schedule.Some? ==>
          && raw.schedule.value.windows.Some?
          && CompiledSchedule(DownSchedule(raw.schedule.value.zone, raw.schedule.value.windows.value)))
  }

  // The compiled policy is fit for use and says what the raw one said, or its defaults.
  ghost predicate Compiles(raw: RawPolicy, p: Policy)
    requires PolicyAccepted(raw)
  {
    && Compiled(p)
    && p.name == raw.name && p.priority == raw.priority.value
    && p.target == TargetOf(raw.target.value)
    && (if raw.lifecycle.Some? && raw.lifecycle.value.maxAge.Some?
        then Some(p.lifecycle.maxAge) == raw.lifecycle.value.maxAge.value
        else p.lifecycle.maxAge == 72 * 3_600_000_000_000)
    && p.lifecycle.expiredAction
       == (if raw.lifecycle.Some? && raw.lifecycle.value.expiredAction == Some("delete") then "delete" else "scale")
    && p.lifecycle.revision == TrackingSpec("ContainerImages", TrackedBy(raw.lifecycle))
    && p.replicas == (if raw.replicas.None? then Replicas(0, 0)
                      else Replicas(OrZero(raw.replicas.value.scheduledDown), OrZero(raw.replicas.value.expired)))
    && p.schedule == (if raw.schedule.None? then None
                      else Some(DownSchedule(raw.schedule.value.zone, raw.schedule.value.windows.value)))
  }

  method CompilePolicy(raw: RawPolicy) returns (r: Result<Policy>)
    ensures r.Ok? <==> PolicyAccepted(raw)
    ensures r.Ok? ==> Compiles(raw, r.value)
  {
    if raw.name == "" || raw.priority.None? { return Err; }
    var target := CompileTarget(raw.target);
    if target.Err? { return Err; }
    var lifecycle := CompileLifecycle(raw.lifecycle);
    if lifecycle.Err? { return Err; }
    var replicas := CompileReplicas(raw.replicas);
    if replicas.Err? { return Err; }
    var schedule := CompileSchedule(raw.schedule);
    if schedule.Err? { return Err; }
    return Ok(Policy(raw.name, raw.priority.value, target.value, lifecycle.value, replicas.value, schedule.value));
  }

  predicate UniquePolicyNames(policies: seq<Policy>) {
    forall i, j :: 0 <= i < j < |policies| ==> policies[i].name != policies[j].name
  }

  predicate UniqueRawNames(raw: seq<RawPolicy>) {
    forall i, j :: 0 <= i < j < |raw| ==> raw[i].name != raw[j].name
  }

  predicate PolicySetAccepted(raw: RawPolicySet) {
    && raw.apiVersion == "lifecycle.example.com/v1alpha1"
    && raw.kind == "WorkloadLifecyclePolicySet"
    && raw.policies.Some?
    && UniqueRawNames(raw.policies.value)
    && forall i :: 0 <= i < |raw.policies.value| ==> PolicyAccepted(raw.policies.value[i])
  }

  // A set is accepted exactly when it is of the known version and kind, every policy is
  // acceptable and no name is used twice.
  method CompilePolicySet(raw: RawPolicySet) returns (r: Result<seq<Policy>>)
    ensures r.Ok? <==> PolicySetAccepted(raw)
    ensures r.Ok? ==>
      && |r.value| == |raw.policies.value|
      && forall i :: 0 <= i < |r.value| ==> Compiles(raw.policies.value[i], r.value[i])
    ensures r.Ok? ==> UniquePolicyNames(r.value)
  {
    if raw.apiVersion != API_VERSION { return Err; }
    if raw.kind != POLICY_SET_KIND { return Err; }
    if raw.policies.None? { return Err; }
    var policies := raw.policies.value;
    var result: seq<Policy> := [];
    var names: set<string> := {};
    for i := 0 to |policies|
      invariant |result| == i
      invariant names == set k | 0 <= k < i :: policies[k].name
      invariant forall k :: 0 <= k < i ==> PolicyAccepted(policies[k]) && Compiles(policies[k], result[k])
      invariant forall j, k :: 0 <= j < k < i ==> policies[j].name != policies[k].name
    {
      var compiled := CompilePolicy(policies[i]);
      if compiled.Err? { return Err; }
      if compiled.value.name in names {
        var k :| 0 <= k < i && policies[k].name == policies[i].name;
        return Err;
      }
      names := names + {compiled.value.name};
      result := result + [compiled.value];
    }
    return Ok(result);
  }

  // ----- Selection -----

  // What selection looks at in a workload.
  datatype Subject = Subject(kind: string, name: string, labels: Labels)

  datatype MatchResult = MatchResult(policy: Option<Policy>, conflictNames: seq<string>) {
    predicate Conflict() { conflictNames != [] }
  }

  predicate Applies(p: Policy, w: Subject) { p.target.Matches(w.kind, w.name, w.labels) }

  function Applicable(policies: seq<Policy>, w: Subject): seq<Policy> {
    if policies == [] then []
    else (if Applies(policies[0], w) then [policies[0]] else []) + Applicable(policies[1..], w)
  }

  function AtPriority(policies: seq<Policy>, priority: int): seq<Policy> {
    if policies == [] then []
    else (if policies[0].priority == priority then [policies[0]] else []) + AtPriority(policies[1..], priority)
  }

  function PolicyNames(s: seq<Policy>): (r: seq<string>)
    ensures |r| == |s| && forall i :: 0 <= i < |r| ==> r[i] == s[i].name
  {
    seq(|s|, i requires 0 <= i < |s| => s[i].name)
  }

  // The greatest priority present.
  predicate IsHighest(policies: seq<Policy>, priority: int) {
    && (exists i :: 0 <= i < |policies| && policies[i].priority == priority)
    && (forall i :: 0 <= i < |policies| ==> policies[i].priority <= priority)
  }

  // A match outcome read off the policies tied at the highest applicable priority.
  function OutcomeOf(winners: seq<Policy>): MatchResult {
    if winners == [] then MatchResult(None, [])
    else if |winners| == 1 then MatchResult(Some(winners[0]), [])
    else MatchResult(None, Sort(PolicyNames(winners)))
  }

  ghost predicate IsOutcome(policies: seq<Policy>, w: Subject, r: MatchResult) {
    var matches := Applicable(policies, w);
    if matches == [] then r == MatchResult(None, [])
    else exists highest :: IsHighest(matches, highest) && r == OutcomeOf(AtPriority(matches, highest))
  }

  lemma {:induction false} ApplicableAppend(a: seq<Policy>, b: seq<Policy>, w: Subject)
    ensures Applicable(a + b, w) == Applicable(a, w) + Applicable(b, w)
  {
    if a == [] {
      assert a + b == b;
    } else {
      assert (a + b)[1..] == a[1..] + b;
      ApplicableAppend(a[1..], b, w);
    }
  }

  lemma {:induction false} AtPriorityAppend(a: seq<Policy>, b: seq<Policy>, priority: int)
    ensures AtPriority(a + b, priority) == AtPriority(a, priority) + AtPriority(b, priority)
  {
    if a == [] {
      assert a + b == b;
    } else {
      assert (a + b)[0] == a[0] && (a + b)[1..] == a[1..] + b;
      AtPriorityAppend(a[1..], b, priority);
      var rest, more := AtPriority(a[1..], priority), AtPriority(b, priority);
      assert AtPriority(a + b, priority) == (if a[0].priority == priority then [a[0]] else []) + (rest + more);
      assert [a[0]] + (rest + more) == [a[0]] + rest + more;
    }
  }

  method CollectApplicable(policies: seq<Policy>, w: Subject) returns (matches: seq<Policy>)
    ensures matches == Applicable(policies, w)
  {
    matches := [];
    for i := 0 to |policies|
      invariant matches == Applicable(policies[..i], w)
    {
      assert policies[..i + 1] == policies[..i] + [policies[i]];
      ApplicableAppend(policies[..i], [policies[i]], w);
      if Applies(policies[i], w) { matches := matches + [policies[i]]; }
    }
    assert policies[..|policies|] == policies;
  }

  method HighestPriority(matches: seq<Policy>) returns (highest: int)
    requires matches != []
    ensures IsHighest(matches, highest)
  {
    highest := matches[0].priority;
    for i := 1 to |matches|
      invariant exists k :: 0 <= k < i && matches[k].priority == highest
      invariant forall k :: 0 <= k < i ==> matches[k].priority <= highest
    {
      if matches[i].priority > highest { highest := matches[i].priority; }
    }
  }

  method CollectAtPriority(matches: seq<Policy>, highest: int) returns (winners: seq<Policy>)
    ensures winners == AtPriority(matches, highest)
  {
    winners := [];
    for i := 0 to |matches|
      invariant winners == AtPriority(matches[..i], highest)
    {
      assert matches[..i + 1] == matches[..i] + [matches[i]];
      AtPriorityAppend(matches[..i], [matches[i]], highest);
      if matches[i].priority == highest { winners := winners + [matches[i]]; }
    }
    assert matches[..|matches|] == matches;
  }

  lemma HighestIsReached(matches: seq<Policy>, highest: int)
    requires IsHighest(matches, highest)
    ensures AtPriority(matches, highest) != []
  {
    AtPriorityMembers(matches, highest);
    var i :| 0 <= i < |matches| && matches[i].priority == highest;
    assert matches[i] in AtPriority(matches, highest);
  }

  method Match(policies: seq<Policy>, w: Subject) returns (r: MatchResult)
    ensures IsOutcome(policies, w, r)
  {
    var matches := CollectApplicable(policies, w);
    if |matches| == 0 { return MatchResult(None, []); }
    var highest := HighestPriority(matches);
    var winners := CollectAtPriority(matches, highest);
    HighestIsReached(matches, highest);
    if |winners| == 1 {
      r := MatchResult(Some(winners[0]), []);
    } else {
      var names := CollectNames(winners);
      r := MatchResult(None, Sort(names));
    }
    assert r == OutcomeOf(winners);
  }

  method CollectNames(winners: seq<Policy>) returns (names: seq<string>)
    ensures names == PolicyNames(winners)
  {
    names := [];
    for i := 0 to |winners|
      invariant names == PolicyNames(winners)[..i]
    {
      names := names + [winners[i].name];
    }
  }

  // ----- What selection means -----

  // The policy applies and no applicable policy has a higher priority.
  ghost predicate Wins(policies: seq<Policy>, p: Policy, w: Subject) {
    && p in policies
    && Applies(p, w)
    && forall i :: 0 <= i < |policies| && Applies(policies[i], w) ==> policies[i].priority <= p.priority
  }

  lemma {:induction false} ApplicableMembers(policies: seq<Policy>, w: Subject)
    ensures forall p :: p in Applicable(policies, w) <==> p in policies && Applies(p, w)
    ensures UniquePolicyNames(policies) ==> UniquePolicyNames(Applicable(policies, w))
  {
    if policies != [] {
      assert policies == [policies[0]] + policies[1..];
      ApplicableMembers(policies[1..], w);
      var rest := Applicable(policies[1..], w);
      forall i | 0 <= i < |rest| && UniquePolicyNames(policies) ensures rest[i].name != policies[0].name {
        assert rest[i] in rest;
      }
    }
  }

  lemma {:induction false} AtPriorityMembers(policies: seq<Policy>, priority: int)
    ensures forall p :: p in AtPriority(policies, priority) <==> p in policies && p.priority == priority
    ensures UniquePolicyNames(policies) ==> UniquePolicyNames(AtPriority(policies, priority))
  {
    if policies != [] {
      assert policies == [policies[0]] + policies[1..];
      AtPriorityMembers(policies[1..], priority);
      var rest := AtPriority(policies[1..], priority);
      forall i | 0 <= i < |rest| && UniquePolicyNames(policies) ensures rest[i].name != policies[0].name {
        assert rest[i] in rest;
      }
    }
  }

  lemma WinnersAre(policies: seq<Policy>, w: Subject, highest: int)
    requires IsHighest(Applicable(policies, w), highest)
    ensures forall p :: p in AtPriority(Applicable(policies, w), highest) <==> Wins(policies, p, w)
    ensures AtPriority(Applicable(policies, w), highest) != []
  {
    var matches := Applicable(policies, w);
    ApplicableMembers(policies, w);
    AtPriorityMembers(matches, highest);
    var top :| 0 <= top < |matches| && matches[top].priority == highest;
    assert matches[top] in AtPriority(matches, highest);
    forall p ensures p in AtPriority(matches, highest) <==> Wins(policies, p, w) {
      WinsIff(policies, w, highest, matches[top], p);
    }
  }

  lemma WinsIff(policies: seq<Policy>, w: Subject, highest: int, top: Policy, p: Policy)
    requires top in policies && Applies(top, w) && top.priority == highest
    requires forall i :: 0 <= i < |policies| && Applies(policies[i], w) ==> policies[i].priority <= highest
    ensures p in policies && Applies(p, w) && p.priority == highest <==> Wins(policies, p, w)
  {
    var i :| 0 <= i < |policies| && policies[i] == top;
  }

  lemma NameOf(s: seq<Policy>, n: string)
    ensures n in PolicyNames(s) <==> exists p :: p in s && p.name == n
  {
    if n in PolicyNames(s) {
      var i :| 0 <= i < |s| && PolicyNames(s)[i] == n;
      assert s[i] in s;
    }
    if p :| p in s && p.name == n {
      var i :| 0 <= i < |s| && s[i] == p;
      assert PolicyNames(s)[i] == n;
    }
  }

  // With unique names, a policy is selected exactly when it is the only applicable one at
  // the highest applicable priority.
  lemma MatchSelectsUniqueHighest(policies: seq<Policy>, w: Subject, r: MatchResult, p: Policy)
    requires UniquePolicyNames(policies) && IsOutcome(policies, w, r)
    ensures r.policy == Some(p) <==> Wins(policies, p, w) && forall q :: Wins(policies, q, w) ==> q == p
  {
    var matches := Applicable(policies, w);
    ApplicableMembers(policies, w);
    if matches != [] {
      var highest :| IsHighest(matches, highest) && r == OutcomeOf(AtPriority(matches, highest));
      var winners := AtPriority(matches, highest);
      WinnersAre(policies, w, highest);
      AtPriorityMembers(matches, highest);
      SelectsOnly(winners, p);
      assert forall q :: q in winners <==> Wins(policies, q, w);
    }
  }

  lemma SelectsOnly(winners: seq<Policy>, p: Policy)
    requires UniquePolicyNames(winners) && winners != []
    ensures OutcomeOf(winners).policy == Some(p) <==> p in winners && forall q :: q in winners ==> q == p
  {
    assert winners[0] in winners;
    if |winners| >= 2 {
      assert winners[1] in winners && winners[0].name != winners[1].name;
    }
  }

  // The names of two or more tied policies, strictly sorted.
  lemma TiedNames(winners: seq<Policy>)
    requires UniquePolicyNames(winners) && |winners| >= 2
    ensures StrictlySorted(OutcomeOf(winners).conflictNames)
    ensures forall n :: n in OutcomeOf(winners).conflictNames <==> exists p :: p in winners && p.name == n
  {
    assert Distinct(PolicyNames(winners));
    SortedDistinctIsStrict(PolicyNames(winners));
    forall n ensures n in OutcomeOf(winners).conflictNames <==> exists p :: p in winners && p.name == n {
      assert n in Sort(PolicyNames(winners)) <==> n in multiset(PolicyNames(winners));
      NameOf(winners, n);
    }
  }

  lemma TiedWinners(policies: seq<Policy>, w: Subject, winners: seq<Policy>)
    requires UniquePolicyNames(winners) && forall p :: p in winners <==> Wins(policies, p, w)
    ensures StrictlySorted(OutcomeOf(winners).conflictNames)
    ensures OutcomeOf(winners).Conflict() ==>
      forall n :: n in OutcomeOf(winners).conflictNames <==> exists p :: Wins(policies, p, w) && p.name == n
  {
    if |winners| >= 2 { TiedNames(winners); }
  }

  // A conflict lists exactly the tied names, strictly sorted.
  lemma ConflictListsTiedNames(policies: seq<Policy>, w: Subject, r: MatchResult)
    requires UniquePolicyNames(policies) && IsOutcome(policies, w, r)
    ensures StrictlySorted(r.conflictNames)
    ensures r.Conflict() ==> forall n :: n in r.conflictNames <==> exists p :: Wins(policies, p, w) && p.name == n
  {
    var matches := Applicable(policies, w);
    ApplicableMembers(policies, w);
    if matches != [] {
      var highest :| IsHighest(matches, highest) && r == OutcomeOf(AtPriority(matches, highest));
      WinnersAre(policies, w, highest);
      AtPriorityMembers(matches, highest);
      TiedWinners(policies, w, AtPriority(matches, highest));
    }
  }

  // Nothing is reported exactly when no policy applies; a conflict exactly when some
  // policy applies and none is selected.
  lemma NothingIffNoneApplies(policies: seq<Policy>, w: Subject, r: MatchResult)
    requires IsOutcome(policies, w, r)
    ensures r == MatchResult(None, []) <==> forall p :: p in policies ==> !Applies(p, w)
    ensures r.Conflict() <==> r.policy.None? && exists p :: p in policies && Applies(p, w)
  {
    var matches := Applicable(policies, w);
    ApplicableMembers(policies, w);
    if matches != [] {
      assert matches[0] in matches;
      var highest :| IsHighest(matches, highest) && r == OutcomeOf(AtPriority(matches, highest));
      WinnersAre(policies, w, highest);
    }
  }

  lemma {:induction false} ApplicableMultiset(policies: seq<Policy>, w: Subject, p: Policy)
    ensures multiset(Applicable(policies, w))[p] == if Applies(p, w) then multiset(policies)[p] else 0
  {
    if policies != [] {
      ApplicableMultiset(policies[1..], w, p);
      assert policies == [policies[0]] + policies[1..];
    }
  }

  lemma {:induction false} AtPriorityMultiset(policies: seq<Policy>, priority: int, p: Policy)
    ensures multiset(AtPriority(policies, priority))[p] == if p.priority == priority then multiset(policies)[p] else 0
  {
    if policies != [] {
      AtPriorityMultiset(policies[1..], priority, p);
      assert policies == [policies[0]] + policies[1..];
    }
  }

  lemma NamesConcat(a: seq<Policy>, b: seq<Policy>)
    ensures PolicyNames(a + b) == PolicyNames(a) + PolicyNames(b)
  {}

  lemma RemoveOne(s: seq<Policy>, j: nat)
    requires j < |s|
    ensures multiset(s) == multiset(s[..j] + s[j + 1..]) + multiset{s[j]}
  {
    var left, right := s[..j], s[j + 1..];
    assert s == left + [s[j]] + right;
  }

  lemma RemoveOneName(s: seq<Policy>, j: nat)
    requires j < |s|
    ensures multiset(PolicyNames(s)) == multiset(PolicyNames(s[..j] + s[j + 1..])) + multiset{s[j].name}
  {
    var left, right := s[..j], s[j + 1..];
    NamesConcat(left, right);
    assert PolicyNames(s) == PolicyNames(left) + [s[j].name] + PolicyNames(right);
  }

  lemma {:induction false} SameNames(a: seq<Policy>, b: seq<Policy>)
    requires multiset(a) == multiset(b)
    ensures multiset(PolicyNames(a)) == multiset(PolicyNames(b))
    decreases |a|
  {
    if a == [] {
      assert |multiset(b)| == |b|;
    } else {
      var last := |a| - 1;
      assert a[last] in multiset(b);
      var j :| 0 <= j < |b| && b[j] == a[last];
      RemoveOne(a, last);
      RemoveOne(b, j);
      var shorter, other := a[..last] + a[last + 1..], b[..j] + b[j + 1..];
      assert multiset(shorter) == multiset(a) - multiset{a[last]};
      assert multiset(other) == multiset(b) - multiset{a[last]};
      SameNames(shorter, other);
      RemoveOneName(a, last);
      RemoveOneName(b, j);
    }
  }

  lemma OutcomePermutation(a: seq<Policy>, b: seq<Policy>)
    requires multiset(a) == multiset(b)
    ensures OutcomeOf(a) == OutcomeOf(b)
  {
    assert |a| == |multiset(a)| == |multiset(b)| == |b|;
    if |a| == 1 {
      assert a[0] in multiset(b);
      assert b == [b[0]];
    }
    SameNames(a, b);
    SortPermutation(PolicyNames(a), PolicyNames(b));
  }

  lemma ApplicablePermutation(a: seq<Policy>, b: seq<Policy>, w: Subject)
    requires multiset(a) == multiset(b)
    ensures multiset(Applicable(a, w)) == multiset(Applicable(b, w))
  {
    forall x ensures multiset(Applicable(a, w))[x] == multiset(Applicable(b, w))[x] {
      ApplicableMultiset(a, w, x);
      ApplicableMultiset(b, w, x);
    }
  }

  lemma AtPriorityPermutation(a: seq<Policy>, b: seq<Policy>, priority: int)
    requires multiset(a) == multiset(b)
    ensures multiset(AtPriority(a, priority)) == multiset(AtPriority(b, priority))
  {
    forall x ensures multiset(AtPriority(a, priority))[x] == multiset(AtPriority(b, priority))[x] {
      AtPriorityMultiset(a, priority, x);
      AtPriorityMultiset(b, priority, x);
    }
  }

  // The outcome does not depend on the order of the policies, duplicates included.
  lemma MatchIgnoresPolicyOrder(a: seq<Policy>, b: seq<Policy>, w: Subject, r: MatchResult)
    requires multiset(a) == multiset(b) && IsOutcome(a, w, r)
    ensures IsOutcome(b, w, r)
  {
    var p, q := Applicable(a, w), Applicable(b, w);
    ApplicablePermutation(a, b, w);
    assert |p| == |multiset(p)| == |multiset(q)| == |q|;
    if p != [] {
      var highest :| IsHighest(p, highest) && r == OutcomeOf(AtPriority(p, highest));
      HighestPermutation(p, q, highest);
      AtPriorityPermutation(p, q, highest);
      OutcomePermutation(AtPriority(p, highest), AtPriority(q, highest));
    }
  }

  lemma HighestPermutation(a: seq<Policy>, b: seq<Policy>, highest: int)
    requires multiset(a) == multiset(b) && IsHighest(a, highest)
    ensures IsHighest(b, highest)
  {
    var i :| 0 <= i < |a| && a[i].priority == highest;
    assert a[i] in multiset(b);
    forall j | 0 <= j < |b| ensures b[j].priority <= highest {
      assert b[j] in multiset(a);
    }
  }

  lemma {:induction false} SomeHighest(policies: seq<Policy>) returns (highest: int)
    requires policies != []
    ensures IsHighest(policies, highest)
  {
    if |policies| == 1 {
      highest := policies[0].priority;
    } else {
      var rest := SomeHighest(policies[1..]);
      highest := Max(rest, policies[0].priority);
      var i :| 0 <= i < |policies[1..]| && policies[1..][i].priority == rest;
      assert policies[i + 1].priority == rest;
      forall k | 0 <= k < |policies| ensures policies[k].priority <= highest {
        if k > 0 { assert policies[k] == policies[1..][k - 1]; }
      }
    }
  }

  // There always is an outcome, and one that selects a policy reports no conflict.
  lemma SomeOutcome(policies: seq<Policy>, w: Subject) returns (r: MatchResult)
    ensures IsOutcome(policies, w, r) && (r.policy.Some? ==> r.conflictNames == [])
  {
    var matches := Applicable(policies, w);
    r := MatchResult(None, []);
    if matches != [] {
      var highest := SomeHighest(matches);
      r := OutcomeOf(AtPriority(matches, highest));
    }
  }

  // The one way for a policy to be selected: it applies, and outranks every other that does.
  lemma SelectedIffOutranks(policies: seq<Policy>, w: Subject, r: MatchResult, p: Policy)
    requires UniquePolicyNames(policies) && IsOutcome(policies, w, r)
    ensures r.policy == Some(p) <==>
      && p in policies && Applies(p, w)
      && forall q :: q in policies && q != p && Applies(q, w) ==> q.priority < p.priority
  {
    MatchSelectsUniqueHighest(policies, w, r, p);
    if r.policy == Some(p) {
      forall q | q in policies && q != p && Applies(q, w) ensures q.priority < p.priority {
        assert q.priority >= p.priority ==> Wins(policies, q, w);
      }
    }
  }

  // ----- What a target takes -----

  // A policy with only a selector takes the listed kinds whose labels it accepts.
  lemma SelectorTakes(p: Policy, kinds: seq<string>, accepts: Labels -> bool, w: Subject)
    requires p.target == Target(kinds, Some(accepts), [])
    ensures Applies(p, w) <==> w.kind in kinds && accepts(w.labels)
  {}

  // A policy with only a pattern takes the listed kinds whose names, never empty, it accepts.
  lemma PatternTakes(p: Policy, kinds: seq<string>, accepts: string -> bool, w: Subject)
    requires p.target == Target(kinds, None, [accepts])
    ensures Applies(p, w) <==> w.kind in kinds && w.name != "" && accepts(w.name)
  {
    assert p.target.patterns[0] == accepts;
  }

  // Selector and patterns are alternatives: together they take what any of them takes.
  lemma TargetsUnite(p: Policy, kinds: seq<string>, selector: Option<Labels -> bool>,
                     some: seq<string -> bool>, more: seq<string -> bool>, w: Subject)
    ensures Applies(p.(target := Target(kinds, selector, some + more)), w)
       <==> || Applies(p.(target := Target(kinds, selector, [])), w)
            || Applies(p.(target := Target(kinds, None, some)), w)
            || Applies(p.(target := Target(kinds, None, more)), w)
    ensures !Applies(p.(target := Target(kinds, None, [])), w)
  {
    forall i | 0 <= i < |some + more| ensures (some + more)[i] == if i < |some| then some[i] else more[i - |some|] {}
    forall i | 0 <= i < |some| ensures some[i] == (some + more)[i] {}
    forall i | 0 <= i < |more| ensures more[i] == (some + more)[|some| + i] {}
  }

  // The same policy with at least the kinds, the selector and the patterns it had.
  ghost predicate Widens(wide: Policy, p: Policy) {
    && wide.name == p.name && wide.priority == p.priority
    && (forall kind :: kind in p.target.kinds ==> kind in wide.target.kinds)
    && (p.target.selector.Some? ==> wide.target.selector == p.target.selector)
    && p.target.patterns <= wide.target.patterns
  }

  lemma WidenedStillApplies(wide: Policy, p: Policy, w: Subject)
    requires Widens(wide, p) && Applies(p, w)
    ensures Applies(wide, w)
  {
    forall i | 0 <= i < |p.target.patterns| ensures p.target.patterns[i] == wide.target.patterns[i] {}
  }

  // Widening the policy a workload is governed by keeps it governed by that policy.
  lemma WidenedStaysSelected(policies: seq<Policy>, i: nat, wide: Policy, w: Subject, r: MatchResult, s: MatchResult)
    requires i < |policies| && UniquePolicyNames(policies) && Widens(wide, policies[i])
    requires IsOutcome(policies, w, r) && IsOutcome(policies[i := wide], w, s)
    requires r.policy == Some(policies[i])
    ensures s.policy == Some(wide)
  {
    var after := policies[i := wide];
    MatchSelectsUniqueHighest(policies, w, r, policies[i]);
    MatchSelectsUniqueHighest(after, w, s, wide);
    WidenedStillApplies(wide, policies[i], w);
    assert after[i] == wide;
    forall k | 0 <= k < |after| && Applies(after[k], w) ensures after[k].priority <= wide.priority {
      assert k != i ==> after[k] == policies[k];
    }
    forall q | Wins(after, q, w) ensures q == wide {
      var k :| 0 <= k < |after| && after[k] == q;
      if k != i {
        assert after[k] == policies[k];
        assert Applies(policies[k], w) && policies[k].priority == policies[i].priority;
        assert Wins(policies, policies[k], w);
      }
    }
  }
}
