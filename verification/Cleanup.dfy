// Dropping the state of workloads that no longer exist.
module Cleanup {
  import opened Basics
  import opened State

  datatype KindInventory = KindInventory(listSucceeded: bool, uids: map<string, string>)

  type Inventory = map<string, KindInventory>

  datatype CleanupStats = CleanupStats(removed: nat, retained: nat, protectedSnapshots: nat, incompleteInventory: nat)

  function InventoryKey(namespace: string, name: string): string { namespace + "/" + name }

  // The kind of this state was listed completely.
  predicate Listed(inventory: Inventory, s: WorkloadState) {
    s.kind in inventory && inventory[s.kind].listSucceeded
  }

  function LiveUID(inventory: Inventory, s: WorkloadState): Option<string>
    requires Listed(inventory, s)
  {
    var uids := inventory[s.kind].uids;
    var key := InventoryKey(s.namespace, s.name);
    if key in uids then Some(uids[key]) else None
  }

  // A complete list says the same object is still there.
  predicate StillLive(inventory: Inventory, s: WorkloadState) {
    Listed(inventory, s) && LiveUID(inventory, s) == Some(s.workloadUID)
  }

  predicate Removable(inventory: Inventory, s: WorkloadState, now: Time, retention: int) {
    && Listed(inventory, s)
    && !StillLive(inventory, s)
    && now.nanos >= s.lastSeenAt.nanos + retention
  }

  predicate EmptyUID(inventory: Inventory, s: WorkloadState) {
    Listed(inventory, s) && LiveUID(inventory, s) == Some("")
  }

  function Kept(states: States, inventory: Inventory, now: Time, retention: int): States {
    map key | key in states && !Removable(inventory, states[key], now, retention) :: NormalizeState(states[key])
  }

  function RemovedKeys(keys: set<string>, states: States, inventory: Inventory,
                       now: Time, retention: int): set<string> {
    set key | key in keys && key in states && Removable(inventory, states[key], now, retention)
  }

  // Snapshots of workloads that are still there.
  function ProtectedKeys(keys: set<string>, states: States, inventory: Inventory): set<string> {
    set key | key in keys && key in states && StillLive(inventory, states[key]) && states[key].replicaSnapshot.Some?
  }

  function UnlistedKeys(keys: set<string>, states: States, inventory: Inventory): set<string> {
    set key | key in keys && key in states && !Listed(inventory, states[key])
  }

  // The counters describe the states under the given keys.
  ghost predicate Counts(stats: CleanupStats, keys: set<string>, states: States,
                         inventory: Inventory, now: Time, retention: int) {
    && stats.removed == |RemovedKeys(keys, states, inventory, now, retention)|
    && stats.removed + stats.retained == |keys|
    && stats.protectedSnapshots == |ProtectedKeys(keys, states, inventory)|
    && stats.incompleteInventory == |UnlistedKeys(keys, states, inventory)|
  }

  function Bit(b: bool): nat { if b then 1 else 0 }

  function WithIf(keys: set<string>, key: string, chosen: bool): (r: set<string>)
    ensures key !in keys ==> |r| == |keys| + Bit(chosen)
  {
    if chosen then keys + {key} else keys
  }

  lemma RemovedKeysStep(keys: set<string>, key: string, states: States, inventory: Inventory, now: Time, retention: int)
    requires key in states && key !in keys
    ensures RemovedKeys(keys + {key}, states, inventory, now, retention)
         == WithIf(RemovedKeys(keys, states, inventory, now, retention),
                   key, Removable(inventory, states[key], now, retention))
  {}

  lemma ProtectedKeysStep(keys: set<string>, key: string, states: States, inventory: Inventory)
    requires key in states && key !in keys
    ensures ProtectedKeys(keys + {key}, states, inventory)
         == WithIf(ProtectedKeys(keys, states, inventory), key,
                   StillLive(inventory, states[key]) && states[key].replicaSnapshot.Some?)
  {}

  lemma UnlistedKeysStep(keys: set<string>, key: string, states: States, inventory: Inventory)
    requires key in states && key !in keys
    ensures UnlistedKeys(keys + {key}, states, inventory)
         == WithIf(UnlistedKeys(keys, states, inventory), key, !Listed(inventory, states[key]))
  {}

  lemma CountsStep(before: CleanupStats, after: CleanupStats, keys: set<string>, key: string,
                   states: States, inventory: Inventory, now: Time, retention: int)
    requires key in states && key !in keys && Counts(before, keys, states, inventory, now, retention)
    requires after.removed == before.removed + Bit(Removable(inventory, states[key], now, retention))
    requires after.retained == before.retained + Bit(!Removable(inventory, states[key], now, retention))
    requires after.protectedSnapshots == before.protectedSnapshots
                                         + Bit(StillLive(inventory, states[key]) && states[key].replicaSnapshot.Some?)
    requires after.incompleteInventory == before.incompleteInventory + Bit(!Listed(inventory, states[key]))
    ensures Counts(after, keys + {key}, states, inventory, now, retention)
  {
    RemovedKeysStep(keys, key, states, inventory, now, retention);
    ProtectedKeysStep(keys, key, states, inventory);
    UnlistedKeysStep(keys, key, states, inventory);
  }

  lemma KeptIsRest(states: States, inventory: Inventory, now: Time, retention: int)
    ensures Kept(states, inventory, now, retention)
         == NormalizeStates(states) - RemovedKeys(states.Keys, states, inventory, now, retention)
  {}

  // What one state adds to the counters, or None for an empty live UID.
  method Visit(stats: CleanupStats, current: WorkloadState, inventory: Inventory, now: Time, retention: int)
    returns (r: Option<(CleanupStats, bool)>)
    ensures r.None? <==> EmptyUID(inventory, current)
    ensures r.Some? ==> r.value.1 == Removable(inventory, current, now, retention)
    ensures r.Some? ==> var after := r.value.0;
      && after.removed == stats.removed + Bit(Removable(inventory, current, now, retention))
      && after.retained == stats.retained + Bit(!Removable(inventory, current, now, retention))
      && after.protectedSnapshots
         == stats.protectedSnapshots + Bit(StillLive(inventory, current) && current.replicaSnapshot.Some?)
      && after.incompleteInventory == stats.incompleteInventory + Bit(!Listed(inventory, current))
  {
    if !Listed(inventory, current) {
      return Some((stats.(retained := stats.retained + 1, incompleteInventory := stats.incompleteInventory + 1),
                   false));
    }
    var uid := LiveUID(inventory, current);
    if uid.Some? && uid.value == "" { return None; }
    if uid.Some? && uid.value == current.workloadUID {
      var after := stats.(retained := stats.retained + 1);
      if current.replicaSnapshot.Some? {
        after := after.(protectedSnapshots := after.protectedSnapshots + 1);
      }
      return Some((after, false));
    }
    if now.nanos < current.lastSeenAt.nanos + retention {
      return Some((stats.(retained := stats.retained + 1), false));
    }
    return Some((stats.(removed := stats.removed + 1), true));
  }

  // The loop's progress once the given keys have been visited.
  ghost predicate Progress(done: set<string>, cleaned: States, stats: CleanupStats, states: States,
                           normalized: States, inventory: Inventory, now: Time, retention: int)
  {
    && (forall key :: key in done && key in states ==> !EmptyUID(inventory, states[key]))
    && cleaned == normalized - RemovedKeys(done, states, inventory, now, retention)
    && Counts(stats, done, states, inventory, now, retention)
  }

  lemma ProgressStarts(states: States, normalized: States, inventory: Inventory, now: Time, retention: int)
    ensures Progress({}, normalized, CleanupStats(0, 0, 0, 0), states, normalized, inventory, now, retention)
  {
    assert RemovedKeys({}, states, inventory, now, retention) == {};
    assert normalized - {} == normalized;
  }

  lemma ProgressStep(done: set<string>, key: string, cleaned: States, before: CleanupStats, after: CleanupStats,
                     states: States, normalized: States, inventory: Inventory, now: Time, retention: int)
    requires key in states && key !in done && !EmptyUID(inventory, states[key])
    requires Progress(done, cleaned, before, states, normalized, inventory, now, retention)
    requires after.removed == before.removed + Bit(Removable(inventory, states[key], now, retention))
    requires after.retained == before.retained + Bit(!Removable(inventory, states[key], now, retention))
    requires after.protectedSnapshots == before.protectedSnapshots
                                         + Bit(StillLive(inventory, states[key]) && states[key].replicaSnapshot.Some?)
    requires after.incompleteInventory == before.incompleteInventory + Bit(!Listed(inventory, states[key]))
    ensures Progress(done + {key},
                     if Removable(inventory, states[key], now, retention) then cleaned - {key} else cleaned,
                     after, states, normalized, inventory, now, retention)
  {
    CountsStep(before, after, done, key, states, inventory, now, retention);
    RemovedKeysStep(done, key, states, inventory, now, retention);
    LessOne(normalized, RemovedKeys(done, states, inventory, now, retention), key);
  }

  lemma LessOne(states: States, gone: set<string>, key: string)
    ensures states - gone - {key} == states - (gone + {key})
  {}

  method Advance(key: string, cleaned: States, stats: CleanupStats, ghost done: set<string>, states: States,
                 ghost normalized: States, inventory: Inventory, now: Time, retention: int)
    returns (r: Option<(States, CleanupStats)>)
    requires key in states && key !in done
    requires Progress(done, cleaned, stats, states, normalized, inventory, now, retention)
    ensures r.None? ==> EmptyUID(inventory, states[key])
    ensures r.Some? ==>
      Progress(done + {key}, r.value.0, r.value.1, states, normalized, inventory, now, retention)
  {
    var visited := Visit(stats, states[key], inventory, now, retention);
    if visited.None? { return None; }
    ProgressStep(done, key, cleaned, stats, visited.value.0, states, normalized, inventory, now, retention);
    return Some((if visited.value.1 then cleaned - {key} else cleaned, visited.value.0));
  }

  // The states are visited in an arbitrary order. A state goes exactly when it is
  // Removable, the counters are the sizes of the sets they describe, and the call fails
  // when some state meets an empty UID in a complete list.
  method CleanupStates(states: States, normalized: States, inventory: Inventory, now: Time, retention: int)
    returns (r: Option<(States, CleanupStats)>)
    ensures r.None? ==> exists key :: key in states && EmptyUID(inventory, states[key])
    ensures r.Some? ==> Progress(states.Keys, r.value.0, r.value.1, states, normalized, inventory, now, retention)
  {
    var cleaned, stats := normalized, CleanupStats(0, 0, 0, 0);
    var pending := states.Keys;
    ghost var done: set<string> := {};
    ProgressStarts(states, normalized, inventory, now, retention);
    while pending != {}
      invariant done !! pending && done + pending == states.Keys
      invariant Progress(done, cleaned, stats, states, normalized, inventory, now, retention)
      decreases pending
    {
      var key :| key in pending;
      r := Advance(key, cleaned, stats, done, states, normalized, inventory, now, retention);
      if r.None? { return; }
      cleaned, stats := r.value.0, r.value.1;
      pending, done := pending - {key}, done + {key};
    }
    assert done + {} == done;
    r := Some((cleaned, stats));
  }

  // A complete list of the kind was obtained.
  ghost predicate Complete(inventory: Inventory, kind: string) {
    kind in inventory && inventory[kind].listSucceeded
  }

  // And it shows the workload of this state under that UID.
  ghost predicate Shows(inventory: Inventory, s: WorkloadState, uid: string) {
    && Complete(inventory, s.kind)
    && var name := s.namespace + "/" + s.name;
       name in inventory[s.kind].uids && inventory[s.kind].uids[name] == uid
  }

  // What became of every state, told from the inventory.
  ghost predicate Sweeps(states: States, kept: States, inventory: Inventory, now: Time, retention: int) {
    && kept.Keys <= states.Keys
    && (forall key :: key in kept ==> kept[key] == states[key])
    && forall key :: key in states ==>
         var s := states[key];
         key !in kept <==> && Complete(inventory, s.kind) && !Shows(inventory, s, s.workloadUID)
                           && now.nanos - s.lastSeenAt.nanos >= retention
  }

  ghost predicate Tallies(stats: CleanupStats, states: States, kept: States, inventory: Inventory) {
    && stats.removed == |states| - |kept|
    && stats.retained == |kept|
    && stats.protectedSnapshots
       == |set key | key in states && Shows(inventory, states[key], states[key].workloadUID)
                     && states[key].replicaSnapshot.Some?|
    && stats.incompleteInventory == |set key | key in states && !Complete(inventory, states[key].kind)|
  }

  lemma KeptSweeps(states: States, inventory: Inventory, now: Time, retention: int)
    requires ValidStates(states)
    ensures Sweeps(states, Kept(states, inventory, now, retention), inventory, now, retention)
  {
    forall key | key in states ensures NormalizeState(states[key]) == states[key] {}
  }

  lemma ProtectedAndIncomplete(states: States, inventory: Inventory)
    ensures ProtectedKeys(states.Keys, states, inventory)
         == set key | key in states && Shows(inventory, states[key], states[key].workloadUID)
                      && states[key].replicaSnapshot.Some?
    ensures UnlistedKeys(states.Keys, states, inventory)
         == set key | key in states && !Complete(inventory, states[key].kind)
  {}

  lemma KeptCount(states: States, inventory: Inventory, now: Time, retention: int)
    ensures |RemovedKeys(states.Keys, states, inventory, now, retention)|
         == |states| - |Kept(states, inventory, now, retention)|
  {
    var removed := RemovedKeys(states.Keys, states, inventory, now, retention);
    assert Kept(states, inventory, now, retention).Keys == states.Keys - removed;
    assert |states.Keys - removed| == |states.Keys| - |removed|;
  }

  lemma CountsTally(stats: CleanupStats, states: States, inventory: Inventory, now: Time, retention: int)
    requires Counts(stats, states.Keys, states, inventory, now, retention)
    ensures Tallies(stats, states, Kept(states, inventory, now, retention), inventory)
  {
    KeptCount(states, inventory, now, retention);
    ProtectedAndIncomplete(states, inventory);
  }

  method CleanupDeleted(d: Document, inventory: Inventory, now: Time, retention: int)
    returns (r: Result<(Document, CleanupStats)>)
    ensures r.Ok? <==> && ValidDocument(d)
                       && !now.IsZero()
                       && retention >= 0
                       && forall key :: key in d.states.value ==> !EmptyUID(inventory, d.states.value[key])
    ensures r.Ok? <==> && ValidDocument(d) && now.nanos != 0 && retention >= 0
                       && forall key :: key in d.states.value ==> !Shows(inventory, d.states.value[key], "")
    ensures r.Ok? ==> r.value.0 == Document(FORMAT_VERSION, Some(Kept(d.states.value, inventory, now, retention)))
    ensures r.Ok? ==> Sweeps(d.states.value, r.value.0.states.value, inventory, now, retention)
    ensures r.Ok? ==> Tallies(r.value.1, d.states.value, r.value.0.states.value, inventory)
  {
    var valid := ValidateDocument(d);
    if !valid || now.IsZero() || retention < 0 { return Err; }
    var normalized := NormalizeDocument(d);
    var cleaned := CleanupStates(d.states.value, normalized.states.value, inventory, now, retention);
    if cleaned.None? { return Err; }
    KeptIsRest(d.states.value, inventory, now, retention);
    KeptSweeps(d.states.value, inventory, now, retention);
    CountsTally(cleaned.value.1, d.states.value, inventory, now, retention);
    return Ok((Document(d.formatVersion, Some(cleaned.value.0)), cleaned.value.1));
  }

  // Cleanup never costs a replica snapshot: whatever the clock and the retention, the
  // state of a workload that is listed with the same UID, and of any workload whose kind
  // was not listed completely, is kept with every durable fact but the zone of its times.
  lemma CleanupKeepsLiveState(d: Document, inventory: Inventory, now: Time, retention: int, key: string)
    requires ValidDocument(d) && key in d.states.value
    ensures StillLive(inventory, d.states.value[key]) || !Listed(inventory, d.states.value[key])
      ==> key in Kept(d.states.value, inventory, now, retention)
          && Kept(d.states.value, inventory, now, retention)[key] == d.states.value[key]
    ensures ValidDocument(Document(FORMAT_VERSION, Some(Kept(d.states.value, inventory, now, retention))))
  {
    ValidIsNormal(d);
    var states := d.states.value;
    forall k | k in states ensures NormalizeState(states[k]) == states[k] {
      assert NormalizeStates(states)[k] == states[k];
    }
  }
}
