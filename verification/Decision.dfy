// The pure decision engine: what one pass should do with a workload's replicas.
module Decision {
  import opened Basics
  import opened Policies

  const REASON_REVISION_EXPIRED := "revision-lifecycle-expired"
  const REASON_REVISION_EXPIRED_DELETED := "revision-lifecycle-expired:deleted"
  const REASON_SCALE_DOWN_SKIPPED := "scale-down-skipped:redeploy"
  const REASON_REPLICA_OVERRIDE := "scale-down-skipped:replica-override"
  const REASON_SCALE_DOWN_WINDOW := "scale-down-window"
  const REASON_RESTORE_REPLICAS := "restore-previous-replicas"
  const REASON_ACTIVE_WINDOW := "active-window"

  datatype DecisionInput = DecisionInput(
    now: Time, firstSeenAt: Time, maxAge: int,
    currentReplicas: int, snapshotReplicas: Option<int>,
    scheduledDown: bool, windowName: string,
    scheduledTarget: int, expiredTarget: int,
    skipped: bool, skipReason: string, expiredAction: string)

  datatype Decision = Decision(
    desiredReplicas: int, reason: string, needsSnapshot: bool,
    shouldScale: bool, clearSnapshotAfterScale: bool, deleteWorkload: bool)

  predicate Expired(input: DecisionInput) {
    input.now.nanos >= input.firstSeenAt.nanos + input.maxAge
  }

  function DownDecision(input: DecisionInput, target: int, reason: string): Decision {
    var baseline := if input.snapshotReplicas.Some? then input.snapshotReplicas.value else input.currentReplicas;
    var desired := Min(target, baseline);
    Decision(desired, reason, input.snapshotReplicas.None?, desired != input.currentReplicas, false, false)
  }

  function Decide(input: DecisionInput): Decision {
    if Expired(input) then
      if input.expiredAction == EXPIRED_ACTION_DELETE then
        Decision(input.currentReplicas, REASON_REVISION_EXPIRED_DELETED, false, false, false, true)
      else
        DownDecision(input, input.expiredTarget, REASON_REVISION_EXPIRED)
    else if input.skipped && input.scheduledDown then
      var reason := if input.skipReason == "" then REASON_SCALE_DOWN_SKIPPED else input.skipReason;
      Decision(input.currentReplicas, reason, false, false, false, false)
    else if input.scheduledDown then
      var reason := if input.windowName == "" then REASON_SCALE_DOWN_WINDOW
                    else REASON_SCALE_DOWN_WINDOW + ":" + input.windowName;
      DownDecision(input, input.scheduledTarget, reason)
    else if input.snapshotReplicas.Some? then
      var desired := input.snapshotReplicas.value;
      Decision(desired, REASON_RESTORE_REPLICAS, false, desired != input.currentReplicas, true, false)
    else
      Decision(input.currentReplicas, REASON_ACTIVE_WINDOW, false, false, false, false)
  }

  // A decision raises the live count only back towards a snapshot: a workload without one
  // is never scaled up, and with one never above it.
  lemma NeverAboveBaseline(input: DecisionInput)
    ensures input.snapshotReplicas.None? ==> Decide(input).desiredReplicas <= input.currentReplicas
    ensures input.snapshotReplicas.Some? ==>
      Decide(input).desiredReplicas <= Max(input.snapshotReplicas.value, input.currentReplicas)
    ensures Decide(input).shouldScale ==> Decide(input).desiredReplicas != input.currentReplicas
  {}

  // Raising during a down state happens exactly when live fell below min(target, snapshot),
  // so "never scales up" holds on entry to a down state but not throughout it.
  lemma DownStateRaisesIff(input: DecisionInput)
    requires input.scheduledDown && !Expired(input)
    ensures Decide(input).desiredReplicas > input.currentReplicas
       <==> && !input.skipped
            && input.snapshotReplicas.Some?
            && input.currentReplicas < Min(input.scheduledTarget, input.snapshotReplicas.value)
  {}

  // Expiry decides alone, then the skip, then the window, then the snapshot: what comes later
  // has no say in what comes earlier.
  lemma PrecedenceHolds(input: DecisionInput, other: DecisionInput)
    requires && input.now == other.now && input.firstSeenAt == other.firstSeenAt && input.maxAge == other.maxAge
             && input.currentReplicas == other.currentReplicas
    ensures && input.now.nanos - input.firstSeenAt.nanos >= input.maxAge
            && input.snapshotReplicas == other.snapshotReplicas
            && input.expiredTarget == other.expiredTarget && input.expiredAction == other.expiredAction
            ==> Decide(input) == Decide(other)
    ensures && input.now.nanos - input.firstSeenAt.nanos < input.maxAge
            && input.skipped && input.scheduledDown && other.skipped && other.scheduledDown
            && input.skipReason == other.skipReason
            ==> Decide(input) == Decide(other)
    ensures && input.now.nanos - input.firstSeenAt.nanos < input.maxAge
            && !input.skipped && input.scheduledDown && !other.skipped && other.scheduledDown
            && input.windowName == other.windowName && input.scheduledTarget == other.scheduledTarget
            && input.snapshotReplicas == other.snapshotReplicas
            ==> Decide(input) == Decide(other)
    ensures && input.now.nanos - input.firstSeenAt.nanos < input.maxAge
            && !input.scheduledDown && !other.scheduledDown && input.snapshotReplicas == other.snapshotReplicas
            ==> Decide(input) == Decide(other)
  {}
}
