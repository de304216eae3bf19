// The persisted document: its invariant, its normal form and its encode and decode gates.
module State {
  import opened Basics
  import opened Ordering
  import opened Schedule
  import opened Revision

  const FORMAT_VERSION := 1

  datatype ReplicaSnapshot = ReplicaSnapshot(replicas: int, capturedAt: Time, capturedReason: string)

  datatype WorkloadState = WorkloadState(
    kind: string, namespace: string, name: string, workloadUID: string, lastPolicyName: string,
    trackingSpecHash: Digest, revisionHash: Digest, source: string, containers: seq<Container>,
    firstSeenAt: Time, lastSeenAt: Time, replicaSnapshot: Option<ReplicaSnapshot>,
    windowEntryRevision: Digest, windowInstanceID: InstanceID,
    scaleDownSkipped: bool, scaleDownSkipReason: string)
  {
    function Key(): string { kind + "/" + namespace + "/" + name }
  }

  type States = map<string, WorkloadState>

  // states None is a missing map (null in JSON).
  datatype Document = Document(formatVersion: int, states: Option<States>)

  const NEW_DOCUMENT := Document(FORMAT_VERSION, Some(map[]))

  predicate ValidUTC(t: Time) { !t.IsZero() && t.zone == 0 }

  const HASH_PREFIX := "sha256:"

  predicate LowerHex(c: char) { '0' <= c <= '9' || 'a' <= c <= 'f' }

  predicate HashText(text: string) {
    && |text| == |HASH_PREFIX| + 64
    && text[..|HASH_PREFIX|] == HASH_PREFIX
    && forall i :: |HASH_PREFIX| <= i < |text| ==> LowerHex(text[i])
  }

  // What validateHash accepts; a computed digest always has the text form it checks.
  predicate ValidHash(hash: Digest) {
    match hash
    case NoDigest => false
    case OtherText(text) => HashText(text)
    case _ => true
  }

  predicate ValidRevisionContainers(containers: seq<Container>) {
    && containers != []
    && (forall c :: c in containers ==> c.name != "" && c.image != "")
    && StrictlySorted(Names(containers))
  }

  predicate ValidSnapshot(s: ReplicaSnapshot) {
    s.replicas >= 0 && ValidUTC(s.capturedAt) && s.capturedReason != ""
  }

  // What validateWorkloadState accepts.
  predicate ValidState(key: string, s: WorkloadState) {
    && (s.kind == KIND_DEPLOYMENT || s.kind == KIND_STATEFUL_SET)
    && s.namespace != "" && s.name != "" && s.workloadUID != ""
    && key == s.Key()
    && s.lastPolicyName != ""
    && ValidHash(s.trackingSpecHash) && ValidHash(s.revisionHash)
    && s.source == SOURCE_CONTAINER_IMAGES
    && ValidRevisionContainers(s.containers)
    && ValidUTC(s.firstSeenAt) && ValidUTC(s.lastSeenAt)
    && s.firstSeenAt.nanos <= s.lastSeenAt.nanos
    && (s.replicaSnapshot.Some? ==> ValidSnapshot(s.replicaSnapshot.value))
  }

  predicate ValidStates(states: States) {
    forall key :: key in states ==> ValidState(key, states[key])
  }

  predicate ValidDocument(d: Document) {
    d.formatVersion == FORMAT_VERSION && d.states.Some? && ValidStates(d.states.value)
  }

  // Comparing each name with its predecessor establishes strict order of the whole list.
  lemma {:induction false} StepwiseStrict(names: seq<string>, i: nat, j: nat)
    requires forall k :: 0 < k < |names| ==> StrLt(names[k - 1], names[k])
    requires i < j < |names|
    ensures StrLt(names[i], names[j])
    decreases j
  {
    if i + 1 < j {
      StepwiseStrict(names, i, j - 1);
      StrLtTransitive(names[i], names[j - 1], names[j]);
    } else {
      assert StrLt(names[j - 1], names[j]);
    }
  }

  method ValidateContainers(containers: seq<Container>) returns (valid: bool)
    ensures valid <==> ValidRevisionContainers(containers)
  {
    if |containers| == 0 { return false; }
    var previousName := "";
    for i := 0 to |containers|
      invariant i > 0 ==> previousName == containers[i - 1].name
      invariant i == 0 ==> previousName == ""
      invariant forall k :: 0 <= k < i ==> containers[k].name != "" && containers[k].image != ""
      invariant forall k :: 0 < k < i ==> StrLt(containers[k - 1].name, containers[k].name)
    {
      var container := containers[i];
      if container.name == "" || container.image == "" {
        assert container in containers;
        return false;
      }
      if previousName != "" && StrLe(container.name, previousName) {
        assert !StrLt(Names(containers)[i - 1], Names(containers)[i]) by {
          if StrLe(previousName, container.name) { StrLeAntisymmetric(previousName, container.name); }
        }
        return false;
      }
      StrLeTotal(previousName, container.name);
      if i > 0 && previousName == container.name { StrLeReflexive(previousName); }
      previousName := container.name;
    }
    forall i, j | 0 <= i < j < |containers| ensures StrLt(Names(containers)[i], Names(containers)[j]) {
      StepwiseStrict(Names(containers), i, j);
    }
    return true;
  }

  // Lower-case hexadecimal digits are these sixteen.
  lemma HexDigits(c: char)
    ensures LowerHex(c) <==> c in "0123456789abcdef"
  {
    if '0' <= c <= '4' { assert c in "01234"; }
    if '5' <= c <= '9' { assert c in "56789"; }
    if 'a' <= c <= 'f' { assert c in "abcdef"; }
    assert forall d :: d in "01234" || d in "56789" || d in "abcdef" ==> d in "0123456789abcdef";
  }

  // A hash is a digest the controller computed, or text of that form.
  lemma HashIsDigestText(hash: Digest)
    ensures ValidHash(hash) <==>
      || hash.TrackingDigest? || hash.ImagesDigest?
      || (&& hash.OtherText? && |hash.text| == 71 && hash.text[..7] == "sha256:"
          && forall i :: 7 <= i < 71 ==> hash.text[i] in "0123456789abcdef")
  {
    if hash.OtherText? && |hash.text| == 71 {
      forall i | 7 <= i < 71 ensures LowerHex(hash.text[i]) <==> hash.text[i] in "0123456789abcdef" {
        HexDigits(hash.text[i]);
      }
    }
  }

  method ValidateWorkloadState(key: string, s: WorkloadState) returns (valid: bool)
    ensures valid <==> ValidState(key, s)
    ensures valid <==>
      && (s.kind == "Deployment" || s.kind == "StatefulSet")
      && s.namespace != "" && s.name != "" && s.workloadUID != "" && s.lastPolicyName != ""
      && key == s.kind + "/" + s.namespace + "/" + s.name
      && ValidHash(s.trackingSpecHash) && ValidHash(s.revisionHash) && s.source == "ContainerImages"
      && s.containers != [] && (forall c :: c in s.containers ==> c.name != "" && c.image != "")
      && (forall i, j :: 0 <= i < j < |s.containers| ==> StrLt(s.containers[i].name, s.containers[j].name))
      && s.firstSeenAt.nanos != 0 && s.firstSeenAt.zone == 0 && s.lastSeenAt.nanos != 0 && s.lastSeenAt.zone == 0
      && s.firstSeenAt.nanos <= s.lastSeenAt.nanos
      && (s.replicaSnapshot.Some? ==>
            var snapshot := s.replicaSnapshot.value;
            && snapshot.replicas >= 0 && snapshot.capturedReason != ""
            && snapshot.capturedAt.nanos != 0 && snapshot.capturedAt.zone == 0)
  {
    SortedByName(s.containers);
    if s.kind != KIND_DEPLOYMENT && s.kind != KIND_STATEFUL_SET { return false; }
    if s.namespace == "" || s.name == "" || s.workloadUID == "" { return false; }
    if key != s.Key() { return false; }
    if s.lastPolicyName == "" { return false; }
    if !ValidHash(s.trackingSpecHash) || !ValidHash(s.revisionHash) { return false; }
    if s.source != SOURCE_CONTAINER_IMAGES { return false; }
    var containers := ValidateContainers(s.containers);
    if !containers { return false; }
    if !ValidUTC(s.firstSeenAt) || !ValidUTC(s.lastSeenAt) { return false; }
    if s.lastSeenAt.nanos < s.firstSeenAt.nanos { return false; }
    if s.replicaSnapshot.Some? {
      var snapshot := s.replicaSnapshot.value;
      if snapshot.replicas < 0 || !ValidUTC(snapshot.capturedAt) || snapshot.capturedReason == "" { return false; }
    }
    return true;
  }

  lemma SortedByName(containers: seq<Container>)
    ensures StrictlySorted(Names(containers)) <==>
      forall i, j :: 0 <= i < j < |containers| ==> StrLt(containers[i].name, containers[j].name)
  {
    if forall i, j :: 0 <= i < j < |containers| ==> StrLt(containers[i].name, containers[j].name) {
      forall i, j | 0 <= i < j < |containers| ensures StrLt(Names(containers)[i], Names(containers)[j]) {}
    } else {
      var i, j :| 0 <= i < j < |containers| && !StrLt(containers[i].name, containers[j].name);
      assert !StrLt(Names(containers)[i], Names(containers)[j]);
    }
  }

  // The map is visited in an arbitrary order; the verdict does not depend on it.
  method ValidateDocument(d: Document) returns (valid: bool)
    ensures valid <==> ValidDocument(d)
    ensures valid <==>
      && d.formatVersion == 1 && d.states.Some?
      && forall key :: key in d.states.value ==> ValidState(key, d.states.value[key])
  {
    if d.formatVersion != FORMAT_VERSION { return false; }
    if d.states.None? { return false; }
    var states := d.states.value;
    var pending := states.Keys;
    while pending != {}
      invariant pending <= states.Keys
      invariant forall key :: key in states.Keys - pending ==> ValidState(key, states[key])
      decreases pending
    {
      var key :| key in pending;
      pending := pending - {key};
      var ok := ValidateWorkloadState(key, states[key]);
      if !ok { return false; }
    }
    return true;
  }

  // ----- Normal form -----

  function NormalizeSnapshot(s: Option<ReplicaSnapshot>): Option<ReplicaSnapshot> {
    match s
    case None => None
    case Some(snapshot) => Some(snapshot.(capturedAt := snapshot.capturedAt.UTC()))
  }

  function NormalizeState(s: WorkloadState): WorkloadState {
    s.(firstSeenAt := s.firstSeenAt.UTC(), lastSeenAt := s.lastSeenAt.UTC(),
       replicaSnapshot := NormalizeSnapshot(s.replicaSnapshot))
  }

  function NormalizeStates(states: States): States {
    map key | key in states :: NormalizeState(states[key])
  }

  function Normalize(d: Document): Document {
    if d.states.None? then d else d.(states := Some(NormalizeStates(d.states.value)))
  }

  method NormalizeDocument(d: Document) returns (r: Document)
    ensures r == Normalize(d)
  {
    if d.states.None? { return d; }
    var states := d.states.value;
    var normalized: States := map[];
    var pending := states.Keys;
    while pending != {}
      invariant pending <= states.Keys
      invariant normalized == map key | key in states && key !in pending :: NormalizeState(states[key])
      decreases pending
    {
      var key :| key in pending;
      pending := pending - {key};
      normalized := normalized[key := NormalizeState(states[key])];
    }
    assert normalized == NormalizeStates(states);
    return d.(states := Some(normalized));
  }

  // Normalising moves no instant and touches nothing else: it only puts times in UTC.
  lemma NormalFormKeepsInstants(d: Document)
    ensures var n := Normalize(d);
      && n.formatVersion == d.formatVersion && (n.states.None? <==> d.states.None?)
      && (d.states.Some? ==>
            && n.states.value.Keys == d.states.value.Keys
            && forall key :: key in d.states.value ==>
                 var s, t := d.states.value[key], n.states.value[key];
                 && UTCState(t)
                 && t.firstSeenAt.nanos == s.firstSeenAt.nanos && t.lastSeenAt.nanos == s.lastSeenAt.nanos
                 && t == s.(firstSeenAt := t.firstSeenAt, lastSeenAt := t.lastSeenAt,
                            replicaSnapshot := t.replicaSnapshot)
                 && (t.replicaSnapshot.None? <==> s.replicaSnapshot.None?)
                 && (s.replicaSnapshot.Some? ==>
                       var x, y := s.replicaSnapshot.value, t.replicaSnapshot.value;
                       y.capturedAt.nanos == x.capturedAt.nanos && y == x.(capturedAt := y.capturedAt)))
  {}

  // All times are in UTC already.
  predicate UTCState(s: WorkloadState) {
    && s.firstSeenAt.zone == 0 && s.lastSeenAt.zone == 0
    && (s.replicaSnapshot.Some? ==> s.replicaSnapshot.value.capturedAt.zone == 0)
  }

  ghost predicate UTCStates(states: States) { forall key :: key in states ==> UTCState(states[key]) }

  lemma UTCIsNormal(states: States)
    requires UTCStates(states)
    ensures NormalizeStates(states) == states
  {
    forall key | key in states ensures NormalizeState(states[key]) == states[key] {}
  }

  // A document that passes validation is already in normal form.
  lemma ValidIsNormal(d: Document)
    requires ValidDocument(d)
    ensures Normalize(d) == d
  {
    var states := d.states.value;
    forall key | key in states ensures NormalizeState(states[key]) == states[key] {
      assert ValidState(key, states[key]);
    }
    assert NormalizeStates(states) == states;
  }

  // ----- Encoding -----

  // JSON text of the wire form, and strict parsing back; the text itself is abstract.
  datatype Codec = Codec(encode: Document -> string, decode: string -> Option<Document>) {
    ghost predicate Lawful() { forall d :: decode(encode(d)) == Some(d) }
  }

  // MarshalJSON: normalise, validate, then write.
  function Encode(codec: Codec, d: Document): Result<string> {
    if ValidDocument(Normalize(d)) then Ok(codec.encode(Normalize(d))) else Err
  }

  // UnmarshalJSON: parse, validate, then normalise.
  function Decode(codec: Codec, payload: string): Result<Document> {
    match codec.decode(payload)
    case None => Err
    case Some(d) => if ValidDocument(d) then Ok(Normalize(d)) else Err
  }

  // What is encoded decodes to the normal form of the document, whatever zones it carried,
  // and nothing but a valid document is ever decoded.
  lemma EncodeDecodeRoundTrip(codec: Codec, d: Document)
    requires codec.Lawful() && Encode(codec, d).Ok?
    ensures Decode(codec, Encode(codec, d).value) == Ok(Normalize(d))
  {
    ValidIsNormal(Normalize(d));
  }

  // Encoding refuses exactly what is not valid once in UTC, and decoding exactly what does not
  // parse to a valid document; a valid document is encoded as it is and comes back.
  lemma GatesRefuseIff(codec: Codec, d: Document, payload: string)
    ensures Encode(codec, d).Ok? <==> ValidDocument(Normalize(d))
    ensures Decode(codec, payload).Ok? <==> codec.decode(payload).Some? && ValidDocument(codec.decode(payload).value)
    ensures ValidDocument(d) ==> Encode(codec, d) == Ok(codec.encode(d))
    ensures codec.Lawful() && ValidDocument(d) ==> Decode(codec, codec.encode(d)) == Ok(d)
  {
    if ValidDocument(d) { ValidIsNormal(d); }
  }

  lemma DecodedIsValid(codec: Codec, payload: string)
    requires Decode(codec, payload).Ok?
    ensures ValidDocument(Decode(codec, payload).value)
    ensures codec.decode(payload) == Some(Decode(codec, payload).value)
    ensures Encode(codec, Decode(codec, payload).value).Ok?
  {
    ValidIsNormal(codec.decode(payload).value);
  }
}
