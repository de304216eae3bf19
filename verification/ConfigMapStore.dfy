// The document in one ConfigMap: version-checked writes, retried on conflict, against other
// writers and a server that may fail.
module ConfigMapStore {
  import opened Basics
  import opened State

  const DATA_KEY := "states.json"
  const MAX_DATA_BYTES := 1_048_576
  const WARNING_BYTES := MAX_DATA_BYTES * 80 / 100

  // A character stands for a byte. version is the resource version.
  datatype ConfigMap = ConfigMap(data: map<string, string>, binaryData: map<string, string>, version: nat)

  datatype Fault = NotFound | Conflict | AlreadyExists | Unavailable
                 | MissingState | Malformed | TooLarge | Cancelled | Exhausted

  predicate OfServer(f: Fault) { f.NotFound? || f.Conflict? || f.AlreadyExists? || f.Unavailable? }

  predicate Retryable(f: Fault) { f.Conflict? || f.AlreadyExists? }

  datatype Reply = Served(configMap: ConfigMap) | Refused(fault: Fault)

  // A write of this store that took effect: what it replaced and what it left.
  datatype Commit = Commit(before: Option<ConfigMap>, after: ConfigMap)

  // ----- The API server and the other writers -----

  // Every call may first see any number of other writes, may fail, and, when the server is
  // ambiguous, may report a failure for a write it applied. Versions are never reused. When
  // the store is alone nobody else writes; on a quiet server nothing fails either.
  class Server {
    const ambiguous: bool
    const alone: bool
    const quiet: bool
    var stored: Option<ConfigMap>
    var nextVersion: nat
    ghost var contents: map<nat, ConfigMap>
    ghost var commits: seq<Commit>

    // contents holds every version that was ever stored.
    ghost predicate Valid()
      reads this
    {
      && (quiet ==> alone)
      && (forall v :: v in contents ==> v < nextVersion && contents[v].version == v)
      && (stored.Some? ==> Known(stored.value))
    }

    ghost predicate Known(m: ConfigMap)
      reads this
    {
      m.version in contents && contents[m.version] == m
    }

    ghost predicate Remembers(past: map<nat, ConfigMap>)
      reads this
    {
      forall v :: v in past ==> v in contents && contents[v] == past[v]
    }

    constructor (stored: Option<ConfigMap>, ambiguous: bool, alone: bool, faultless: bool)
      ensures Valid() && this.stored == stored && commits == []
      ensures this.ambiguous == ambiguous && this.alone == alone && this.quiet == (alone && faultless)
    {
      this.ambiguous, this.alone, this.quiet, this.stored, commits := ambiguous, alone, alone && faultless, stored, [];
      nextVersion := if stored.Some? then stored.value.version + 1 else 0;
      contents := if stored.Some? then map[stored.value.version := stored.value] else map[];
    }

    method Put(data: map<string, string>, binaryData: map<string, string>)
      requires Valid()
      modifies this`stored, this`nextVersion, this`contents
      ensures Valid() && Remembers(old(contents))
      ensures stored.Some? && stored.value.data == data && stored.value.binaryData == binaryData
    {
      stored := Some(ConfigMap(data, binaryData, nextVersion));
      contents := contents[nextVersion := stored.value];
      nextVersion := nextVersion + 1;
    }

    // Other writers: an update, a replacement or a deletion may have happened.
    method Interfere()
      requires Valid()
      modifies this`stored, this`nextVersion, this`contents
      ensures Valid() && Remembers(old(contents))
      ensures alone ==> stored == old(stored)
    {
      var idle: bool := *;
      if alone || idle { return; }
      var replacement: Option<ConfigMap> := *;
      if replacement.Some? {
        Put(replacement.value.data, replacement.value.binaryData);
      } else {
        stored := None;
      }
    }

    method Get() returns (r: Reply)
      requires Valid()
      modifies this`stored, this`nextVersion, this`contents
      ensures Valid() && Remembers(old(contents))
      ensures r.Served? ==> stored == Some(r.configMap)
      ensures r.Refused? ==> OfServer(r.fault)
      ensures alone ==> stored == old(stored)
      ensures quiet ==> (r.Refused? ==> r.fault.NotFound?) && (r.Served? <==> stored.Some?)
    {
      Interfere();
      var failing: bool := *;
      var fault :| OfServer(fault);
      if !quiet && failing { return Refused(fault); }
      if stored.None? { return Refused(NotFound); }
      return Served(stored.value);
    }

    method Create(data: map<string, string>) returns (r: Reply)
      requires Valid()
      modifies this
      ensures Valid() && Remembers(old(contents)) && Traceable(old(commits), old(stored))
      ensures r.Served? ==> stored == Some(r.configMap)
      ensures r.Served? ==> Created(old(commits), data)
      ensures r.Refused? ==>
        || commits == old(commits)
        || (ambiguous && !Retryable(r.fault) && Created(old(commits), data))
      ensures r.Refused? ==> OfServer(r.fault)
      ensures quiet && old(stored).None? ==> r.Served?
    {
      Interfere();
      var failing: bool := *;
      var fault :| OfServer(fault);
      if !quiet && failing { return Refused(fault); }
      if stored.Some? { return Refused(AlreadyExists); }
      Put(data, map[]);
      commits := commits + [Commit(None, stored.value)];
      var unheard: bool := *;
      if !quiet && ambiguous && unheard { return Refused(Unavailable); }
      return Served(stored.value);
    }

    // Applied only over the version the update was made from.
    method Update(m: ConfigMap) returns (r: Reply)
      requires Valid()
      modifies this
      ensures Valid() && Remembers(old(contents)) && Traceable(old(commits), old(stored))
      ensures r.Served? ==> Overwrote(old(contents), old(commits), m)
      ensures r.Refused? ==>
        commits == old(commits) || (ambiguous && !Retryable(r.fault) && Overwrote(old(contents), old(commits), m))
      ensures r.Refused? ==> OfServer(r.fault)
      ensures quiet && old(stored).Some? && old(stored).value.version == m.version ==> r.Served?
    {
      Interfere();
      var failing: bool := *;
      var fault :| OfServer(fault);
      if !quiet && failing { return Refused(fault); }
      if stored.None? { return Refused(NotFound); }
      if stored.value.version != m.version { return Refused(Conflict); }
      ghost var before := stored;
      Put(m.data, m.binaryData);
      commits := commits + [Commit(before, stored.value)];
      assert Overwrote(old(contents), old(commits), m);
      var unheard: bool := *;
      if !quiet && ambiguous && unheard { return Refused(Unavailable); }
      return Served(stored.value);
    }

    // With no other writer the server stores what it did, or what the latest commit left of it.
    ghost predicate Traceable(before: seq<Commit>, past: Option<ConfigMap>)
      reads this
    {
      alone ==>
        if commits == before then stored == past
        else commits != [] && stored == Some(Latest()) && commits[|commits| - 1].before == past
    }

    // What the latest commit left.
    ghost function Latest(): ConfigMap
      requires commits != []
      reads this
    {
      commits[|commits| - 1].after
    }

    // The latest commit created the ConfigMap with this data alone.
    ghost predicate Created(before: seq<Commit>, data: map<string, string>)
      reads this
    {
      && stored.Some? && stored.value.data == data && stored.value.binaryData == map[]
      && commits == before + [Commit(None, stored.value)]
    }

    // The latest commit replaced the version m was made from by m's contents.
    ghost predicate Overwrote(past: map<nat, ConfigMap>, before: seq<Commit>, m: ConfigMap)
      reads this
    {
      && stored.Some? && stored.value.data == m.data && stored.value.binaryData == m.binaryData
      && |commits| == |before| + 1 && commits[..|before|] == before
      && var c := commits[|before|];
         && c.after == stored.value && c.before.Some? && c.before.value.version == m.version
         && (m.version in past ==> c.before.value == past[m.version])
    }
  }

  // ----- Capacity -----

  // The combined length of all values, whatever order they are visited in.
  ghost function SumLengths(values: map<string, string>): nat
    decreases |values|
  {
    if values == map[] then 0
    else
      var key :| key in values;
      |values[key]| + SumLengths(values - {key})
  }

  lemma {:induction false} SumLengthsStep(values: map<string, string>, key: string)
    requires key in values
    ensures SumLengths(values) == |values[key]| + SumLengths(values - {key})
    decreases |values|
  {
    var other :| other in values && SumLengths(values) == |values[other]| + SumLengths(values - {other});
    if other != key {
      SumLengthsStep(values - {other}, key);
      SumLengthsStep(values - {key}, other);
      assert values - {other} - {key} == values - {key} - {other};
    }
  }

  ghost function TotalBytes(m: ConfigMap): nat { SumLengths(m.data) + SumLengths(m.binaryData) }

  datatype Capacity = Capacity(stateBytes: nat, totalBytes: nat, nearLimit: bool, exceeded: bool)

  method SumOf(values: map<string, string>) returns (total: nat)
    ensures total == SumLengths(values)
  {
    total := 0;
    var rest := values;
    while rest != map[]
      invariant total + SumLengths(rest) == SumLengths(values)
      decreases |rest|
    {
      var key :| key in rest.Keys;
      SumLengthsStep(rest, key);
      total := total + |rest[key]|;
      rest := rest - {key};
    }
  }

  method ObserveCapacity(m: ConfigMap) returns (c: Capacity)
    ensures c.totalBytes == TotalBytes(m)
    ensures c.stateBytes == if "states.json" in m.data then |m.data["states.json"]| else 0
    ensures c.exceeded <==> TotalBytes(m) > 1_048_576
    ensures c.nearLimit <==> TotalBytes(m) >= 838_860
  {
    var dataBytes := SumOf(m.data);
    var binaryBytes := SumOf(m.binaryData);
    var total := dataBytes + binaryBytes;
    var stateBytes := if DATA_KEY in m.data then |m.data[DATA_KEY]| else 0;
    c := Capacity(stateBytes, total, total >= WARNING_BYTES, total > MAX_DATA_BYTES);
  }

  // ----- Backoff -----

  datatype Backoff = Backoff(steps: int, initialDelay: int, factor: real, maxDelay: int) {
    function Steps(): (n: nat) { if steps < 1 then 1 else steps }

    function Factor(): real { if factor < 1.0 then 1.0 else factor }

    // The delay after a delay: multiplied, truncated towards zero and capped.
    function Next(delay: int): int {
      var scaled := Truncate(delay as real * Factor());
      if maxDelay > 0 && scaled > maxDelay then maxDelay else scaled
    }

    // The k-th delay, counted from zero.
    function DelayAt(k: nat): int {
      if k == 0 then initialDelay else Next(DelayAt(k - 1))
    }
  }

  const DEFAULT_BACKOFF := Backoff(5, 10_000_000, 2.0, 160_000_000)

  function Truncate(x: real): int { if x >= 0.0 then x.Floor else -((-x).Floor) }

  // What happened in one call: attempts, and the sleeps between them.
  datatype Event = Attempted(fault: Option<Fault>) | Slept(delay: int)

  // A fault of the operation itself; on a quiet server it is final.
  predicate AttemptFault(f: Fault, quiet: bool) { !f.Cancelled? && !f.Exhausted? && !(quiet && Retryable(f)) }

  // Attempts and sleeps alternate, the k-th sleep is the k-th delay, and only a retryable
  // fault is followed by anything.
  ghost predicate Alternates(log: seq<Event>, b: Backoff) {
    forall i :: 0 <= i < |log| ==>
      if i % 2 == 0 then
        log[i].Attempted? && (i + 1 < |log| ==> log[i].fault.Some? && Retryable(log[i].fault.value))
      else log[i] == Slept(b.DelayAt(i / 2))
  }

  // How a call that ended with this fault, or none, must have gone.
  ghost predicate Explains(log: seq<Event>, b: Backoff, fault: Option<Fault>) {
    && Alternates(log, b)
    && |log| <= 2 * b.Steps() - 1
    && match fault
       case None => |log| % 2 == 1 && log[|log| - 1] == Attempted(None)
       case Some(Exhausted) =>
         |log| == 2 * b.Steps() - 1 && log[|log| - 1].fault.Some? && Retryable(log[|log| - 1].fault.value)
       case Some(Cancelled) => |log| % 2 == 0
       case Some(f) => !Retryable(f) && |log| % 2 == 1 && log[|log| - 1] == Attempted(fault)
  }

  function Power(n: int, k: nat): int { if k == 0 then 1 else n * Power(n, k - 1) }

  function Capped(b: Backoff, delay: int): int { if b.maxDelay > 0 then Min(delay, b.maxDelay) else delay }

  lemma NextIsCappedMultiple(b: Backoff, n: int, delay: int)
    requires n >= 1 && b.factor == n as real
    ensures b.Next(delay) == Capped(b, delay * n)
  {
    assert delay as real * n as real == (delay * n) as real;
    assert Truncate((delay * n) as real) == delay * n;
  }

  lemma CapThenMultiply(b: Backoff, delay: int, n: int)
    requires n >= 1
    ensures Capped(b, Capped(b, delay) * n) == Capped(b, delay * n)
  {
    if b.maxDelay > 0 && delay > b.maxDelay {
      Scale(1, n, b.maxDelay);
      Scale(b.maxDelay, delay, n);
    }
  }

  lemma PowerStep(a: int, n: int, k: nat)
    ensures a * Power(n, k + 1) == a * Power(n, k) * n
  {}

  // With a whole factor the delays form a geometric sequence, cut off at the maximum.
  lemma {:induction false} DelaysAreGeometric(b: Backoff, n: int, k: nat)
    requires n >= 1 && b.factor == n as real && k >= 1
    ensures b.DelayAt(k) == Capped(b, b.initialDelay * Power(n, k))
  {
    NextIsCappedMultiple(b, n, b.DelayAt(k - 1));
    PowerStep(b.initialDelay, n, k - 1);
    if k > 1 {
      DelaysAreGeometric(b, n, k - 1);
      CapThenMultiply(b, b.initialDelay * Power(n, k - 1), n);
    }
  }

  lemma DelayIsCapped(b: Backoff, k: nat)
    requires b.maxDelay > 0
    ensures b.DelayAt(k) <= Max(b.initialDelay, b.maxDelay)
  {}

  // Time actually slept: a delay that is not positive returns at once.
  function TimeSlept(log: seq<Event>): nat {
    if log == [] then 0
    else
      TimeSlept(log[..|log| - 1])
      + (if log[|log| - 1].Slept? then Max(0, log[|log| - 1].delay) else 0)
  }

  // The first n delays together.
  function TotalDelay(b: Backoff, n: nat): nat {
    if n == 0 then 0 else TotalDelay(b, n - 1) + Max(0, b.DelayAt(n - 1))
  }

  // An alternating log sleeps the first delays, one for each pair of entries.
  lemma {:induction false} TimeSleptIs(log: seq<Event>, b: Backoff)
    requires Alternates(log, b)
    ensures TimeSlept(log) == TotalDelay(b, |log| / 2)
    decreases |log|
  {
    if |log| > 0 {
      var init, last := log[..|log| - 1], |log| - 1;
      assert Alternates(init, b);
      TimeSleptIs(init, b);
      if last % 2 == 1 { assert |log| / 2 == last / 2 + 1; }
    }
  }

  lemma {:induction false} TotalDelayIsCapped(b: Backoff, n: nat, m: nat)
    requires n <= m && b.maxDelay > 0
    ensures TotalDelay(b, n) <= TotalDelay(b, m) <= m * Max(b.initialDelay, b.maxDelay)
    decreases m
  {
    if m > 0 {
      DelayIsCapped(b, m - 1);
      TotalDelayIsCapped(b, if n < m then n else m - 1, m - 1);
      var longest := Max(b.initialDelay, b.maxDelay);
      assert m * longest == (m - 1) * longest + longest;
    }
  }

  function Attempts(log: seq<Event>): nat {
    if log == [] then 0 else Attempts(log[..|log| - 1]) + (if log[|log| - 1].Attempted? then 1 else 0)
  }

  lemma {:induction false} AlternatingAttempts(log: seq<Event>, b: Backoff)
    requires Alternates(log, b)
    ensures Attempts(log) == (|log| + 1) / 2
    decreases |log|
  {
    if |log| > 0 {
      assert Alternates(log[..|log| - 1], b);
      AlternatingAttempts(log[..|log| - 1], b);
    }
  }

  // However a call ends, it made at most the configured number of attempts, and no fewer if it
  // gave up, and slept no longer than that number less one of the longest delays.
  lemma CallIsBounded(log: seq<Event>, b: Backoff, fault: Option<Fault>)
    requires Explains(log, b, fault)
    ensures Attempts(log) <= Max(1, b.steps)
    ensures fault == Some(Exhausted) ==> Attempts(log) == Max(1, b.steps)
    ensures b.maxDelay > 0 ==> TimeSlept(log) <= (Max(1, b.steps) - 1) * Max(b.initialDelay, b.maxDelay)
  {
    AlternatingAttempts(log, b);
    TimeSleptIs(log, b);
    if b.maxDelay > 0 { TotalDelayIsCapped(b, |log| / 2, b.Steps() - 1); }
  }

  // Another attempt follows a conflict or an already-exists reply as long as any are left, and
  // nothing else; a call ends with the result of its last attempt unless it was cancelled.
  lemma CallEnds(log: seq<Event>, b: Backoff, fault: Option<Fault>)
    requires Explains(log, b, fault)
    ensures forall i :: 0 <= i < |log| - 1 && log[i].Attempted? ==>
      log[i].fault == Some(Conflict) || log[i].fault == Some(AlreadyExists)
    ensures fault != Some(Cancelled) ==> log != [] && log[|log| - 1].Attempted?
    ensures log != [] && log[|log| - 1].Attempted? ==>
      var last := log[|log| - 1].fault;
      if last == Some(Conflict) || last == Some(AlreadyExists)
      then fault == Some(Exhausted) && Attempts(log) == Max(1, b.steps)
      else fault == last
  {
    AlternatingAttempts(log, b);
  }

  // The next delay is the product with the factor, but for a factor below one, rounded towards
  // zero and cut off at the maximum.
  lemma NextDelayIs(b: Backoff, delay: int)
    ensures var exact := delay as real * (if b.factor < 1.0 then 1.0 else b.factor);
      var next := b.Next(delay);
      && (b.maxDelay > 0 ==> next <= b.maxDelay)
      && (delay >= 0 ==> next as real <= exact)
      && (delay >= 0 ==> exact < (next + 1) as real || (b.maxDelay > 0 && next == b.maxDelay))
      && (delay < 0 ==> (next - 1) as real < exact <= next as real)
    ensures b.DelayAt(0) == b.initialDelay
  {}

  // With the default settings a call makes at most five attempts and sleeps at most 150 ms; it
  // gives up exactly after five conflicts, having slept that long.
  lemma DefaultCallIsBounded(log: seq<Event>, fault: Option<Fault>)
    requires Explains(log, DEFAULT_BACKOFF, fault)
    ensures Attempts(log) <= 5 && TimeSlept(log) <= 150_000_000
    ensures fault == Some(Exhausted) ==> Attempts(log) == 5 && TimeSlept(log) == 150_000_000
  {
    CallIsBounded(log, DEFAULT_BACKOFF, fault);
    AlternatingAttempts(log, DEFAULT_BACKOFF);
    TimeSleptIs(log, DEFAULT_BACKOFF);
    TotalDelayIsCapped(DEFAULT_BACKOFF, |log| / 2, 4);
    DelaysAreGeometric(DEFAULT_BACKOFF, 2, 1);
    DelaysAreGeometric(DEFAULT_BACKOFF, 2, 2);
    DelaysAreGeometric(DEFAULT_BACKOFF, 2, 3);
    assert Power(2, 1) == 2 && Power(2, 2) == 4 && Power(2, 3) == 8;
    assert TotalDelay(DEFAULT_BACKOFF, 2) == DEFAULT_BACKOFF.DelayAt(0) + DEFAULT_BACKOFF.DelayAt(1);
    assert TotalDelay(DEFAULT_BACKOFF, 4)
        == TotalDelay(DEFAULT_BACKOFF, 2) + DEFAULT_BACKOFF.DelayAt(2) + DEFAULT_BACKOFF.DelayAt(3);
  }

  lemma Scale(a: nat, b: nat, x: nat)
    requires a <= b
    ensures a * x <= b * x
  {}

  // How the log of a call grows by an attempt.
  lemma AttemptLogged(log: seq<Event>, b: Backoff, n: nat, fault: Option<Fault>)
    requires Alternates(log, b) && |log| == 2 * n && n < b.Steps()
    requires fault.Some? ==> AttemptFault(fault.value, false)
    ensures Alternates(log + [Attempted(fault)], b)
    ensures fault.None? || !Retryable(fault.value) ==> Explains(log + [Attempted(fault)], b, fault)
    ensures fault.Some? && Retryable(fault.value) && n == b.Steps() - 1 ==>
      Explains(log + [Attempted(fault)], b, Some(Exhausted))
  {}

  lemma SleepLogged(log: seq<Event>, b: Backoff, n: nat, fault: Option<Fault>)
    requires Alternates(log, b) && |log| == 2 * n + 1 && n + 1 < b.Steps()
    requires log[2 * n] == Attempted(fault) && fault.Some? && Retryable(fault.value)
    ensures Alternates(log + [Slept(b.DelayAt(n))], b)
    ensures Explains(log + [Slept(b.DelayAt(n))], b, Some(Cancelled))
  {}

  // ----- The store -----

  datatype Operation = LoadOperation | SaveOperation(payload: string)

  predicate Decodable(codec: Codec, m: ConfigMap) {
    DATA_KEY in m.data && Decode(codec, m.data[DATA_KEY]).Ok?
  }

  predicate HoldsDocument(codec: Codec, m: ConfigMap, d: Document) {
    DATA_KEY in m.data && Decode(codec, m.data[DATA_KEY]) == Ok(d)
  }

  // The state text an operation may write: the payload, or an empty document on first load.
  function Payload(codec: Codec, op: Operation): string {
    match op
    case LoadOperation => codec.encode(NEW_DOCUMENT)
    case SaveOperation(payload) => payload
  }

  function WithPayload(codec: Codec, op: Operation, before: Option<ConfigMap>): ConfigMap {
    if before.Some? then before.value.(data := before.value.data[DATA_KEY := Payload(codec, op)])
    else ConfigMap(map[DATA_KEY := Payload(codec, op)], map[], 0)
  }

  // Exactly the state key of the replaced version changes, that version was well formed,
  // and the result is within the limit. Loading never replaces anything.
  ghost predicate Proper(codec: Codec, op: Operation, c: Commit) {
    && c.after.data == WithPayload(codec, op, c.before).data
    && c.after.binaryData == WithPayload(codec, op, c.before).binaryData
    && TotalBytes(c.after) <= MAX_DATA_BYTES
    && (c.before.Some? ==> op.SaveOperation? && Decodable(codec, c.before.value))
  }

  // What that means for a save, entry by entry.
  lemma ProperSaveIs(codec: Codec, payload: string, c: Commit)
    requires Proper(codec, SaveOperation(payload), c)
    ensures "states.json" in c.after.data && c.after.data["states.json"] == payload
    ensures forall key :: key != "states.json" ==>
      (key in c.after.data <==> c.before.Some? && key in c.before.value.data)
      && (key in c.after.data ==> c.after.data[key] == c.before.value.data[key])
    ensures c.after.binaryData == if c.before.Some? then c.before.value.binaryData else map[]
    ensures TotalBytes(c.after) <= 1_048_576
    ensures c.before.Some? ==>
      "states.json" in c.before.value.data && Decode(codec, c.before.value.data["states.json"]).Ok?
  {}

  ghost predicate OneCommit(codec: Codec, op: Operation, before: seq<Commit>, after: seq<Commit>) {
    |after| == |before| + 1 && after[..|before|] == before && Proper(codec, op, after[|before|])
  }

  // What an operation that ended with this fault, or none, may have committed.
  ghost predicate Settles(codec: Codec, op: Operation, ambiguous: bool,
                          before: seq<Commit>, after: seq<Commit>, fault: Option<Fault>) {
    match fault
    case None => (op.LoadOperation? && after == before) || OneCommit(codec, op, before, after)
    case Some(f) => after == before
                    || (!Retryable(f) && (op.LoadOperation? || ambiguous) && OneCommit(codec, op, before, after))
  }

  // What the operation needs of the stored ConfigMap to go through.
  ghost predicate Acceptable(codec: Codec, op: Operation, stored: Option<ConfigMap>) {
    && (stored.Some? ==> Decodable(codec, stored.value))
    && (stored.None? || op.SaveOperation? ==> TotalBytes(WithPayload(codec, op, stored)) <= MAX_DATA_BYTES)
  }

  lemma NewDocumentEncodes(codec: Codec)
    ensures Encode(codec, NEW_DOCUMENT) == Ok(codec.encode(NEW_DOCUMENT))
    ensures codec.Lawful() ==> Decode(codec, codec.encode(NEW_DOCUMENT)) == Ok(NEW_DOCUMENT)
  {
    ValidIsNormal(NEW_DOCUMENT);
  }

  // ----- The document a ConfigMap stands for -----

  // No ConfigMap, or none that decodes, stands for no states at all.
  function StoredStates(codec: Codec, stored: Option<ConfigMap>): States {
    if stored.Some? && Decodable(codec, stored.value) then
      var d := Decode(codec, stored.value.data[DATA_KEY]).value;
      if d.states.Some? then d.states.value else map[]
    else map[]
  }

  lemma StoredStatesAreValid(codec: Codec, stored: Option<ConfigMap>)
    ensures ValidStates(StoredStates(codec, stored))
  {
    if stored.Some? && Decodable(codec, stored.value) { DecodedIsValid(codec, stored.value.data[DATA_KEY]); }
  }

  // A save of this document over the stored ConfigMap stays within the limit.
  ghost predicate Room(codec: Codec, stored: Option<ConfigMap>, states: States) {
    TotalBytes(WithPayload(codec, SaveOperation(codec.encode(Document(FORMAT_VERSION, Some(states)))),
                           stored)) <= MAX_DATA_BYTES
  }

  // A commit leaves the saved document, and the same room for the next one.
  lemma SavedStates(codec: Codec, c: Commit, states: States)
    requires codec.Lawful() && ValidStates(states)
    requires Proper(codec, SaveOperation(codec.encode(Document(FORMAT_VERSION, Some(states)))), c)
    ensures StoredStates(codec, Some(c.after)) == states && Decodable(codec, c.after)
    ensures forall other :: Room(codec, Some(c.after), other) <==> Room(codec, c.before, other)
  {
    ValidIsNormal(Document(FORMAT_VERSION, Some(states)));
    forall other ensures Room(codec, Some(c.after), other) <==> Room(codec, c.before, other) {
      SameRoom(codec, SaveOperation(codec.encode(Document(FORMAT_VERSION, Some(states)))), c, other);
    }
  }

  lemma SameRoom(codec: Codec, op: Operation, c: Commit, states: States)
    requires Proper(codec, op, c)
    ensures Room(codec, Some(c.after), states) <==> Room(codec, c.before, states)
  {
    var next := SaveOperation(codec.encode(Document(FORMAT_VERSION, Some(states))));
    assert WithPayload(codec, next, Some(c.after)).data == WithPayload(codec, next, c.before).data;
  }

  // Creating the missing ConfigMap changes nothing it stands for.
  lemma CreatedStates(codec: Codec, c: Commit)
    requires codec.Lawful() && Proper(codec, LoadOperation, c)
    ensures StoredStates(codec, Some(c.after)) == StoredStates(codec, c.before) == map[] && Decodable(codec, c.after)
    ensures forall other :: Room(codec, Some(c.after), other) <==> Room(codec, c.before, other)
  {
    NewDocumentEncodes(codec);
    forall other ensures Room(codec, Some(c.after), other) <==> Room(codec, c.before, other) {
      SameRoom(codec, LoadOperation, c, other);
    }
  }

  class Store {
    const server: Server
    const codec: Codec
    const backoff: Backoff
    ghost var log: seq<Event>

    constructor (server: Server, codec: Codec, backoff: Backoff)
      ensures this.server == server && this.codec == codec && this.backoff == backoff
    {
      this.server, this.codec, this.backoff := server, codec, backoff;
    }

    method CreatePayload(payload: string, ghost op: Operation) returns (r: Reply)
      requires server.Valid() && payload == Payload(codec, op)
      modifies server
      ensures server.Valid() && server.Traceable(old(server.commits), old(server.stored))
      ensures r.Served? ==> server.stored == Some(r.configMap) && r.configMap.data == map[DATA_KEY := payload]
      ensures r.Served? ==> OneCommit(codec, op, old(server.commits), server.commits) && server.Latest() == r.configMap
      ensures r.Refused? ==>
        || server.commits == old(server.commits)
        || (server.ambiguous && !Retryable(r.fault) && OneCommit(codec, op, old(server.commits), server.commits))
      ensures server.quiet && old(server.stored).None? ==> (r.Served? <==> Acceptable(codec, op, None))
      ensures server.quiet && old(server.stored).None? && r.Refused? ==> r.fault == TooLarge
      ensures r.Refused? ==> !r.fault.Cancelled? && !r.fault.Exhausted?
    {
      var configMap := ConfigMap(map[DATA_KEY := payload], map[], 0);
      var capacity := ObserveCapacity(configMap);
      if capacity.exceeded { return Refused(TooLarge); }
      r := server.Create(configMap.data);
    }

    // After success the server stores what was loaded or saved.
    ghost predicate Landed(op: Operation, document: Document)
      reads server
    {
      && server.stored.Some?
      && (op.LoadOperation? ==> HoldsDocument(codec, server.stored.value, document))
      && (op.SaveOperation? ==> server.commits != [] && server.stored.value == server.Latest())
    }

    method LoadOnce() returns (fault: Option<Fault>, document: Document)
      requires server.Valid()
      modifies server
      ensures server.Valid() && server.Traceable(old(server.commits), old(server.stored))
      ensures Settles(codec, LoadOperation, server.ambiguous, old(server.commits), server.commits, fault)
      ensures fault.None? ==> Landed(LoadOperation, document)
      ensures server.quiet && codec.Lawful() ==> (fault.None? <==> Acceptable(codec, LoadOperation, old(server.stored)))
      ensures fault.Some? ==> AttemptFault(fault.value, server.quiet)
    {
      NewDocumentEncodes(codec);
      document := NEW_DOCUMENT;
      var reply := server.Get();
      if reply.Refused? && reply.fault.NotFound? {
        var payload := Encode(codec, NEW_DOCUMENT);
        reply := CreatePayload(payload.value, LoadOperation);
      }
      if reply.Refused? { return Some(reply.fault), document; }
      var capacity := ObserveCapacity(reply.configMap);
      if DATA_KEY !in reply.configMap.data { return Some(MissingState), document; }
      var decoded := Decode(codec, reply.configMap.data[DATA_KEY]);
      if decoded.Err? { return Some(Malformed), document; }
      return None, decoded.value;
    }

    method SaveOnce(payload: string, ghost document: Document) returns (fault: Option<Fault>)
      requires server.Valid()
      modifies server
      ensures server.Valid() && server.Traceable(old(server.commits), old(server.stored))
      ensures Settles(codec, SaveOperation(payload), server.ambiguous, old(server.commits), server.commits, fault)
      ensures fault.None? ==> Landed(SaveOperation(payload), document)
      ensures server.quiet ==> (fault.None? <==> Acceptable(codec, SaveOperation(payload), old(server.stored)))
      ensures fault.Some? ==> AttemptFault(fault.value, server.quiet)
    {
      var reply := server.Get();
      if reply.Refused? && reply.fault.NotFound? {
        reply := CreatePayload(payload, SaveOperation(payload));
        return if reply.Served? then None else Some(reply.fault);
      }
      if reply.Refused? { return Some(reply.fault); }
      var configMap := reply.configMap;
      if DATA_KEY !in configMap.data { return Some(MissingState); }
      if Decode(codec, configMap.data[DATA_KEY]).Err? { return Some(Malformed); }
      var updated := configMap.(data := configMap.data[DATA_KEY := payload]);
      var capacity := ObserveCapacity(updated);
      if capacity.exceeded { return Some(TooLarge); }
      reply := server.Update(updated);
      return if reply.Served? then None else Some(reply.fault);
    }

    // The operation that the loop repeats.
    method Attempt(op: Operation) returns (fault: Option<Fault>, document: Document)
      requires server.Valid()
      modifies server
      ensures server.Valid() && server.Traceable(old(server.commits), old(server.stored))
      ensures Settles(codec, op, server.ambiguous, old(server.commits), server.commits, fault)
      ensures fault.None? ==> Landed(op, document)
      ensures server.quiet && codec.Lawful() ==> (fault.None? <==> Acceptable(codec, op, old(server.stored)))
      ensures fault.Some? ==> AttemptFault(fault.value, server.quiet)
    {
      if op.LoadOperation? {
        fault, document := LoadOnce();
      } else {
        document := NEW_DOCUMENT;
        fault := SaveOnce(op.payload, document);
      }
    }

    // One loop for both operations: again only after a conflict, a bounded number of times.
    method Retry(op: Operation) returns (fault: Option<Fault>, document: Document)
      requires server.Valid()
      modifies this`log, server
      ensures server.Valid() && server.Traceable(old(server.commits), old(server.stored))
      ensures Explains(log, backoff, fault)
      ensures Settles(codec, op, server.ambiguous, old(server.commits), server.commits, fault)
      ensures fault.None? ==> Landed(op, document)
      ensures server.quiet && codec.Lawful() ==> (fault.None? <==> Acceptable(codec, op, old(server.stored)))
    {
      var steps, delay, attempt := backoff.Steps(), backoff.initialDelay, 0;
      document := NEW_DOCUMENT;
      log := [];
      while attempt < steps
        invariant attempt < steps && delay == backoff.DelayAt(attempt)
        invariant server.Valid() && server.commits == old(server.commits)
        invariant server.alone ==> server.stored == old(server.stored)
        invariant server.quiet ==> attempt == 0
        invariant Alternates(log, backoff) && |log| == 2 * attempt
      {
        var cancelled: bool := *;
        if !server.quiet && cancelled { return Some(Cancelled), document; }
        fault, document := Attempt(op);
        AttemptLogged(log, backoff, attempt, fault);
        log := log + [Attempted(fault)];
        if fault.None? || !Retryable(fault.value) { return; }
        if attempt == steps - 1 { break; }
        SleepLogged(log, backoff, attempt, fault);
        log := log + [Slept(delay)];
        var woken: bool := *;
        if woken { return Some(Cancelled), document; }
        delay := backoff.Next(delay);
        attempt := attempt + 1;
      }
      fault := Some(Exhausted);
    }

    method Load() returns (r: Result<Document>)
      requires server.Valid()
      modifies this`log, server
      ensures server.Valid() && server.Traceable(old(server.commits), old(server.stored))
      ensures exists fault :: Explains(log, backoff, fault) && (r.Ok? <==> fault.None?)
      ensures r.Ok? ==>
        ValidDocument(r.value) && server.stored.Some? && HoldsDocument(codec, server.stored.value, r.value)
      ensures || server.commits == old(server.commits)
              || OneCommit(codec, LoadOperation, old(server.commits), server.commits)
      ensures server.quiet && codec.Lawful() ==> (r.Ok? <==> Acceptable(codec, LoadOperation, old(server.stored)))
    {
      var fault, document := Retry(LoadOperation);
      if fault.Some? { return Err; }
      DecodedIsValid(codec, server.stored.value.data[DATA_KEY]);
      return Ok(document);
    }

    // A document that does not encode is refused before the server is asked anything.
    method Save(document: Document) returns (ok: bool)
      requires server.Valid()
      modifies this`log, server
      ensures server.Valid() && server.Traceable(old(server.commits), old(server.stored))
      ensures Encode(codec, document).Err? ==>
        !ok && log == [] && server.commits == old(server.commits) && server.stored == old(server.stored)
      ensures Encode(codec, document).Ok? ==> exists fault :: Explains(log, backoff, fault) && (ok <==> fault.None?)
      ensures ok ==> OneCommit(codec, SaveOperation(Encode(codec, document).value), old(server.commits), server.commits)
      ensures ok && codec.Lawful() ==>
        server.stored.Some? && HoldsDocument(codec, server.stored.value, Normalize(document))
      ensures server.alone && codec.Lawful() ==>
        || server.stored == old(server.stored)
        || (server.stored.Some? && HoldsDocument(codec, server.stored.value, Normalize(document)))
      ensures !ok && !server.ambiguous ==> server.commits == old(server.commits)
      ensures !ok ==>
        || server.commits == old(server.commits)
        || OneCommit(codec, SaveOperation(Encode(codec, document).value), old(server.commits), server.commits)
      ensures server.quiet && codec.Lawful() && Encode(codec, document).Ok? ==>
        (ok <==> Acceptable(codec, SaveOperation(Encode(codec, document).value), old(server.stored)))
    {
      log := [];
      var payload := Encode(codec, document);
      if payload.Err? { return false; }
      var fault, _ := Retry(SaveOperation(payload.value));
      if codec.Lawful() { EncodeDecodeRoundTrip(codec, document); }
      return fault.None?;
    }
  }
}
