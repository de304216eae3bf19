// Revision identity: a canonical selection of a workload's container images.
module Revision {
  import opened Basics
  import opened Ordering

  const KIND_DEPLOYMENT := "Deployment"
  const KIND_STATEFUL_SET := "StatefulSet"
  const SOURCE_CONTAINER_IMAGES := "ContainerImages"

  datatype Container = Container(name: string, image: string)

  datatype Workload = Workload(
    kind: string, namespace: string, name: string, uid: string,
    labels: map<string, string>, containers: seq<Container>, currentReplicas: int)
  {
    function Key(): string { kind + "/" + namespace + "/" + name }
  }

  datatype Mode = AllContainers | NamedContainers

  // A hash field. The digest of a canonical value is represented by that value, so that
  // equal digests mean equal values; NoDigest is the empty string, and OtherText is any
  // other text a stored document may carry.
  datatype Digest =
    | NoDigest
    | OtherText(text: string)
    | TrackingDigest(mode: Mode, names: seq<string>)
    | ImagesDigest(images: seq<Container>)

  // Containers None tracks every regular container.
  datatype TrackingSpec = TrackingSpec(source: string, containers: Option<seq<string>>)

  datatype Selection = Selection(containers: seq<Container>, names: seq<string>, mode: Mode)

  datatype RevisionIdentity = RevisionIdentity(trackingSpecHash: Digest, revisionHash: Digest,
                                               containers: seq<Container>)

  function Names(containers: seq<Container>): (r: seq<string>)
    ensures |r| == |containers| && forall i :: 0 <= i < |r| ==> r[i] == containers[i].name
  {
    seq(|containers|, i requires 0 <= i < |containers| => containers[i].name)
  }

  predicate DistinctNames(containers: seq<Container>) {
    forall i, j :: 0 <= i < j < |containers| ==> containers[i].name != containers[j].name
  }

  predicate ValidContainers(containers: seq<Container>) {
    && containers != []
    && (forall c :: c in containers ==> c.name != "" && c.image != "")
    && DistinctNames(containers)
  }

  // What selectContainers accepts.
  predicate Selectable(containers: seq<Container>, tracked: Option<seq<string>>) {
    && ValidContainers(containers)
    && (tracked.Some? ==>
          && tracked.value != []
          && Distinct(tracked.value)
          && forall name :: name in tracked.value ==> name in Names(containers))
  }

  function Lookup(containers: seq<Container>, name: string): (c: Container)
    requires name in Names(containers)
    ensures c in containers && c.name == name
  {
    if containers[0].name == name then containers[0]
    else
      assert name in Names(containers[1..]) by {
        var i :| 0 <= i < |containers| && Names(containers)[i] == name;
        assert Names(containers[1..])[i - 1] == name;
      }
      Lookup(containers[1..], name)
  }

  function SelectedNames(containers: seq<Container>, tracked: Option<seq<string>>): (r: seq<string>)
    requires Selectable(containers, tracked)
    ensures forall name :: name in r ==> name in Names(containers)
  {
    var names := if tracked.None? then Names(containers) else tracked.value;
    assert forall name :: name in Sort(names) ==> name in multiset(names);
    Sort(names)
  }

  function Select(containers: seq<Container>, tracked: Option<seq<string>>): (r: Selection)
    requires Selectable(containers, tracked)
  {
    var names := SelectedNames(containers, tracked);
    Selection(
      seq(|names|, i requires 0 <= i < |names| => Lookup(containers, names[i])),
      names,
      if tracked.None? then AllContainers else NamedContainers)
  }

  function Calculate(containers: seq<Container>, spec: TrackingSpec): Result<RevisionIdentity> {
    if spec.source != "" && spec.source != SOURCE_CONTAINER_IMAGES then Err
    else if !Selectable(containers, spec.containers) then Err
    else
      var selection := Select(containers, spec.containers);
      Ok(RevisionIdentity(TrackingDigest(selection.mode, selection.names), ImagesDigest(selection.containers),
                          selection.containers))
  }

  // ----- The loops of selectContainers -----

  // The containers are complete and distinct, and the index holds exactly them by name.
  ghost predicate Indexes(available: map<string, Container>, containers: seq<Container>) {
    && (forall c :: c in containers ==> c.name != "" && c.image != "")
    && DistinctNames(containers)
    && (forall c :: c in containers ==> c.name in available && available[c.name] == c)
    && available.Keys == set c | c in containers :: c.name
  }

  lemma IndexGrows(available: map<string, Container>, containers: seq<Container>, c: Container)
    requires Indexes(available, containers) && c.name != "" && c.image != "" && c.name !in available
    ensures Indexes(available[c.name := c], containers + [c])
  {}

  lemma IndexRefuses(available: map<string, Container>, containers: seq<Container>, i: nat)
    requires i < |containers| && Indexes(available, containers[..i])
    requires containers[i].name == "" || containers[i].image == "" || containers[i].name in available
    ensures !ValidContainers(containers)
  {
    assert containers[i] in containers;
    if containers[i].name in available {
      var c :| c in containers[..i] && c.name == containers[i].name;
      var k :| 0 <= k < i && containers[k] == c;
    }
  }

  // Index the containers by name, refusing empty fields and duplicates.
  method IndexContainers(containers: seq<Container>) returns (r: Option<map<string, Container>>)
    ensures r.Some? <==> ValidContainers(containers) || containers == []
    ensures r.Some? ==> Indexes(r.value, containers)
    ensures r.Some? ==> (|r.value| == 0 <==> containers == [])
  {
    var available: map<string, Container> := map[];
    for i := 0 to |containers|
      invariant Indexes(available, containers[..i])
    {
      var container := containers[i];
      if container.name == "" || container.image == "" || container.name in available {
        IndexRefuses(available, containers, i);
        return None;
      }
      IndexGrows(available, containers[..i], container);
      assert containers[..i + 1] == containers[..i] + [container];
      available := available[container.name := container];
    }
    assert containers[..|containers|] == containers;
    if |containers| > 0 { assert containers[0].name in available; }
    r := Some(available);
  }

  // Collect the keys of the index; the map is visited in an arbitrary order.
  method CollectNames(containers: seq<Container>, available: map<string, Container>) returns (names: seq<string>)
    requires DistinctNames(containers)
    requires available.Keys == set c | c in containers :: c.name
    ensures multiset(names) == multiset(Names(containers))
  {
    names := [];
    var pending := available.Keys;
    while pending != {}
      invariant pending <= available.Keys
      invariant Distinct(names)
      invariant forall name :: name in names <==> name in available.Keys - pending
      decreases pending
    {
      var name :| name in pending;
      assert name !in names;
      pending := pending - {name};
      names := names + [name];
    }
    forall name ensures name in names <==> name in Names(containers) { IndexHolds(containers, available, name); }
    DistinctNamesAreDistinct(containers);
    DistinctSameMembers(names, Names(containers));
  }

  lemma DistinctNamesAreDistinct(containers: seq<Container>)
    ensures DistinctNames(containers) <==> Distinct(Names(containers))
  {
    if !DistinctNames(containers) {
      var i, j :| 0 <= i < j < |containers| && containers[i].name == containers[j].name;
      assert Names(containers)[i] == Names(containers)[j];
    }
  }

  lemma DistinctSameMembers(a: seq<string>, b: seq<string>)
    requires Distinct(a) && Distinct(b)
    requires forall x :: x in a <==> x in b
    ensures multiset(a) == multiset(b)
  {
    DistinctByMultiset(a);
    DistinctByMultiset(b);
    forall x ensures multiset(a)[x] == multiset(b)[x] {
      assert x in a <==> x in multiset(a);
      assert x in b <==> x in multiset(b);
    }
  }

  lemma {:induction false} LookupUnique(containers: seq<Container>, c: Container)
    requires c in containers && DistinctNames(containers)
    ensures c.name in Names(containers)
    ensures Lookup(containers, c.name) == c
  {
    var i :| 0 <= i < |containers| && containers[i] == c;
    assert Names(containers)[i] == c.name;
    if i > 0 {
      assert containers[0].name != c.name;
      assert containers[1..][i - 1] == c;
      LookupUnique(containers[1..], c);
    }
  }

  lemma IndexHolds(containers: seq<Container>, available: map<string, Container>, name: string)
    requires available.Keys == set c | c in containers :: c.name
    ensures name in available <==> name in Names(containers)
  {
    if name in available {
      var c :| c in containers && c.name == name;
      var i :| 0 <= i < |containers| && containers[i] == c;
      assert Names(containers)[i] == name;
    }
    if name in Names(containers) {
      var i :| 0 <= i < |containers| && Names(containers)[i] == name;
      assert containers[i] in containers;
    }
  }

  // No two neighbours are equal and every name is known.
  predicate Pickable(names: seq<string>, available: map<string, Container>) {
    && (forall k :: 0 < k < |names| ==> names[k - 1] != names[k])
    && forall k :: 0 <= k < |names| ==> names[k] in available
  }

  // The final loop: refuse neighbouring duplicates and unknown names, else pick in order.
  method PickInOrder(names: seq<string>, available: map<string, Container>) returns (r: Option<seq<Container>>)
    ensures r.Some? <==> Pickable(names, available)
    ensures r.Some? ==> |r.value| == |names|
                        && forall k :: 0 <= k < |names| ==> names[k] in available && r.value[k] == available[names[k]]
  {
    var selected: seq<Container> := [];
    for i := 0 to |names|
      invariant |selected| == i
      invariant forall k :: 0 <= k < i ==> names[k] in available && selected[k] == available[names[k]]
      invariant forall k :: 0 < k < i ==> names[k - 1] != names[k]
    {
      if i > 0 && names[i - 1] == names[i] { return None; }
      if names[i] !in available { return None; }
      selected := selected + [available[names[i]]];
    }
    return Some(selected);
  }

  lemma PickedIsSelected(containers: seq<Container>, tracked: Option<seq<string>>,
                         available: map<string, Container>, picked: seq<Container>)
    requires Selectable(containers, tracked)
    requires forall c :: c in containers ==> c.name in available && available[c.name] == c
    requires var names := SelectedNames(containers, tracked);
      |picked| == |names| && forall k :: 0 <= k < |names| ==> names[k] in available && picked[k] == available[names[k]]
    ensures picked == Select(containers, tracked).containers
  {
    var names := SelectedNames(containers, tracked);
    forall k | 0 <= k < |names| ensures picked[k] == Lookup(containers, names[k]) {
      var c := Lookup(containers, names[k]);
      assert available[c.name] == c;
    }
  }

  lemma SortedMembers(unsorted: seq<string>)
    ensures forall name :: name in Sort(unsorted) <==> name in unsorted
  {
    forall name ensures name in Sort(unsorted) <==> name in unsorted {
      assert name in Sort(unsorted) <==> name in multiset(Sort(unsorted));
      assert name in unsorted <==> name in multiset(unsorted);
    }
  }

  lemma AllKnown(containers: seq<Container>, available: map<string, Container>, names: seq<string>)
    requires available.Keys == set c | c in containers :: c.name
    ensures (forall k :: 0 <= k < |names| ==> names[k] in available)
       <==> (forall name :: name in names ==> name in Names(containers))
  {
    forall name ensures name in available <==> name in Names(containers) { IndexHolds(containers, available, name); }
  }

  // With no tracked list every name is picked, and none of them is a duplicate.
  lemma OwnNamesSelectable(containers: seq<Container>, unsorted: seq<string>)
    requires ValidContainers(containers) && multiset(unsorted) == multiset(Names(containers))
    ensures Distinct(unsorted)
    ensures forall name :: name in unsorted ==> name in Names(containers)
  {
    DistinctNamesAreDistinct(containers);
    DistinctPermutation(unsorted, Names(containers));
    forall name | name in unsorted ensures name in Names(containers) { assert name in multiset(Names(containers)); }
  }

  lemma PickableIffSelectable(containers: seq<Container>, tracked: Option<seq<string>>,
                              available: map<string, Container>, unsorted: seq<string>)
    requires ValidContainers(containers)
    requires available.Keys == set c | c in containers :: c.name
    requires tracked.Some? ==> tracked.value != [] && unsorted == tracked.value
    requires tracked.None? ==> multiset(unsorted) == multiset(Names(containers))
    ensures Selectable(containers, tracked) <==> Pickable(Sort(unsorted), available)
  {
    AdjacentCheckFindsDuplicates(unsorted);
    SortedMembers(unsorted);
    AllKnown(containers, available, Sort(unsorted));
    assert Pickable(Sort(unsorted), available)
      <==> Distinct(unsorted) && forall name :: name in unsorted ==> name in Names(containers);
    if tracked.None? { OwnNamesSelectable(containers, unsorted); }
  }

  method SelectContainers(containers: seq<Container>, tracked: Option<seq<string>>) returns (r: Result<Selection>)
    ensures r == if Selectable(containers, tracked) then Ok(Select(containers, tracked)) else Err
  {
    var index := IndexContainers(containers);
    if index.None? { return Err; }
    if |index.value| == 0 { return Err; }
    if tracked.Some? && |tracked.value| == 0 { return Err; }
    var mode, names := AllContainers, [];
    if tracked.None? {
      names := CollectNames(containers, index.value);
      SortPermutation(names, Names(containers));
    } else {
      mode := NamedContainers;
      names := tracked.value;
    }
    PickableIffSelectable(containers, tracked, index.value, names);
    names := Sort(names);
    var picked := PickInOrder(names, index.value);
    if picked.None? { return Err; }
    PickedIsSelected(containers, tracked, index.value, picked.value);
    return Ok(Selection(picked.value, names, mode));
  }

  method CalculateRevision(containers: seq<Container>, spec: TrackingSpec) returns (r: Result<RevisionIdentity>)
    ensures r == Calculate(containers, spec)
    // Refused are another source, incomplete or repeated containers or none at all, and a
    // tracked list that is empty, repeats a name or has one no container carries.
    ensures r.Ok? <==>
      && (spec.source == "" || spec.source == "ContainerImages")
      && containers != [] && (forall c :: c in containers ==> c.name != "" && c.image != "")
      && (forall i, j :: 0 <= i < j < |containers| ==> containers[i].name != containers[j].name)
      && (spec.containers.Some? ==>
            && spec.containers.value != []
            && (forall i, j :: 0 <= i < j < |spec.containers.value| ==>
                  spec.containers.value[i] != spec.containers.value[j])
            && forall name :: name in spec.containers.value ==> exists c :: c in containers && c.name == name)
    // What it keeps is the tracked containers, strictly sorted by name.
    ensures r.Ok? ==>
      && (forall c :: c in r.value.containers <==>
            c in containers && (spec.containers.Some? ==> c.name in spec.containers.value))
      && forall i, j :: 0 <= i < j < |r.value.containers| ==>
           StrLt(r.value.containers[i].name, r.value.containers[j].name)
  {
    AcceptedIff(containers, spec);
    var source := if spec.source == "" then SOURCE_CONTAINER_IMAGES else spec.source;
    if source != SOURCE_CONTAINER_IMAGES { return Err; }
    var selection := SelectContainers(containers, spec.containers);
    if selection.Err? { return Err; }
    var s := selection.value;
    return Ok(RevisionIdentity(TrackingDigest(s.mode, s.names), ImagesDigest(s.containers), s.containers));
  }

  lemma AcceptedIff(containers: seq<Container>, spec: TrackingSpec)
    ensures spec.containers.Some? ==>
      ((forall name :: name in spec.containers.value ==> name in Names(containers))
       <==> forall name :: name in spec.containers.value ==> exists c :: c in containers && c.name == name)
    ensures Calculate(containers, spec).Ok? ==>
      var kept := Calculate(containers, spec).value.containers;
      && (forall c :: c in kept <==> c in containers && (spec.containers.Some? ==> c.name in spec.containers.value))
      && forall i, j :: 0 <= i < j < |kept| ==> StrLt(kept[i].name, kept[j].name)
  {
    forall name ensures name in Names(containers) <==> exists c :: c in containers && c.name == name {
      NamesMultiset(containers, name);
    }
    if Calculate(containers, spec).Ok? {
      SelectionIsCanonical(containers, spec.containers);
      var kept := Calculate(containers, spec).value.containers;
      forall i, j | 0 <= i < j < |kept| ensures StrLt(kept[i].name, kept[j].name) {
        assert StrLt(Names(kept)[i], Names(kept)[j]);
      }
    }
  }

  // ----- What the canonical selection means -----

  // The selection is strictly sorted by name and holds exactly the tracked containers.
  lemma SelectionIsCanonical(containers: seq<Container>, tracked: Option<seq<string>>)
    requires Selectable(containers, tracked)
    ensures var s := Select(containers, tracked).containers;
      && s != []
      && StrictlySorted(Names(s))
      && forall c :: c in s <==> c in containers && Tracks(tracked, c.name)
  {
    var names := SelectedNames(containers, tracked);
    var s := Select(containers, tracked).containers;
    var unsorted := if tracked.None? then Names(containers) else tracked.value;
    DistinctNamesAreDistinct(containers);
    SortedDistinctIsStrict(unsorted);
    assert Names(s) == names;
    forall c ensures c in s <==> c in containers && Tracks(tracked, c.name) {
      if c in s {
        var i :| 0 <= i < |s| && s[i] == c;
        assert c.name == names[i] && names[i] in multiset(unsorted);
      }
      if c in containers && Tracks(tracked, c.name) {
        LookupUnique(containers, c);
        assert c.name in multiset(names);
        var i :| 0 <= i < |names| && names[i] == c.name;
        assert s[i] == c;
      }
    }
  }

  lemma SomeMember(s: seq<Container>)
    ensures s == [] || exists c :: c in s
  {
    if s != [] { assert s[0] in s; }
  }

  lemma {:induction false} StrictlySortedUnique(a: seq<Container>, b: seq<Container>)
    requires StrictlySorted(Names(a)) && StrictlySorted(Names(b))
    requires forall c :: c in a <==> c in b
    ensures a == b
    decreases |a|
  {
    SomeMember(a);
    SomeMember(b);
    if a != [] {
      assert a[0] in a && a[0] in b;
      assert b[0] in b && b[0] in a;
      StrictHead(a, b[0]);
      StrictHead(b, a[0]);
      StrLeAntisymmetric(a[0].name, b[0].name);
      StrictHead(b, a[0]);
      StrictTail(a);
      StrictTail(b);
      StrictlySortedUnique(a[1..], b[1..]);
      assert a == [a[0]] + a[1..] && b == [b[0]] + b[1..];
    }
  }

  lemma StrictHead(s: seq<Container>, c: Container)
    requires StrictlySorted(Names(s)) && c in s
    ensures StrLe(s[0].name, c.name)
    ensures s[0].name == c.name ==> s[0] == c
  {
    var i :| 0 <= i < |s| && s[i] == c;
    if i > 0 { assert StrLt(Names(s)[0], Names(s)[i]); } else { StrLeReflexive(c.name); }
  }

  lemma StrictTail(s: seq<Container>)
    requires s != [] && StrictlySorted(Names(s))
    ensures StrictlySorted(Names(s[1..]))
    ensures forall c :: c in s[1..] <==> c in s && c != s[0]
  {
    var t := s[1..];
    forall i, j | 0 <= i < j < |t| ensures StrLt(Names(t)[i], Names(t)[j]) {
      assert StrLt(Names(s)[i + 1], Names(s)[j + 1]);
    }
    forall c ensures c in t <==> c in s && c != s[0] {
      if c in t {
        var i :| 0 <= i < |t| && t[i] == c;
        assert StrLt(Names(s)[0], Names(s)[i + 1]);
      }
    }
  }

  lemma DistinctPermutation(a: seq<string>, b: seq<string>)
    requires multiset(a) == multiset(b)
    ensures Distinct(a) <==> Distinct(b)
  {
    DistinctByMultiset(a);
    DistinctByMultiset(b);
  }

  lemma {:induction false} NamesMultiset(a: seq<Container>, name: string)
    ensures name in Names(a) <==> exists c :: c in a && c.name == name
  {
    if name in Names(a) {
      var i :| 0 <= i < |a| && Names(a)[i] == name;
      assert a[i] in a;
    }
    if c :| c in a && c.name == name {
      var i :| 0 <= i < |a| && a[i] == c;
      assert Names(a)[i] == name;
    }
  }

  // Distinct names survive reordering the containers.
  lemma DistinctNamesPermutation(a: seq<Container>, b: seq<Container>)
    requires multiset(a) == multiset(b) && DistinctNames(a)
    ensures DistinctNames(b)
  {
    forall i, j | 0 <= i < j < |b| ensures b[i].name != b[j].name {
      assert b[i] in multiset(a) && b[j] in multiset(a);
      var p :| 0 <= p < |a| && a[p] == b[i];
      var q :| 0 <= q < |a| && a[q] == b[j];
      OnceAt(a, p);
      if b[i] == b[j] { TwicePresent(b, i, j); }
    }
  }

  lemma TwicePresent(s: seq<Container>, i: nat, j: nat)
    requires i < j < |s| && s[i] == s[j]
    ensures multiset(s)[s[i]] >= 2
  {
    assert s == s[..j] + s[j..];
    assert s[i] in s[..j] && s[j] in s[j..];
    assert multiset(s) == multiset(s[..j]) + multiset(s[j..]);
  }

  lemma OnceAt(s: seq<Container>, p: nat)
    requires p < |s| && DistinctNames(s)
    ensures multiset(s)[s[p]] == 1
  {
    assert s == s[..p] + ([s[p]] + s[p + 1..]);
    assert s[p] !in s[..p];
    assert s[p] !in s[p + 1..];
    assert multiset(s) == multiset(s[..p]) + multiset{s[p]} + multiset(s[p + 1..]);
  }

  lemma SelectablePermutation(a: seq<Container>, b: seq<Container>, p: Option<seq<string>>, q: Option<seq<string>>)
    requires multiset(a) == multiset(b)
    requires p.Some? <==> q.Some?
    requires p.Some? ==> multiset(p.value) == multiset(q.value)
    requires Selectable(a, p)
    ensures Selectable(b, q)
  {
    forall c ensures c in a <==> c in b { assert c in a <==> c in multiset(a); assert c in b <==> c in multiset(b); }
    DistinctNamesPermutation(a, b);
    assert a[0] in b;
    if p.Some? {
      DistinctPermutation(p.value, q.value);
      assert p.value[0] in multiset(q.value);
      forall name | name in q.value ensures name in Names(b) {
        assert name in multiset(q.value);
        assert name in p.value;
        NamesMultiset(a, name);
        NamesMultiset(b, name);
      }
    }
  }

  // Reordering the containers or the tracked names changes nothing: not whether the
  // selection is accepted, not the selection, and so neither digest.
  lemma RevisionIgnoresOrder(a: seq<Container>, b: seq<Container>, source: string,
                             p: Option<seq<string>>, q: Option<seq<string>>)
    requires multiset(a) == multiset(b)
    requires p.Some? <==> q.Some?
    requires p.Some? ==> multiset(p.value) == multiset(q.value)
    ensures Calculate(a, TrackingSpec(source, p)) == Calculate(b, TrackingSpec(source, q))
  {
    if Selectable(a, p) { SelectablePermutation(a, b, p, q); }
    if Selectable(b, q) { SelectablePermutation(b, a, q, p); }
    if Selectable(a, p) {
      forall c ensures c in a <==> c in b { assert c in a <==> c in multiset(a); assert c in b <==> c in multiset(b); }
      SelectionsAgree(a, b, p, q);
    }
  }

  predicate Tracks(tracked: Option<seq<string>>, name: string) {
    tracked.Some? ==> name in tracked.value
  }

  // Both workloads carry the same tracked containers, whatever else they carry.
  ghost predicate SameTracked(a: seq<Container>, b: seq<Container>, tracked: Option<seq<string>>) {
    forall c: Container :: Tracks(tracked, c.name) ==> (c in a <==> c in b)
  }

  lemma SelectionsAgree(a: seq<Container>, b: seq<Container>, p: Option<seq<string>>, q: Option<seq<string>>)
    requires Selectable(a, p) && Selectable(b, q)
    requires p.Some? <==> q.Some?
    requires p.Some? ==> multiset(p.value) == multiset(q.value)
    requires SameTracked(a, b, p)
    ensures Select(a, p) == Select(b, q)
  {
    SelectionIsCanonical(a, p);
    SelectionIsCanonical(b, q);
    var s, t := Select(a, p).containers, Select(b, q).containers;
    forall c ensures c in s <==> c in t {
      if p.Some? {
        assert c.name in p.value <==> c.name in multiset(p.value);
        assert c.name in q.value <==> c.name in multiset(q.value);
      }
    }
    StrictlySortedUnique(s, t);
    assert Names(s) == Select(a, p).names && Names(t) == Select(b, q).names;
  }

  // The revision digest changes exactly when a tracked container changes; images of
  // untracked containers do not matter.
  lemma RevisionSeesExactlyTrackedContainers(a: seq<Container>, b: seq<Container>, tracked: Option<seq<string>>)
    requires Selectable(a, tracked) && Selectable(b, tracked)
    ensures Calculate(a, TrackingSpec("", tracked)).value.revisionHash
            == Calculate(b, TrackingSpec("", tracked)).value.revisionHash
       <==> SameTracked(a, b, tracked)
  {
    var s, t := Select(a, tracked).containers, Select(b, tracked).containers;
    if s == t { SameSelectionSameTracked(a, b, tracked); }
    if SameTracked(a, b, tracked) { SelectionsAgree(a, b, tracked, tracked); }
  }

  lemma SameSelectionSameTracked(a: seq<Container>, b: seq<Container>, tracked: Option<seq<string>>)
    requires Selectable(a, tracked) && Selectable(b, tracked)
    requires Select(a, tracked).containers == Select(b, tracked).containers
    ensures SameTracked(a, b, tracked)
  {
    SelectionIsCanonical(a, tracked);
    SelectionIsCanonical(b, tracked);
    forall c: Container | Tracks(tracked, c.name) ensures c in a <==> c in b {
      assert c in Select(a, tracked).containers <==> c in Select(b, tracked).containers;
    }
  }

  // The revision hash tells apart exactly the tracked containers, whatever is tracked.
  lemma RevisionHashSees(a: seq<Container>, p: TrackingSpec, b: seq<Container>, q: TrackingSpec)
    requires Calculate(a, p).Ok? && Calculate(b, q).Ok?
    ensures Calculate(a, p).value.revisionHash == Calculate(b, q).value.revisionHash
       <==> forall c :: (c in a && (p.containers.Some? ==> c.name in p.containers.value))
                        <==> (c in b && (q.containers.Some? ==> c.name in q.containers.value))
  {
    var s, t := Select(a, p.containers).containers, Select(b, q.containers).containers;
    SelectionIsCanonical(a, p.containers);
    SelectionIsCanonical(b, q.containers);
    if forall c :: c in s <==> c in t { StrictlySortedUnique(s, t); }
    assert s == t <==> forall c :: c in s <==> c in t;
  }

  // The name is tracked: listed, or a container's where nothing is listed.
  ghost predicate TracksName(containers: seq<Container>, spec: TrackingSpec, name: string) {
    if spec.containers.Some? then name in spec.containers.value else exists c :: c in containers && c.name == name
  }

  // The tracking hash tells apart a list from none, and the tracked names.
  lemma TrackingHashSees(a: seq<Container>, p: TrackingSpec, b: seq<Container>, q: TrackingSpec)
    requires Calculate(a, p).Ok? && Calculate(b, q).Ok?
    ensures Calculate(a, p).value.trackingSpecHash == Calculate(b, q).value.trackingSpecHash
       <==> && (p.containers.Some? <==> q.containers.Some?)
            && forall name :: TracksName(a, p, name) <==> TracksName(b, q, name)
  {
    SelectedNamesAre(a, p);
    SelectedNamesAre(b, q);
    var s, t := SelectedNames(a, p.containers), SelectedNames(b, q.containers);
    if forall name :: name in s <==> name in t {
      DistinctSameMembers(s, t);
      SortedUnique(s, t);
    }
    assert s == t <==> forall name :: name in s <==> name in t;
  }

  lemma SelectedNamesAre(containers: seq<Container>, spec: TrackingSpec)
    requires Selectable(containers, spec.containers)
    ensures var names := SelectedNames(containers, spec.containers);
      && IsSorted(names) && Distinct(names)
      && forall name :: name in names <==> TracksName(containers, spec, name)
  {
    var unsorted := if spec.containers.None? then Names(containers) else spec.containers.value;
    SortSorted(unsorted);
    DistinctNamesAreDistinct(containers);
    DistinctPermutation(Sort(unsorted), unsorted);
    SortedMembers(unsorted);
    forall name ensures name in Names(containers) <==> exists c :: c in containers && c.name == name {
      NamesMultiset(containers, name);
    }
  }

  // Names without a slash tell workloads apart by key.
  lemma KeysTellApart(a: Workload, b: Workload)
    requires forall w :: w in [a, b] ==> '/' !in w.kind && '/' !in w.namespace && '/' !in w.name
    ensures a.Key() == b.Key() <==> a.kind == b.kind && a.namespace == b.namespace && a.name == b.name
  {
    assert a in [a, b] && b in [a, b];
    if a.Key() == b.Key() {
      assert a.Key() == a.kind + ['/'] + (a.namespace + "/" + a.name);
      assert b.Key() == b.kind + ['/'] + (b.namespace + "/" + b.name);
      FirstSlash(a.kind, a.namespace + "/" + a.name, b.kind, b.namespace + "/" + b.name);
      FirstSlash(a.namespace, a.name, b.namespace, b.name);
    }
  }

  lemma FirstSlash(x: string, rest: string, y: string, more: string)
    requires '/' !in x && '/' !in y && x + ['/'] + rest == y + ['/'] + more
    ensures x == y && rest == more
  {
    var s, t := x + ['/'] + rest, y + ['/'] + more;
    assert s[|x|] == '/' && t[|y|] == '/';
    assert forall i :: 0 <= i < |x| ==> s[i] == x[i];
    assert forall i :: 0 <= i < |y| ==> t[i] == y[i];
    assert |x| == |y|;
    assert x == s[..|x|] && y == t[..|y|] && rest == s[|x| + 1..] && more == t[|y| + 1..];
  }

  // One container for each name, all with the same image.
  function Imaged(names: seq<string>, image: string): (r: seq<Container>)
    ensures Names(r) == names && forall c :: c in r ==> c.image == image && c.name in names
  {
    var r := seq(|names|, i requires 0 <= i < |names| => Container(names[i], image));
    assert Names(r) == names;
    r
  }

  lemma ImagedIsSelectable(names: seq<string>, tracked: Option<seq<string>>, image: string)
    requires names != [] && Distinct(names) && "" !in names && image != ""
    requires tracked.Some? ==>
      tracked.value != [] && Distinct(tracked.value) && forall name :: name in tracked.value ==> name in names
    ensures Selectable(Imaged(names, image), tracked)
  {
    var containers := Imaged(names, image);
    forall i, j | 0 <= i < j < |containers| ensures containers[i].name != containers[j].name {
      assert Names(containers)[i] != Names(containers)[j];
    }
  }

  // No selection of one image is a selection of another, whatever each tracks.
  lemma ImagesDiffer(names: seq<string>, p: Option<seq<string>>, q: Option<seq<string>>, x: string, y: string)
    requires x != y && Selectable(Imaged(names, x), p) && Selectable(Imaged(names, y), q)
    ensures Select(Imaged(names, x), p).containers != Select(Imaged(names, y), q).containers
  {
    var a, b := Select(Imaged(names, x), p).containers, Select(Imaged(names, y), q).containers;
    SelectionIsCanonical(Imaged(names, x), p);
    SelectionIsCanonical(Imaged(names, y), q);
    var c := a[0];
    assert c in a && c.image == x && c !in b;
  }
}
