// The order in which the source sorts strings, and the sort itself.
module Ordering {

  // Lexicographic order, as used by sort.Strings and by the < operator on strings.
  predicate StrLe(a: string, b: string) {
    a == [] || (b != [] && (a[0] < b[0] || (a[0] == b[0] && StrLe(a[1..], b[1..]))))
  }

  predicate StrLt(a: string, b: string) { a != b && StrLe(a, b) }

  lemma {:induction false} StrLeAntisymmetric(a: string, b: string)
    requires StrLe(a, b) && StrLe(b, a)
    ensures a == b
  {
    if a != [] && b != [] {
      StrLeAntisymmetric(a[1..], b[1..]);
      assert a == [a[0]] + a[1..] && b == [b[0]] + b[1..];
    }
  }

  lemma {:induction false} StrLeTransitive(a: string, b: string, c: string)
    requires StrLe(a, b) && StrLe(b, c)
    ensures StrLe(a, c)
  {
    if a != [] && b != [] && c != [] && a[0] == b[0] && b[0] == c[0] {
      StrLeTransitive(a[1..], b[1..], c[1..]);
    }
  }

  lemma {:induction false} StrLeTotal(a: string, b: string)
    ensures StrLe(a, b) || StrLe(b, a)
  {
    if a != [] && b != [] && a[0] == b[0] {
      StrLeTotal(a[1..], b[1..]);
    }
  }

  // Where two strings first differ, their characters decide; a string comes after its prefixes.
  lemma {:induction false} FirstDifferenceDecides(prefix: string, a: char, x: string, b: char, y: string)
    requires a < b
    ensures StrLt(prefix + [a] + x, prefix + [b] + y) && !StrLe(prefix + [b] + y, prefix + [a] + x)
    ensures StrLe(prefix, prefix + x)
    decreases prefix
  {
    var s, t := prefix + [a] + x, prefix + [b] + y;
    if prefix == [] {
      assert s[0] == a && t[0] == b;
    } else {
      assert s[1..] == prefix[1..] + [a] + x && t[1..] == prefix[1..] + [b] + y;
      assert (prefix + x)[1..] == prefix[1..] + x;
      FirstDifferenceDecides(prefix[1..], a, x, b, y);
    }
  }

  lemma StrLtTransitive(a: string, b: string, c: string)
    requires StrLt(a, b) && StrLt(b, c)
    ensures StrLt(a, c)
  {
    StrLeTransitive(a, b, c);
    if a == c { StrLeAntisymmetric(a, b); }
  }

  predicate IsSorted(s: seq<string>) {
    forall i, j :: 0 <= i < j < |s| ==> StrLe(s[i], s[j])
  }

  predicate StrictlySorted(s: seq<string>) {
    forall i, j :: 0 <= i < j < |s| ==> StrLt(s[i], s[j])
  }

  function Insert(x: string, s: seq<string>): (r: seq<string>)
    ensures multiset(r) == multiset(s) + multiset{x}
  {
    if s == [] then [x]
    else if StrLe(x, s[0]) then [x] + s
    else
      assert s == [s[0]] + s[1..];
      [s[0]] + Insert(x, s[1..])
  }

  // sort.Strings: the sorted arrangement of the same strings.
  function Sort(s: seq<string>): (r: seq<string>)
    ensures multiset(r) == multiset(s)
    ensures |r| == |s|
  {
    if s == [] then []
    else
      assert s == [s[0]] + s[1..];
      var r := Insert(s[0], Sort(s[1..]));
      assert |multiset(r)| == |multiset(s)|;
      r
  }

  lemma {:induction false} InsertSorted(x: string, s: seq<string>)
    requires IsSorted(s)
    ensures IsSorted(Insert(x, s))
  {
    if s != [] {
      StrLeTotal(x, s[0]);
      if StrLe(x, s[0]) {
        forall i | 0 <= i < |s| ensures StrLe(x, s[i]) {
          if i > 0 { StrLeTransitive(x, s[0], s[i]); }
        }
      } else {
        InsertSorted(x, s[1..]);
        var rest := Insert(x, s[1..]);
        forall i | 0 <= i < |rest| ensures StrLe(s[0], rest[i]) {
          assert rest[i] in multiset(rest);
          assert rest[i] == x || rest[i] in s[1..];
        }
      }
    }
  }

  lemma {:induction false} SortSorted(s: seq<string>)
    ensures IsSorted(Sort(s))
  {
    if s != [] {
      SortSorted(s[1..]);
      InsertSorted(s[0], Sort(s[1..]));
    }
  }

  lemma {:induction false} StrLeReflexive(a: string)
    ensures StrLe(a, a)
  {
    if a != [] { StrLeReflexive(a[1..]); }
  }

  lemma HeadIsLeast(s: seq<string>, x: string)
    requires IsSorted(s) && x in multiset(s)
    ensures s != [] && StrLe(s[0], x)
  {
    var i :| 0 <= i < |s| && s[i] == x;
    StrLeReflexive(x);
  }

  lemma TailMultiset(s: seq<string>)
    requires s != []
    ensures multiset(s[1..]) == multiset(s) - multiset{s[0]}
  {
    assert s == [s[0]] + s[1..];
  }

  // A sorted sequence is determined by its elements, so sorting forgets the input order.
  lemma {:induction false} SortedUnique(a: seq<string>, b: seq<string>)
    requires IsSorted(a) && IsSorted(b) && multiset(a) == multiset(b)
    ensures a == b
    decreases |a|
  {
    if a == [] {
      assert |multiset(b)| == |b|;
    } else {
      assert a[0] in multiset(b);
      HeadIsLeast(b, a[0]);
      assert b[0] in multiset(a) by { assert b[0] in multiset(b); }
      HeadIsLeast(a, b[0]);
      StrLeAntisymmetric(a[0], b[0]);
      TailMultiset(a);
      TailMultiset(b);
      SortedUnique(a[1..], b[1..]);
      assert a == [a[0]] + a[1..] && b == [b[0]] + b[1..];
    }
  }

  lemma SortPermutation(a: seq<string>, b: seq<string>)
    requires multiset(a) == multiset(b)
    ensures Sort(a) == Sort(b)
  {
    SortSorted(a);
    SortSorted(b);
    SortedUnique(Sort(a), Sort(b));
  }

  // The head of the sorted sequence is the least element.
  lemma SortHeadIsLeast(s: seq<string>)
    requires s != []
    ensures Sort(s)[0] in s
    ensures forall x :: x in s ==> StrLe(Sort(s)[0], x)
  {
    SortSorted(s);
    assert Sort(s)[0] in multiset(Sort(s));
    forall x | x in s ensures StrLe(Sort(s)[0], x) {
      assert x in multiset(Sort(s));
      HeadIsLeast(Sort(s), x);
    }
  }

  predicate Distinct(s: seq<string>) {
    forall i, j :: 0 <= i < j < |s| ==> s[i] != s[j]
  }

  // Any names, each kept once.
  lemma {:induction false} Deduplicated(s: seq<string>) returns (t: seq<string>)
    ensures Distinct(t) && forall x :: x in t <==> x in s
  {
    if s == [] {
      t := [];
    } else {
      t := Deduplicated(s[1..]);
      if s[0] !in t { t := [s[0]] + t; }
    }
  }

  // Checking only neighbours after sorting finds every duplicate.
  lemma AdjacentCheckFindsDuplicates(s: seq<string>)
    ensures Distinct(s) <==> forall i :: 0 < i < |Sort(s)| ==> Sort(s)[i - 1] != Sort(s)[i]
  {
    var t := Sort(s);
    SortSorted(s);
    DistinctByMultiset(s);
    DistinctByMultiset(t);
    if !Distinct(t) {
      var i, j :| 0 <= i < j < |t| && t[i] == t[j];
      StrLeAntisymmetric(t[i], t[i + 1]) by {
        if i + 1 == j { StrLeReflexive(t[j]); } else { assert StrLe(t[i + 1], t[j]); }
      }
      assert t[i + 1 - 1] == t[i + 1];
    }
  }

  lemma {:induction false} DistinctByMultiset(s: seq<string>)
    ensures Distinct(s) <==> forall x :: x in multiset(s) ==> multiset(s)[x] == 1
  {
    if s != [] {
      var t := s[1..];
      assert s == [s[0]] + t;
      DistinctByMultiset(t);
      if s[0] in t {
        var j :| 0 <= j < |t| && t[j] == s[0];
        assert s[0] == s[j + 1];
        assert multiset(t)[s[0]] >= 1;
        assert multiset(s)[s[0]] >= 2;
      } else {
        assert multiset(t)[s[0]] == 0;
        if Distinct(t) {
          forall i, j | 0 <= i < j < |s| ensures s[i] != s[j] {
            if i > 0 { assert s[i] == t[i - 1] && s[j] == t[j - 1]; } else { assert s[j] == t[j - 1]; }
          }
          forall x | x in multiset(s) ensures multiset(s)[x] == 1 {
            if x != s[0] { assert x in multiset(t); }
          }
        } else {
          var i, j :| 0 <= i < j < |t| && t[i] == t[j];
          assert s[i + 1] == s[j + 1];
          var x :| x in multiset(t) && multiset(t)[x] != 1;
          assert x in multiset(s) && multiset(s)[x] == multiset(t)[x];
        }
      }
    }
  }

  lemma SortedDistinctIsStrict(s: seq<string>)
    requires Distinct(s)
    ensures StrictlySorted(Sort(s))
  {
    SortSorted(s);
    DistinctByMultiset(s);
    DistinctByMultiset(Sort(s));
  }
}
