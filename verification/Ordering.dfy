/** Sequences without repetition, and Python's ordering and sorting of strings. */
module Ordering {
  function Elems<T>(s: seq<T>): set<T> {
    set x | x in s
  }

  // `len(s) == len(set(s))`.
  ghost predicate NoDup<T>(s: seq<T>) {
    |Elems(s)| == |s|
  }

  lemma {:induction false} ElemsBound<T>(s: seq<T>)
    ensures |Elems(s)| <= |s|
  {
    if s != [] {
      ElemsBound(s[1..]);
      assert Elems(s) == {s[0]} + Elems(s[1..]);
    }
  }

  lemma ElemsAppend<T>(s: seq<T>, x: T)
    ensures Elems(s + [x]) == Elems(s) + {x}
  {
  }

  lemma AppendDistinct<T>(s: seq<T>, x: T)
    requires NoDup(s) && x !in Elems(s)
    ensures NoDup(s + [x]) && Elems(s + [x]) == Elems(s) + {x}
  {
    ElemsAppend(s, x);
  }

  lemma {:induction false} NoDupIndices<T>(s: seq<T>)
    ensures NoDup(s) <==> forall i, j :: 0 <= i < j < |s| ==> s[i] != s[j]
  {
    if s != [] {
      var front, last := s[..|s| - 1], s[|s| - 1];
      NoDupIndices(front);
      ElemsAppend(front, last);
      ElemsBound(front);
      assert s == front + [last];
      if last in front {
        var k :| 0 <= k < |front| && front[k] == last;
        assert Elems(s) == Elems(front) && s[k] == s[|s| - 1];
      } else if NoDup(front) {
        forall i, j | 0 <= i < j < |s| ensures s[i] != s[j] {
          if j < |front| { assert front[i] != front[j]; }
        }
      } else {
        var i, j :| 0 <= i < j < |front| && front[i] == front[j];
        assert s[i] == s[j];
      }
    }
  }

  lemma {:induction false} NextIsNew<T>(s: seq<T>, i: nat)
    requires NoDup(s) && i < |s|
    ensures s[i] !in Elems(s[..i]) && s[..i + 1] == s[..i] + [s[i]]
    ensures Elems(s[..i + 1]) == Elems(s[..i]) + {s[i]}
  {
    NoDupIndices(s);
    assert s[..i + 1] == s[..i] + [s[i]];
  }

  lemma {:induction false} NoDupPrefix<T>(s: seq<T>, n: nat)
    requires NoDup(s) && n <= |s|
    ensures NoDup(s[..n])
  {
    NoDupIndices(s);
    NoDupIndices(s[..n]);
  }

  lemma NoDupAppend<T>(a: seq<T>, b: seq<T>)
    requires NoDup(a) && NoDup(b) && Elems(a) !! Elems(b)
    ensures NoDup(a + b) && Elems(a + b) == Elems(a) + Elems(b)
  {
    assert Elems(a + b) == Elems(a) + Elems(b);
    assert |Elems(a) + Elems(b)| == |Elems(a)| + |Elems(b)|;
  }

  // Pigeonhole: more positions than values force a repetition.
  lemma {:induction false} Repetition<T>(s: seq<T>, values: set<T>) returns (i: nat, j: nat)
    requires Elems(s) <= values && |values| < |s|
    ensures i < j < |s| && s[i] == s[j]
  {
    SubsetSize(Elems(s), values);
    NoDupIndices(s);
    i, j :| 0 <= i < j < |s| && s[i] == s[j];
  }

  lemma {:induction false} SubsetSize<T>(a: set<T>, b: set<T>)
    requires a <= b
    ensures |a| <= |b|
    ensures |a| == |b| ==> a == b
  {
    if a != {} {
      var x :| x in a;
      SubsetSize(a - {x}, b - {x});
      assert a == (a - {x}) + {x} && b == (b - {x}) + {x};
    }
  }

  // Python's `<` on strings: code point by code point, a proper prefix first.
  predicate Less(a: string, b: string) {
    if |b| == 0 then false
    else if |a| == 0 then true
    else a[0] < b[0] || (a[0] == b[0] && Less(a[1..], b[1..]))
  }

  lemma {:induction false} LessIrreflexive(a: string)
    ensures !Less(a, a)
  {
    if |a| > 0 {
      LessIrreflexive(a[1..]);
    }
  }

  lemma {:induction false} LessTransitive(a: string, b: string, c: string)
    requires Less(a, b) && Less(b, c)
    ensures Less(a, c)
  {
    if |a| > 0 && a[0] == b[0] && b[0] == c[0] {
      LessTransitive(a[1..], b[1..], c[1..]);
    }
  }

  lemma {:induction false} LessTotal(a: string, b: string)
    ensures Less(a, b) || a == b || Less(b, a)
  {
    if |a| > 0 && |b| > 0 && a[0] == b[0] {
      LessTotal(a[1..], b[1..]);
      assert a == [a[0]] + a[1..] && b == [b[0]] + b[1..];
    }
  }

  // Identifiers are strings compared as Python compares them.
  datatype Id = Id(text: string)

  predicate Precedes(a: Id, b: Id) {
    Less(a.text, b.text)
  }

  // No later identifier is smaller than an earlier one.
  ghost predicate Ascending(s: seq<Id>) {
    forall i, j :: 0 <= i < j < |s| ==> !Precedes(s[j], s[i])
  }

  lemma BelowHead(x: Id, s: seq<Id>)
    requires Ascending(s) && s != [] && !Precedes(s[0], x)
    ensures Ascending([x] + s)
  {
    forall i | 0 <= i < |s| ensures !Precedes(s[i], x) {
      LessTotal(s[0].text, s[i].text);
      if Precedes(s[i], x) && Precedes(s[0], s[i]) { LessTransitive(s[0].text, s[i].text, x.text); }
    }
  }

  lemma AboveHead(x: Id, s: seq<Id>, rest: seq<Id>)
    requires Ascending(s) && s != [] && Precedes(s[0], x)
    requires Ascending(rest) && multiset(rest) == multiset{x} + multiset(s[1..])
    ensures Ascending([s[0]] + rest) && multiset([s[0]] + rest) == multiset{x} + multiset(s)
  {
    assert s == [s[0]] + s[1..];
    forall y | y in rest ensures !Precedes(y, s[0]) {
      assert y in multiset(rest);
      if Precedes(x, s[0]) {
        LessTransitive(x.text, s[0].text, x.text);
        LessIrreflexive(x.text);
      }
    }
  }

  function Insert(x: Id, s: seq<Id>): (r: seq<Id>)
    requires Ascending(s)
    ensures multiset(r) == multiset{x} + multiset(s) && Ascending(r)
  {
    if s == [] then [x]
    else if !Precedes(s[0], x) then
      BelowHead(x, s);
      [x] + s
    else
      var rest := Insert(x, s[1..]);
      AboveHead(x, s, rest);
      [s[0]] + rest
  }

  // `sorted(s)`.
  function Sort(s: seq<Id>): (r: seq<Id>)
    ensures multiset(r) == multiset(s)
    ensures Ascending(r)
  {
    if s == [] then [] else
      assert s == [s[0]] + s[1..];
      Insert(s[0], Sort(s[1..]))
  }

  lemma SameMultiset<T>(a: seq<T>, b: seq<T>)
    requires multiset(a) == multiset(b)
    ensures Elems(a) == Elems(b) && |a| == |b|
    ensures NoDup(b) ==> NoDup(a)
  {
    assert forall x :: x in a <==> x in multiset(a);
    assert forall x :: x in b <==> x in multiset(b);
    assert |a| == |multiset(a)| && |b| == |multiset(b)|;
  }

  // Sorting a list of distinct identifiers makes it strictly increasing.
  lemma SortDistinct(s: seq<Id>)
    requires NoDup(s)
    ensures NoDup(Sort(s)) && Elems(Sort(s)) == Elems(s) && |Sort(s)| == |s|
    ensures forall i, j :: 0 <= i < j < |s| ==> Precedes(Sort(s)[i], Sort(s)[j])
  {
    SameMultiset(Sort(s), s);
    NoDupIndices(Sort(s));
    forall i, j | 0 <= i < j < |s| ensures Precedes(Sort(s)[i], Sort(s)[j]) {
      LessTotal(Sort(s)[i].text, Sort(s)[j].text);
    }
  }

  ghost predicate StrictOrder<T(!new)>(before: (T, T) -> bool) {
    && (forall x :: !before(x, x))
    && (forall x, y, z :: before(x, y) && before(y, z) ==> before(x, z))
  }

  // A set has only one strictly increasing listing.
  lemma {:induction false} UniqueListing<T(!new)>(before: (T, T) -> bool, a: seq<T>, b: seq<T>)
    requires StrictOrder(before)
    requires forall i, j :: 0 <= i < j < |a| ==> before(a[i], a[j])
    requires forall i, j :: 0 <= i < j < |b| ==> before(b[i], b[j])
    requires Elems(a) == Elems(b)
    ensures a == b
  {
    assert a != [] ==> a[0] in Elems(b);
    assert b != [] ==> b[0] in Elems(a);
    if a != [] && b != [] {
      var x, y := a[0], b[0];
      var i :| 0 <= i < |b| && b[i] == x;
      var j :| 0 <= j < |a| && a[j] == y;
      assert i > 0 ==> before(y, x);
      assert j > 0 ==> before(x, y);
      forall z ensures z in a[1..] <==> z in b[1..] {
        assert z in Elems(a) <==> z in Elems(b);
        assert z in a[1..] ==> before(x, z);
        assert z in b[1..] ==> before(y, z);
      }
      UniqueListing(before, a[1..], b[1..]);
      assert a == [a[0]] + a[1..] && b == [b[0]] + b[1..];
    }
  }

  // s is what `keep` leaves of the source, in the source's order; `at` says where it stands there.
  ghost predicate Picks<T>(s: seq<T>, source: seq<T>, at: seq<nat>, keep: T -> bool) {
    Increasing(at) && Copies(s, source, at) && KeptAt(source, at, keep)
  }

  ghost predicate Increasing(at: seq<nat>) {
    forall k, l :: 0 <= k < l < |at| ==> at[k] < at[l]
  }

  ghost predicate Copies<T>(s: seq<T>, source: seq<T>, at: seq<nat>) {
    |s| == |at| && forall k :: 0 <= k < |at| ==> at[k] < |source| && s[k] == source[at[k]]
  }

  ghost predicate KeptAt<T>(source: seq<T>, at: seq<nat>, keep: T -> bool) {
    forall i: nat :: i in at <==> i < |source| && keep(source[i])
  }

  function OneOn(at: seq<nat>): (r: seq<nat>)
    ensures |r| == |at| && forall k :: 0 <= k < |at| ==> r[k] == at[k] + 1
  {
    seq(|at|, k requires 0 <= k < |at| => at[k] + 1)
  }

  lemma {:induction false} OneOnHas(at: seq<nat>, i: nat)
    ensures i in OneOn(at) <==> i > 0 && i - 1 in at
  {
    if i in OneOn(at) {
      var k :| 0 <= k < |at| && OneOn(at)[k] == i;
      assert at[k] == i - 1;
    }
    if i > 0 && i - 1 in at {
      var k :| 0 <= k < |at| && at[k] == i - 1;
      assert OneOn(at)[k] == i;
    }
  }

  lemma {:induction false} KeptNext<T>(source: seq<T>, rest: seq<nat>, keep: T -> bool, i: nat)
    requires source != [] && KeptAt(source[1..], rest, keep)
    ensures i in OneOn(rest) <==> 0 < i < |source| && keep(source[i])
  {
    OneOnHas(rest, i);
    hide OneOn;
    if i > 0 {
      var j: nat := i - 1;
      assert j in rest <==> j < |source[1..]| && keep(source[1..][j]);
    }
  }

  lemma {:induction false} PickNext<T>(s: seq<T>, source: seq<T>, rest: seq<nat>, keep: T -> bool)
    returns (at: seq<nat>)
    requires source != [] && Picks(s, source[1..], rest, keep)
    ensures Picks((if keep(source[0]) then [source[0]] else []) + s, source, at, keep)
  {
    hide KeptAt;
    at := (if keep(source[0]) then [0] else []) + OneOn(rest);
    assert KeptAt(source, at, keep) by {
      PickKept(source, rest, keep, at);
    }
    assert forall k :: 0 <= k < |rest| ==> source[1..][rest[k]] == source[rest[k] + 1];
  }

  lemma {:induction false} PickKept<T>(source: seq<T>, rest: seq<nat>, keep: T -> bool, at: seq<nat>)
    requires source != [] && KeptAt(source[1..], rest, keep)
    requires at == (if keep(source[0]) then [0] else []) + OneOn(rest)
    ensures KeptAt(source, at, keep)
  {
    hide OneOn;
    forall i: nat ensures i in at <==> i < |source| && keep(source[i]) {
      KeptNext(source, rest, keep, i);
      assert i in at <==> (keep(source[0]) && i == 0) || i in OneOn(rest);
    }
  }
}
