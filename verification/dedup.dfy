/** Duplicate removal as `[...new Set(xs)]` performs it: a JavaScript `Set`
    remembers insertion order and ignores re-insertions, so spreading it
    keeps the first occurrence of every element, in order of first
    occurrence. */
module Dedup {
  import opened Base

  /** Position of the first occurrence of `x` in `s`. */
  function FirstIndex<T(==)>(s: seq<T>, x: T): (i: nat)
    requires x in s
    ensures i < |s| && s[i] == x && x !in s[..i]
  {
    if s[0] == x then 0
    else
      var k := FirstIndex(s[1..], x);
      assert s[..k + 1] == [s[0]] + s[1..][..k];
      1 + k
  }

  /** The first occurrence is the only index holding `x` with no `x` before it. */
  lemma FirstIndexIsUnique<T>(s: seq<T>, x: T, i: nat)
    requires i < |s| && s[i] == x && x !in s[..i]
    ensures FirstIndex(s, x) == i
  {
    var k := FirstIndex(s, x);
    assert forall j :: 0 <= j < i ==> s[..i][j] == s[j];
    assert forall j :: 0 <= j < k ==> s[..k][j] == s[j];
  }

  /** Appending an element does not move the first occurrence of anything
      already present, and a new element first occurs at the end. */
  lemma FirstIndexAppend<T>(p: seq<T>, x: T, y: T)
    requires y in p + [x]
    ensures y in p ==> FirstIndex(p + [x], y) == FirstIndex(p, y)
    ensures y !in p ==> FirstIndex(p + [x], y) == |p|
  {
    var s := p + [x];
    if y in p {
      var i := FirstIndex(p, y);
      assert s[..i] == p[..i];
      FirstIndexIsUnique(s, y, i);
    } else {
      assert s[..|p|] == p;
      FirstIndexIsUnique(s, y, |p|);
    }
  }

  /** `r` lists elements of `s` in the order of their first occurrence in `s`. */
  ghost predicate FirstOccurrenceOrder<T>(s: seq<T>, r: seq<T>)
    requires forall i :: 0 <= i < |r| ==> r[i] in s
  {
    forall i, j :: 0 <= i < j < |r| ==> FirstIndex(s, r[i]) < FirstIndex(s, r[j])
  }

  /** The elements of `s` without repeats, in order of first occurrence. */
  function Unique<T(==)>(s: seq<T>): (r: seq<T>)
    ensures Distinct(r)
    ensures forall i :: 0 <= i < |r| ==> r[i] in s
    ensures forall i :: 0 <= i < |s| ==> s[i] in r
    ensures FirstOccurrenceOrder(s, r)
  {
    if |s| == 0 then []
    else
      var p := s[..|s| - 1];
      var x := s[|s| - 1];
      var init := Unique(p);
      assert s == p + [x];
      var r := if x in p then init else init + [x];
      UniqueExtend(p, x, init);
      r
  }

  /** One step of the recursion behind `Unique`: appending `x` keeps all
      four properties. */
  lemma UniqueExtend<T>(p: seq<T>, x: T, u: seq<T>)
    requires Distinct(u)
    requires forall i :: 0 <= i < |u| ==> u[i] in p
    requires forall i :: 0 <= i < |p| ==> p[i] in u
    requires FirstOccurrenceOrder(p, u)
    ensures var r := if x in p then u else u + [x];
            && Distinct(r)
            && (forall i :: 0 <= i < |r| ==> r[i] in p + [x])
            && (forall i :: 0 <= i < |p + [x]| ==> (p + [x])[i] in r)
            && FirstOccurrenceOrder(p + [x], r)
  {
    if x in p {
      ExtendSeen(p, x, u);
    } else {
      ExtendNew(p, x, u);
    }
  }

  lemma ExtendSeen<T>(p: seq<T>, x: T, u: seq<T>)
    requires x in p
    requires forall i :: 0 <= i < |u| ==> u[i] in p
    requires forall i :: 0 <= i < |p| ==> p[i] in u
    requires FirstOccurrenceOrder(p, u)
    ensures forall i :: 0 <= i < |u| ==> u[i] in p + [x]
    ensures forall i :: 0 <= i < |p + [x]| ==> (p + [x])[i] in u
    ensures FirstOccurrenceOrder(p + [x], u)
  {
    var s := p + [x];
    var k :| 0 <= k < |p| && p[k] == x;
    assert p[k] in u;
    forall i, j | 0 <= i < j < |u|
      ensures FirstIndex(s, u[i]) < FirstIndex(s, u[j])
    {
      FirstIndexAppend(p, x, u[i]);
      FirstIndexAppend(p, x, u[j]);
    }
  }

  lemma ExtendNew<T>(p: seq<T>, x: T, u: seq<T>)
    requires x !in p
    requires Distinct(u)
    requires forall i :: 0 <= i < |u| ==> u[i] in p
    requires forall i :: 0 <= i < |p| ==> p[i] in u
    requires FirstOccurrenceOrder(p, u)
    ensures Distinct(u + [x])
    ensures forall i :: 0 <= i < |u + [x]| ==> (u + [x])[i] in p + [x]
    ensures forall i :: 0 <= i < |p + [x]| ==> (p + [x])[i] in u + [x]
    ensures FirstOccurrenceOrder(p + [x], u + [x])
  {
    var s := p + [x];
    var r := u + [x];
    assert forall i :: 0 <= i < |u| ==> r[i] == u[i];
    assert x !in u;
    FirstIndexAppend(p, x, x);
    forall i, j | 0 <= i < j < |r|
      ensures FirstIndex(s, r[i]) < FirstIndex(s, r[j])
    {
      FirstIndexAppend(p, x, r[i]);
      FirstIndexAppend(p, x, r[j]);
    }
  }

  /** Deduplicating one more element appends it exactly when it is new. */
  lemma UniqueSnoc<T>(p: seq<T>, x: T)
    ensures Unique(p + [x]) == if x in p then Unique(p) else Unique(p) + [x]
  {
    assert (p + [x])[..|p|] == p;
  }

  /** Spreading a `Set` built by inserting the elements of `s` one by one,
      as `[...new Set(s)]` does, yields exactly `Unique(s)`. */
  method SpreadSet<T(==)>(s: seq<T>) returns (r: seq<T>)
    ensures r == Unique(s)
  {
    var seen: set<T> := {};
    r := [];
    var i := 0;
    while i < |s|
      invariant 0 <= i <= |s|
      invariant r == Unique(s[..i])
      invariant forall x :: x in seen <==> x in s[..i]
    {
      assert s[..i + 1] == s[..i] + [s[i]];
      UniqueSnoc(s[..i], s[i]);
      if s[i] !in seen {
        seen := seen + {s[i]};
        r := r + [s[i]];
      }
      i := i + 1;
    }
    assert s[..|s|] == s;
  }

  /** An element of a sequence without repeats occurs in it exactly once. */
  lemma {:induction false} DistinctCount<T>(s: seq<T>, x: T)
    requires Distinct(s)
    ensures multiset(s)[x] == if x in s then 1 else 0
  {
    if |s| > 0 {
      var p := s[..|s| - 1];
      assert s == p + [s[|s| - 1]];
      assert Distinct(p);
      DistinctCount(p, x);
      assert s[|s| - 1] !in p;
    }
  }

  /** A sequence without repeats is its own deduplication. */
  lemma {:induction false} UniqueOfDistinct<T>(s: seq<T>)
    requires Distinct(s)
    ensures Unique(s) == s
  {
    if |s| > 0 {
      var p := s[..|s| - 1];
      assert s == p + [s[|s| - 1]];
      assert Distinct(p);
      UniqueOfDistinct(p);
      assert s[|s| - 1] !in p;
    }
  }
}
