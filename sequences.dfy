/** Swift's `Array.filter`, as a recursive function, and what it means to keep the
    elements that satisfy a predicate in their original order. */
module Sequences {

  /** `r` is the subsequence of `s` taken at the strictly increasing positions `idx`. */
  ghost predicate SubsequenceAt<T>(r: seq<T>, s: seq<T>, idx: seq<nat>) {
    |idx| == |r|
    && (forall k :: 0 <= k < |idx| ==> idx[k] < |s| && r[k] == s[idx[k]])
    && (forall k, l :: 0 <= k < l < |idx| ==> idx[k] < idx[l])
  }

  /** `s.filter(f)`: the elements of `s` for which `f` holds, in order. */
  function Filter<T(==)>(f: T -> bool, s: seq<T>): (r: seq<T>)
    ensures |r| <= |s|
    ensures forall i :: 0 <= i < |r| ==> f(r[i])
    ensures |r| == |s| <==> forall i :: 0 <= i < |s| ==> f(s[i])
  {
    if s == [] then []
    else if f(s[0]) then
      assert s == [s[0]] + s[1..];
      [s[0]] + Filter(f, s[1..])
    else
      assert s == [s[0]] + s[1..];
      Filter(f, s[1..])
  }

  /** The positions, counted from `offset`, of the elements of `s` that satisfy `f`. */
  ghost function Positions<T>(f: T -> bool, s: seq<T>, offset: nat): seq<nat> {
    if s == [] then []
    else (if f(s[0]) then [offset] else []) + Positions(f, s[1..], offset + 1)
  }

  lemma {:induction false} PositionsSelect<T>(f: T -> bool, s: seq<T>, offset: nat)
    ensures |Positions(f, s, offset)| == |Filter(f, s)|
    ensures forall k :: 0 <= k < |Filter(f, s)| ==>
      offset <= Positions(f, s, offset)[k] < offset + |s|
      && Filter(f, s)[k] == s[Positions(f, s, offset)[k] - offset]
  {
    if s != [] {
      PositionsSelect(f, s[1..], offset + 1);
    }
  }

  /** Every position counted from `offset` is at least `offset`. */
  lemma {:induction false} PositionsLowerBound<T>(f: T -> bool, s: seq<T>, offset: nat)
    ensures forall k :: 0 <= k < |Positions(f, s, offset)| ==> offset <= Positions(f, s, offset)[k]
  {
    if s != [] {
      PositionsLowerBound(f, s[1..], offset + 1);
    }
  }

  lemma {:induction false} PositionsIncreasing<T>(f: T -> bool, s: seq<T>, offset: nat)
    ensures forall k, l :: 0 <= k < l < |Positions(f, s, offset)| ==>
      Positions(f, s, offset)[k] < Positions(f, s, offset)[l]
  {
    if s != [] {
      PositionsIncreasing(f, s[1..], offset + 1);
      PositionsLowerBound(f, s[1..], offset + 1);
    }
  }

  lemma {:induction false} PositionsComplete<T>(f: T -> bool, s: seq<T>, offset: nat)
    ensures forall i :: 0 <= i < |s| ==> (f(s[i]) <==> offset + i in Positions(f, s, offset))
  {
    if s != [] {
      var head: seq<nat> := if f(s[0]) then [offset] else [];
      var tail := Positions(f, s[1..], offset + 1);
      assert Positions(f, s, offset) == head + tail;
      PositionsComplete(f, s[1..], offset + 1);
      PositionsLowerBound(f, s[1..], offset + 1);
      assert offset !in tail;
      forall i | 0 <= i < |s|
        ensures f(s[i]) <==> offset + i in head + tail
      {
        if i > 0 {
          assert s[i] == s[1..][i - 1];
          assert offset + i !in head;
        }
      }
    }
  }

  /** The result of `Filter` is taken from `s` at exactly the positions whose element
      satisfies `f`, in increasing order; together with `SubsequenceAt` this fixes it. */
  lemma FilterPositions<T>(f: T -> bool, s: seq<T>) returns (idx: seq<nat>)
    ensures SubsequenceAt(Filter(f, s), s, idx)
    ensures forall i :: 0 <= i < |s| ==> (f(s[i]) <==> i in idx)
  {
    idx := Positions(f, s, 0);
    PositionsSelect(f, s, 0);
    PositionsLowerBound(f, s, 0);
    PositionsIncreasing(f, s, 0);
    PositionsComplete(f, s, 0);
  }

  /** An element is kept by `Filter` exactly when it occurs in `s` and satisfies `f`. */
  lemma {:induction false} FilterMembers<T>(f: T -> bool, s: seq<T>)
    ensures forall x :: x in Filter(f, s) <==> x in s && f(x)
  {
    var idx := FilterPositions(f, s);
    var r := Filter(f, s);
    forall x | x in s && f(x)
      ensures x in r
    {
      var i :| 0 <= i < |s| && s[i] == x;
      var k :| 0 <= k < |idx| && idx[k] == i;
      assert r[k] == x;
    }
    forall x | x in r
      ensures x in s && f(x)
    {
      var k :| 0 <= k < |r| && r[k] == x;
      assert s[idx[k]] == x;
    }
  }

  /** `Filter` never duplicates an element: each occurs at most as often as in `s`. */
  lemma {:induction false} FilterSubMultiset<T>(f: T -> bool, s: seq<T>)
    ensures multiset(Filter(f, s)) <= multiset(s)
  {
    if s != [] {
      FilterSubMultiset(f, s[1..]);
      assert s == [s[0]] + s[1..];
    }
  }

  /** Filtering by two predicates that agree on every element gives the same result. */
  lemma {:induction false} FilterCongruent<T>(f: T -> bool, g: T -> bool, s: seq<T>)
    requires forall x :: f(x) == g(x)
    ensures Filter(f, s) == Filter(g, s)
  {
    if s != [] {
      FilterCongruent(f, g, s[1..]);
    }
  }

  /** Filtering by a predicate that every element satisfies changes nothing. */
  lemma {:induction false} FilterAll<T>(f: T -> bool, s: seq<T>)
    requires forall i :: 0 <= i < |s| ==> f(s[i])
    ensures Filter(f, s) == s
  {
    if s != [] {
      FilterAll(f, s[1..]);
    }
  }
}
