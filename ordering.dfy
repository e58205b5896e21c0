/** Orders on task ids. Ascending id order is the order of `sort("_id", 1)`
    in the pending scan, and the natural order of the task collection, which
    is only ever appended to with growing ids. A collection that is also
    deleted from (the lock table) keeps its own stored order; a query without
    a sort reads the ids of a `Filter` of that order. */
module Ordering {

  predicate IsLeast(m: nat, s: set<nat>)
  {
    m in s && forall y :: y in s ==> m <= y
  }

  /** Every finite non-empty set of ids has a least element. */
  lemma {:induction false} LeastExists(s: set<nat>)
    requires s != {}
    ensures exists m :: IsLeast(m, s)
    decreases s
  {
    var x :| x in s;
    assert forall y :: y in s ==> y == x || y in s - {x};
    if s - {x} == {} {
      assert IsLeast(x, s);
    } else {
      LeastExists(s - {x});
      var m :| IsLeast(m, s - {x});
      if x < m {
        assert IsLeast(x, s);
      } else {
        assert IsLeast(m, s);
      }
    }
  }

  ghost function Least(s: set<nat>): (m: nat)
    requires s != {}
    ensures IsLeast(m, s)
  {
    LeastExists(s);
    var m :| IsLeast(m, s); m
  }

  /** The least element is unique. */
  lemma LeastIs(m: nat, s: set<nat>)
    requires IsLeast(m, s)
    ensures Least(s) == m
  {
  }

  /** The ids of `s`, smallest first. */
  ghost function Ascending(s: set<nat>): seq<nat>
    decreases s
  {
    if s == {} then [] else [Least(s)] + Ascending(s - {Least(s)})
  }

  /** `Ascending(s)` lists every element of `s` exactly once, in strictly
      increasing order, and nothing else. */
  lemma AscendingListsSet(s: set<nat>)
    ensures |Ascending(s)| == |s|
    ensures forall x :: x in Ascending(s) <==> x in s
    ensures forall i, j :: 0 <= i < j < |Ascending(s)| ==> Ascending(s)[i] < Ascending(s)[j]
  {
    AscendingMembers(s);
    AscendingIncreasing(s);
  }

  /** `Ascending(s)` has the elements of `s` and as many entries. */
  lemma {:induction false} AscendingMembers(s: set<nat>)
    ensures |Ascending(s)| == |s|
    ensures forall x :: x in Ascending(s) <==> x in s
    decreases s
  {
    if s != {} {
      var m := Least(s);
      var rest := s - {m};
      AscendingMembers(rest);
      var r := Ascending(s);
      assert r == [m] + Ascending(rest);
      assert |s| == |rest| + 1;
      forall x
        ensures x in r <==> x in s
      {
        assert x in r <==> x == m || x in Ascending(rest);
      }
    }
  }

  /** `Ascending(s)` is strictly increasing. */
  lemma {:induction false} AscendingIncreasing(s: set<nat>)
    ensures forall i, j :: 0 <= i < j < |Ascending(s)| ==> Ascending(s)[i] < Ascending(s)[j]
    decreases s
  {
    if s != {} {
      var m := Least(s);
      var rest := s - {m};
      AscendingIncreasing(rest);
      AscendingMembers(rest);
      var r := Ascending(s);
      var tail := Ascending(rest);
      assert r == [m] + tail;
      forall i, j | 0 <= i < j < |r|
        ensures r[i] < r[j]
      {
        assert r[j] == tail[j - 1] && r[j] in rest;
        if i > 0 {
          assert r[i] == tail[i - 1];
        }
      }
    }
  }

  /** Lists the ids of `s`, smallest first, by repeatedly taking the least
      remaining one. */
  method SortedIds(s: set<nat>) returns (ids: seq<nat>)
    ensures ids == Ascending(s)
  {
    var rest := s;
    ids := [];
    while rest != {}
      invariant ids + Ascending(rest) == Ascending(s)
      decreases rest
    {
      LeastExists(rest);
      var m :| IsLeast(m, rest);
      LeastIs(m, rest);
      ids := ids + [m];
      rest := rest - {m};
    }
  }

  /** No id is listed twice. */
  predicate Distinct(s: seq<nat>)
  {
    forall i, j :: 0 <= i < j < |s| ==> s[i] != s[j]
  }

  function Elements(s: seq<nat>): set<nat>
  {
    set x | x in s
  }

  /** The entries of `s` that are in `keep`, in the order of `s`: what an
      unsorted query reads from a collection stored in the order `s`. */
  function Filter(s: seq<nat>, keep: set<nat>): (r: seq<nat>)
    ensures forall x :: x in r <==> x in s && x in keep
    ensures |r| <= |s|
  {
    if s == [] then []
    else if s[0] in keep then [s[0]] + Filter(s[1..], keep)
    else Filter(s[1..], keep)
  }

  /** Filtering a list without repetitions gives one without repetitions. */
  lemma {:induction false} FilterDistinct(s: seq<nat>, keep: set<nat>)
    requires Distinct(s)
    ensures Distinct(Filter(s, keep))
  {
    if s != [] {
      var t := s[1..];
      assert Distinct(t) by {
        forall i, j | 0 <= i < j < |t| ensures t[i] != t[j] {
          assert t[i] == s[i + 1] && t[j] == s[j + 1];
        }
      }
      FilterDistinct(t, keep);
      if s[0] in keep {
        assert s[0] !in t by {
          forall j | 0 <= j < |t| ensures t[j] != s[0] {
            assert t[j] == s[j + 1];
          }
        }
        var r := Filter(s, keep);
        assert r == [s[0]] + Filter(t, keep);
        forall i, j | 0 <= i < j < |r| ensures r[i] != r[j] {
          assert r[j] == Filter(t, keep)[j - 1];
          if i > 0 {
            assert r[i] == Filter(t, keep)[i - 1];
          }
        }
      }
    }
  }

  /** Filtering by a set that holds every entry changes nothing. */
  lemma {:induction false} FilterKeepsAll(s: seq<nat>, keep: set<nat>)
    requires forall x :: x in s ==> x in keep
    ensures Filter(s, keep) == s
  {
    if s != [] {
      assert s[0] in keep;
      FilterKeepsAll(s[1..], keep);
      assert [s[0]] + s[1..] == s;
    }
  }

  /** Filtering by the empty set keeps nothing. */
  lemma {:induction false} FilterNothing(s: seq<nat>)
    ensures Filter(s, {}) == []
  {
    if s != [] {
      FilterNothing(s[1..]);
    }
  }

  /** Filtering by `a` and then by `b` is filtering by both at once. */
  lemma {:induction false} FilterTwice(s: seq<nat>, a: set<nat>, b: set<nat>)
    ensures Filter(Filter(s, a), b) == Filter(s, a * b)
  {
    if s != [] {
      FilterTwice(s[1..], a, b);
      if s[0] in a {
        assert Filter(s, a) == [s[0]] + Filter(s[1..], a);
        assert ([s[0]] + Filter(s[1..], a))[1..] == Filter(s[1..], a);
      }
    }
  }

  /** A list without repetitions has as many entries as elements. */
  lemma {:induction false} DistinctCount(s: seq<nat>)
    requires Distinct(s)
    ensures |Elements(s)| == |s|
  {
    if s != [] {
      var t := s[1..];
      assert Distinct(t) by {
        forall i, j | 0 <= i < j < |t| ensures t[i] != t[j] {
          assert t[i] == s[i + 1] && t[j] == s[j + 1];
        }
      }
      DistinctCount(t);
      assert s[0] !in t by {
        forall j | 0 <= j < |t| ensures t[j] != s[0] {
          assert t[j] == s[j + 1];
        }
      }
      assert Elements(s) == {s[0]} + Elements(t) by {
        assert s == [s[0]] + t;
      }
    }
  }
}
