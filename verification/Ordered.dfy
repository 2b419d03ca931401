/**
 Ordered iteration. A Rust `BTreeMap` visits its keys in ascending order, so a
 model of one is a Dafny `map` together with the ascending listing of its keys.
 */
module Ordered {

  ghost predicate Ascending(s: seq<nat>) {
    forall i, j :: 0 <= i < j < |s| ==> s[i] < s[j]
  }

  /** `s` lists exactly the members of `keys`, smallest first. */
  ghost predicate Lists(s: seq<nat>, keys: set<nat>) {
    && Ascending(s)
    && (forall x :: x in s <==> x in keys)
  }

  ghost predicate Least(keys: set<nat>, m: nat) {
    m in keys && forall x :: x in keys ==> m <= x
  }

  lemma {:induction false} MinExists(keys: set<nat>) returns (m: nat)
    requires keys != {}
    ensures Least(keys, m)
  {
    m :| m in keys;
    var rest := keys - {m};
    if rest != {} {
      var other := MinExists(rest);
      forall y | y in keys
        ensures m <= y || other <= y
      {
        assert y == m || y in rest;
      }
      m := if m < other then m else other;
    } else {
      assert keys == {m};
    }
  }

  function Min(keys: set<nat>): (m: nat)
    requires keys != {}
    ensures m in keys && forall x :: x in keys ==> m <= x
  {
    assert exists m :: Least(keys, m) by {
      var m := MinExists(keys);
    }
    var m :| m in keys && forall x :: x in keys ==> m <= x;
    m
  }

  lemma FirstListed(s: seq<nat>, keys: set<nat>)
    requires Lists(s, keys)
    ensures s != [] ==> s[0] in keys
    ensures keys != {} ==> s != []
  {
    if s != [] {
      assert s[0] in s;
    }
    if keys != {} {
      var x :| x in keys;
      assert x in s;
    }
  }

  /** There is only one ascending listing of a set. */
  lemma {:induction false} ListingUnique(s: seq<nat>, t: seq<nat>, keys: set<nat>)
    requires Lists(s, keys) && Lists(t, keys)
    ensures s == t
  {
    FirstListed(s, keys);
    FirstListed(t, keys);
    if keys != {} {
      TailLists(s, keys);
      TailLists(t, keys);
      assert s[0] <= t[0] && t[0] <= s[0];
      ListingUnique(s[1..], t[1..], keys - {s[0]});
      assert s == [s[0]] + s[1..] && t == [t[0]] + t[1..];
    }
  }

  lemma TailLists(s: seq<nat>, keys: set<nat>)
    requires Lists(s, keys) && s != []
    ensures Lists(s[1..], keys - {s[0]})
    ensures forall x :: x in keys ==> s[0] <= x
  {
    forall x
      ensures x in s[1..] <==> x in keys - {s[0]}
    {
      if x in keys - {s[0]} {
        var i :| 0 <= i < |s| && s[i] == x;
        assert s[1..][i - 1] == x;
      }
      if x in s[1..] {
        var i :| 0 <= i < |s| - 1 && s[1..][i] == x;
        assert s[i + 1] == x;
      }
    }
  }

  lemma {:induction false} ListingExists(keys: set<nat>)
    ensures exists s :: Lists(s, keys) && |s| == |keys|
  {
    if keys == {} {
      assert Lists([], keys);
    } else {
      var m := Min(keys);
      ListingExists(keys - {m});
      var rest :| Lists(rest, keys - {m}) && |rest| == |keys - {m}|;
      assert forall i :: 0 <= i < |rest| ==> rest[i] in keys - {m};
      assert Lists([m] + rest, keys);
    }
  }

  /** The keys in the order a `BTreeMap` visits them. */
  ghost function Sorted(keys: set<nat>): (s: seq<nat>)
    ensures Lists(s, keys) && |s| == |keys|
  {
    ListingExists(keys);
    var s :| Lists(s, keys) && |s| == |keys|;
    s
  }

  lemma ListsAppend(s: seq<nat>, keys: set<nat>, m: nat)
    requires Lists(s, keys) && forall x :: x in keys ==> x < m
    ensures Lists(s + [m], keys + {m})
  {
    assert forall i :: 0 <= i < |s| ==> s[i] in keys;
  }

  ghost predicate AllBelow(a: set<nat>, b: set<nat>) {
    forall x, y :: x in a && y in b ==> x < y
  }

  lemma MinMoves(visited: set<nat>, rest: set<nat>)
    requires rest != {} && AllBelow(visited, rest)
    ensures AllBelow(visited + {Min(rest)}, rest - {Min(rest)})
  {
  }

  /** Visits the keys of a `BTreeMap` in order. */
  method SortedKeys(keys: set<nat>) returns (s: seq<nat>)
    ensures s == Sorted(keys)
  {
    s := [];
    var rest := keys;
    ghost var visited: set<nat> := {};
    while rest != {}
      invariant visited + rest == keys && visited !! rest
      invariant Lists(s, visited)
      invariant AllBelow(visited, rest)
      decreases |rest|
    {
      var m := Min(rest);
      MinMoves(visited, rest);
      ListsAppend(s, visited, m);
      s := s + [m];
      visited := visited + {m};
      rest := rest - {m};
    }
    assert visited == keys;
    ListingUnique(s, Sorted(keys), keys);
  }

  /** The values of a `BTreeMap`, in the order of their keys. */
  method Values<V>(m: map<nat, V>) returns (list: seq<V>)
    ensures |list| == |Sorted(m.Keys)|
    ensures forall k :: 0 <= k < |list| ==> Sorted(m.Keys)[k] in m && list[k] == m[Sorted(m.Keys)[k]]
  {
    var order := SortedKeys(m.Keys);
    assert forall k :: 0 <= k < |order| ==> order[k] in order;
    list := seq(|order|, k requires 0 <= k < |order| => m[order[k]]);
  }

  /** Position of a member in an ascending listing. */
  lemma Position(s: seq<nat>, keys: set<nat>, x: nat) returns (i: nat)
    requires Lists(s, keys) && x in keys
    ensures i < |s| && s[i] == x
  {
    assert x in s;
    i :| 0 <= i < |s| && s[i] == x;
  }

  lemma SameOrder(s: seq<nat>, i: nat, j: nat)
    requires Ascending(s) && i < |s| && j < |s|
    ensures s[i] < s[j] <==> i < j
  {
    if j < i {
      assert s[j] < s[i];
    }
  }

  /** The natural numbers below `m`. */
  function Below(m: nat): (r: set<nat>)
    ensures forall k :: k in r <==> 0 <= k < m
    ensures |r| == m
  {
    if m == 0 then {} else Below(m - 1) + {m - 1}
  }

  lemma {:induction false} SubsetSize(a: set<nat>, b: set<nat>)
    requires a <= b
    ensures |a| <= |b|
    ensures |a| == |b| ==> a == b
  {
    if a == {} {
      assert |b| == 0 ==> b == {};
    } else {
      var x :| x in a;
      SubsetSize(a - {x}, b - {x});
      assert |a - {x}| == |a| - 1 && |b - {x}| == |b| - 1;
      assert (a - {x}) + {x} == a && (b - {x}) + {x} == b;
    }
  }
}
