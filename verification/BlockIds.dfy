/**
 Identifiers of Ethereum blocks: a Solana slot and an index within it. The
 indexer keeps blocks in a `BTreeMap` of `BTreeMap`s; iterating both levels
 visits the blocks in the order defined here.
 */
module BlockIds {
  import opened Types
  import opened Ordered

  datatype BlockId = BlockId(slot: Slot, idx: nat)

  /** The order of the pairs `(slot, index)`. */
  predicate Before(a: BlockId, b: BlockId) {
    a.slot < b.slot || (a.slot == b.slot && a.idx < b.idx)
  }

  ghost predicate InOrder(ids: seq<BlockId>) {
    forall i, j :: 0 <= i < j < |ids| ==> Before(ids[i], ids[j])
  }

  /** `ids` lists exactly the members of `keys`, in order. */
  ghost predicate ListsIds(ids: seq<BlockId>, keys: set<BlockId>) {
    InOrder(ids) && forall id :: id in ids <==> id in keys
  }

  type Nested<V> = map<Slot, map<nat, V>>

  function IdsIn<V>(m: Nested<V>): set<BlockId> {
    set s, i | s in m && i in m[s] :: BlockId(s, i)
  }

  lemma {:induction false} IdsUnique(a: seq<BlockId>, b: seq<BlockId>, keys: set<BlockId>)
    requires ListsIds(a, keys) && ListsIds(b, keys)
    ensures a == b
    decreases |a|
  {
    assert forall i :: 0 <= i < |a| ==> a[i] in keys;
    assert forall i :: 0 <= i < |b| ==> b[i] in keys;
    if a == [] || b == [] {
      assert a == [] && b == [];
    } else {
      assert a[0] in b && b[0] in a;
      FirstIsLeast(a, b[0]);
      FirstIsLeast(b, a[0]);
      TailIds(a, keys);
      TailIds(b, keys);
      IdsUnique(a[1..], b[1..], keys - {a[0]});
    }
  }

  lemma FirstIsLeast(ids: seq<BlockId>, id: BlockId)
    requires InOrder(ids) && id in ids
    ensures id == ids[0] || Before(ids[0], id)
  {
  }

  lemma TailIds(ids: seq<BlockId>, keys: set<BlockId>)
    requires ListsIds(ids, keys) && ids != []
    ensures ListsIds(ids[1..], keys - {ids[0]})
  {
    forall id
      ensures id in ids[1..] <==> id in keys - {ids[0]}
    {
      if id in keys - {ids[0]} {
        var i :| 0 <= i < |ids| && ids[i] == id;
        assert ids[1..][i - 1] == id;
      }
      if id in ids[1..] {
        var i :| 0 <= i < |ids| - 1 && ids[1..][i] == id;
        assert ids[i + 1] == id;
      }
    }
  }

  /** The ids of one slot, as the inner map lists them. */
  function WithSlot(slot: Slot, indexes: seq<nat>): (r: seq<BlockId>)
    ensures |r| == |indexes| && forall k :: 0 <= k < |r| ==> r[k] == BlockId(slot, indexes[k])
  {
    seq(|indexes|, k requires 0 <= k < |indexes| => BlockId(slot, indexes[k]))
  }

  /** Ids of the slots in `slots`. */
  function IdsAt<V>(m: Nested<V>, slots: seq<Slot>): set<BlockId> {
    set s, i | s in slots && s in m && i in m[s] :: BlockId(s, i)
  }

  lemma AppendSlot<V>(m: Nested<V>, ids: seq<BlockId>, done: seq<Slot>, slot: Slot, indexes: seq<nat>)
    requires ListsIds(ids, IdsAt(m, done)) && slot in m && Lists(indexes, m[slot].Keys)
    requires forall s :: s in done ==> s < slot
    ensures ListsIds(ids + WithSlot(slot, indexes), IdsAt(m, done + [slot]))
  {
    var more := WithSlot(slot, indexes);
    forall i | 0 <= i < |ids|
      ensures ids[i].slot < slot
    {
      assert ids[i] in IdsAt(m, done);
    }
    forall id
      ensures id in ids + more <==> id in IdsAt(m, done + [slot])
    {
      if id in IdsAt(m, done + [slot]) && id.slot == slot {
        assert id.idx in indexes;
        var k :| 0 <= k < |indexes| && indexes[k] == id.idx;
        assert more[k] == id;
      }
      if id in more {
        var k :| 0 <= k < |more| && more[k] == id;
        assert indexes[k] in indexes;
      }
    }
  }

  /** Two nested loops, as `flat_map` over both levels. */
  method ListIds<V>(m: Nested<V>) returns (ids: seq<BlockId>)
    ensures ListsIds(ids, IdsIn(m))
  {
    var slots := SortedKeys(m.Keys);
    ids := [];
    for n := 0 to |slots|
      invariant ListsIds(ids, IdsAt(m, slots[..n]))
    {
      assert slots[n] in slots;
      var indexes := SortedKeys(m[slots[n]].Keys);
      AppendSlot(m, ids, slots[..n], slots[n], indexes);
      assert slots[..n + 1] == slots[..n] + [slots[n]];
      ids := ids + WithSlot(slots[n], indexes);
    }
    assert slots[..|slots|] == slots;
    assert IdsAt(m, slots) == IdsIn(m);
  }

  /** The listing the loops compute exists for every nested map. */
  lemma IdsListing<V>(m: Nested<V>) returns (ids: seq<BlockId>)
    ensures ListsIds(ids, IdsIn(m))
  {
    var slots := Sorted(m.Keys);
    ids := [];
    for n := 0 to |slots|
      invariant ListsIds(ids, IdsAt(m, slots[..n]))
    {
      assert slots[n] in slots;
      AppendSlot(m, ids, slots[..n], slots[n], Sorted(m[slots[n]].Keys));
      assert slots[..n + 1] == slots[..n] + [slots[n]];
      ids := ids + WithSlot(slots[n], Sorted(m[slots[n]].Keys));
    }
    assert slots[..|slots|] == slots;
    assert IdsAt(m, slots) == IdsIn(m);
  }

  /** The part of an ordered listing behind one of its members lists what is behind it. */
  lemma SuffixLists(ids: seq<BlockId>, keys: set<BlockId>, n: nat, later: set<BlockId>)
    requires ListsIds(ids, keys) && n < |ids|
    requires forall id :: id in later <==> id in keys && Before(ids[n], id)
    ensures ListsIds(ids[n + 1..], later)
  {
    var rest := ids[n + 1..];
    forall id
      ensures id in rest <==> id in later
    {
      if id in later {
        var i :| 0 <= i < |ids| && ids[i] == id;
        assert i > n;
        assert rest[i - n - 1] == id;
      }
      if id in rest {
        var i :| 0 <= i < |rest| && rest[i] == id;
        assert ids[n + 1 + i] == id;
      }
    }
  }
}
