/** `PendingBlocks` and `ProducedBlocks`: nested ordered maps that stand for one chain of blocks. */
module Blocks {
  import opened Wrappers
  import opened Types
  import opened Ordered
  import opened BlockIds

  datatype PendingL2Block = PendingL2Block(transactions: map<nat, (Transaction, TxResult)>, gasRecipient: Option<nat>)

  datatype PendingL1Block = PendingL1Block(blockhash: H256, timestamp: nat, l2Blocks: map<nat, PendingL2Block>)

  type PendingSlots = map<Slot, PendingL1Block>

  function L2(slots: PendingSlots): Nested<PendingL2Block> {
    map s | s in slots :: slots[s].l2Blocks
  }

  function PendingIds(slots: PendingSlots): set<BlockId> {
    IdsIn(L2(slots))
  }

  predicate Contains(slots: PendingSlots, id: BlockId) {
    id.slot in slots && id.idx in slots[id.slot].l2Blocks
  }

  lemma ContainsIds(slots: PendingSlots, id: BlockId)
    ensures Contains(slots, id) <==> id in PendingIds(slots)
  {
    assert id == BlockId(id.slot, id.idx);
  }

  /** No slot entry is kept for a slot without blocks. */
  ghost predicate NoEmptySlot(slots: PendingSlots) {
    forall s :: s in slots ==> slots[s].l2Blocks != map[]
  }

  /** What is kept of one slot that holds `min`. */
  function Trimmed(block: PendingL1Block, minIdx: nat): PendingL1Block {
    PendingL1Block(block.blockhash, block.timestamp, map i | i in block.l2Blocks && minIdx < i :: block.l2Blocks[i])
  }

  function RetainedSlots(slots: PendingSlots, min: BlockId): PendingSlots {
    map s | s in slots && (min.slot < s || (s == min.slot && Trimmed(slots[s], min.idx).l2Blocks != map[])) ::
      if s == min.slot then Trimmed(slots[s], min.idx) else slots[s]
  }

  /** Exactly the blocks behind `min` stay, unchanged, and no empty slot entry appears. */
  lemma RetainedKeeps(slots: PendingSlots, min: BlockId)
    ensures forall id :: Contains(RetainedSlots(slots, min), id) <==> Contains(slots, id) && Before(min, id)
    ensures forall id :: Contains(RetainedSlots(slots, min), id) ==>
              && RetainedSlots(slots, min)[id.slot].l2Blocks[id.idx] == slots[id.slot].l2Blocks[id.idx]
              && RetainedSlots(slots, min)[id.slot].blockhash == slots[id.slot].blockhash
              && RetainedSlots(slots, min)[id.slot].timestamp == slots[id.slot].timestamp
    ensures NoEmptySlot(slots) ==> NoEmptySlot(RetainedSlots(slots, min))
  {
    forall id
      ensures Contains(RetainedSlots(slots, min), id) <==> Contains(slots, id) && Before(min, id)
    {
      if id.slot in slots && id.slot == min.slot {
        var trimmed := Trimmed(slots[id.slot], min.idx).l2Blocks;
        assert id.idx in trimmed <==> id.idx in slots[id.slot].l2Blocks && min.idx < id.idx;
      }
    }
  }

  /** Trimming after the `n`-th pending block leaves the rest of the listing. */
  lemma RetainedIsSuffix(slots: PendingSlots, ids: seq<BlockId>, n: nat)
    requires ListsIds(ids, PendingIds(slots)) && n < |ids|
    ensures ListsIds(ids[n + 1..], PendingIds(RetainedSlots(slots, ids[n])))
  {
    RetainedKeeps(slots, ids[n]);
    var later := PendingIds(RetainedSlots(slots, ids[n]));
    forall id
      ensures id in later <==> id in PendingIds(slots) && Before(ids[n], id)
    {
      ContainsIds(slots, id);
      ContainsIds(RetainedSlots(slots, ids[n]), id);
    }
    SuffixLists(ids, PendingIds(slots), n, later);
  }

  /** Without empty slot entries, "no entry" and "no block" are the same. */
  lemma EmptyIffNoIds(slots: PendingSlots)
    requires NoEmptySlot(slots)
    ensures slots == map[] <==> PendingIds(slots) == {}
  {
    if slots != map[] {
      var s :| s in slots;
      var i :| i in slots[s].l2Blocks;
      assert BlockId(s, i) in PendingIds(slots);
    }
  }

  /** One row of the iteration over pending blocks. */
  datatype PendingItem = PendingItem(id: BlockId, blockhash: H256, timestamp: nat, block: PendingL2Block)

  function ItemAt(slots: PendingSlots, id: BlockId): PendingItem
    requires Contains(slots, id)
  {
    PendingItem(id, slots[id.slot].blockhash, slots[id.slot].timestamp, slots[id.slot].l2Blocks[id.idx])
  }

  ghost predicate IdsOf(items: seq<PendingItem>, ids: seq<BlockId>) {
    |items| == |ids| && forall k :: 0 <= k < |ids| ==> items[k].id == ids[k]
  }

  /** `items` is the iteration over `slots`. */
  ghost predicate ListsItems(items: seq<PendingItem>, slots: PendingSlots) {
    && (exists ids :: IdsOf(items, ids) && ListsIds(ids, PendingIds(slots)))
    && (forall k :: 0 <= k < |items| ==> IsItem(slots, items[k]))
  }

  /** The item is a pending block together with blockhash and timestamp of its slot. */
  ghost predicate IsItem(slots: PendingSlots, item: PendingItem) {
    && item.id.slot in slots && item.id.idx in slots[item.id.slot].l2Blocks
    && item.blockhash == slots[item.id.slot].blockhash && item.timestamp == slots[item.id.slot].timestamp
    && item.block == slots[item.id.slot].l2Blocks[item.id.idx]
  }

  lemma ItemsSuffix(items: seq<PendingItem>, slots: PendingSlots, n: nat)
    requires ListsItems(items, slots) && n < |items|
    ensures ListsItems(items[n + 1..], RetainedSlots(slots, items[n].id))
  {
    var ids :| IdsOf(items, ids) && ListsIds(ids, PendingIds(slots));
    RetainedIsSuffix(slots, ids, n);
    RetainedKeeps(slots, ids[n]);
    var rest := items[n + 1..];
    assert IdsOf(rest, ids[n + 1..]);
    forall k | 0 <= k < |rest|
      ensures IsItem(RetainedSlots(slots, ids[n]), rest[k])
    {
      assert Contains(slots, rest[k].id);
      assert Before(ids[n], ids[n + 1 + k]);
      assert rest[k] == items[n + 1 + k];
    }
  }

  lemma ItemsUnique(a: seq<PendingItem>, b: seq<PendingItem>, slots: PendingSlots)
    requires ListsItems(a, slots) && ListsItems(b, slots)
    ensures a == b
  {
    var x :| IdsOf(a, x) && ListsIds(x, PendingIds(slots));
    var y :| IdsOf(b, y) && ListsIds(y, PendingIds(slots));
    IdsUnique(x, y, PendingIds(slots));
  }

  /** The entries of `all` for the given slots. */
  ghost predicate KeptOf(all: PendingSlots, order: seq<Slot>, kept: PendingSlots) {
    forall s :: (s in kept <==> s in order && s in all) && (s in kept ==> kept[s] == all[s])
  }

  lemma NothingKept(all: PendingSlots)
    ensures KeptOf(all, [], map[])
  {
  }

  lemma KeepMore(all: PendingSlots, order: seq<Slot>, kept: PendingSlots, s: Slot)
    requires KeptOf(all, order, kept)
    ensures KeptOf(all, order + [s], if s in all then kept[s := all[s]] else kept)
  {
  }

  /** What becomes of the entry of one slot. */
  lemma RetainedEntry(slots: PendingSlots, min: BlockId, s: Slot)
    requires s in slots
    ensures min.slot < s ==> s in RetainedSlots(slots, min) && RetainedSlots(slots, min)[s] == slots[s]
    ensures s == min.slot ==>
              var trimmed := Trimmed(slots[s], min.idx);
              (if trimmed.l2Blocks != map[] then s in RetainedSlots(slots, min) && RetainedSlots(slots, min)[s] == trimmed
               else s !in RetainedSlots(slots, min))
    ensures s < min.slot ==> s !in RetainedSlots(slots, min)
  {
  }

  lemma AllKept(slots: PendingSlots, min: BlockId, order: seq<Slot>, kept: PendingSlots)
    requires KeptOf(RetainedSlots(slots, min), order, kept) && forall s :: s in order <==> s in slots.Keys
    ensures kept == RetainedSlots(slots, min)
  {
    var all := RetainedSlots(slots, min);
    forall s
      ensures s in kept <==> s in all
      ensures s in kept ==> kept[s] == all[s]
    {
    }
  }

  class PendingBlocks {
    var slots: PendingSlots

    constructor (slots: PendingSlots)
      ensures this.slots == slots
    {
      this.slots := slots;
    }

    function Get(id: BlockId): (block: Option<PendingL2Block>)
      reads this
      ensures block.Some? <==> Contains(slots, id)
      ensures block.Some? ==> block.value == ItemAt(slots, id).block
    {
      if id.slot in slots && id.idx in slots[id.slot].l2Blocks then Some(slots[id.slot].l2Blocks[id.idx]) else None
    }

    /** Drops everything up to and including `min`, slot by slot. */
    method RetainAfter(min: BlockId)
      modifies this
      ensures slots == RetainedSlots(old(slots), min)
    {
      hide KeptOf, RetainedSlots;
      var order := SortedKeys(slots.Keys);
      var kept: PendingSlots := map[];
      var all := slots;
      NothingKept(RetainedSlots(all, min));
      assert order[..0] == [];
      for n := 0 to |order|
        invariant slots == all
        invariant KeptOf(RetainedSlots(all, min), order[..n], kept)
      {
        var s := order[n];
        assert s in order && order[..n + 1] == order[..n] + [s];
        KeepMore(RetainedSlots(all, min), order[..n], kept, s);
        RetainedEntry(all, min, s);
        if min.slot < s {
          kept := kept[s := all[s]];
        } else if s == min.slot {
          var trimmed := Trimmed(all[s], min.idx);
          if trimmed.l2Blocks != map[] {
            kept := kept[s := trimmed];
          }
        }
      }
      assert order[..|order|] == order;
      AllKept(all, min, order, kept);
      slots := kept;
    }

    /** The pending blocks with their slots' data, in order. */
    method Iter() returns (items: seq<PendingItem>)
      ensures ListsItems(items, slots)
    {
      var ids := ListIds(L2(slots));
      forall k | 0 <= k < |ids|
        ensures Contains(slots, ids[k])
      {
        assert ids[k] in ids;
        ContainsIds(slots, ids[k]);
      }
      items := seq(|ids|, k requires 0 <= k < |ids| && Contains(slots, ids[k]) reads this => ItemAt(slots, ids[k]));
      assert IdsOf(items, ids);
    }
  }

  /** The latest finalized block: by its hash, or by its place among the pending ones. */
  datatype FinalizedBlock = FinalizedProduced(hash: H256) | FinalizedPending(id: BlockId)

  datatype BlockParams = BlockParams(hash: H256, parentHash: Option<H256>, number: nat, timestamp: nat)

  type ProducedSlots = Nested<BlockParams>

  ghost predicate NoEmptyEntry(slots: ProducedSlots) {
    forall s :: s in slots ==> slots[s] != map[]
  }

  function ParamsAt(slots: ProducedSlots, id: BlockId): Option<BlockParams> {
    if id.slot in slots && id.idx in slots[id.slot] then Some(slots[id.slot][id.idx]) else None
  }

  function Inserted(slots: ProducedSlots, id: BlockId, params: BlockParams): ProducedSlots {
    slots[id.slot := (if id.slot in slots then slots[id.slot] else map[])[id.idx := params]]
  }

  lemma InsertedHas(slots: ProducedSlots, id: BlockId, params: BlockParams, other: BlockId)
    requires NoEmptyEntry(slots)
    ensures NoEmptyEntry(Inserted(slots, id, params))
    ensures ParamsAt(Inserted(slots, id, params), other) == if other == id then Some(params) else ParamsAt(slots, other)
    ensures Inserted(slots, id, params).Keys == slots.Keys + {id.slot}
  {
    var entry := (if id.slot in slots then slots[id.slot] else map[])[id.idx := params];
    assert id.idx in entry;
  }

  class ProducedBlocks {
    var slots: ProducedSlots

    constructor ()
      ensures slots == map[]
    {
      slots := map[];
    }

    ghost predicate Valid()
      reads this
    {
      NoEmptyEntry(slots)
    }

    /** Number of slots, not of blocks. */
    function Len(): nat
      reads this
    {
      |slots|
    }

    method Insert(id: BlockId, params: BlockParams)
      requires Valid()
      modifies this
      ensures Valid() && slots == Inserted(old(slots), id, params)
    {
      InsertedHas(slots, id, params, id);
      var entry := if id.slot in slots then slots[id.slot] else map[];
      slots := slots[id.slot := entry[id.idx := params]];
    }

    /** The block that comes last in the order of ids. */
    method LastKeyValue() returns (last: Option<(BlockId, BlockParams)>)
      requires Valid()
      ensures last.None? <==> IdsIn(slots) == {}
      ensures last.Some? ==>
                && ParamsAt(slots, last.value.0) == Some(last.value.1)
                && forall id :: id in IdsIn(slots) ==> id == last.value.0 || Before(id, last.value.0)
    {
      if slots == map[] {
        return None;
      }
      var order := SortedKeys(slots.Keys);
      var s := order[|order| - 1];
      assert s in order;
      var inner := SortedKeys(slots[s].Keys);
      var x :| x in slots[s];
      assert x in inner;
      var i := inner[|inner| - 1];
      assert i in inner;
      assert BlockId(s, i) in IdsIn(slots);
      last := Some((BlockId(s, i), slots[s][i]));
      forall id | id in IdsIn(slots)
        ensures id == BlockId(s, i) || Before(id, BlockId(s, i))
      {
        var j := Position(order, slots.Keys, id.slot);
        SameOrder(order, j, |order| - 1);
        if id.slot == s {
          var k := Position(inner, slots[s].Keys, id.idx);
          SameOrder(inner, k, |inner| - 1);
        }
      }
    }

    /** The produced blocks in order. */
    method Iter() returns (ids: seq<BlockId>)
      ensures ListsIds(ids, IdsIn(slots))
    {
      ids := ListIds(slots);
    }
  }
}
