/** The production loop over stored blocks, and restoring blocks the producer already has. */
module Production {
  import opened Wrappers
  import opened Types
  import opened Ordered
  import opened BlockIds
  import opened Blocks
  import opened Producers

  /** The rows of table `eth_block`: parameters are filled in after production. */
  type Rows = map<BlockId, Option<BlockParams>>

  /** `block_produced`: parameters are written once, and only into an existing row. */
  function BlockProduced(rows: Rows, id: BlockId, params: BlockParams): Rows {
    if id in rows && rows[id].None? then rows[id := Some(params)] else rows
  }

  /** Row `k` of the batch got its parameters unless it had some before. */
  ghost predicate WrittenAt(before: Rows, after: Rows, items: seq<PendingItem>, params: seq<BlockParams>, k: nat)
    requires k < |params| <= |items| && after.Keys == before.Keys
  {
    items[k].id in before ==>
      after[items[k].id] == (if before[items[k].id].None? then Some(params[k]) else before[items[k].id])
  }

  /** The parameters went to the first items' rows, each at most once, and to no other row. */
  ghost predicate WrittenTo(before: Rows, after: Rows, items: seq<PendingItem>, params: seq<BlockParams>) {
    && |params| <= |items| && after.Keys == before.Keys
    && (forall k :: 0 <= k < |params| ==> WrittenAt(before, after, items, params, k))
    && (forall id :: id in before && !InBatch(items, |params|, id) ==> after[id] == before[id])
  }

  lemma WrittenUnique(before: Rows, a: Rows, b: Rows, items: seq<PendingItem>, params: seq<BlockParams>)
    requires WrittenTo(before, a, items, params) && WrittenTo(before, b, items, params)
    ensures a == b
  {
    forall id | id in before
      ensures a[id] == b[id]
    {
      if InBatch(items, |params|, id) {
        var k :| 0 <= k < |params| && items[k].id == id;
        assert WrittenAt(before, a, items, params, k) && WrittenAt(before, b, items, params, k);
      }
    }
  }

  class EthereumBlockStorage {
    var rows: Rows

    constructor (rows: Rows)
      ensures this.rows == rows
    {
      this.rows := rows;
    }

    /** `blocks_produced`, in one database transaction; blocks that are not pending are passed over. */
    method BlocksProduced(pending: PendingBlocks, produced: ProducedBlocks)
      modifies this
      ensures Stored(old(rows), rows, pending.slots, produced.slots)
    {
      var ids := produced.Iter();
      var current, slots := rows, produced.slots;
      ghost var before := rows;
      for n := 0 to |ids|
        invariant StoredUpTo(before, current, pending.slots, slots, ids, n)
      {
        StoreMore(before, current, pending.slots, slots, ids, n);
        var id := ids[n];
        var known := pending.Get(id);
        if known.Some? {
          current := BlockProduced(current, id, slots[id.slot][id.idx]);
        }
      }
      AllStored(before, current, pending.slots, slots, ids);
      rows := current;
    }
  }

  /** Exactly the rows without parameters that are both pending and produced get theirs. */
  ghost predicate Stored(before: Rows, after: Rows, pending: PendingSlots, produced: ProducedSlots) {
    && after.Keys == before.Keys
    && forall id :: id in before ==>
         after[id] == (if before[id].None? && Contains(pending, id) then ParamsAt(produced, id) else before[id])
  }

  ghost predicate StoredUpTo(before: Rows, current: Rows, pending: PendingSlots, produced: ProducedSlots, ids: seq<BlockId>, n: nat) {
    && n <= |ids| && ListsIds(ids, IdsIn(produced))
    && current.Keys == before.Keys
    && forall id :: id in before ==>
         current[id] == (if before[id].None? && id in ids[..n] && Contains(pending, id) then ParamsAt(produced, id) else before[id])
  }

  lemma StoreMore(before: Rows, current: Rows, pending: PendingSlots, produced: ProducedSlots, ids: seq<BlockId>, n: nat)
    requires StoredUpTo(before, current, pending, produced, ids, n) && n < |ids|
    ensures ids[n].slot in produced && ids[n].idx in produced[ids[n].slot]
    ensures var next := if Contains(pending, ids[n]) then BlockProduced(current, ids[n], produced[ids[n].slot][ids[n].idx]) else current;
            StoredUpTo(before, next, pending, produced, ids, n + 1)
  {
    assert ids[n] in ids;
    assert ids[..n + 1] == ids[..n] + [ids[n]];
    assert ids[n] !in ids[..n] by {
      assert forall i :: 0 <= i < n ==> Before(ids[i], ids[n]);
    }
  }

  lemma AllStored(before: Rows, current: Rows, pending: PendingSlots, produced: ProducedSlots, ids: seq<BlockId>)
    requires StoredUpTo(before, current, pending, produced, ids, |ids|)
    ensures Stored(before, current, pending, produced)
  {
    assert ids[..|ids|] == ids;
    forall id | id in before
      ensures current[id] == (if before[id].None? && Contains(pending, id) then ParamsAt(produced, id) else before[id])
    {
      assert id == BlockId(id.slot, id.idx);
      assert id in ids <==> ParamsAt(produced, id).Some?;
    }
  }

  /** Storing a batch of the pending blocks writes each of its items and nothing else. */
  lemma StoredIsWritten(before: Rows, after: Rows, pending: PendingSlots, produced: ProducedSlots,
                        items: seq<PendingItem>, params: seq<BlockParams>)
    requires Stored(before, after, pending, produced)
    requires ListsItems(items, pending) && Holds(produced, items, params)
    ensures WrittenTo(before, after, items, params)
  {
    forall k | 0 <= k < |params|
      ensures WrittenAt(before, after, items, params, k)
    {
      assert ParamsAt(produced, items[k].id) == Some(params[k]);
    }
    forall id | id in before && !InBatch(items, |params|, id)
      ensures after[id] == before[id]
    {
      assert ParamsAt(produced, id).None?;
    }
  }

  // ------------------------------------------------------ putting batches together

  lemma ChainAppend(engine: Engine, start: H256, items: seq<PendingItem>, a: seq<BlockParams>, b: seq<BlockParams>)
    requires IsChain(engine, start, items, a) && IsChain(engine, ParentAt(start, a, |a|), items[|a|..], b)
    ensures IsChain(engine, start, items, a + b)
    ensures Refuses(engine, ParentAt(start, a, |a|), items[|a|..], b) ==> Refuses(engine, start, items, a + b)
  {
    var rest := items[|a|..];
    forall k | 0 <= k < |a| + |b|
      ensures BuiltAt(engine, start, items, a + b, k)
    {
      if k < |a| {
        assert BuiltAt(engine, start, items, a, k);
      } else {
        assert BuiltAt(engine, ParentAt(start, a, |a|), rest, b, k - |a|);
        assert rest[k - |a|] == items[k];
      }
    }
    if Refuses(engine, ParentAt(start, a, |a|), rest, b) {
      assert rest[|b|] == items[|a| + |b|];
    }
  }

  lemma WrittenAppend(before: Rows, middle: Rows, after: Rows, items: seq<PendingItem>, a: seq<BlockParams>, b: seq<BlockParams>)
    requires DistinctIds(items) && WrittenTo(before, middle, items, a) && WrittenTo(middle, after, items[|a|..], b)
    ensures WrittenTo(before, after, items, a + b)
  {
    var rest := items[|a|..];
    forall k | 0 <= k < |a| + |b|
      ensures WrittenAt(before, after, items, a + b, k)
    {
      var id := items[k].id;
      if k < |a| {
        assert WrittenAt(before, middle, items, a, k);
        NotInRest(items, |a|, |b|, k);
      } else {
        assert WrittenAt(middle, after, rest, b, k - |a|);
        assert rest[k - |a|] == items[k];
        assert !InBatch(items, |a|, id) by {
          assert forall j :: 0 <= j < |a| ==> Before(items[j].id, items[k].id);
        }
      }
    }
    forall id | id in before && !InBatch(items, |a| + |b|, id)
      ensures after[id] == before[id]
    {
      RestInBatch(items, |a|, |b|, id);
      assert InBatch(items, |a|, id) ==> InBatch(items, |a| + |b|, id);
    }
  }

  lemma RestInBatch(items: seq<PendingItem>, n: nat, m: nat, id: BlockId)
    requires n + m <= |items|
    ensures InBatch(items[n..], m, id) ==> InBatch(items, n + m, id)
  {
    if InBatch(items[n..], m, id) {
      var k :| 0 <= k < m && items[n..][k].id == id;
      assert items[n + k].id == id;
    }
  }

  lemma NotInRest(items: seq<PendingItem>, n: nat, m: nat, k: nat)
    requires DistinctIds(items) && k < n && n + m <= |items|
    ensures !InBatch(items[n..], m, items[k].id)
  {
    forall j | 0 <= j < m
      ensures items[n..][j].id != items[k].id
    {
      assert Before(items[k].id, items[n + j].id);
    }
  }

  /** `n` items make a whole number of batches. */
  ghost predicate Batched(items: seq<PendingItem>, limit: nat, n: nat) {
    n == 0 || exists m :: BatchFrom(items, limit, m, n) && Batched(items, limit, m)
  }

  ghost predicate BatchFrom(items: seq<PendingItem>, limit: nat, m: nat, n: nat) {
    m < n <= |items| && Stops(items[m..], Some(limit), true, n - m)
  }

  lemma BatchedMore(items: seq<PendingItem>, limit: nat, m: nat, n: nat)
    requires Batched(items, limit, m) && BatchFrom(items, limit, m, n)
    ensures Batched(items, limit, n)
  {
  }

  /** Geth's answers for the `i`-th call of the producer. */
  type Lookups = (nat, Option<H256>) -> GethLookup

  ghost predicate Truthful(lookups: Lookups) {
    forall i, parentHash :: Answers(lookups(i, parentHash), parentHash)
  }

  /** What the loop has done after the first `|params|` items. */
  ghost predicate Progressed(engine: Engine, start: H256, items: seq<PendingItem>, limit: nat, params: seq<BlockParams>,
                           before: Rows, now: Rows, pending: PendingSlots)
  {
    && IsChain(engine, start, items, params) && DistinctIds(items) && Batched(items, limit, |params|)
    && WrittenTo(before, now, items, params)
    && ListsItems(items[|params|..], pending)
  }

  lemma NothingProgressed(engine: Engine, start: H256, items: seq<PendingItem>, limit: nat, rows: Rows, pending: PendingSlots)
    requires ListsItems(items, pending)
    ensures Progressed(engine, start, items, limit, [], rows, rows, pending)
  {
    ListedDistinct(items, pending);
    assert items[0..] == items;
  }

  /** One batch: the producer's chain on the remaining items, stored and trimmed away. */
  lemma BatchProgresses(engine: Engine, start: H256, items: seq<PendingItem>, limit: nat, params: seq<BlockParams>,
                      before: Rows, now: Rows, pending: PendingSlots, rest: seq<PendingItem>, chain: seq<BlockParams>,
                      next: Rows, last: BlockId)
    requires Progressed(engine, start, items, limit, params, before, now, pending)
    requires ListsItems(rest, pending) && IsChain(engine, ParentAt(start, params, |params|), rest, chain)
    requires Stops(rest, Some(limit), true, |chain|) && chain != [] && last == rest[|chain| - 1].id
    requires WrittenTo(now, next, rest, chain)
    ensures Progressed(engine, start, items, limit, params + chain, before, next, RetainedSlots(pending, last))
  {
    hide ListsItems, WrittenTo, DistinctIds, Stops, RetainedSlots, Batched, BuiltAt;
    ItemsUnique(rest, items[|params|..], pending);
    ChainAppend(engine, start, items, params, chain);
    WrittenAppend(before, now, next, items, params, chain);
    ItemsSuffix(rest, pending, |chain| - 1);
    assert rest[|chain|..] == items[|params| + |chain|..];
    BatchedMore(items, limit, |params|, |params| + |chain|);
  }

  lemma RestIs(engine: Engine, start: H256, items: seq<PendingItem>, limit: nat, params: seq<BlockParams>,
               before: Rows, now: Rows, pending: PendingSlots, rest: seq<PendingItem>)
    requires Progressed(engine, start, items, limit, params, before, now, pending) && ListsItems(rest, pending)
    ensures |params| <= |items| && rest == items[|params|..]
  {
    ItemsUnique(rest, items[|params|..], pending);
  }

  lemma BatchRefused(engine: Engine, start: H256, items: seq<PendingItem>, limit: nat, params: seq<BlockParams>,
                     before: Rows, now: Rows, pending: PendingSlots, rest: seq<PendingItem>, chain: seq<BlockParams>)
    requires Progressed(engine, start, items, limit, params, before, now, pending)
    requires ListsItems(rest, pending) && IsChain(engine, ParentAt(start, params, |params|), rest, chain)
    requires Refuses(engine, ParentAt(start, params, |params|), rest, chain)
    ensures IsChain(engine, start, items, params + chain) && Refuses(engine, start, items, params + chain)
    ensures rest[|chain|].id == items[|params| + |chain|].id
  {
    ItemsUnique(rest, items[|params|..], pending);
    ChainAppend(engine, start, items, params, chain);
  }

  lemma LastOfBatch(slots: ProducedSlots, items: seq<PendingItem>, chain: seq<BlockParams>, last: Option<(BlockId, BlockParams)>)
    requires Holds(slots, items, chain) && DistinctIds(items)
    requires last.None? <==> IdsIn(slots) == {}
    requires last.Some? ==>
               && ParamsAt(slots, last.value.0) == Some(last.value.1)
               && forall id :: id in IdsIn(slots) ==> id == last.value.0 || Before(id, last.value.0)
    ensures last.None? <==> chain == []
    ensures last.Some? ==> last.value == (items[|chain| - 1].id, chain[|chain| - 1])
  {
    if chain == [] {
      assert slots.Keys == {};
    } else {
      var id := items[|chain| - 1].id;
      assert ParamsAt(slots, id) == Some(chain[|chain| - 1]);
      assert id == BlockId(id.slot, id.idx) && id in IdsIn(slots);
      assert InBatch(items, |chain|, last.value.0);
      var k :| 0 <= k < |chain| && items[k].id == last.value.0;
      assert k < |chain| - 1 ==> Before(items[k].id, id);
    }
  }

  // ------------------------------------------------------ the calls of the producer

  /** One call of the producer: where it starts, the items it is given, and what it builds with which engine calls. */
  datatype Batch = Batch(parent: H256, first: H256, items: seq<PendingItem>, chain: seq<BlockParams>, calls: seq<Call>)

  function BatchFor(finalizedBlock: Option<FinalizedBlock>, start: Result<(H256, H256), ProduceError>,
                    items: seq<PendingItem>, chain: seq<BlockParams>, calls: seq<Call>): Batch
  {
    var (parent, fromGeth) := if start.Ok? then start.value else (H256(0), H256(0));
    Batch(parent, FirstFinalized(finalizedBlock, fromGeth), items, chain, calls)
  }

  /** The batch is what a call with this lookup and parent makes of the pending items. */
  ghost predicate Ran(engine: Engine, finalizedBlock: Option<FinalizedBlock>, lookup: GethLookup, parentHash: Option<H256>,
                      rest: seq<PendingItem>, batch: Batch)
  {
    && batch.items == rest
    && Start(lookup, parentHash).Ok?
    && batch.parent == Start(lookup, parentHash).value.0
    && batch.first == FirstFinalized(finalizedBlock, Start(lookup, parentHash).value.1)
    && IsChain(engine, batch.parent, batch.items, batch.chain)
    && CallsMatch(batch.calls, batch.items, NextFinalized(finalizedBlock), batch.first, batch.parent, batch.chain)
  }

  /** The blocks of all batches, in order. */
  function ChainsOf(batches: seq<Batch>): seq<BlockParams> {
    if batches == [] then [] else ChainsOf(batches[..|batches| - 1]) + batches[|batches| - 1].chain
  }

  ghost predicate RanAt(engine: Engine, finalizedBlock: Option<FinalizedBlock>, lookups: Lookups, parentHash: Option<H256>,
                        items: seq<PendingItem>, batches: seq<Batch>, n: nat)
    requires n < |batches|
  {
    var done := ChainsOf(batches[..n]);
    var parent := NextParent(parentHash, done);
    |done| <= |items| && Ran(engine, finalizedBlock, lookups(n, parent), parent, items[|done|..], batches[n])
  }

  /** Each call asks for the last block of the calls before it and gets the items they left. */
  ghost predicate AllRan(engine: Engine, finalizedBlock: Option<FinalizedBlock>, lookups: Lookups, parentHash: Option<H256>,
                         items: seq<PendingItem>, batches: seq<Batch>)
  {
    forall n :: 0 <= n < |batches| ==> RanAt(engine, finalizedBlock, lookups, parentHash, items, batches, n)
  }

  lemma NoneRan(engine: Engine, finalizedBlock: Option<FinalizedBlock>, lookups: Lookups, parentHash: Option<H256>, items: seq<PendingItem>)
    ensures AllRan(engine, finalizedBlock, lookups, parentHash, items, []) && ChainsOf([]) == []
  {
  }

  lemma RanMore(engine: Engine, finalizedBlock: Option<FinalizedBlock>, lookups: Lookups, parentHash: Option<H256>,
                items: seq<PendingItem>, batches: seq<Batch>, batch: Batch)
    requires AllRan(engine, finalizedBlock, lookups, parentHash, items, batches) && |ChainsOf(batches)| <= |items|
    requires var parent := NextParent(parentHash, ChainsOf(batches));
             Ran(engine, finalizedBlock, lookups(|batches|, parent), parent, items[|ChainsOf(batches)|..], batch)
    ensures AllRan(engine, finalizedBlock, lookups, parentHash, items, batches + [batch])
    ensures ChainsOf(batches + [batch]) == ChainsOf(batches) + batch.chain
    ensures (batches + [batch])[..|batches|] == batches
  {
    hide Ran;
    var more := batches + [batch];
    assert more[..|batches|] == batches;
    forall n | 0 <= n < |more|
      ensures RanAt(engine, finalizedBlock, lookups, parentHash, items, more, n)
    {
      if n < |batches| {
        assert RanAt(engine, finalizedBlock, lookups, parentHash, items, batches, n);
        assert more[..n] == batches[..n];
      }
    }
  }

  /** Production may start, and start again on every block it built. */
  ghost predicate AllStart(lookups: Lookups, parentHash: Option<H256>) {
    && Start(lookups(0, parentHash), parentHash).Ok?
    && forall i: nat, hash :: 0 < i ==> Start(lookups(i, Some(hash)), Some(hash)).Ok?
  }

  ghost predicate NeverRefuses(engine: Engine) {
    forall parent, payload :: engine(parent, payload).Some?
  }

  lemma NotAllStart(lookups: Lookups, parentHash: Option<H256>, i: nat, stored: seq<BlockParams>)
    requires if i == 0 then stored == [] else stored != []
    requires Start(lookups(i, NextParent(parentHash, stored)), NextParent(parentHash, stored)).Err?
    ensures !AllStart(lookups, parentHash)
  {
  }

  lemma RefusesOnce(engine: Engine, start: H256, items: seq<PendingItem>, chain: seq<BlockParams>)
    requires Refuses(engine, start, items, chain)
    ensures !NeverRefuses(engine)
  {
  }

  /** The engine builds every block on top of its parent. */
  ghost predicate Extends(engine: Engine, ancestor: (H256, H256) -> bool) {
    forall parent, payload :: engine(parent, payload).Some? ==> ancestor(parent, engine(parent, payload).value.1)
  }

  /**
   Over all batches: if each call of the producer starts with a finalized hash
   at or below its parent, then every engine call of every batch is given a
   finalized hash at or below the parent it builds on.
   */
  lemma EveryCallBelowParent(engine: Engine, finalizedBlock: Option<FinalizedBlock>, lookups: Lookups, parentHash: Option<H256>,
                             items: seq<PendingItem>, batches: seq<Batch>, ancestor: (H256, H256) -> bool, n: nat, j: nat)
    requires AllRan(engine, finalizedBlock, lookups, parentHash, items, batches)
    requires Preorder(ancestor) && Extends(engine, ancestor)
    requires forall m :: 0 <= m < |batches| ==> ancestor(batches[m].first, batches[m].parent)
    requires n < |batches| && j < |batches[n].calls|
    ensures ancestor(batches[n].calls[j].finalized, batches[n].calls[j].parent)
  {
    assert RanAt(engine, finalizedBlock, lookups, parentHash, items, batches, n);
    var batch := batches[n];
    var next := NextFinalized(finalizedBlock);
    assert CallAt(batch.calls, batch.items, next, batch.first, batch.parent, batch.chain, j);
    forall k | 0 <= k < |batch.chain|
      ensures ancestor(ParentAt(batch.parent, batch.chain, k), batch.chain[k].hash)
    {
      assert BuiltAt(engine, batch.parent, batch.items, batch.chain, k);
    }
    PointerIsAncestor(batch.items, next, batch.first, batch.parent, batch.chain, ancestor, j);
  }

  // ------------------------------------------------------------------ the loop

  /** One turn of the loop: produce a batch, store it, drop it from the pending blocks. The hash of its last block, if any. */
  method ProduceBatch(producer: EngineAPIBlockProducer, storage: EthereumBlockStorage, params: ProducerParams, batchSize: nat,
                      lookup: GethLookup, ghost start: H256, ghost items: seq<PendingItem>, ghost stored: seq<BlockParams>, ghost before: Rows)
    returns (r: Result<Option<H256>, ProduceError>, ghost batch: Batch)
    requires Answers(lookup, params.parentHash)
    requires Start(lookup, params.parentHash).Ok? ==>
               && Start(lookup, params.parentHash).value.0 == ParentAt(start, stored, |stored|)
               && Progressed(producer.engine, start, items, batchSize, stored, before, storage.rows, params.pendingBlocks.slots)
    modifies storage, params.pendingBlocks
    ensures Start(lookup, params.parentHash).Err? ==> r == Err(Start(lookup, params.parentHash).error)
    ensures Start(lookup, params.parentHash).Ok? ==>
              |stored| <= |items| && Ran(producer.engine, params.finalizedBlock, lookup, params.parentHash, items[|stored|..], batch)
    ensures r.Err? ==> storage.rows == old(storage.rows) && params.pendingBlocks.slots == old(params.pendingBlocks.slots)
    ensures r.Err? && !r.error.EngineFailed? ==> Start(lookup, params.parentHash).Err?
    ensures r.Err? && r.error.EngineFailed? ==>
              && Start(lookup, params.parentHash).Ok?
              && IsChain(producer.engine, start, items, stored + batch.chain) && Refuses(producer.engine, start, items, stored + batch.chain)
              && r.error == EngineFailed(items[|stored + batch.chain|].id)
    ensures r.Ok? ==>
              && Start(lookup, params.parentHash).Ok?
              && Progressed(producer.engine, start, items, batchSize, stored + batch.chain, before, storage.rows, params.pendingBlocks.slots)
    ensures r.Ok? && r.value.Some? ==> batch.chain != [] && r.value.value == batch.chain[|batch.chain| - 1].hash
    ensures r.Ok? && r.value.None? ==> batch.chain == [] && |stored| == |items| && PendingIds(params.pendingBlocks.slots) == {}
  {
    hide IsChain, ListsItems, DistinctIds, Holds, Stops, WrittenTo, Stored, RetainedSlots, Refuses, CallsMatch, PointerAt, Progressed;
    var pending := params.pendingBlocks;
    ghost var slots, now, rest, chain, calls := pending.slots, storage.rows, [], [], [];
    var result: Result<ProductionResult, ProduceError>;
    result, rest, chain, calls := producer.ProduceBlocks(params, Some(batchSize), lookup);
    batch := BatchFor(params.finalizedBlock, Start(lookup, params.parentHash), rest, chain, calls);
    if Start(lookup, params.parentHash).Ok? {
      RestIs(producer.engine, start, items, batchSize, stored, before, now, slots, rest);
    }
    if result.Err? {
      if result.error.EngineFailed? {
        BatchRefused(producer.engine, start, items, batchSize, stored, before, now, slots, rest, chain);
      }
      return Err(result.error), batch;
    }
    var produced := result.value.producedBlocks;
    ListedDistinct(rest, slots);
    HoldsValid(produced.slots, rest, chain);
    var last := produced.LastKeyValue();
    LastOfBatch(produced.slots, rest, chain, last);
    if last.None? {
      NothingLeft(producer.engine, start, items, batchSize, stored, before, now, slots, rest);
      assert stored + [] == stored;
      return Ok(None), batch;
    }
    storage.BlocksProduced(pending, produced);
    StoredIsWritten(now, storage.rows, slots, produced.slots, rest, chain);
    BatchProgresses(producer.engine, start, items, batchSize, stored, before, now, slots, rest, chain, storage.rows, last.value.0);
    pending.RetainAfter(last.value.0);
    return Ok(Some(last.value.1.hash)), batch;
  }

  /**
   The production loop of `restore_or_produce_blocks`: batches until nothing is
   pending. The ghost results name the pending items, the chain that was stored,
   the chain that was built (longer only where the engine refused a block in the
   middle of a batch), and the calls of the producer.
   */
  method ProduceInBatches(producer: EngineAPIBlockProducer, storage: EthereumBlockStorage, params: ProducerParams,
                          batchSize: nat, lookups: Lookups)
    returns (r: Result<(), ProduceError>, ghost items: seq<PendingItem>, ghost stored: seq<BlockParams>, ghost built: seq<BlockParams>,
             ghost batches: seq<Batch>)
    requires Truthful(lookups)
    modifies storage, params.pendingBlocks
    ensures ListsItems(items, old(params.pendingBlocks.slots))
    ensures WrittenTo(old(storage.rows), storage.rows, items, stored) && Batched(items, batchSize, |stored|)
    ensures |stored| <= |items| && ListsItems(items[|stored|..], params.pendingBlocks.slots)
    ensures AllRan(producer.engine, params.finalizedBlock, lookups, params.parentHash, items, batches) && built == ChainsOf(batches)
    ensures AllStart(lookups, params.parentHash) && NeverRefuses(producer.engine) ==> r.Ok?
    ensures Start(lookups(0, params.parentHash), params.parentHash).Err? ==>
              stored == [] && r == Err(Start(lookups(0, params.parentHash), params.parentHash).error)
    ensures Start(lookups(0, params.parentHash), params.parentHash).Ok? ==>
              IsChain(producer.engine, Start(lookups(0, params.parentHash), params.parentHash).value.0, items, stored)
    ensures r.Ok? ==> |stored| == |items| && built == stored && PendingIds(params.pendingBlocks.slots) == {}
    ensures r.Err? && !r.error.EngineFailed? ==>
              && built == stored
              && Start(lookups(|batches|, NextParent(params.parentHash, stored)), NextParent(params.parentHash, stored)) == Err(r.error)
    ensures r.Err? && r.error.EngineFailed? ==>
              && Start(lookups(0, params.parentHash), params.parentHash).Ok?
              && IsChain(producer.engine, Start(lookups(0, params.parentHash), params.parentHash).value.0, items, built)
              && Refuses(producer.engine, Start(lookups(0, params.parentHash), params.parentHash).value.0, items, built)
              && stored <= built && r.error == EngineFailed(items[|built|].id)
              && batches != [] && stored == ChainsOf(batches[..|batches| - 1])
  {
    hide IsChain, ListsItems, DistinctIds, Batched, Refuses, Truthful, WrittenTo, Progressed, Ran, AllRan, ChainsOf, AllStart, NeverRefuses;
    var parentHash := params.parentHash;
    items, stored, built, batches := ItemsOf(params.pendingBlocks.slots), [], [], [];
    ghost var first := Start(lookups(0, parentHash), parentHash);
    ghost var start := if first.Ok? then first.value.0 else H256(0);
    NothingProgressed(producer.engine, start, items, batchSize, storage.rows, params.pendingBlocks.slots);
    NoneRan(producer.engine, params.finalizedBlock, lookups, parentHash, items);
    var i := 0;
    while true
      invariant i == |batches| && parentHash == NextParent(params.parentHash, stored)
      invariant i == 0 ==> storage.rows == old(storage.rows) && stored == []
      invariant 0 < i ==> first.Ok? && stored != []
      invariant Progressed(producer.engine, start, items, batchSize, stored, old(storage.rows), storage.rows, params.pendingBlocks.slots)
      invariant |stored| <= |items|
      invariant AllRan(producer.engine, params.finalizedBlock, lookups, params.parentHash, items, batches) && ChainsOf(batches) == stored
      decreases |items| - |stored|
    {
      TruthfulAt(lookups, i, parentHash);
      ghost var batch;
      var last: Result<Option<H256>, ProduceError>;
      last, batch := ProduceBatch(producer, storage, ProducerParams(parentHash, params.finalizedBlock, params.pendingBlocks), batchSize,
                                  lookups(i, parentHash), start, items, stored, old(storage.rows));
      if last.Err? && !last.error.EngineFailed? {
        ProgressedSo(producer.engine, start, items, batchSize, stored, old(storage.rows), storage.rows, params.pendingBlocks.slots);
        NotAllStart(lookups, params.parentHash, i, stored);
        return Err(last.error), items, stored, stored, batches;
      }
      RanMore(producer.engine, params.finalizedBlock, lookups, params.parentHash, items, batches, batch);
      batches := batches + [batch];
      if last.Err? {
        ProgressedSo(producer.engine, start, items, batchSize, stored, old(storage.rows), storage.rows, params.pendingBlocks.slots);
        RefusesOnce(producer.engine, start, items, stored + batch.chain);
        return Err(last.error), items, stored, stored + batch.chain, batches;
      }
      if last.value.None? {
        assert stored + batch.chain == stored;
        ProgressedSo(producer.engine, start, items, batchSize, stored, old(storage.rows), storage.rows, params.pendingBlocks.slots);
        return Ok(()), items, stored, stored, batches;
      }
      parentHash := Some(last.value.value);
      stored := stored + batch.chain;
      ProgressedSo(producer.engine, start, items, batchSize, stored, old(storage.rows), storage.rows, params.pendingBlocks.slots);
      i := i + 1;
    }
  }

  lemma TruthfulAt(lookups: Lookups, i: nat, parentHash: Option<H256>)
    requires Truthful(lookups)
    ensures Answers(lookups(i, parentHash), parentHash)
  {
  }

  lemma ProgressedSo(engine: Engine, start: H256, items: seq<PendingItem>, limit: nat, params: seq<BlockParams>,
                   before: Rows, now: Rows, pending: PendingSlots)
    requires Progressed(engine, start, items, limit, params, before, now, pending)
    ensures IsChain(engine, start, items, params) && Batched(items, limit, |params|) && |params| <= |items|
    ensures WrittenTo(before, now, items, params) && ListsItems(items[|params|..], pending)
  {
  }

  lemma NothingLeft(engine: Engine, start: H256, items: seq<PendingItem>, limit: nat, params: seq<BlockParams>,
                    before: Rows, now: Rows, pending: PendingSlots, rest: seq<PendingItem>)
    requires Progressed(engine, start, items, limit, params, before, now, pending)
    requires ListsItems(rest, pending) && Stops(rest, Some(limit), true, 0)
    ensures |params| == |items| && PendingIds(pending) == {}
  {
    ItemsUnique(rest, items[|params|..], pending);
    var ids :| IdsOf(rest, ids) && ListsIds(ids, PendingIds(pending));
    assert ids == [];
  }

  lemma ItemsExist(slots: PendingSlots)
    ensures exists items :: ListsItems(items, slots)
  {
    var ids := IdsListing(L2(slots));
    forall k | 0 <= k < |ids|
      ensures Contains(slots, ids[k])
    {
      assert ids[k] in ids;
      ContainsIds(slots, ids[k]);
    }
    var items := seq(|ids|, k requires 0 <= k < |ids| && Contains(slots, ids[k]) => ItemAt(slots, ids[k]));
    assert IdsOf(items, ids);
    assert ListsItems(items, slots);
  }

  /** The iteration over the pending blocks. */
  ghost function ItemsOf(slots: PendingSlots): (items: seq<PendingItem>)
    ensures ListsItems(items, slots)
  {
    ItemsExist(slots);
    var items :| ListsItems(items, slots);
    items
  }

  // -------------------------------------------------- batches against one shot

  lemma WholeChainUnique(engine: Engine, start: H256, items: seq<PendingItem>, a: seq<BlockParams>, b: seq<BlockParams>)
    requires IsChain(engine, start, items, a) && IsChain(engine, start, items, b) && |a| == |b|
    ensures a == b
  {
    ChainUnique(engine, start, items, a, b, |a|);
    assert a[..|a|] == a && b[..|b|] == b;
  }

  /**
   Batched production refines one unlimited pass: whatever the batch size, the
   chain stored at the end is the chain of the single pass and so are the rows.
   */
  lemma BatchesRefineOneShot(engine: Engine, start: H256, items: seq<PendingItem>, batched: seq<BlockParams>, oneShot: seq<BlockParams>,
                             before: Rows, afterBatches: Rows, afterOneShot: Rows)
    requires IsChain(engine, start, items, batched) && |batched| == |items|
    requires IsChain(engine, start, items, oneShot) && Stops(items, None, true, |oneShot|)
    requires WrittenTo(before, afterBatches, items, batched) && WrittenTo(before, afterOneShot, items, oneShot)
    ensures batched == oneShot && afterBatches == afterOneShot
  {
    WholeChainUnique(engine, start, items, batched, oneShot);
    WrittenUnique(before, afterBatches, afterOneShot, items, batched);
  }

  /** Where the engine refuses a block, both ways get equally far before it, and the batches stored a prefix of that. */
  lemma BatchesFailLikeOneShot(engine: Engine, start: H256, items: seq<PendingItem>, stored: seq<BlockParams>, built: seq<BlockParams>,
                               oneShot: seq<BlockParams>)
    requires IsChain(engine, start, items, built) && Refuses(engine, start, items, built) && stored <= built
    requires IsChain(engine, start, items, oneShot)
    requires Refuses(engine, start, items, oneShot) || Stops(items, None, true, |oneShot|)
    ensures Refuses(engine, start, items, oneShot) && oneShot == built && stored <= oneShot
  {
    RefusedIsLongest(engine, start, items, built, oneShot);
    if Refuses(engine, start, items, oneShot) {
      RefusedIsLongest(engine, start, items, oneShot, built);
    }
  }

  /** Every pending block that had no parameters has the produced ones afterwards; no other row is touched. */
  lemma EveryPendingOnce(engine: Engine, start: H256, items: seq<PendingItem>, params: seq<BlockParams>, before: Rows, after: Rows, k: nat)
    requires IsChain(engine, start, items, params) && |params| == |items| && WrittenTo(before, after, items, params)
    requires k < |items| && items[k].id in before && before[items[k].id] == None
    ensures after[items[k].id] == Some(params[k])
    ensures params[k].parentHash == Some(if k == 0 then start else params[k - 1].hash)
    ensures params[k].timestamp == items[k].timestamp
  {
    assert WrittenAt(before, after, items, params, k);
    assert BuiltAt(engine, start, items, params, k);
  }

  // ------------------------------------------------------------------ restoring

  datatype RestoreError = FetchFailed(number: nat) | WrongParent(params: BlockParams)

  /** Parameters of consecutive blocks, keyed by the number the producer reports for each. */
  method GetBlocksParams(fetch: nat -> Option<BlockParams>, fromBlock: nat, toBlock: nat)
    returns (r: Result<map<nat, BlockParams>, RestoreError>)
    ensures r.Ok? ==> FetchedAll(r.value, fetch, fromBlock, toBlock + 1)
    ensures r.Err? <==> exists n :: fromBlock <= n <= toBlock && fetch(n).None?
    ensures r.Err? ==> r.error.FetchFailed?
  {
    var results: map<nat, BlockParams> := map[];
    if toBlock < fromBlock {
      return Ok(results);
    }
    for n := fromBlock to toBlock + 1
      invariant FetchedAll(results, fetch, fromBlock, n)
    {
      var params := fetch(n);
      if params.None? {
        return Err(FetchFailed(n));
      }
      results := results[params.value.number := params.value];
    }
    r := Ok(results);
  }

  /** The collected parameters come from the fetched blocks, each under its own number. */
  ghost predicate FetchedAll(results: map<nat, BlockParams>, fetch: nat -> Option<BlockParams>, low: nat, high: nat) {
    && (forall n :: low <= n < high ==> fetch(n).Some? && fetch(n).value.number in results)
    && (forall m :: m in results ==> FetchedFrom(results, fetch, low, high, m))
  }

  ghost predicate FetchedFrom(results: map<nat, BlockParams>, fetch: nat -> Option<BlockParams>, low: nat, high: nat, m: nat)
    requires m in results
  {
    results[m].number == m && exists n :: low <= n < high && fetch(n) == Some(results[m])
  }

  /** The producer answers every request with the block of that number. */
  ghost predicate Honest(fetch: nat -> Option<BlockParams>) {
    forall n :: fetch(n).Some? ==> fetch(n).value.number == n
  }

  ghost predicate HashLinkedAt(parentHash: Option<H256>, params: seq<BlockParams>, k: nat)
    requires k < |params|
  {
    params[k].parentHash == if k == 0 then parentHash else Some(params[k - 1].hash)
  }

  /** Each block names the one before as its parent. */
  ghost predicate HashLinked(parentHash: Option<H256>, params: seq<BlockParams>) {
    forall k :: 0 <= k < |params| ==> HashLinkedAt(parentHash, params, k)
  }

  /** Block `k` is the fetched block of `k`-th lowest number; the others are still to be given out. */
  ghost predicate Matched(order: seq<nat>, results: map<nat, BlockParams>, rest: map<nat, BlockParams>, params: seq<BlockParams>) {
    && |params| <= |order| && Ascending(order)
    && (forall k :: 0 <= k < |params| ==> RestoredAt(order, results, params, k))
    && (forall m :: m in rest <==> m in order[|params|..])
    && (forall m :: m in rest ==> m in results && rest[m] == results[m])
  }

  ghost predicate RestoredAt(order: seq<nat>, results: map<nat, BlockParams>, params: seq<BlockParams>, k: nat)
    requires k < |params|
  {
    k < |order| && order[k] in results && params[k] == results[order[k]]
  }

  lemma FirstOfRest(order: seq<nat>, n: nat, rest: set<nat>)
    requires Ascending(order) && n <= |order| && rest != {}
    requires forall m :: m in rest <==> m in order[n..]
    ensures n < |order| && Min(rest) == order[n]
    ensures forall m :: m in rest - {Min(rest)} <==> m in order[n + 1..]
  {
    var m := Min(rest);
    assert m in order[n..];
    assert order[n] == order[n..][0] && order[n] in rest;
    var i :| 0 <= i < |order| - n && order[n..][i] == m;
    SameOrder(order, n, n + i);
    assert order[n..] == [order[n]] + order[n + 1..];
    assert order[n] !in order[n + 1..] by {
      assert forall j :: n < j < |order| ==> order[n] < order[j];
    }
  }

  lemma PopFirst(order: seq<nat>, results: map<nat, BlockParams>, rest: map<nat, BlockParams>, params: seq<BlockParams>,
                 m: nat, less: map<nat, BlockParams>)
    requires Matched(order, results, rest, params) && rest != map[] && m == Min(rest.Keys) && less == rest - {m}
    ensures Matched(order, results, less, params + [rest[m]])
  {
    var more := params + [rest[m]];
    FirstOfRest(order, |params|, rest.Keys);
    forall k | 0 <= k < |more|
      ensures RestoredAt(order, results, more, k)
    {
      if k < |params| {
        assert RestoredAt(order, results, params, k);
      }
    }
    assert less.Keys == rest.Keys - {m};
  }

  /**
   `restore_blocks`: the producer's blocks are matched to the pending ones in
   order, each must name the one before as its parent, and they are stored
   together or not at all.
   */
  method RestoreBlocks(storage: EthereumBlockStorage, params: ProducerParams, fetch: nat -> Option<BlockParams>, fromBlock: nat, toBlock: nat)
    returns (r: Result<(), RestoreError>, ghost items: seq<PendingItem>, ghost chain: seq<BlockParams>, ghost results: map<nat, BlockParams>)
    modifies storage
    ensures ListsItems(items, params.pendingBlocks.slots)
    ensures r.Err? ==> storage.rows == old(storage.rows)
    ensures r.Ok? ==>
              && FetchedAll(results, fetch, fromBlock, toBlock + 1)
              && |chain| == (if |items| <= |results| then |items| else |results|)
              && HashLinked(params.parentHash, chain)
              && (forall k :: 0 <= k < |chain| ==> RestoredAt(Sorted(results.Keys), results, chain, k))
              && WrittenTo(old(storage.rows), storage.rows, items, chain)
    ensures r.Err? && r.error.FetchFailed? <==> exists n :: fromBlock <= n <= toBlock && fetch(n).None?
    ensures r.Err? && r.error.WrongParent? ==>
              && FetchedAll(results, fetch, fromBlock, toBlock + 1)
              && |chain| < |items| && |chain| < |results| && HashLinked(params.parentHash, chain)
              && (forall k :: 0 <= k < |chain| ==> RestoredAt(Sorted(results.Keys), results, chain, k))
              && RestoredAt(Sorted(results.Keys), results, chain + [r.error.params], |chain|)
              && r.error.params.parentHash != NextParent(params.parentHash, chain)
  {
    hide ListsItems, DistinctIds, Holds, Inserted, HashLinked, Matched, FetchedAll, WrittenTo, Restoring, Stored, RestoredAt;
    var listed := params.pendingBlocks.Iter();
    items, chain, results := listed, [], map[];
    ListedDistinct(items, params.pendingBlocks.slots);
    var fetched := GetBlocksParams(fetch, fromBlock, toBlock);
    if fetched.Err? {
      return Err(fetched.error), items, chain, results;
    }
    var blocksParams := fetched.value;
    results := blocksParams;
    var parentHash := params.parentHash;
    var producedBlocks := new ProducedBlocks();
    ghost var order, rows := Sorted(results.Keys), storage.rows;
    NothingRestored(items, results, parentHash, chain);
    for n := 0 to |listed|
      invariant |chain| == n && fresh(producedBlocks) && storage.rows == rows
      invariant Restoring(items, order, results, blocksParams, params.parentHash, producedBlocks.slots, chain, parentHash)
    {
      if blocksParams == map[] {
        break;
      }
      var number := Min(blocksParams.Keys);
      var blockParams := blocksParams[number];
      RestoringSo(items, order, results, blocksParams, params.parentHash, producedBlocks.slots, chain, parentHash);
      NextRestored(items, order, results, blocksParams, params.parentHash, producedBlocks.slots, chain, parentHash);
      if parentHash != blockParams.parentHash {
        return Err(WrongParent(blockParams)), items, chain, results;
      }
      RestoreMore(items, order, results, blocksParams, params.parentHash, producedBlocks.slots, chain, parentHash, number,
                  Inserted(producedBlocks.slots, listed[n].id, blockParams));
      parentHash := Some(blockParams.hash);
      producedBlocks.Insert(listed[n].id, blockParams);
      chain := chain + [blockParams];
      blocksParams := blocksParams - {number};
    }
    RestoringSo(items, order, results, blocksParams, params.parentHash, producedBlocks.slots, chain, parentHash);
    storage.BlocksProduced(params.pendingBlocks, producedBlocks);
    StoredIsWritten(rows, storage.rows, params.pendingBlocks.slots, producedBlocks.slots, items, chain);
    r := Ok(());
  }

  /** State of the restoring loop: the chain so far, the fetched blocks left, the parent its next block must have. */
  ghost predicate Restoring(items: seq<PendingItem>, order: seq<nat>, results: map<nat, BlockParams>, rest: map<nat, BlockParams>,
                            parentHash: Option<H256>, slots: ProducedSlots, chain: seq<BlockParams>, last: Option<H256>)
  {
    && DistinctIds(items) && Holds(slots, items, chain) && HashLinked(parentHash, chain)
    && Matched(order, results, rest, chain) && order == Sorted(results.Keys)
    && last == NextParent(parentHash, chain)
  }

  lemma NothingRestored(items: seq<PendingItem>, results: map<nat, BlockParams>, parentHash: Option<H256>, none: seq<BlockParams>)
    requires DistinctIds(items) && none == []
    ensures Restoring(items, Sorted(results.Keys), results, results, parentHash, map[], none, parentHash)
  {
    NothingHeld(items);
    NothingMatched(Sorted(results.Keys), results);
  }

  lemma RestoringSo(items: seq<PendingItem>, order: seq<nat>, results: map<nat, BlockParams>, rest: map<nat, BlockParams>,
                    parentHash: Option<H256>, slots: ProducedSlots, chain: seq<BlockParams>, last: Option<H256>)
    requires Restoring(items, order, results, rest, parentHash, slots, chain, last)
    ensures Holds(slots, items, chain) && HashLinked(parentHash, chain) && |chain| <= |items| && NoEmptyEntry(slots)
    ensures last == NextParent(parentHash, chain)
    ensures |chain| <= |results| && (rest == map[] <==> |chain| == |results|)
    ensures forall k :: 0 <= k < |chain| ==> RestoredAt(Sorted(results.Keys), results, chain, k)
  {
    hide HashLinked, Matched, RestoredAt;
    MatchedSize(order, results, rest, chain);
    assert |results| == |results.Keys|;
  }

  /** The fetched block of the next number. */
  lemma NextRestored(items: seq<PendingItem>, order: seq<nat>, results: map<nat, BlockParams>, rest: map<nat, BlockParams>,
                     parentHash: Option<H256>, slots: ProducedSlots, chain: seq<BlockParams>, last: Option<H256>)
    requires Restoring(items, order, results, rest, parentHash, slots, chain, last) && rest != map[]
    ensures |chain| < |results|
    ensures RestoredAt(Sorted(results.Keys), results, chain + [rest[Min(rest.Keys)]], |chain|)
  {
    hide Holds, HashLinked, DistinctIds;
    FirstOfRest(order, |chain|, rest.Keys);
    assert |results| == |results.Keys|;
  }

  lemma RestoreMore(items: seq<PendingItem>, order: seq<nat>, results: map<nat, BlockParams>, rest: map<nat, BlockParams>,
                    parentHash: Option<H256>, slots: ProducedSlots, chain: seq<BlockParams>, last: Option<H256>,
                    number: nat, more: ProducedSlots)
    requires Restoring(items, order, results, rest, parentHash, slots, chain, last) && |chain| < |items|
    requires rest != map[] && number == Min(rest.Keys) && rest[number].parentHash == last
    requires more == Inserted(slots, items[|chain|].id, rest[number])
    ensures Restoring(items, order, results, rest - {number}, parentHash, more, chain + [rest[number]], Some(rest[number].hash))
  {
    hide HashLinked, Matched, Holds, Inserted, DistinctIds;
    HoldsMore(slots, items, chain, rest[number], more);
    PopFirst(order, results, rest, chain, number, rest - {number});
    HashLinkedMore(parentHash, chain, rest[number]);
  }

  lemma HashLinkedMore(parentHash: Option<H256>, params: seq<BlockParams>, next: BlockParams)
    requires HashLinked(parentHash, params)
    requires next.parentHash == NextParent(parentHash, params)
    ensures HashLinked(parentHash, params + [next])
  {
    forall k | 0 <= k < |params| + 1
      ensures HashLinkedAt(parentHash, params + [next], k)
    {
      if k < |params| {
        assert HashLinkedAt(parentHash, params, k);
      }
    }
  }

  lemma NothingMatched(order: seq<nat>, results: map<nat, BlockParams>)
    requires Lists(order, results.Keys)
    ensures Matched(order, results, results, [])
  {
    assert order[0..] == order;
  }

  lemma MatchedSize(order: seq<nat>, results: map<nat, BlockParams>, rest: map<nat, BlockParams>, params: seq<BlockParams>)
    requires Matched(order, results, rest, params)
    ensures rest == map[] <==> |params| == |order|
    ensures |params| <= |order| && forall k :: 0 <= k < |params| ==> RestoredAt(order, results, params, k)
  {
    var left := order[|params|..];
    if |params| < |order| {
      assert left[0] in rest;
    } else {
      assert left == [];
      assert rest.Keys == {};
    }
  }

  /** With an honest producer the fetched map holds exactly the requested numbers. */
  lemma HonestKeys(results: map<nat, BlockParams>, fetch: nat -> Option<BlockParams>, low: nat, high: nat)
    requires FetchedAll(results, fetch, low, high) && Honest(fetch)
    ensures forall n: nat :: n in results <==> low <= n < high
  {
    forall n: nat
      ensures n in results <==> low <= n < high
    {
      if n in results {
        assert FetchedFrom(results, fetch, low, high, n);
      }
      if low <= n < high {
        assert fetch(n).Some?;
      }
    }
  }

  lemma HonestOrder(results: map<nat, BlockParams>, fetch: nat -> Option<BlockParams>, low: nat, high: nat)
    requires FetchedAll(results, fetch, low, high) && Honest(fetch) && low <= high
    ensures Sorted(results.Keys) == seq(high - low, i requires 0 <= i => low + i)
    ensures |results| == high - low
  {
    HonestKeys(results, fetch, low, high);
    var numbers: seq<nat> := seq(high - low, i requires 0 <= i => low + i);
    assert Lists(numbers, results.Keys) by {
      forall n
        ensures n in numbers <==> n in results.Keys
      {
        if n in results.Keys {
          assert numbers[n - low] == n;
        }
      }
    }
    ListingUnique(numbers, Sorted(results.Keys), results.Keys);
    assert |results| == |results.Keys|;
  }

  /** Then the restored blocks have consecutive numbers, from the first requested one on. */
  lemma RestoredConsecutive(results: map<nat, BlockParams>, params: seq<BlockParams>, fetch: nat -> Option<BlockParams>,
                            low: nat, high: nat, k: nat)
    requires FetchedAll(results, fetch, low, high) && Honest(fetch) && low <= high
    requires k < |params| && RestoredAt(Sorted(results.Keys), results, params, k)
    ensures params[k].number == low + k
    ensures |results| == high - low
  {
    HonestOrder(results, fetch, low, high);
    assert FetchedFrom(results, fetch, low, high, low + k);
  }

  /** Block `k` of the restored ones is the block the producer has for the `k`-th requested number. */
  lemma RestoredFetched(results: map<nat, BlockParams>, params: seq<BlockParams>, fetch: nat -> Option<BlockParams>,
                        low: nat, high: nat, k: nat)
    requires FetchedAll(results, fetch, low, high) && Honest(fetch) && low <= high
    requires k < |params| && RestoredAt(Sorted(results.Keys), results, params, k)
    ensures fetch(low + k) == Some(params[k]) && |results| == high - low
  {
    RestoredConsecutive(results, params, fetch, low, high, k);
    var m := Sorted(results.Keys)[k];
    assert FetchedFrom(results, fetch, low, high, m);
    var n :| low <= n < high && fetch(n) == Some(results[m]);
  }

  /**
   Restoring and producing agree. If the producer has the blocks it once built
   for the first pending items, then restoring them and producing the rest on
   top gives the chain and the rows that producing everything gives.
   */
  lemma RestoreThenProduce(engine: Engine, start: H256, items: seq<PendingItem>, made: seq<BlockParams>,
                           fetch: nat -> Option<BlockParams>, low: nat, results: map<nat, BlockParams>, restored: seq<BlockParams>,
                           rest: seq<BlockParams>, whole: seq<BlockParams>,
                           before: Rows, between: Rows, after: Rows, afterWhole: Rows)
    requires DistinctIds(items) && IsChain(engine, start, items, made)
    requires Honest(fetch) && forall k :: 0 <= k < |made| ==> fetch(low + k) == Some(made[k])
    requires FetchedAll(results, fetch, low, low + |made|)
    requires |restored| == if |items| <= |results| then |items| else |results|
    requires forall k :: 0 <= k < |restored| ==> RestoredAt(Sorted(results.Keys), results, restored, k)
    requires WrittenTo(before, between, items, restored)
    requires IsChain(engine, ParentAt(start, restored, |restored|), items[|restored|..], rest) && |restored| + |rest| == |items|
    requires WrittenTo(between, after, items[|restored|..], rest)
    requires IsChain(engine, start, items, whole) && |whole| == |items| && WrittenTo(before, afterWhole, items, whole)
    ensures restored == made && restored + rest == whole && after == afterWhole
  {
    hide FetchedAll, FetchedFrom, WrittenTo, BuiltAt, DistinctIds;
    HonestOrder(results, fetch, low, low + |made|);
    forall k | 0 <= k < |restored|
      ensures restored[k] == made[k]
    {
      RestoredFetched(results, restored, fetch, low, low + |made|, k);
    }
    assert restored == made;
    ChainAppend(engine, start, items, restored, rest);
    WrittenAppend(before, between, after, items, restored, rest);
    WholeChainUnique(engine, start, items, restored + rest, whole);
    WrittenUnique(before, after, afterWhole, items, whole);
  }
}
