/** The three block producers: each extends a chain of blocks by a batch of pending ones. */
module Producers {
  import opened Wrappers
  import opened Types
  import opened Ordered
  import opened BlockIds
  import opened Blocks

  datatype StateAdvanceTx = StateAdvanceTx(transaction: Transaction, gasPrice: nat, gasUsed: nat)

  /** What one engine call is told about the block it must build. */
  datatype Payload = Payload(timestamp: nat, txs: seq<StateAdvanceTx>, gasRecipient: Option<nat>)

  function AdvanceTx(entry: (Transaction, TxResult)): StateAdvanceTx {
    StateAdvanceTx(entry.0, entry.1.gasReport.gasPrice, entry.1.gasReport.gasValue)
  }

  /** The transactions of a pending block, in the order of their indexes. */
  ghost function PayloadOf(item: PendingItem): Payload {
    var order := Sorted(item.block.transactions.Keys);
    Payload(item.timestamp,
            seq(|order|, k requires 0 <= k < |order| => assert order[k] in order; AdvanceTx(item.block.transactions[order[k]])),
            item.block.gasRecipient)
  }

  /** Entry `k` tells the engine the transaction of `k`-th lowest index, its gas price and the gas it used. */
  ghost predicate CarriesAt(payload: Payload, item: PendingItem, k: nat)
    requires k < |payload.txs| == |item.block.transactions|
  {
    var index := Sorted(item.block.transactions.Keys)[k];
    && index in item.block.transactions
    && payload.txs[k].transaction == item.block.transactions[index].0
    && payload.txs[k].gasPrice == item.block.transactions[index].1.gasReport.gasPrice
    && payload.txs[k].gasUsed == item.block.transactions[index].1.gasReport.gasValue
  }

  /** What the engine must be told about an item: its timestamp and gas recipient, and one entry for each transaction. */
  ghost predicate Carries(payload: Payload, item: PendingItem) {
    && payload.timestamp == item.timestamp && payload.gasRecipient == item.block.gasRecipient
    && |payload.txs| == |item.block.transactions|
    && forall k :: 0 <= k < |payload.txs| ==> CarriesAt(payload, item, k)
  }

  /** The payload is the only one that carries the item. */
  lemma PayloadIffCarries(payload: Payload, item: PendingItem)
    ensures payload == PayloadOf(item) <==> Carries(payload, item)
  {
    var order, expected := Sorted(item.block.transactions.Keys), PayloadOf(item);
    assert |order| == |item.block.transactions.Keys| == |item.block.transactions|;
    assert forall k :: 0 <= k < |order| ==> order[k] in order;
    assert forall k :: 0 <= k < |order| ==> CarriesAt(expected, item, k);
    if Carries(payload, item) {
      forall k | 0 <= k < |order|
        ensures payload.txs[k] == expected.txs[k]
      {
        assert CarriesAt(payload, item, k) && CarriesAt(expected, item, k);
      }
      assert payload.txs == expected.txs;
    }
  }

  method BuildPayload(item: PendingItem) returns (payload: Payload)
    ensures payload == PayloadOf(item)
    ensures Carries(payload, item)
  {
    var entries := Values(item.block.transactions);
    payload := Payload(item.timestamp, seq(|entries|, k requires 0 <= k < |entries| => AdvanceTx(entries[k])), item.block.gasRecipient);
    assert payload.txs == PayloadOf(item).txs;
    PayloadIffCarries(payload, item);
  }

  /** A deterministic engine: number and hash of the block built on `parent`, or a failure. */
  type Engine = (H256, Payload) -> Option<(nat, H256)>

  function ParentAt(parent: H256, params: seq<BlockParams>, k: nat): H256
    requires k <= |params|
  {
    if k == 0 then parent else params[k - 1].hash
  }

  /** Block `k` is what the engine builds from item `k` on top of block `k - 1`. */
  ghost predicate BuiltAt(engine: Engine, parent: H256, items: seq<PendingItem>, params: seq<BlockParams>, k: nat)
    requires k < |params| <= |items|
  {
    && engine(ParentAt(parent, params, k), PayloadOf(items[k])) == Some((params[k].number, params[k].hash))
    && params[k].parentHash == Some(ParentAt(parent, params, k))
    && params[k].timestamp == items[k].timestamp
  }

  /** `params` is the chain the engine builds on `parent` from the first items. */
  ghost predicate IsChain(engine: Engine, parent: H256, items: seq<PendingItem>, params: seq<BlockParams>) {
    |params| <= |items| && forall k :: 0 <= k < |params| ==> BuiltAt(engine, parent, items, params, k)
  }

  /** The engine refuses the item behind the chain. */
  ghost predicate Refuses(engine: Engine, parent: H256, items: seq<PendingItem>, params: seq<BlockParams>) {
    |params| < |items| && engine(ParentAt(parent, params, |params|), PayloadOf(items[|params|])) == None
  }

  /** There is only one chain: two of them agree as far as both go. */
  lemma {:induction false} ChainUnique(engine: Engine, parent: H256, items: seq<PendingItem>, a: seq<BlockParams>, b: seq<BlockParams>, n: nat)
    requires IsChain(engine, parent, items, a) && IsChain(engine, parent, items, b)
    requires n <= |a| && n <= |b|
    ensures a[..n] == b[..n]
  {
    if n > 0 {
      ChainUnique(engine, parent, items, a, b, n - 1);
      assert BuiltAt(engine, parent, items, a, n - 1) && BuiltAt(engine, parent, items, b, n - 1);
      assert n > 1 ==> a[..n - 1][n - 2] == b[..n - 1][n - 2];
      assert a[..n] == a[..n - 1] + [a[n - 1]] && b[..n] == b[..n - 1] + [b[n - 1]];
    }
  }

  lemma LongerExtends(engine: Engine, parent: H256, items: seq<PendingItem>, a: seq<BlockParams>, b: seq<BlockParams>)
    requires IsChain(engine, parent, items, a) && IsChain(engine, parent, items, b) && |a| < |b|
    ensures !Refuses(engine, parent, items, a)
  {
    ChainUnique(engine, parent, items, a, b, |a|);
    assert BuiltAt(engine, parent, items, b, |a|);
    assert |a| > 0 ==> a[..|a|][|a| - 1] == b[..|a|][|a| - 1];
  }

  /** A chain that the engine refuses to extend is the longest one. */
  lemma RefusedIsLongest(engine: Engine, parent: H256, items: seq<PendingItem>, a: seq<BlockParams>, b: seq<BlockParams>)
    requires IsChain(engine, parent, items, a) && Refuses(engine, parent, items, a)
    requires IsChain(engine, parent, items, b)
    ensures b <= a
  {
    if |a| < |b| {
      LongerExtends(engine, parent, items, a, b);
    } else {
      ChainUnique(engine, parent, items, a, b, |b|);
    }
  }

  // ------------------------------------------------------------ where a batch ends

  ghost function SlotsOf(items: seq<PendingItem>, n: nat): set<Slot>
    requires n <= |items|
  {
    set k | 0 <= k < n :: items[k].id.slot
  }

  /** The engine and dummy producers count slots, the single-state producer counts blocks. */
  ghost predicate Reached(items: seq<PendingItem>, limit: Option<nat>, bySlots: bool, n: nat)
    requires n <= |items|
  {
    limit.Some? && limit.value <= if bySlots then |SlotsOf(items, n)| else n
  }

  /** The loop stops after `n` blocks: at the first count that reaches the limit, checked after each block. */
  ghost predicate Stops(items: seq<PendingItem>, limit: Option<nat>, bySlots: bool, n: nat) {
    && n <= |items| && (items != [] ==> 0 < n)
    && (n == |items| || Reached(items, limit, bySlots, n))
    && NotReached(items, limit, bySlots, n)
  }

  /** No smaller non-empty batch reaches the limit. */
  ghost predicate NotReached(items: seq<PendingItem>, limit: Option<nat>, bySlots: bool, n: nat)
    requires n <= |items|
  {
    forall m :: 0 < m < n ==> !Reached(items, limit, bySlots, m)
  }

  lemma NothingReached(items: seq<PendingItem>, limit: Option<nat>, bySlots: bool)
    ensures if items == [] then Stops(items, limit, bySlots, 0) else NotReached(items, limit, bySlots, 1)
  {
  }

  /** The test behind each block: whether `count` units are enough. */
  lemma CheckLimit(items: seq<PendingItem>, limit: Option<nat>, bySlots: bool, n: nat, count: nat)
    requires 0 < n <= |items| && NotReached(items, limit, bySlots, n)
    requires count == if bySlots then |SlotsOf(items, n)| else n
    ensures limit.Some? && count >= limit.value ==> Stops(items, limit, bySlots, n)
    ensures !(limit.Some? && count >= limit.value) ==> n < |items| ==> NotReached(items, limit, bySlots, n + 1)
    ensures !(limit.Some? && count >= limit.value) ==> n == |items| ==> Stops(items, limit, bySlots, n)
  {
  }

  lemma MoreSlots(items: seq<PendingItem>, n: nat)
    requires n < |items|
    ensures SlotsOf(items, n + 1) == SlotsOf(items, n) + {items[n].id.slot}
  {
  }

  /**
   A batch that stops early by the slot count ends with the first block of
   its last slot, however many blocks that slot has.
   */
  lemma StopsMidSlot(items: seq<PendingItem>, limit: nat, n: nat)
    requires Stops(items, Some(limit), true, n) && n < |items|
    ensures |SlotsOf(items, n)| == if limit == 0 then 1 else limit
    ensures items[n - 1].id.slot !in SlotsOf(items, n - 1)
  {
    MoreSlots(items, n - 1);
    assert SlotsOf(items, 0) == {};
    if n > 1 {
      assert !Reached(items, Some(limit), true, n - 1);
    }
  }

  // --------------------------------------------------------- what a batch holds

  ghost predicate InBatch(items: seq<PendingItem>, n: nat, id: BlockId)
    requires n <= |items|
  {
    exists k :: 0 <= k < n && items[k].id == id
  }

  /** The produced blocks are those of the first items, with these parameters. */
  ghost predicate Holds(slots: ProducedSlots, items: seq<PendingItem>, params: seq<BlockParams>) {
    && |params| <= |items|
    && NoEmptyEntry(slots)
    && slots.Keys == SlotsOf(items, |params|)
    && (forall k :: 0 <= k < |params| ==> ParamsAt(slots, items[k].id) == Some(params[k]))
    && (forall id :: ParamsAt(slots, id).Some? ==> InBatch(items, |params|, id))
  }

  ghost predicate DistinctIds(items: seq<PendingItem>) {
    forall j, k :: 0 <= j < k < |items| ==> Before(items[j].id, items[k].id)
  }

  lemma ListedDistinct(items: seq<PendingItem>, slots: PendingSlots)
    requires ListsItems(items, slots)
    ensures DistinctIds(items)
  {
    var ids :| IdsOf(items, ids) && ListsIds(ids, PendingIds(slots));
    forall j, k | 0 <= j < k < |items|
      ensures Before(items[j].id, items[k].id)
    {
      assert Before(ids[j], ids[k]);
    }
  }

  lemma HoldsMore(slots: ProducedSlots, items: seq<PendingItem>, params: seq<BlockParams>, next: BlockParams, more: ProducedSlots)
    requires Holds(slots, items, params) && |params| < |items| && DistinctIds(items)
    requires more == Inserted(slots, items[|params|].id, next)
    ensures Holds(more, items, params + [next])
  {
    var n := |params|;
    MoreSlots(items, n);
    InsertedHas(slots, items[n].id, next, items[n].id);
    forall k | 0 <= k < n + 1
      ensures ParamsAt(more, items[k].id) == Some((params + [next])[k])
    {
      InsertedHas(slots, items[n].id, next, items[k].id);
      assert k < n ==> Before(items[k].id, items[n].id);
    }
    forall id | ParamsAt(more, id).Some?
      ensures InBatch(items, n + 1, id)
    {
      InsertedHas(slots, items[n].id, next, id);
      if id != items[n].id {
        assert InBatch(items, n, id);
      }
    }
  }

  // --------------------------------------------------------- finalized pointer

  predicate ToFinalize(next: Option<BlockId>, id: BlockId) {
    next.Some? && !Before(next.value, id)
  }

  /** The finalized hash that goes with engine call `j`. */
  function PointerAt(items: seq<PendingItem>, next: Option<BlockId>, first: H256, params: seq<BlockParams>, j: nat): H256
    requires j <= |params| <= |items|
  {
    if j == 0 then first
    else if ToFinalize(next, items[j - 1].id) then params[j - 1].hash
    else PointerAt(items, next, first, params, j - 1)
  }

  ghost predicate Preorder(ancestor: (H256, H256) -> bool) {
    && (forall a :: ancestor(a, a))
    && (forall a, b, c :: ancestor(a, b) && ancestor(b, c) ==> ancestor(a, c))
  }

  /** If the chain starts above the finalized hash, every call gets a finalized hash at or below its parent. */
  lemma {:induction false} PointerIsAncestor(items: seq<PendingItem>, next: Option<BlockId>, first: H256, parent: H256,
                                             params: seq<BlockParams>, ancestor: (H256, H256) -> bool, j: nat)
    requires j <= |params| <= |items|
    requires Preorder(ancestor) && ancestor(first, parent)
    requires forall k :: 0 <= k < |params| ==> ancestor(ParentAt(parent, params, k), params[k].hash)
    ensures ancestor(PointerAt(items, next, first, params, j), ParentAt(parent, params, j))
  {
    if j > 0 {
      PointerIsAncestor(items, next, first, parent, params, ancestor, j - 1);
      assert ancestor(ParentAt(parent, params, j - 1), params[j - 1].hash);
    }
  }

  predicate UpTo(id: BlockId, last: BlockId) {
    id == last || Before(id, last)
  }

  lemma ToFinalizeIff(next: Option<BlockId>, id: BlockId)
    ensures ToFinalize(next, id) <==> next.Some? && UpTo(id, next.value)
  {
  }

  /**
   The pointer stays where it starts if no pending block is to be finalized.
   Otherwise it follows the blocks up to and including that id, and then rests
   on the last of them.
   */
  lemma {:induction false} PointerFollows(items: seq<PendingItem>, next: Option<BlockId>, first: H256, params: seq<BlockParams>, j: nat)
    returns (c: nat)
    requires j <= |params| <= |items| && DistinctIds(items)
    ensures c <= j && PointerAt(items, next, first, params, j) == if c == 0 then first else params[c - 1].hash
    ensures next.None? ==> c == 0
    ensures next.Some? ==> forall k :: 0 <= k < c ==> UpTo(items[k].id, next.value)
    ensures next.Some? ==> forall k :: c <= k < j ==> Before(next.value, items[k].id)
  {
    if j == 0 {
      c := 0;
    } else {
      c := PointerFollows(items, next, first, params, j - 1);
      ToFinalizeIff(next, items[j - 1].id);
      assert c < j - 1 ==> Before(items[c].id, items[j - 1].id);
      if ToFinalize(next, items[j - 1].id) {
        c := j;
      }
    }
  }

  // ------------------------------------------------------------- the producers

  datatype ProducerParams = ProducerParams(parentHash: Option<H256>, finalizedBlock: Option<FinalizedBlock>, pendingBlocks: PendingBlocks)

  datatype ProductionResult = ProductionResult(producedBlocks: ProducedBlocks, finalizedBlock: H256)

  datatype ProduceError = LookupFailed | UnknownParent | EngineFailed(id: BlockId)

  /**
   What geth answers at the start of a call: the block to build on (the one
   asked for, or the latest one) with its number, and the finalized hash.
   `None` is a failed lookup.
   */
  datatype GethLookup = GethLookup(parent: Option<(H256, nat)>, finalized: Option<H256>)

  datatype Call = Call(finalized: H256, parent: H256, finalizeNew: bool, payload: Payload)

  /** A lookup by hash finds the block with that hash. */
  predicate Answers(lookup: GethLookup, parentHash: Option<H256>) {
    parentHash.Some? && lookup.parent.Some? ==> lookup.parent.value.0 == parentHash.value
  }

  /** Whether production may start, and from which parent and finalized hash. */
  function Start(lookup: GethLookup, parentHash: Option<H256>): Result<(H256, H256), ProduceError> {
    if lookup.parent.None? then Err(LookupFailed)
    else if parentHash.None? && lookup.parent.value.1 != 0 then Err(UnknownParent)
    else if lookup.parent.value.1 == 0 then Ok((lookup.parent.value.0, lookup.parent.value.0))
    else if lookup.finalized.None? then Err(LookupFailed)
    else Ok((lookup.parent.value.0, lookup.finalized.value))
  }

  function FirstFinalized(finalizedBlock: Option<FinalizedBlock>, fromGeth: H256): H256 {
    if finalizedBlock.Some? && finalizedBlock.value.FinalizedProduced? then finalizedBlock.value.hash else fromGeth
  }

  function NextFinalized(finalizedBlock: Option<FinalizedBlock>): Option<BlockId> {
    if finalizedBlock.Some? && finalizedBlock.value.FinalizedPending? then Some(finalizedBlock.value.id) else None
  }

  /** When production may start: the parent is known, or the chain is empty; a chain that is not has a finalized block. */
  predicate MayStart(lookup: GethLookup, parentHash: Option<H256>) {
    && lookup.parent.Some? && (parentHash.Some? || lookup.parent.value.1 == 0)
    && (lookup.parent.value.1 == 0 || lookup.finalized.Some?)
  }

  /** The first engine call builds on the block asked for, with the known finalized hash, or geth's, or on an empty chain the parent's. */
  ghost predicate FirstCallIs(call: Call, lookup: GethLookup, params: ProducerParams)
    requires MayStart(lookup, params.parentHash)
  {
    && call.parent == (if params.parentHash.Some? then params.parentHash.value else lookup.parent.value.0)
    && call.finalized == match params.finalizedBlock
                         case Some(FinalizedProduced(hash)) => hash
                         case _ => if lookup.parent.value.1 == 0 then lookup.parent.value.0 else lookup.finalized.value
  }

  lemma StartsSo(lookup: GethLookup, params: ProducerParams)
    requires Answers(lookup, params.parentHash)
    ensures Start(lookup, params.parentHash).Ok? <==> MayStart(lookup, params.parentHash)
    ensures MayStart(lookup, params.parentHash) ==>
              var (parent, fromGeth) := Start(lookup, params.parentHash).value;
              && (forall call: Call :: call.parent == parent && call.finalized == FirstFinalized(params.finalizedBlock, fromGeth) ==>
                   FirstCallIs(call, lookup, params))
              && NextFinalized(params.finalizedBlock) ==
                   (if params.finalizedBlock.Some? && params.finalizedBlock.value.FinalizedPending?
                    then Some(params.finalizedBlock.value.id) else None)
    ensures Start(lookup, params.parentHash).Err? ==> !Start(lookup, params.parentHash).error.EngineFailed?
    ensures Start(lookup, params.parentHash) == Err(UnknownParent) <==>
              lookup.parent.Some? && params.parentHash.None? && lookup.parent.value.1 != 0
  {
  }

  ghost predicate CallAt(calls: seq<Call>, items: seq<PendingItem>, next: Option<BlockId>, first: H256, parent: H256,
                         params: seq<BlockParams>, j: nat)
    requires j < |calls| && j <= |params| <= |items| && j < |items|
  {
    && calls[j].finalized == PointerAt(items, next, first, params, j) && calls[j].parent == ParentAt(parent, params, j)
    && (calls[j].finalizeNew <==> next.Some? && UpTo(items[j].id, next.value))
    && Carries(calls[j].payload, items[j])
  }

  /** Every engine call so far was made with the pointer and parent that belong to it. */
  ghost predicate CallsMatch(calls: seq<Call>, items: seq<PendingItem>, next: Option<BlockId>, first: H256, parent: H256,
                             params: seq<BlockParams>)
  {
    && |params| <= |items| && |calls| <= |items| && |params| <= |calls| <= |params| + 1
    && forall j :: 0 <= j < |calls| ==> CallAt(calls, items, next, first, parent, params, j)
  }

  lemma {:induction false} PointerStable(items: seq<PendingItem>, next: Option<BlockId>, first: H256, params: seq<BlockParams>,
                                         more: BlockParams, j: nat)
    requires j <= |params| < |items|
    ensures PointerAt(items, next, first, params + [more], j) == PointerAt(items, next, first, params, j)
  {
    if j > 0 {
      PointerStable(items, next, first, params, more, j - 1);
    }
  }

  lemma CallsStable(calls: seq<Call>, items: seq<PendingItem>, next: Option<BlockId>, first: H256, parent: H256,
                    params: seq<BlockParams>, more: BlockParams)
    requires CallsMatch(calls, items, next, first, parent, params) && |params| < |items| && |calls| == |params| + 1
    ensures CallsMatch(calls, items, next, first, parent, params + [more])
  {
    forall j | 0 <= j < |calls|
      ensures CallAt(calls, items, next, first, parent, params + [more], j)
    {
      assert CallAt(calls, items, next, first, parent, params, j);
      PointerStable(items, next, first, params, more, j);
    }
  }

  lemma ChainMore(engine: Engine, parent: H256, items: seq<PendingItem>, params: seq<BlockParams>, next: BlockParams)
    requires IsChain(engine, parent, items, params) && |params| < |items|
    requires BuiltAt(engine, parent, items, params + [next], |params|)
    ensures IsChain(engine, parent, items, params + [next])
  {
    forall k | 0 <= k < |params| + 1
      ensures BuiltAt(engine, parent, items, params + [next], k)
    {
      if k < |params| {
        assert BuiltAt(engine, parent, items, params, k);
      }
    }
  }

  lemma NothingProduced(engine: Engine, parent: H256, items: seq<PendingItem>, next: Option<BlockId>, first: H256, limit: Option<nat>)
    ensures Holds(map[], items, []) && IsChain(engine, parent, items, [])
    ensures CallsMatch([], items, next, first, parent, [])
    ensures PointerAt(items, next, first, [], 0) == first
  {
    assert SlotsOf(items, 0) == {};
  }

  /** `len()` is the number of distinct slots among the produced items. */
  lemma HoldsValid(slots: ProducedSlots, items: seq<PendingItem>, params: seq<BlockParams>)
    requires Holds(slots, items, params)
    ensures |params| <= |items| && |slots| == |SlotsOf(items, |params|)| && NoEmptyEntry(slots)
  {
    assert |slots| == |slots.Keys|;
  }

  lemma CheckSlots(slots: ProducedSlots, items: seq<PendingItem>, limit: Option<nat>, params: seq<BlockParams>)
    requires Holds(slots, items, params) && params != [] && NotReached(items, limit, true, |params|)
    ensures limit.Some? && |slots| >= limit.value ==> Stops(items, limit, true, |params|)
    ensures !(limit.Some? && |slots| >= limit.value) ==>
              if |params| < |items| then NotReached(items, limit, true, |params| + 1) else Stops(items, limit, true, |params|)
  {
    HoldsValid(slots, items, params);
    CheckLimit(items, limit, true, |params|, |slots|);
  }

  lemma CallMore(calls: seq<Call>, items: seq<PendingItem>, next: Option<BlockId>, first: H256, parent: H256,
                 params: seq<BlockParams>, call: Call)
    requires CallsMatch(calls, items, next, first, parent, params) && |calls| == |params| < |items|
    requires call == Call(PointerAt(items, next, first, params, |params|), ParentAt(parent, params, |params|),
                          ToFinalize(next, items[|params|].id), PayloadOf(items[|params|]))
    ensures CallsMatch(calls + [call], items, next, first, parent, params)
  {
    hide Carries, PayloadOf, PointerAt;
    PayloadIffCarries(call.payload, items[|params|]);
    ToFinalizeIff(next, items[|params|].id);
    forall j | 0 <= j < |calls| + 1
      ensures CallAt(calls + [call], items, next, first, parent, params, j)
    {
      if j < |calls| {
        assert CallAt(calls, items, next, first, parent, params, j);
      }
    }
  }

  lemma ChainFits(engine: Engine, parent: H256, items: seq<PendingItem>, params: seq<BlockParams>)
    requires IsChain(engine, parent, items, params)
    ensures |params| <= |items|
  {
  }

  /** One engine call and what the loop keeps of its answer. */
  lemma BlockBuilt(engine: Engine, parent: H256, items: seq<PendingItem>, next: Option<BlockId>, first: H256,
                   slots: ProducedSlots, chain: seq<BlockParams>, calls: seq<Call>, block: BlockParams)
    requires IsChain(engine, parent, items, chain) && |calls| == |chain| < |items| && DistinctIds(items)
    requires Holds(slots, items, chain)
    requires CallsMatch(calls, items, next, first, parent, chain)
    requires engine(ParentAt(parent, chain, |chain|), PayloadOf(items[|chain|])) == Some((block.number, block.hash))
    requires block.parentHash == Some(ParentAt(parent, chain, |chain|)) && block.timestamp == items[|chain|].timestamp
    ensures IsChain(engine, parent, items, chain + [block])
    ensures Holds(Inserted(slots, items[|chain|].id, block), items, chain + [block])
    ensures var call := Call(PointerAt(items, next, first, chain, |chain|), ParentAt(parent, chain, |chain|),
                             ToFinalize(next, items[|chain|].id), PayloadOf(items[|chain|]));
            CallsMatch(calls + [call], items, next, first, parent, chain + [block])
    ensures PointerAt(items, next, first, chain + [block], |chain| + 1) ==
              if ToFinalize(next, items[|chain|].id) then block.hash else PointerAt(items, next, first, chain, |chain|)
  {
    hide Holds, CallsMatch, IsChain, DistinctIds, Inserted;
    ChainFits(engine, parent, items, chain);
    var call := Call(PointerAt(items, next, first, chain, |chain|), ParentAt(parent, chain, |chain|), ToFinalize(next, items[|chain|].id),
                     PayloadOf(items[|chain|]));
    HoldsMore(slots, items, chain, block, Inserted(slots, items[|chain|].id, block));
    CallMore(calls, items, next, first, parent, chain, call);
    CallsStable(calls + [call], items, next, first, parent, chain, block);
    PointerStable(items, next, first, chain, block, |chain|);
    assert BuiltAt(engine, parent, items, chain + [block], |chain|);
    ChainMore(engine, parent, items, chain, block);
  }

  class EngineAPIBlockProducer {
    const engine: Engine

    constructor (engine: Engine)
      ensures this.engine == engine
    {
      this.engine := engine;
    }

    /**
     Builds a batch on the parent. The ghost results name the items, the chain
     built from them, and the engine calls made for it.
     */
    method ProduceBlocks(params: ProducerParams, limit: Option<nat>, lookup: GethLookup)
      returns (r: Result<ProductionResult, ProduceError>, ghost items: seq<PendingItem>, ghost chain: seq<BlockParams>, ghost calls: seq<Call>)
      requires Answers(lookup, params.parentHash)
      ensures ListsItems(items, params.pendingBlocks.slots)
      ensures Start(lookup, params.parentHash).Err? ==> r == Err(Start(lookup, params.parentHash).error) && chain == [] && calls == []
      ensures Start(lookup, params.parentHash).Ok? ==>
                var (parent, fromGeth) := Start(lookup, params.parentHash).value;
                && IsChain(engine, parent, items, chain)
                && CallsMatch(calls, items, NextFinalized(params.finalizedBlock), FirstFinalized(params.finalizedBlock, fromGeth), parent, chain)
                && (r.Ok? ==>
                      && Stops(items, limit, true, |chain|) && |calls| == |chain|
                      && r.value.finalizedBlock == PointerAt(items, NextFinalized(params.finalizedBlock),
                                                             FirstFinalized(params.finalizedBlock, fromGeth), chain, |chain|))
                && (r.Err? ==>
                      && Refuses(engine, parent, items, chain) && r.error == EngineFailed(items[|chain|].id)
                      && NotReached(items, limit, true, |chain| + 1))
      ensures r.Ok? ==> fresh(r.value.producedBlocks) && Holds(r.value.producedBlocks.slots, items, chain)
      ensures MayStart(lookup, params.parentHash) <==> r.Ok? || r.error.EngineFailed?
      ensures calls != [] ==> MayStart(lookup, params.parentHash) && FirstCallIs(calls[0], lookup, params)
    {
      hide Carries, FirstCallIs, MayStart, Start, Answers, FirstFinalized, NextFinalized, ToFinalize, UpTo, IsChain, CallsMatch, PointerAt,
           ListsItems, BuiltAt, DistinctIds, PayloadOf, Holds, Inserted, Stops, NotReached, SlotsOf, Reached;
      var listed := params.pendingBlocks.Iter();
      items, chain, calls := listed, [], [];
      var start := Start(lookup, params.parentHash);
      StartsSo(lookup, params);
      if start.Err? {
        return Err(start.error), items, chain, calls;
      }
      ListedDistinct(items, params.pendingBlocks.slots);
      ghost var parent, first := start.value.0, FirstFinalized(params.finalizedBlock, start.value.1);
      var currentFinalized, nextFinalized := FirstFinalized(params.finalizedBlock, start.value.1), NextFinalized(params.finalizedBlock);
      var parentHash := start.value.0;
      var producedBlocks := new ProducedBlocks();
      NothingProduced(engine, parent, items, nextFinalized, first, limit);
      NothingReached(items, limit, true);
      for n := 0 to |listed|
        invariant |chain| == n == |calls| && fresh(producedBlocks)
        invariant IsChain(engine, parent, items, chain) && parentHash == ParentAt(parent, chain, n)
        invariant Holds(producedBlocks.slots, items, chain)
        invariant if n == |listed| then Stops(items, limit, true, n) else NotReached(items, limit, true, n + 1)
        invariant CallsMatch(calls, items, nextFinalized, first, parent, chain)
        invariant currentFinalized == PointerAt(items, nextFinalized, first, chain, n)
        invariant if n == 0 then currentFinalized == first && parentHash == parent else FirstCallIs(calls[0], lookup, params)
      {
        var item := listed[n];
        var finalizeNewBlock := ToFinalize(nextFinalized, item.id);
        var payload := BuildPayload(item);
        ghost var call := Call(currentFinalized, parentHash, finalizeNewBlock, payload);
        var advanced := engine(parentHash, payload);
        if advanced.None? {
          CallMore(calls, items, nextFinalized, first, parent, chain, call);
          return Err(EngineFailed(item.id)), items, chain, calls + [call];
        }
        var block := BlockParams(advanced.value.1, Some(parentHash), advanced.value.0, item.timestamp);
        BlockBuilt(engine, parent, items, nextFinalized, first, producedBlocks.slots, chain, calls, block);
        HoldsValid(producedBlocks.slots, items, chain);
        producedBlocks.Insert(item.id, block);
        calls, chain := calls + [call], chain + [block];

        parentHash := block.hash;
        if finalizeNewBlock {
          currentFinalized := block.hash;
        }
        CheckSlots(producedBlocks.slots, items, limit, chain);
        if limit.Some? && producedBlocks.Len() >= limit.value {
          return Ok(ProductionResult(producedBlocks, currentFinalized)), items, chain, calls;
        }
      }
      r := Ok(ProductionResult(producedBlocks, currentFinalized));
    }
  }

  // ------------------------------------------------- producers without an engine

  /** The parent hash of the next block behind these. */
  function NextParent(parentHash: Option<H256>, params: seq<BlockParams>): Option<H256> {
    if params == [] then parentHash else Some(params[|params| - 1].hash)
  }

  /** Block `k` names block `k - 1` as its parent and keeps its slot's timestamp. */
  ghost predicate LinkedAt(parentHash: Option<H256>, items: seq<PendingItem>, params: seq<BlockParams>, k: nat)
    requires k < |params| <= |items|
  {
    && params[k].parentHash == (if k == 0 then parentHash else Some(params[k - 1].hash))
    && params[k].timestamp == items[k].timestamp
  }

  ghost predicate Linked(parentHash: Option<H256>, items: seq<PendingItem>, params: seq<BlockParams>) {
    |params| <= |items| && forall k :: 0 <= k < |params| ==> LinkedAt(parentHash, items, params, k)
  }

  lemma LinkedMore(parentHash: Option<H256>, items: seq<PendingItem>, params: seq<BlockParams>, next: BlockParams)
    requires Linked(parentHash, items, params) && |params| < |items|
    requires next.parentHash == NextParent(parentHash, params)
    requires next.timestamp == items[|params|].timestamp
    ensures Linked(parentHash, items, params + [next])
  {
    forall k | 0 <= k < |params| + 1
      ensures LinkedAt(parentHash, items, params + [next], k)
    {
      if k < |params| {
        assert LinkedAt(parentHash, items, params, k);
      }
    }
  }

  lemma NothingHeld(items: seq<PendingItem>)
    ensures Holds(map[], items, [])
  {
    assert SlotsOf(items, 0) == {};
  }

  /** What a loop has built so far without reaching its limit, and the parent of its next block. */
  ghost predicate Drafted(parentHash: Option<H256>, items: seq<PendingItem>, limit: Option<nat>, bySlots: bool,
                          slots: ProducedSlots, chain: seq<BlockParams>, last: Option<H256>)
  {
    && Holds(slots, items, chain) && Linked(parentHash, items, chain) && last == NextParent(parentHash, chain)
    && (if |chain| == |items| then Stops(items, limit, bySlots, |chain|) else NotReached(items, limit, bySlots, |chain| + 1))
  }

  lemma DraftNothing(parentHash: Option<H256>, items: seq<PendingItem>, limit: Option<nat>, bySlots: bool)
    ensures Drafted(parentHash, items, limit, bySlots, map[], [], parentHash)
  {
    NothingHeld(items);
    NothingReached(items, limit, bySlots);
  }

  /** One more block, and the test of the limit behind it: `count` is the number of slots or of blocks. */
  lemma DraftMore(parentHash: Option<H256>, items: seq<PendingItem>, limit: Option<nat>, bySlots: bool,
                  slots: ProducedSlots, chain: seq<BlockParams>, last: Option<H256>, block: BlockParams, more: ProducedSlots, count: nat)
    requires Drafted(parentHash, items, limit, bySlots, slots, chain, last) && |chain| < |items| && DistinctIds(items)
    requires block.parentHash == last && block.timestamp == items[|chain|].timestamp
    requires more == Inserted(slots, items[|chain|].id, block) && count == if bySlots then |more| else |chain| + 1
    ensures NoEmptyEntry(slots)
    ensures Holds(more, items, chain + [block]) && Linked(parentHash, items, chain + [block])
    ensures limit.Some? && count >= limit.value ==> Stops(items, limit, bySlots, |chain| + 1)
    ensures !(limit.Some? && count >= limit.value) ==>
              Drafted(parentHash, items, limit, bySlots, more, chain + [block], Some(block.hash))
  {
    hide Holds, Linked, Inserted, DistinctIds, Stops, NotReached, SlotsOf, Reached;
    HoldsValid(slots, items, chain);
    HoldsMore(slots, items, chain, block, more);
    HoldsValid(more, items, chain + [block]);
    LinkedMore(parentHash, items, chain, block);
    CheckLimit(items, limit, bySlots, |chain| + 1, count);
  }

  lemma DraftDone(parentHash: Option<H256>, items: seq<PendingItem>, limit: Option<nat>, bySlots: bool,
                  slots: ProducedSlots, chain: seq<BlockParams>, last: Option<H256>)
    requires Drafted(parentHash, items, limit, bySlots, slots, chain, last) && |chain| == |items|
    ensures Holds(slots, items, chain) && Linked(parentHash, items, chain) && Stops(items, limit, bySlots, |chain|)
  {
    hide Holds, Linked, Stops, NotReached;
  }

  /** Hash and number of each block are those of its Solana slot. */
  ghost predicate NamedBySlots(items: seq<PendingItem>, chain: seq<BlockParams>) {
    |chain| <= |items| && forall k :: 0 <= k < |chain| ==> chain[k].hash == items[k].blockhash && chain[k].number == items[k].id.slot
  }

  lemma NamedMore(items: seq<PendingItem>, chain: seq<BlockParams>, next: BlockParams)
    requires NamedBySlots(items, chain) && |chain| < |items|
    requires next.hash == items[|chain|].blockhash && next.number == items[|chain|].id.slot
    ensures NamedBySlots(items, chain + [next])
  {
  }

  class SingleStateBlockProducer {
    constructor () {
    }

    /** Each block takes the hash and the number of its slot; the limit counts blocks. */
    method ProduceBlocks(params: ProducerParams, limit: Option<nat>)
      returns (produced: ProducedBlocks, ghost items: seq<PendingItem>, ghost chain: seq<BlockParams>)
      ensures ListsItems(items, params.pendingBlocks.slots) && fresh(produced)
      ensures Stops(items, limit, false, |chain|) && Holds(produced.slots, items, chain)
      ensures Linked(params.parentHash, items, chain)
      ensures NamedBySlots(items, chain)
    {
      hide ListsItems, DistinctIds, Holds, Inserted, Stops, NotReached, Linked, NamedBySlots, Drafted;
      var listed := params.pendingBlocks.Iter();
      items, chain := listed, [];
      ListedDistinct(items, params.pendingBlocks.slots);
      produced := new ProducedBlocks();
      var parentBlockhash, count := params.parentHash, 0;
      DraftNothing(parentBlockhash, items, limit, false);
      NothingNamed(items);
      for n := 0 to |listed|
        invariant |chain| == n == count && fresh(produced)
        invariant NamedBySlots(items, chain)
        invariant Drafted(params.parentHash, items, limit, false, produced.slots, chain, parentBlockhash)
      {
        var item := listed[n];
        var block := BlockParams(item.blockhash, parentBlockhash, item.id.slot, item.timestamp);
        count := count + 1;
        ghost var more := Inserted(produced.slots, item.id, block);
        DraftMore(params.parentHash, items, limit, false, produced.slots, chain, parentBlockhash, block, more, count);
        NamedMore(items, chain, block);
        produced.Insert(item.id, block);
        chain := chain + [block];
        parentBlockhash := Some(item.blockhash);
        if limit.Some? && count >= limit.value {
          return;
        }
      }
      DraftDone(params.parentHash, items, limit, false, produced.slots, chain, parentBlockhash);
    }
  }

  lemma NothingNamed(items: seq<PendingItem>)
    ensures NamedBySlots(items, [])
  {
  }

  ghost predicate NumberedFrom(chain: seq<BlockParams>, first: nat, random: nat -> H256) {
    forall k :: 0 <= k < |chain| ==> chain[k].number == first + k && chain[k].hash == random(first + k)
  }

  lemma NumberedMore(chain: seq<BlockParams>, first: nat, random: nat -> H256, next: BlockParams)
    requires NumberedFrom(chain, first, random) && next.number == first + |chain| && next.hash == random(next.number)
    ensures NumberedFrom(chain + [next], first, random)
  {
  }

  class DummyBlockProducer {
    var nextBlock: nat

    constructor ()
      ensures nextBlock == 1
    {
      nextBlock := 1;
    }

    /** `fetch_add` on the shared counter. */
    method FetchNumber() returns (number: nat)
      modifies this
      ensures number == old(nextBlock) && nextBlock == number + 1
    {
      number := nextBlock;
      nextBlock := nextBlock + 1;
    }

    /** Consecutive numbers from a shared counter, hashes from a source of randomness; the limit counts slots. */
    method ProduceBlocks(params: ProducerParams, limit: Option<nat>, random: nat -> H256)
      returns (produced: ProducedBlocks, ghost items: seq<PendingItem>, ghost chain: seq<BlockParams>)
      modifies this
      ensures ListsItems(items, params.pendingBlocks.slots) && fresh(produced)
      ensures Stops(items, limit, true, |chain|) && Holds(produced.slots, items, chain)
      ensures Linked(params.parentHash, items, chain)
      ensures nextBlock == old(nextBlock) + |chain|
      ensures NumberedFrom(chain, old(nextBlock), random)
    {
      hide ListsItems, DistinctIds, Holds, Inserted, Stops, NotReached, Linked, NumberedFrom, Drafted;
      var listed := params.pendingBlocks.Iter();
      items, chain := listed, [];
      ListedDistinct(items, params.pendingBlocks.slots);
      produced := new ProducedBlocks();
      var parentHash := params.parentHash;
      ghost var first := nextBlock;
      DraftNothing(parentHash, items, limit, true);
      NothingNumbered(first, random);
      for n := 0 to |listed|
        invariant |chain| == n && fresh(produced) && nextBlock == first + n
        invariant NumberedFrom(chain, first, random)
        invariant Drafted(params.parentHash, items, limit, true, produced.slots, chain, parentHash)
      {
        var item := listed[n];
        var blockNumber := FetchNumber();
        var block := BlockParams(random(blockNumber), parentHash, blockNumber, item.timestamp);
        ghost var more := Inserted(produced.slots, item.id, block);
        DraftMore(params.parentHash, items, limit, true, produced.slots, chain, parentHash, block, more, |more|);
        NumberedMore(chain, first, random, block);
        produced.Insert(item.id, block);
        chain := chain + [block];
        parentHash := Some(block.hash);
        if limit.Some? && produced.Len() >= limit.value {
          return;
        }
      }
      DraftDone(params.parentHash, items, limit, true, produced.slots, chain, parentHash);
    }
  }

  lemma NothingNumbered(first: nat, random: nat -> H256)
    ensures NumberedFrom([], first, random)
  {
  }
}
