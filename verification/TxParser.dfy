/** `DefaultTxParser`: the two mutable indices and the operations on them. */
module TxParser {
  import opened Wrappers
  import opened Types
  import opened Ordered
  import opened Reassembly
  import opened TxIndex

  datatype FinalizeError = IncompleteData(h: H256) | TxNotFound(h: H256) | Undecodable(h: H256)

  /** Index of the first result of a hash that is not `None`. */
  ghost predicate IsFirstResult(results: TxResults, i: nat) {
    && i in results && results[i].Some?
    && forall j :: j in results && results[j].Some? ==> i <= j
  }

  ghost predicate HasResult(results: TxResults) {
    exists i :: i in results && results[i].Some?
  }

  /** Every hash a slot has a result for has all its data. */
  ghost predicate SlotComplete(transactions: map<H256, EvmTx>, slotResults: SlotResults) {
    forall h :: h in slotResults && HasResult(slotResults[h]) ==> h in transactions && DataComplete(transactions[h])
  }

  /** `EvmTx::build`, with RLP decoding as a partial function. */
  function Build(decode: seq<Byte> -> Option<Transaction>, tx: EvmTx): Option<Transaction> {
    match tx
    case SmallEvmTx(t) => Some(t)
    case BigEvmTx(holderData, _) => decode(holderData)
  }

  /** Every hash a slot has a result for decodes, as far as its data is complete. */
  ghost predicate SlotDecodable(decode: seq<Byte> -> Option<Transaction>, transactions: map<H256, EvmTx>, slotResults: SlotResults) {
    forall h :: h in slotResults && HasResult(slotResults[h]) && h in transactions && DataComplete(transactions[h]) ==>
      Build(decode, transactions[h]).Some?
  }

  /** What finalizing the slot can fail with: the error of any of its hashes, whichever the map yields first. */
  ghost predicate MayFail(decode: seq<Byte> -> Option<Transaction>, transactions: map<H256, EvmTx>, slotResults: SlotResults, e: FinalizeError) {
    && e.h in slotResults && HasResult(slotResults[e.h])
    && match e
       case TxNotFound(h) => h !in transactions
       case IncompleteData(h) => h in transactions && !DataComplete(transactions[h])
       case Undecodable(h) => h in transactions && DataComplete(transactions[h]) && Build(decode, transactions[h]).None?
  }

  /** `chosen` names, for every first-result index of the slot, a hash that has it. */
  ghost predicate Chooses(chosen: map<nat, H256>, slotResults: SlotResults, hashes: set<H256>) {
    && (forall i :: i in chosen ==> chosen[i] in hashes && chosen[i] in slotResults && IsFirstResult(slotResults[chosen[i]], i))
    && (forall h, i :: h in hashes && h in slotResults && IsFirstResult(slotResults[h], i) ==> i in chosen)
  }

  /** The finalized list: one entry per chosen index, in ascending index order. */
  ghost predicate IsListing(decode: seq<Byte> -> Option<Transaction>, transactions: map<H256, EvmTx>, slotResults: SlotResults,
                            chosen: map<nat, H256>, list: seq<(Transaction, TxResult)>)
  {
    var order := Sorted(chosen.Keys);
    && |list| == |order|
    && forall k :: 0 <= k < |list| ==>
         && order[k] in chosen
         && chosen[order[k]] in transactions && chosen[order[k]] in slotResults
         && order[k] in slotResults[chosen[order[k]]]
         && Build(decode, transactions[chosen[order[k]]]) == Some(list[k].0)
         && slotResults[chosen[order[k]]][order[k]] == Some(list[k].1)
  }

  class DefaultTxParser {
    var transactionsByHash: map<H256, EvmTx>
    var resultsBySlot: map<Slot, SlotResults>
    const decode: seq<Byte> -> Option<Transaction>

    constructor (decode: seq<Byte> -> Option<Transaction>)
      ensures State() == Index(map[], map[]) && Valid()
      ensures this.decode == decode
    {
      this.decode := decode;
      transactionsByHash, resultsBySlot := map[], map[];
    }

    function State(): Index
      reads this
    {
      Index(transactionsByHash, resultsBySlot)
    }

    /** Every hash with a recorded result is known; `is_slot_complete` panics otherwise. */
    ghost predicate Valid()
      reads this
    {
      Referenced(State())
    }

    /** The innermost loop body: one step of one hash. */
    method RegisterStep(slot: Slot, txHash: H256, txIdx: nat, txStep: ParsedTxStep) returns (r: Result<(), HolderError>)
      requires Valid()
      modifies this`transactionsByHash, this`resultsBySlot
      ensures Valid()
      ensures
        var applied := ApplyStep(Lookup(old(transactionsByHash), txHash), txStep);
        if applied.Ok?
        then r.Ok? && State() == TakeEntry(old(State()), slot, txHash, Entry(txIdx, txStep), applied.value)
        else r.Err? && State() == old(State())
    {
      ghost var state := State();
      match txStep {
        case SmallTx(tx, _) =>
          if txHash !in transactionsByHash {
            transactionsByHash := transactionsByHash[txHash := SmallEvmTx(tx)];
          }
        case BigTx(_) =>
          if txHash !in transactionsByHash {
            transactionsByHash := transactionsByHash[txHash := NEW_BIG_TX];
          }
        case TransmitTx(piece) =>
          var current := if txHash in transactionsByHash then transactionsByHash[txHash] else NEW_BIG_TX;
          var updated := UpdateTxHolder(current, piece.offset, piece.data);
          if updated.Err? {
            return Err(updated.error);
          }
          transactionsByHash := transactionsByHash[txHash := updated.value];
      }
      ghost var applied := ApplyStep(Lookup(state.transactions, txHash), txStep).value;
      assert transactionsByHash == state.transactions[txHash := applied];
      var slotResults := SlotResultsAt(resultsBySlot, slot);
      var txResults := OrInsert(TxResultsAt(slotResults, txHash), txIdx, txStep.Outcome());
      resultsBySlot := resultsBySlot[slot := slotResults[txHash := txResults]];
      TakeReferenced(state, slot, txHash, Entry(txIdx, txStep), applied);
      return Ok(());
    }

    /** The inner loop: all steps of one hash, in index order. */
    method RegisterHash(slot: Slot, txHash: H256, txSteps: TxSteps,
                        ghost base: Index, ghost plan: Plan, ghost taken: map<H256, nat>)
      returns (r: Result<(), HolderError>, ghost now: map<H256, nat>)
      requires Valid()
      requires txHash in plan && plan[txHash] == EntriesOf(txSteps)
      requires Progress(plan, taken) && taken[txHash] == 0 && RegisteredUpTo(base, State(), slot, plan, taken)
      modifies this`transactionsByHash, this`resultsBySlot
      ensures Valid()
      ensures Progress(plan, now) && RegisteredUpTo(base, State(), slot, plan, now)
      ensures now == taken[txHash := now[txHash]]
      ensures r.Ok? ==> now[txHash] == |txSteps|
      ensures r.Err? ==> now[txHash] < |txSteps| && Rejected(State(), base, plan, now, txHash)
    {
      hide RegisteredUpTo, ApplyStep, ApplyEntries, TakeEntry, TxUpTo, Referenced, OrInsert;
      now := taken;
      var order := SortedKeys(txSteps.Keys);
      for k := 0 to |order|
        invariant Valid()
        invariant Progress(plan, now) && RegisteredUpTo(base, State(), slot, plan, now)
        invariant now == taken[txHash := k]
      {
        var txIdx := order[k];
        assert plan[txHash][k] == Entry(txIdx, txSteps[txIdx]);
        ghost var more := now[txHash := k + 1];
        OneMoreEntry(base, State(), slot, plan, now, more, txHash);
        var step := RegisterStep(slot, txHash, txIdx, txSteps[txIdx]);
        if step.Err? {
          RejectedForever(base, plan, now, more, txHash);
          return step, now;
        }
        now := more;
      }
      r := Ok(());
    }

    /** The first part: drop or update the results the slot already has. */
    method RetainExisting(slot: Slot, slotTxs: ParsedTxs)
      requires Valid()
      modifies this`resultsBySlot
      ensures Valid()
      ensures State() == BaseOf(old(State()), slot, slotTxs)
    {
      RetainReferenced(State(), slot, slotTxs);
      if slot in resultsBySlot {
        var existing := resultsBySlot[slot];
        var retained := map h | h in existing && h in slotTxs :: Retained(existing[h], slotTxs[h]);
        resultsBySlot := resultsBySlot[slot := retained];
      }
    }

    /**
     Registers the transactions of one slot. It succeeds exactly when every
     hash accepts all its steps, and then performs `Registered`. When it fails
     (a piece for a transaction that is not a holder one) some entries have
     been processed, and the next entry of one hash is a rejected one.
     */
    method RegisterSlotTransactions(slot: Slot, slotTxs: ParsedTxs) returns (r: Result<(), HolderError>)
      requires Valid()
      modifies this`transactionsByHash, this`resultsBySlot
      ensures Valid()
      ensures r.Ok? <==> Accepts(old(transactionsByHash), slotTxs)
      ensures r.Ok? ==> State() == Registered(old(State()), slot, slotTxs)
      ensures r.Ok? ==> Replaces(old(State()), slot, slotTxs, State())
      ensures r.Err? ==> exists taken, h :: StoppedAt(old(State()), State(), slot, slotTxs, taken, h)
    {
      ghost var before := State();
      ghost var base, plan := BaseOf(before, slot, slotTxs), PlanOf(slotTxs);
      RetainExisting(slot, slotTxs);

      ghost var taken: map<H256, nat> := map h | h in slotTxs :: 0;
      NothingTaken(base, slot, plan, taken);
      var todo := slotTxs.Keys;
      while todo != {}
        invariant todo <= slotTxs.Keys
        invariant Progress(plan, taken) && RegisteredUpTo(base, State(), slot, plan, taken)
        invariant WholeHashes(slotTxs, taken, todo)
        invariant Valid()
        decreases todo
      {
        var txHash :| txHash in todo;
        ghost var earlier := taken;
        var step;
        step, taken := RegisterHash(slot, txHash, slotTxs[txHash], base, plan, taken);
        if step.Err? {
          RejectedNotAccepted(before, slot, slotTxs, State(), taken, txHash);
          return step;
        }
        OneMoreHash(slotTxs, earlier, taken, todo, txHash);
        todo := todo - {txHash};
      }
      AllHashesTaken(slotTxs, taken);
      FullTransactions(before, State(), slot, slotTxs, taken);
      FullResults(before, State(), slot, slotTxs, taken);
      AllReplaced(before, slot, slotTxs);
      return Ok(());
    }

    /** The inner loop of `is_slot_complete`: one hash of the slot. */
    method IsHashComplete(txHash: H256, txResults: TxResults) returns (complete: bool)
      requires txResults != map[] ==> txHash in transactionsByHash
      ensures complete <==> (HasResult(txResults) ==> txHash in transactionsByHash && DataComplete(transactionsByHash[txHash]))
    {
      hide DataComplete;
      complete := true;
      var order := SortedKeys(txResults.Keys);
      for k := 0 to |order|
        invariant !complete ==> HasResult(txResults) && txHash in transactionsByHash && !DataComplete(transactionsByHash[txHash])
        invariant complete ==>
                    (exists j :: 0 <= j < k && order[j] in txResults && txResults[order[j]].Some?) ==>
                      txHash in transactionsByHash && DataComplete(transactionsByHash[txHash])
      {
        assert order[k] in order;
        if txResults[order[k]].Some? {
          var dataComplete := IsDataComplete(transactionsByHash[txHash]);
          complete := complete && dataComplete;
        }
      }
      if HasResult(txResults) {
        ghost var i :| i in txResults && txResults[i].Some?;
        ghost var j := Position(order, txResults.Keys, i);
      }
    }

    /** `is_slot_complete`. */
    method IsSlotComplete(slot: Slot) returns (complete: bool)
      requires Valid()
      ensures complete <==> SlotComplete(transactionsByHash, SlotResultsAt(resultsBySlot, slot))
    {
      hide DataComplete, HasResult;
      var slotResults := SlotResultsAt(resultsBySlot, slot);
      var todo := slotResults.Keys;
      while todo != {}
        invariant todo <= slotResults.Keys
        invariant forall h :: h in slotResults && h !in todo && HasResult(slotResults[h]) ==>
                    h in transactionsByHash && DataComplete(transactionsByHash[h])
        decreases todo
      {
        var txHash :| txHash in todo;
        var slotComplete := IsHashComplete(txHash, slotResults[txHash]);
        if !slotComplete {
          return false;
        }
        todo := todo - {txHash};
      }
      return true;
    }

    /** The inner loop of `finalize_slot`: the entry one hash contributes, if any. */
    method FinalizeHash(txHash: H256, txResults: TxResults)
      returns (r: Result<Option<(nat, (Transaction, TxResult))>, FinalizeError>)
      ensures r.Ok? && r.value.None? <==> !HasResult(txResults)
      ensures r.Ok? && r.value.Some? ==>
                && IsFirstResult(txResults, r.value.value.0)
                && txHash in transactionsByHash && DataComplete(transactionsByHash[txHash])
                && Build(decode, transactionsByHash[txHash]) == Some(r.value.value.1.0)
                && txResults[r.value.value.0] == Some(r.value.value.1.1)
      ensures r.Err? ==> r.error.h == txHash && MayFail(decode, transactionsByHash, map[txHash := txResults], r.error)
    {
      var first := FirstResult(txResults);
      if first.None? {
        return Ok(None);
      }
      if txHash !in transactionsByHash {
        return Err(TxNotFound(txHash));
      }
      var complete := IsDataComplete(transactionsByHash[txHash]);
      if !complete {
        return Err(IncompleteData(txHash));
      }
      var built := Build(decode, transactionsByHash[txHash]);
      if built.None? {
        return Err(Undecodable(txHash));
      }
      return Ok(Some((first.value, (built.value, txResults[first.value].value))));
    }

    /**
     `finalize_slot`: the transactions of a slot in the order of the Solana
     transactions that first reported a result for them. When two hashes share
     that index the later one in hash-map order wins.
     */
    method FinalizeSlot(slot: Slot) returns (r: Result<seq<(Transaction, TxResult)>, FinalizeError>)
      requires Valid()
      ensures r.Ok? <==> && SlotComplete(transactionsByHash, SlotResultsAt(resultsBySlot, slot))
                         && SlotDecodable(decode, transactionsByHash, SlotResultsAt(resultsBySlot, slot))
      ensures r.Err? ==> MayFail(decode, transactionsByHash, SlotResultsAt(resultsBySlot, slot), r.error)
      ensures SlotDecodable(decode, transactionsByHash, SlotResultsAt(resultsBySlot, slot)) ==>
                (r.Err? && !r.error.Undecodable? <==> !SlotComplete(transactionsByHash, SlotResultsAt(resultsBySlot, slot)))
      ensures SlotComplete(transactionsByHash, SlotResultsAt(resultsBySlot, slot)) ==>
                (r.Err? && r.error.Undecodable? <==> !SlotDecodable(decode, transactionsByHash, SlotResultsAt(resultsBySlot, slot)))
      ensures r.Ok? ==> IsFinalized(decode, transactionsByHash, SlotResultsAt(resultsBySlot, slot), r.value)
    {
      hide FinalizedUpTo, IsListing, Chooses, DataComplete;
      var transactions, slotResults := transactionsByHash, SlotResultsAt(resultsBySlot, slot);
      NothingFinalized(decode, transactions, slotResults);
      var results: map<nat, (Transaction, TxResult)> := map[];
      ghost var chosen: map<nat, H256> := map[];
      ghost var done: set<H256> := {};
      var todo := slotResults.Keys;
      while todo != {}
        invariant done + todo == slotResults.Keys
        invariant FinalizedUpTo(decode, transactions, slotResults, done, chosen, results)
        decreases todo
      {
        var txHash :| txHash in todo;
        var entry := FinalizeHash(txHash, slotResults[txHash]);
        if entry.Err? {
          return Err(entry.error);
        }
        if entry.value.Some? {
          var (txIdx, result) := entry.value.value;
          FileMore(decode, transactions, slotResults, done, chosen, results, txHash, txIdx, result);
          results := results[txIdx := result];
          chosen := chosen[txIdx := txHash];
        } else {
          FileNone(decode, transactions, slotResults, done, chosen, results, txHash);
        }
        todo := todo - {txHash};
        done := done + {txHash};
      }
      assert done == slotResults.Keys;
      var list := Values(results);
      ListFiled(decode, transactions, slotResults, chosen, results, list);
      return Ok(list);
    }
  }

  /** `list` is a finalized list of the slot. */
  ghost predicate IsFinalized(decode: seq<Byte> -> Option<Transaction>, transactions: map<H256, EvmTx>, slotResults: SlotResults,
                              list: seq<(Transaction, TxResult)>)
  {
    exists chosen :: Chooses(chosen, slotResults, slotResults.Keys) && IsListing(decode, transactions, slotResults, chosen, list)
  }

  lemma ListFiled(decode: seq<Byte> -> Option<Transaction>, transactions: map<H256, EvmTx>, slotResults: SlotResults,
                  chosen: map<nat, H256>, results: map<nat, (Transaction, TxResult)>, list: seq<(Transaction, TxResult)>)
    requires FinalizedUpTo(decode, transactions, slotResults, slotResults.Keys, chosen, results)
    requires |list| == |Sorted(results.Keys)|
    requires forall k :: 0 <= k < |list| ==> Sorted(results.Keys)[k] in results && list[k] == results[Sorted(results.Keys)[k]]
    ensures SlotComplete(transactions, slotResults) && SlotDecodable(decode, transactions, slotResults)
    ensures IsFinalized(decode, transactions, slotResults, list)
  {
    assert IsListing(decode, transactions, slotResults, chosen, list);
  }

  lemma NothingFinalized(decode: seq<Byte> -> Option<Transaction>, transactions: map<H256, EvmTx>, slotResults: SlotResults)
    ensures FinalizedUpTo(decode, transactions, slotResults, {}, map[], map[])
  {
  }

  /** The search for the first result of one hash, up to the `break`. */
  method FirstResult(txResults: TxResults) returns (first: Option<nat>)
    ensures first.None? <==> !HasResult(txResults)
    ensures first.Some? ==> IsFirstResult(txResults, first.value)
  {
    var order := SortedKeys(txResults.Keys);
    for k := 0 to |order|
      invariant forall j :: 0 <= j < k ==> order[j] in txResults && txResults[order[j]].None?
    {
      assert order[k] in order;
      if txResults[order[k]].Some? {
        forall j | j in txResults && txResults[j].Some?
          ensures order[k] <= j
        {
          var p := Position(order, txResults.Keys, j);
        }
        return Some(order[k]);
      }
    }
    NoResult(txResults, order);
    return None;
  }

  lemma NoResult(txResults: TxResults, order: seq<nat>)
    requires Lists(order, txResults.Keys)
    requires forall k :: 0 <= k < |order| ==> order[k] in txResults && txResults[order[k]].None?
    ensures !HasResult(txResults)
  {
    forall i | i in txResults
      ensures txResults[i].None?
    {
      var k := Position(order, txResults.Keys, i);
    }
  }

  /** Hashes already visited had all data and decoded. */
  ghost predicate Finished(decode: seq<Byte> -> Option<Transaction>, transactions: map<H256, EvmTx>, slotResults: SlotResults, hashes: set<H256>) {
    forall h :: h in hashes && h in slotResults && HasResult(slotResults[h]) ==>
      h in transactions && DataComplete(transactions[h]) && Build(decode, transactions[h]).Some?
  }

  /** What has been filed under each chosen index. */
  ghost predicate Filed(decode: seq<Byte> -> Option<Transaction>, transactions: map<H256, EvmTx>, slotResults: SlotResults,
                        chosen: map<nat, H256>, results: map<nat, (Transaction, TxResult)>)
  {
    && results.Keys == chosen.Keys
    && forall i :: i in chosen ==>
         && chosen[i] in transactions && chosen[i] in slotResults && i in slotResults[chosen[i]]
         && Build(decode, transactions[chosen[i]]) == Some(results[i].0)
         && slotResults[chosen[i]][i] == Some(results[i].1)
  }

  ghost predicate FinalizedUpTo(decode: seq<Byte> -> Option<Transaction>, transactions: map<H256, EvmTx>, slotResults: SlotResults,
                                done: set<H256>, chosen: map<nat, H256>, results: map<nat, (Transaction, TxResult)>)
  {
    && Finished(decode, transactions, slotResults, done)
    && Chooses(chosen, slotResults, done)
    && Filed(decode, transactions, slotResults, chosen, results)
  }

  lemma FileMore(decode: seq<Byte> -> Option<Transaction>, transactions: map<H256, EvmTx>, slotResults: SlotResults,
                 done: set<H256>, chosen: map<nat, H256>, results: map<nat, (Transaction, TxResult)>,
                 h: H256, i: nat, result: (Transaction, TxResult))
    requires FinalizedUpTo(decode, transactions, slotResults, done, chosen, results)
    requires h in slotResults && IsFirstResult(slotResults[h], i) && slotResults[h][i] == Some(result.1)
    requires h in transactions && DataComplete(transactions[h]) && Build(decode, transactions[h]) == Some(result.0)
    ensures FinalizedUpTo(decode, transactions, slotResults, done + {h}, chosen[i := h], results[i := result])
  {
    forall g, j | g in done + {h} && g in slotResults && IsFirstResult(slotResults[g], j)
      ensures j in chosen[i := h]
    {
      if g == h {
        assert j == i;
      } else {
        assert j in chosen;
      }
    }
  }

  lemma FileNone(decode: seq<Byte> -> Option<Transaction>, transactions: map<H256, EvmTx>, slotResults: SlotResults,
                 done: set<H256>, chosen: map<nat, H256>, results: map<nat, (Transaction, TxResult)>, h: H256)
    requires FinalizedUpTo(decode, transactions, slotResults, done, chosen, results)
    requires h in slotResults && !HasResult(slotResults[h])
    ensures FinalizedUpTo(decode, transactions, slotResults, done + {h}, chosen, results)
  {
  }

  /** Hashes still to do are untouched, the others are processed to the end. */
  ghost predicate WholeHashes(txs: ParsedTxs, taken: map<H256, nat>, todo: set<H256>) {
    taken.Keys == txs.Keys && forall h :: h in txs ==> taken[h] == if h in todo then 0 else |txs[h]|
  }

  lemma OneMoreHash(txs: ParsedTxs, earlier: map<H256, nat>, taken: map<H256, nat>, todo: set<H256>, h: H256)
    requires WholeHashes(txs, earlier, todo) && h in todo && h in txs
    requires h in taken && taken[h] == |txs[h]| && taken == earlier[h := taken[h]]
    ensures WholeHashes(txs, taken, todo - {h})
  {
  }

  lemma AllHashesTaken(txs: ParsedTxs, taken: map<H256, nat>)
    requires WholeHashes(txs, taken, {})
    ensures FullyTaken(PlanOf(txs), taken)
  {
  }

  /** `state` is an interrupted registration: the next entry of `h` was rejected. */
  ghost predicate StoppedAt(before: Index, state: Index, slot: Slot, txs: ParsedTxs, taken: map<H256, nat>, h: H256) {
    && Progress(PlanOf(txs), taken)
    && RegisteredUpTo(BaseOf(before, slot, txs), state, slot, PlanOf(txs), taken)
    && Rejected(state, BaseOf(before, slot, txs), PlanOf(txs), taken, h)
  }

  /** The next entry of hash `h` is one the hash does not accept. */
  ghost predicate Rejected(state: Index, base: Index, plan: Plan, taken: map<H256, nat>, h: H256)
    requires Progress(plan, taken)
  {
    && h in plan && taken[h] < |plan[h]|
    && ApplyStep(Lookup(state.transactions, h), plan[h][taken[h]].step).Err?
    && ApplyEntries(Lookup(base.transactions, h), plan[h], |plan[h]|).Err?
  }

  lemma RejectedNotAccepted(before: Index, slot: Slot, txs: ParsedTxs, state: Index, taken: map<H256, nat>, h: H256)
    requires Progress(PlanOf(txs), taken) && Rejected(state, BaseOf(before, slot, txs), PlanOf(txs), taken, h)
    requires RegisteredUpTo(BaseOf(before, slot, txs), state, slot, PlanOf(txs), taken)
    ensures !Accepts(before.transactions, txs)
    ensures StoppedAt(before, state, slot, txs, taken, h)
  {
    assert PlanOf(txs)[h] == EntriesOf(txs[h]);
  }

  /** Hashes with recorded results are known. */
  ghost predicate Referenced(state: Index) {
    forall s, h :: s in state.results && h in state.results[s] && state.results[s][h] != map[] ==> h in state.transactions
  }

  lemma RetainReferenced(before: Index, slot: Slot, txs: ParsedTxs)
    requires Referenced(before)
    ensures Referenced(BaseOf(before, slot, txs))
  {
    var base := BaseOf(before, slot, txs);
    forall s, h | s in base.results && h in base.results[s] && base.results[s][h] != map[]
      ensures h in base.transactions
    {
      if s == slot {
        var i :| i in base.results[s][h];
        assert i in before.results[s][h];
      }
    }
  }

  lemma TakeReferenced(state: Index, slot: Slot, h: H256, entry: Entry, applied: EvmTx)
    requires Referenced(state)
    ensures Referenced(TakeEntry(state, slot, h, entry, applied))
  {
  }

  lemma NothingTaken(base: Index, slot: Slot, plan: Plan, taken: map<H256, nat>)
    requires taken.Keys == plan.Keys && forall h :: h in plan ==> taken[h] == 0
    ensures RegisteredUpTo(base, base, slot, plan, taken)
  {
  }

  lemma RejectedForever(base: Index, plan: Plan, taken: map<H256, nat>, more: map<H256, nat>, h: H256)
    requires Progress(plan, taken) && h in plan && taken[h] < |plan[h]| && more == taken[h := taken[h] + 1]
    requires Progress(plan, more) && TxUpTo(base, plan, more, h).Err?
    ensures ApplyEntries(Lookup(base.transactions, h), plan[h], |plan[h]|).Err?
  {
    AppliedBefore(Lookup(base.transactions, h), plan[h], more[h], |plan[h]|);
  }
}
