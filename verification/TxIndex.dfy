/**
 What `DefaultTxParser` stores and how registering the transactions of one slot
 changes it, as functions on values. The class itself is in `TxParser.dfy`.
 */
module TxIndex {
  import opened Wrappers
  import opened Types
  import opened Ordered
  import opened Transmit
  import opened Reassembly

  datatype ParsedTxStep =
    | SmallTx(tx: Transaction, smallResult: Option<TxResult>)
    | BigTx(bigResult: Option<TxResult>)
    | TransmitTx(piece: Piece)
  {
    /** `ParsedTxStep::result`: transmitting a piece has no result of its own. */
    function Outcome(): Option<TxResult> {
      match this
      case SmallTx(_, r) => r
      case BigTx(r) => r
      case TransmitTx(_) => None
    }
  }

  type TxSteps = map<nat, ParsedTxStep>
  type ParsedTxs = map<H256, TxSteps>
  type TxResults = map<nat, Option<TxResult>>
  type SlotResults = map<H256, TxResults>

  /** The two indices of the parser. */
  datatype Index = Index(transactions: map<H256, EvmTx>, results: map<Slot, SlotResults>)

  function Lookup<K, V>(m: map<K, V>, k: K): Option<V> {
    if k in m then Some(m[k]) else None
  }

  function SlotResultsAt(results: map<Slot, SlotResults>, slot: Slot): SlotResults {
    if slot in results then results[slot] else map[]
  }

  function TxResultsAt(results: SlotResults, h: H256): TxResults {
    if h in results then results[h] else map[]
  }

  /** Effect of one step on the transaction with its hash. */
  function ApplyStep(tx: Option<EvmTx>, step: ParsedTxStep): Result<EvmTx, HolderError> {
    match step
    case SmallTx(t, _) => Ok(if tx.Some? then tx.value else SmallEvmTx(t))
    case BigTx(_) => Ok(if tx.Some? then tx.value else NEW_BIG_TX)
    case TransmitTx(p) => UpdateTxHolder(if tx.Some? then tx.value else NEW_BIG_TX, p.offset, p.data)
  }

  /** A step together with the index of the Solana transaction that made it. */
  datatype Entry = Entry(index: nat, step: ParsedTxStep)

  /** Effect of the first `n` entries on the transaction with their hash. */
  function ApplyEntries(tx: Option<EvmTx>, entries: seq<Entry>, n: nat): (r: Result<Option<EvmTx>, HolderError>)
    requires n <= |entries|
    ensures r.Ok? && (n > 0 || tx.Some?) ==> r.value.Some?
  {
    if n == 0 then Ok(tx)
    else
      match ApplyEntries(tx, entries, n - 1)
      case Err(e) => Err(e)
      case Ok(previous) =>
        match ApplyStep(previous, entries[n - 1].step)
        case Err(e) => Err(e)
        case Ok(next) => Ok(Some(next))
  }

  lemma {:induction false} AppliedBefore(tx: Option<EvmTx>, entries: seq<Entry>, m: nat, n: nat)
    requires m <= n <= |entries|
    ensures ApplyEntries(tx, entries, n).Ok? ==> ApplyEntries(tx, entries, m).Ok?
  {
    if m < n {
      AppliedBefore(tx, entries, m, n - 1);
    }
  }

  /** `entry(idx).or_insert(result)`. */
  function OrInsert<K, V>(m: map<K, V>, k: K, v: V): map<K, V> {
    if k in m then m else m[k := v]
  }

  function InsertResults(start: TxResults, entries: seq<Entry>, n: nat): TxResults
    requires n <= |entries|
  {
    if n == 0 then start
    else OrInsert(InsertResults(start, entries, n - 1), entries[n - 1].index, entries[n - 1].step.Outcome())
  }

  // ------------------------------------------------- registering one slot

  /** For every hash its entries, in the order in which they are processed. */
  type Plan = map<H256, seq<Entry>>

  /** How many entries of each hash have been processed so far. */
  ghost predicate Progress(plan: Plan, taken: map<H256, nat>) {
    taken.Keys == plan.Keys && forall h :: h in plan ==> taken[h] <= |plan[h]|
  }

  ghost function TxUpTo(base: Index, plan: Plan, taken: map<H256, nat>, h: H256): Result<Option<EvmTx>, HolderError>
    requires Progress(plan, taken)
  {
    if h in plan then ApplyEntries(Lookup(base.transactions, h), plan[h], taken[h])
    else Ok(Lookup(base.transactions, h))
  }

  ghost function ResultsUpTo(existing: SlotResults, plan: Plan, taken: map<H256, nat>, h: H256): Option<TxResults>
    requires Progress(plan, taken)
  {
    if h in plan && taken[h] > 0 then Some(InsertResults(TxResultsAt(existing, h), plan[h], taken[h]))
    else Lookup(existing, h)
  }

  ghost predicate Begun(taken: map<H256, nat>) {
    exists h :: h in taken && taken[h] > 0
  }

  ghost predicate TxsMatch(base: Index, transactions: map<H256, EvmTx>, plan: Plan, taken: map<H256, nat>)
    requires Progress(plan, taken)
  {
    forall h :: TxUpTo(base, plan, taken, h) == Ok(Lookup(transactions, h))
  }

  ghost predicate ResultsMatch(existing: SlotResults, current: SlotResults, plan: Plan, taken: map<H256, nat>)
    requires Progress(plan, taken)
  {
    forall h :: Lookup(current, h) == ResultsUpTo(existing, plan, taken, h)
  }

  /**
   `state` is what processing `taken[h]` entries of each hash `h` made of
   `base`. Hash by hash, so the order in which a `HashMap` yields the hashes
   cannot matter.
   */
  ghost predicate RegisteredUpTo(base: Index, state: Index, slot: Slot, plan: Plan, taken: map<H256, nat>)
    requires Progress(plan, taken)
  {
    && TxsMatch(base, state.transactions, plan, taken)
    && (forall s :: s != slot ==> Lookup(state.results, s) == Lookup(base.results, s))
    && (slot in state.results <==> slot in base.results || Begun(taken))
    && ResultsMatch(SlotResultsAt(base.results, slot), SlotResultsAt(state.results, slot), plan, taken)
  }

  /** What processing one accepted entry does to the two indices. */
  function TakeEntry(state: Index, slot: Slot, h: H256, entry: Entry, applied: EvmTx): Index {
    var slotResults := SlotResultsAt(state.results, slot);
    Index(state.transactions[h := applied],
          state.results[slot := slotResults[h := OrInsert(TxResultsAt(slotResults, h), entry.index, entry.step.Outcome())]])
  }

  lemma OneMoreTx(base: Index, transactions: map<H256, EvmTx>, plan: Plan, taken: map<H256, nat>, more: map<H256, nat>, h: H256)
    requires Progress(plan, taken) && h in plan && taken[h] < |plan[h]| && more == taken[h := taken[h] + 1]
    requires TxsMatch(base, transactions, plan, taken)
    ensures Progress(plan, more)
    ensures
      var applied := ApplyStep(Lookup(transactions, h), plan[h][taken[h]].step);
      && (applied.Err? ==> TxUpTo(base, plan, more, h).Err?)
      && (applied.Ok? ==> TxsMatch(base, transactions[h := applied.value], plan, more))
  {
    assert TxUpTo(base, plan, taken, h) == Ok(Lookup(transactions, h));
    var applied := ApplyStep(Lookup(transactions, h), plan[h][taken[h]].step);
    if applied.Ok? {
      var after := transactions[h := applied.value];
      forall g
        ensures TxUpTo(base, plan, more, g) == Ok(Lookup(after, g))
      {
        assert TxUpTo(base, plan, taken, g) == Ok(Lookup(transactions, g));
      }
    }
  }

  lemma OneMoreResult(existing: SlotResults, current: SlotResults, plan: Plan, taken: map<H256, nat>, more: map<H256, nat>, h: H256)
    requires Progress(plan, taken) && h in plan && taken[h] < |plan[h]| && more == taken[h := taken[h] + 1]
    requires ResultsMatch(existing, current, plan, taken)
    ensures Progress(plan, more)
    ensures
      var entry := plan[h][taken[h]];
      ResultsMatch(existing, current[h := OrInsert(TxResultsAt(current, h), entry.index, entry.step.Outcome())], plan, more)
  {
    var entry := plan[h][taken[h]];
    var next := current[h := OrInsert(TxResultsAt(current, h), entry.index, entry.step.Outcome())];
    assert Lookup(current, h) == ResultsUpTo(existing, plan, taken, h);
    assert TxResultsAt(current, h) == InsertResults(TxResultsAt(existing, h), plan[h], taken[h]);
    forall g
      ensures Lookup(next, g) == ResultsUpTo(existing, plan, more, g)
    {
      assert Lookup(current, g) == ResultsUpTo(existing, plan, taken, g);
    }
  }

  /** Taking one more entry of hash `h` from a partially registered state. */
  lemma OneMoreEntry(base: Index, state: Index, slot: Slot, plan: Plan, taken: map<H256, nat>, more: map<H256, nat>, h: H256)
    requires Progress(plan, taken) && h in plan && taken[h] < |plan[h]| && more == taken[h := taken[h] + 1]
    requires RegisteredUpTo(base, state, slot, plan, taken)
    ensures Progress(plan, more)
    ensures
      var entry := plan[h][taken[h]];
      var applied := ApplyStep(Lookup(state.transactions, h), entry.step);
      && (applied.Err? ==> TxUpTo(base, plan, more, h).Err?)
      && (applied.Ok? ==> RegisteredUpTo(base, TakeEntry(state, slot, h, entry, applied.value), slot, plan, more))
  {
    OneMoreTx(base, state.transactions, plan, taken, more, h);
    OneMoreResult(SlotResultsAt(base.results, slot), SlotResultsAt(state.results, slot), plan, taken, more, h);
    var entry := plan[h][taken[h]];
    var applied := ApplyStep(Lookup(state.transactions, h), entry.step);
    if applied.Ok? {
      var after := TakeEntry(state, slot, h, entry, applied.value);
      assert h in more && more[h] > 0;
      forall s | s != slot
        ensures Lookup(after.results, s) == Lookup(base.results, s)
      {
        assert Lookup(state.results, s) == Lookup(base.results, s);
      }
    }
  }

  // -------------------------------------------------- the complete operation

  /** The steps of one hash in the order of their transaction indices. */
  ghost function EntriesOf(steps: TxSteps): (r: seq<Entry>)
    ensures |r| == |steps|
    ensures forall i :: 0 <= i < |r| ==> r[i].index == Sorted(steps.Keys)[i] && r[i].index in steps && r[i].step == steps[r[i].index]
  {
    var order := Sorted(steps.Keys);
    assert forall i :: 0 <= i < |order| ==> order[i] in order;
    seq(|order|, i requires 0 <= i < |order| => Entry(order[i], steps[order[i]]))
  }

  ghost function PlanOf(txs: ParsedTxs): Plan {
    map h | h in txs :: EntriesOf(txs[h])
  }

  /** The old results of a hash that survive, with their new values. */
  function Retained(existing: TxResults, steps: TxSteps): TxResults {
    map i | i in existing && i in steps :: steps[i].Outcome()
  }

  /** The two nested `retain` calls on the existing results of the slot. */
  function AfterRetain(results: map<Slot, SlotResults>, slot: Slot, txs: ParsedTxs): map<Slot, SlotResults> {
    if slot in results then
      results[slot := map h | h in results[slot] && h in txs :: Retained(results[slot][h], txs[h])]
    else results
  }

  /** Where the processing of the new steps starts. */
  function BaseOf(before: Index, slot: Slot, txs: ParsedTxs): Index {
    Index(before.transactions, AfterRetain(before.results, slot, txs))
  }

  /** Every hash accepts all its steps. */
  ghost predicate Accepts(transactions: map<H256, EvmTx>, txs: ParsedTxs) {
    forall h :: h in txs ==> ApplyEntries(Lookup(transactions, h), EntriesOf(txs[h]), |txs[h]|).Ok?
  }

  function WithSteps(txs: ParsedTxs): set<H256> {
    set h | h in txs && txs[h] != map[]
  }

  function Outcomes(steps: TxSteps): TxResults {
    map i | i in steps :: steps[i].Outcome()
  }

  /** Plain replacement of a slot's results by those of the new steps. */
  function Replacement(existing: SlotResults, txs: ParsedTxs): SlotResults {
    map h | h in txs && (txs[h] != map[] || h in existing) :: Outcomes(txs[h])
  }

  /** State after a successful registration. */
  ghost function Registered(before: Index, slot: Slot, txs: ParsedTxs): Index
    requires Accepts(before.transactions, txs)
  {
    Index(map h | h in before.transactions.Keys + WithSteps(txs) ::
            if h in WithSteps(txs) then ApplyEntries(Lookup(before.transactions, h), EntriesOf(txs[h]), |txs[h]|).value.value
            else before.transactions[h],
          if slot in before.results || WithSteps(txs) != {}
          then before.results[slot := Replacement(SlotResultsAt(before.results, slot), txs)]
          else before.results)
  }

  lemma SameLookups<K, V>(a: map<K, V>, b: map<K, V>)
    requires forall k :: Lookup(a, k) == Lookup(b, k)
    ensures a == b
  {
    forall k
      ensures k in a <==> k in b
      ensures k in a ==> a[k] == b[k]
    {
      assert Lookup(a, k) == Lookup(b, k);
    }
  }

  lemma {:induction false} InsertedOutcomes(start: TxResults, entries: seq<Entry>, steps: TxSteps, n: nat)
    requires n <= |entries|
    requires forall k :: 0 <= k < n ==> entries[k].index in steps && entries[k].step == steps[entries[k].index]
    requires forall i :: i in start ==> i in steps && start[i] == steps[i].Outcome()
    ensures forall i :: i in InsertResults(start, entries, n) ==>
              i in steps && InsertResults(start, entries, n)[i] == steps[i].Outcome()
    ensures forall k :: 0 <= k < n ==> entries[k].index in InsertResults(start, entries, n)
  {
    if n > 0 {
      InsertedOutcomes(start, entries, steps, n - 1);
    }
  }

  lemma AllOutcomes(start: TxResults, steps: TxSteps)
    requires forall i :: i in start ==> i in steps && start[i] == steps[i].Outcome()
    ensures InsertResults(start, EntriesOf(steps), |steps|) == Outcomes(steps)
  {
    hide InsertResults;
    InsertedOutcomes(start, EntriesOf(steps), steps, |steps|);
    forall i | i in steps
      ensures i in InsertResults(start, EntriesOf(steps), |steps|)
    {
      var k := Position(Sorted(steps.Keys), steps.Keys, i);
      assert EntriesOf(steps)[k].index == i;
    }
  }

  ghost predicate FullyTaken(plan: Plan, taken: map<H256, nat>) {
    Progress(plan, taken) && forall h :: h in plan ==> taken[h] == |plan[h]|
  }

  lemma FullTransactions(before: Index, state: Index, slot: Slot, txs: ParsedTxs, taken: map<H256, nat>)
    requires FullyTaken(PlanOf(txs), taken)
    requires RegisteredUpTo(BaseOf(before, slot, txs), state, slot, PlanOf(txs), taken)
    ensures Accepts(before.transactions, txs)
    ensures state.transactions == Registered(before, slot, txs).transactions
  {
    hide ApplyEntries, EntriesOf, Replacement, AfterRetain, ResultsMatch, Begun;
    var base, plan := BaseOf(before, slot, txs), PlanOf(txs);
    forall h
      ensures h in txs ==> ApplyEntries(Lookup(before.transactions, h), EntriesOf(txs[h]), |txs[h]|) == Ok(Lookup(state.transactions, h))
      ensures h !in txs ==> Lookup(before.transactions, h) == Lookup(state.transactions, h)
    {
      assert TxUpTo(base, plan, taken, h) == Ok(Lookup(state.transactions, h));
      assert h in txs ==> plan[h] == EntriesOf(txs[h]) && taken[h] == |txs[h]|;
    }
    forall h
      ensures Lookup(state.transactions, h) == Lookup(Registered(before, slot, txs).transactions, h)
    {
      if h in txs && h !in WithSteps(txs) {
        NoEntries(Lookup(before.transactions, h), EntriesOf(txs[h]));
      }
    }
    SameLookups(state.transactions, Registered(before, slot, txs).transactions);
  }

  lemma NoEntries(tx: Option<EvmTx>, entries: seq<Entry>)
    ensures ApplyEntries(tx, entries, 0) == Ok(tx)
  {
  }

  lemma FullHashResults(existing: SlotResults, retained: SlotResults, txs: ParsedTxs, taken: map<H256, nat>, h: H256)
    requires FullyTaken(PlanOf(txs), taken)
    requires retained == map g | g in existing && g in txs :: Retained(existing[g], txs[g])
    ensures ResultsUpTo(retained, PlanOf(txs), taken, h) == Lookup(Replacement(existing, txs), h)
  {
    if h in txs {
      assert PlanOf(txs)[h] == EntriesOf(txs[h]) && taken[h] == |txs[h]|;
      AllOutcomes(TxResultsAt(retained, h), txs[h]);
      if txs[h] == map[] && h in existing {
        assert Retained(existing[h], txs[h]) == Outcomes(txs[h]);
      }
    }
  }

  lemma BegunIffSteps(txs: ParsedTxs, taken: map<H256, nat>)
    requires FullyTaken(PlanOf(txs), taken)
    ensures Begun(taken) <==> WithSteps(txs) != {}
  {
    assert forall h :: h in txs ==> taken[h] == |PlanOf(txs)[h]| == |txs[h]|;
    if Begun(taken) {
      var h :| h in taken && taken[h] > 0;
      assert h in WithSteps(txs);
    }
    if h :| h in WithSteps(txs) {
      assert h in taken && taken[h] > 0;
    }
  }

  lemma FullSlotResults(existing: SlotResults, retained: SlotResults, current: SlotResults, txs: ParsedTxs, taken: map<H256, nat>)
    requires FullyTaken(PlanOf(txs), taken)
    requires retained == map g | g in existing && g in txs :: Retained(existing[g], txs[g])
    requires ResultsMatch(retained, current, PlanOf(txs), taken)
    ensures current == Replacement(existing, txs)
  {
    forall h
      ensures Lookup(current, h) == Lookup(Replacement(existing, txs), h)
    {
      assert Lookup(current, h) == ResultsUpTo(retained, PlanOf(txs), taken, h);
      FullHashResults(existing, retained, txs, taken, h);
    }
    SameLookups(current, Replacement(existing, txs));
  }

  lemma OneSlotChanged(before: map<Slot, SlotResults>, after: map<Slot, SlotResults>, slot: Slot, present: bool)
    requires forall s :: s != slot ==> Lookup(after, s) == Lookup(before, s)
    requires slot in after <==> present
    requires slot in before ==> present
    ensures after == if present then before[slot := SlotResultsAt(after, slot)] else before
  {
    var expected := if present then before[slot := SlotResultsAt(after, slot)] else before;
    forall s
      ensures Lookup(after, s) == Lookup(expected, s)
    {
      assert s != slot ==> Lookup(after, s) == Lookup(before, s);
    }
    SameLookups(after, expected);
  }

  lemma FullResults(before: Index, state: Index, slot: Slot, txs: ParsedTxs, taken: map<H256, nat>)
    requires FullyTaken(PlanOf(txs), taken)
    requires RegisteredUpTo(BaseOf(before, slot, txs), state, slot, PlanOf(txs), taken)
    requires Accepts(before.transactions, txs)
    ensures state.results == Registered(before, slot, txs).results
  {
    hide ApplyEntries, EntriesOf, Replacement, ResultsMatch, TxsMatch, Begun, WithSteps;
    var base := BaseOf(before, slot, txs);
    FullSlotResults(SlotResultsAt(before.results, slot), SlotResultsAt(base.results, slot),
                    SlotResultsAt(state.results, slot), txs, taken);
    BegunIffSteps(txs, taken);
    forall s | s != slot
      ensures Lookup(state.results, s) == Lookup(before.results, s)
    {
      assert Lookup(state.results, s) == Lookup(base.results, s);
    }
    OneSlotChanged(before.results, state.results, slot, slot in before.results || WithSteps(txs) != {});
  }

  // ------------------------------------------------- what registration records

  /** The result recorded for a hash at an index of a slot, if any. */
  function ResultAt(state: Index, slot: Slot, h: H256, i: nat): Option<Option<TxResult>> {
    Lookup(TxResultsAt(SlotResultsAt(state.results, slot), h), i)
  }

  /** What a block reports for a hash at an index: the step's own result, nothing for a transmitted piece. */
  function NewOutcome(txs: ParsedTxs, h: H256, i: nat): Option<Option<TxResult>> {
    if h in txs && i in txs[h] then
      match txs[h][i]
      case SmallTx(_, result) => Some(result)
      case BigTx(result) => Some(result)
      case TransmitTx(_) => Some(None)
    else None
  }

  lemma OutcomesReported(txs: ParsedTxs, h: H256, i: nat)
    ensures h in txs ==> Lookup(Outcomes(txs[h]), i) == NewOutcome(txs, h, i)
  {
  }

  lemma ReplacementReports(existing: SlotResults, txs: ParsedTxs, h: H256, i: nat)
    ensures Lookup(TxResultsAt(Replacement(existing, txs), h), i) == NewOutcome(txs, h, i)
  {
    OutcomesReported(txs, h, i);
  }

  lemma NothingReported(txs: ParsedTxs, h: H256, i: nat)
    requires WithSteps(txs) == {}
    ensures NewOutcome(txs, h, i) == None
  {
    assert h in txs ==> h !in WithSteps(txs);
  }

  /** After success the slot holds exactly what the new steps report and other slots are untouched. */
  lemma RegisteredReplaces(before: Index, slot: Slot, txs: ParsedTxs, s: Slot, h: H256, i: nat)
    requires Accepts(before.transactions, txs)
    ensures ResultAt(Registered(before, slot, txs), s, h, i) ==
            if s == slot then NewOutcome(txs, h, i) else ResultAt(before, s, h, i)
  {
    hide ApplyEntries, EntriesOf, Replacement, NewOutcome;
    if s == slot {
      if slot in before.results || WithSteps(txs) != {} {
        ReplacementReports(SlotResultsAt(before.results, slot), txs, h, i);
      } else {
        NothingReported(txs, h, i);
      }
    }
  }

  /** Everything recorded after a registration is what was reported or recorded before. */
  ghost predicate Replaces(before: Index, slot: Slot, txs: ParsedTxs, after: Index) {
    forall s, h, i :: ResultAt(after, s, h, i) == if s == slot then NewOutcome(txs, h, i) else ResultAt(before, s, h, i)
  }

  lemma AllReplaced(before: Index, slot: Slot, txs: ParsedTxs)
    requires Accepts(before.transactions, txs)
    ensures Replaces(before, slot, txs, Registered(before, slot, txs))
  {
    hide Registered, Accepts;
    forall s, h, i
      ensures ResultAt(Registered(before, slot, txs), s, h, i) == if s == slot then NewOutcome(txs, h, i) else ResultAt(before, s, h, i)
    {
      RegisteredReplaces(before, slot, txs, s, h, i);
    }
  }
}
