/** What slot registration and finalization guarantee. */
module TxProperties {
  import opened Wrappers
  import opened Types
  import opened Ordered
  import opened Transmit
  import opened Reassembly
  import opened TxIndex
  import opened TxParser

  // ---------------------------------------------------------- finalization

  /** No two hashes have their first result at the same Solana transaction. */
  ghost predicate NoSharedIndex(slotResults: SlotResults) {
    forall g, h, i :: g in slotResults && h in slotResults && IsFirstResult(slotResults[g], i) && IsFirstResult(slotResults[h], i) ==> g == h
  }

  ghost function HashesWithResult(slotResults: SlotResults): set<H256> {
    set h | h in slotResults && HasResult(slotResults[h])
  }

  lemma {:induction false} FirstExists(results: TxResults) returns (i: nat)
    requires HasResult(results)
    ensures IsFirstResult(results, i)
  {
    var some := set j | j in results && results[j].Some?;
    var j :| j in results && results[j].Some?;
    assert j in some;
    i := Min(some);
    forall k | k in results && results[k].Some?
      ensures i <= k
    {
      assert k in some;
    }
  }

  lemma ChosenUnique(slotResults: SlotResults, a: map<nat, H256>, b: map<nat, H256>)
    requires NoSharedIndex(slotResults)
    requires Chooses(a, slotResults, slotResults.Keys) && Chooses(b, slotResults, slotResults.Keys)
    ensures a == b
  {
  }

  ghost predicate Injective<K(!new), V(!new)>(m: map<K, V>) {
    forall i, j :: i in m && j in m && m[i] == m[j] ==> i == j
  }

  lemma {:induction false} BijectionSize<K(!new), V(!new)>(m: map<K, V>, values: set<V>)
    requires Injective(m) && m.Values == values
    ensures |m| == |values|
    decreases |m|
  {
    if m == map[] {
      assert values == {};
    } else {
      var k :| k in m;
      var rest := m - {k};
      assert Injective(rest);
      assert rest.Values == values - {m[k]} by {
        forall v | v in rest.Values
          ensures v in values - {m[k]}
        {
          var j :| j in rest && rest[j] == v;
          assert m[j] == v && j != k;
        }
        forall v | v in values - {m[k]}
          ensures v in rest.Values
        {
          var j :| j in m && m[j] == v;
          assert j in rest;
        }
      }
      BijectionSize(rest, values - {m[k]});
      assert |m| == |rest| + 1;
    }
  }

  /** Distinct indexes choose distinct hashes, all of them with a result. */
  lemma ChosenDistinct(slotResults: SlotResults, chosen: map<nat, H256>)
    requires Chooses(chosen, slotResults, slotResults.Keys)
    ensures Injective(chosen) && chosen.Values <= HashesWithResult(slotResults)
    ensures |chosen| == |chosen.Values|
  {
    forall i, j | i in chosen && j in chosen && chosen[i] == chosen[j]
      ensures i == j
    {
      assert IsFirstResult(slotResults[chosen[i]], i) && IsFirstResult(slotResults[chosen[j]], j);
    }
    forall h | h in chosen.Values
      ensures h in HashesWithResult(slotResults)
    {
      var i :| i in chosen && chosen[i] == h;
      assert IsFirstResult(slotResults[h], i);
    }
    BijectionSize(chosen, chosen.Values);
  }

  /** Every hash with a result is chosen somewhere exactly if no two of them share an index. */
  lemma AllChosenIff(slotResults: SlotResults, chosen: map<nat, H256>)
    requires Chooses(chosen, slotResults, slotResults.Keys)
    ensures HashesWithResult(slotResults) <= chosen.Values <==> NoSharedIndex(slotResults)
  {
    if NoSharedIndex(slotResults) {
      forall h | h in HashesWithResult(slotResults)
        ensures h in chosen.Values
      {
        var i := FirstExists(slotResults[h]);
        assert i in chosen && chosen[i] == h;
      }
    }
    if HashesWithResult(slotResults) <= chosen.Values {
      forall g, h, i | g in slotResults && h in slotResults && IsFirstResult(slotResults[g], i) && IsFirstResult(slotResults[h], i)
        ensures g == h
      {
        assert g in HashesWithResult(slotResults) && h in HashesWithResult(slotResults);
        var j :| j in chosen && chosen[j] == g;
        var k :| k in chosen && chosen[k] == h;
        assert IsFirstResult(slotResults[g], j) && IsFirstResult(slotResults[h], k);
      }
    }
  }

  lemma ChosenSize(slotResults: SlotResults, chosen: map<nat, H256>)
    requires Chooses(chosen, slotResults, slotResults.Keys)
    ensures |chosen| == |HashesWithResult(slotResults)| <==> NoSharedIndex(slotResults)
    ensures |chosen| <= |HashesWithResult(slotResults)|
  {
    ChosenDistinct(slotResults, chosen);
    AllChosenIff(slotResults, chosen);
    SubsetSizeOf(chosen.Values, HashesWithResult(slotResults));
  }

  lemma {:induction false} SubsetSizeOf(a: set<H256>, b: set<H256>)
    requires a <= b
    ensures |a| <= |b| && (|a| == |b| <==> b <= a)
  {
    if a == {} {
      assert |b| == 0 <==> b == {};
    } else {
      var x :| x in a;
      SubsetSizeOf(a - {x}, b - {x});
      assert b <= a <==> b - {x} <= a - {x};
    }
  }

  /**
   The finalized list has one entry for every hash with a result exactly if no
   two of them have their first result at the same Solana transaction;
   otherwise it is shorter.
   */
  lemma OneEntryEachIff(decode: seq<Byte> -> Option<Transaction>, transactions: map<H256, EvmTx>, slotResults: SlotResults,
                        list: seq<(Transaction, TxResult)>)
    requires IsFinalized(decode, transactions, slotResults, list)
    ensures |list| == |HashesWithResult(slotResults)| <==> NoSharedIndex(slotResults)
    ensures |list| <= |HashesWithResult(slotResults)|
  {
    var chosen :| Chooses(chosen, slotResults, slotResults.Keys) && IsListing(decode, transactions, slotResults, chosen, list);
    ChosenSize(slotResults, chosen);
    assert |chosen| == |chosen.Keys|;
  }

  const FIRST_HASH: H256 := H256(1)
  const SECOND_HASH: H256 := H256(2)

  /** Two transactions that share index 3, as two rollup instructions of one Solana transaction do. */
  function SharedSlot(result: TxResult): SlotResults {
    map[FIRST_HASH := map[3 := Some(result)], SECOND_HASH := map[3 := Some(result)]]
  }

  lemma SharedListed(decode: seq<Byte> -> Option<Transaction>, transactions: map<H256, EvmTx>, result: TxResult, h: H256, t: Transaction)
    requires h == FIRST_HASH || h == SECOND_HASH
    requires h in transactions && transactions[h] == SmallEvmTx(t)
    ensures IsFinalized(decode, transactions, SharedSlot(result), [(t, result)])
  {
    var slotResults: SlotResults, chosen: map<nat, H256> := SharedSlot(result), map[3 := h];
    assert Lists([3], chosen.Keys);
    ListingUnique([3], Sorted(chosen.Keys), chosen.Keys);
    assert IsFirstResult(slotResults[FIRST_HASH], 3) && IsFirstResult(slotResults[SECOND_HASH], 3);
    assert Chooses(chosen, slotResults, slotResults.Keys);
    assert IsListing(decode, transactions, slotResults, chosen, [(t, result)]);
  }

  lemma SharedHashes(result: TxResult)
    ensures HashesWithResult(SharedSlot(result)) == {FIRST_HASH, SECOND_HASH}
    ensures !NoSharedIndex(SharedSlot(result))
  {
    var slotResults: SlotResults := SharedSlot(result);
    assert FIRST_HASH in slotResults && SECOND_HASH in slotResults;
    assert slotResults[FIRST_HASH][3].Some? && slotResults[SECOND_HASH][3].Some?;
    assert IsFirstResult(slotResults[FIRST_HASH], 3) && IsFirstResult(slotResults[SECOND_HASH], 3);
  }

  /** On that slot one of two different transactions is lost, and either may be. */
  lemma SharedIndexLosesOne(decode: seq<Byte> -> Option<Transaction>, transactions: map<H256, EvmTx>, result: TxResult,
                            first: Transaction, second: Transaction)
    requires transactions == map[FIRST_HASH := SmallEvmTx(first), SECOND_HASH := SmallEvmTx(second)]
    ensures |HashesWithResult(SharedSlot(result))| == 2 && !NoSharedIndex(SharedSlot(result))
    ensures IsFinalized(decode, transactions, SharedSlot(result), [(first, result)])
    ensures IsFinalized(decode, transactions, SharedSlot(result), [(second, result)])
  {
    hide HashesWithResult, NoSharedIndex, SharedSlot, IsFinalized;
    SharedHashes(result);
    SharedListed(decode, transactions, result, FIRST_HASH, first);
    SharedListed(decode, transactions, result, SECOND_HASH, second);
  }

  /**
   Hash-map order cannot show: without a shared index the finalized list is
   unique and has one entry for every hash with a result.
   */
  lemma FinalizedUnique(decode: seq<Byte> -> Option<Transaction>, transactions: map<H256, EvmTx>, slotResults: SlotResults,
                        a: seq<(Transaction, TxResult)>, b: seq<(Transaction, TxResult)>)
    requires NoSharedIndex(slotResults)
    requires IsFinalized(decode, transactions, slotResults, a) && IsFinalized(decode, transactions, slotResults, b)
    ensures a == b
    ensures |a| == |HashesWithResult(slotResults)|
  {
    var ca :| Chooses(ca, slotResults, slotResults.Keys) && IsListing(decode, transactions, slotResults, ca, a);
    var cb :| Chooses(cb, slotResults, slotResults.Keys) && IsListing(decode, transactions, slotResults, cb, b);
    ChosenUnique(slotResults, ca, cb);
    ChosenSize(slotResults, ca);
    forall k | 0 <= k < |a|
      ensures a[k] == b[k]
    {
      assert a[k].0 == b[k].0 && a[k].1 == b[k].1;
    }
  }

  // ------------------------------------------------ from a report to the list

  /** No other hash has its first result at this index. */
  ghost predicate OnlyFirstAt(slotResults: SlotResults, h: H256, i: nat) {
    forall g {:trigger IsFirstResult(slotResults[g], i)} :: g in slotResults && IsFirstResult(slotResults[g], i) ==> g == h
  }

  /** A hash that shares its first index with no other one is in every finalized list. */
  lemma ListedAlone(decode: seq<Byte> -> Option<Transaction>, transactions: map<H256, EvmTx>, slotResults: SlotResults,
                    list: seq<(Transaction, TxResult)>, h: H256, i: nat)
    requires IsFinalized(decode, transactions, slotResults, list)
    requires h in slotResults && IsFirstResult(slotResults[h], i)
    requires OnlyFirstAt(slotResults, h, i)
    ensures h in transactions && Build(decode, transactions[h]).Some?
    ensures (Build(decode, transactions[h]).value, slotResults[h][i].value) in list
  {
    hide DataComplete, Build;
    var chosen :| Chooses(chosen, slotResults, slotResults.Keys) && IsListing(decode, transactions, slotResults, chosen, list);
    assert i in chosen && chosen[i] == h;
    var k := Position(Sorted(chosen.Keys), chosen.Keys, i);
    assert list[k] == (Build(decode, transactions[h]).value, slotResults[h][i].value);
  }

  /** The step reports this result. */
  predicate Reports(step: ParsedTxStep, result: TxResult) {
    (step.SmallTx? && step.smallResult == Some(result)) || (step.BigTx? && step.bigResult == Some(result))
  }

  /** Step `i` is the first of the hash that reports a result. */
  ghost predicate FirstReport(steps: TxSteps, i: nat, result: TxResult) {
    i in steps && Reports(steps[i], result) && forall j, r :: j in steps && j < i ==> !Reports(steps[j], r)
  }

  lemma FirstReportIsFirst(before: Index, slot: Slot, txs: ParsedTxs, now: Index, h: H256, i: nat, result: TxResult)
    requires Accepts(before.transactions, txs) && now == Registered(before, slot, txs)
    requires h in txs && FirstReport(txs[h], i, result)
    ensures h in SlotResultsAt(now.results, slot) && IsFirstResult(SlotResultsAt(now.results, slot)[h], i)
    ensures SlotResultsAt(now.results, slot)[h][i] == Some(result)
  {
    hide Registered, Accepts;
    RegisteredReplaces(before, slot, txs, slot, h, i);
    var results := TxResultsAt(SlotResultsAt(now.results, slot), h);
    forall j | j in results && results[j].Some?
      ensures i <= j
    {
      RegisteredReplaces(before, slot, txs, slot, h, j);
      assert Reports(txs[h][j], results[j].value);
    }
  }

  /**
   Registered and finalized: a hash of the slot that reports a result, and
   shares the index of its first result with no other one, is in every
   finalized list with that result.
   */
  lemma RegisteredListed(decode: seq<Byte> -> Option<Transaction>, before: Index, slot: Slot, txs: ParsedTxs, now: Index,
                         list: seq<(Transaction, TxResult)>, h: H256, i: nat, result: TxResult)
    requires Accepts(before.transactions, txs) && now == Registered(before, slot, txs)
    requires IsFinalized(decode, now.transactions, SlotResultsAt(now.results, slot), list)
    requires h in txs && FirstReport(txs[h], i, result) && OnlyFirstAt(SlotResultsAt(now.results, slot), h, i)
    ensures h in now.transactions
    ensures now.transactions[h].SmallEvmTx? ==> (now.transactions[h].transaction, result) in list
    ensures now.transactions[h].BigEvmTx? ==>
              decode(now.transactions[h].holderData).Some? && (decode(now.transactions[h].holderData).value, result) in list
  {
    hide Registered, Accepts, IsFinalized, OnlyFirstAt, FirstReport;
    FirstReportIsFirst(before, slot, txs, now, h, i, result);
    ListedAlone(decode, now.transactions, SlotResultsAt(now.results, slot), list, h, i);
  }

  lemma {:induction false} SmallStays(t: Transaction, tx: Option<EvmTx>, entries: seq<Entry>, n: nat)
    requires n <= |entries| && (tx.Some? ==> tx.value == SmallEvmTx(t))
    requires forall k :: 0 <= k < n ==> entries[k].step.SmallTx? && entries[k].step.tx == t
    ensures ApplyEntries(tx, entries, n).Ok? && (n > 0 ==> ApplyEntries(tx, entries, n).value == Some(SmallEvmTx(t)))
  {
    if n > 0 {
      SmallStays(t, tx, entries, n - 1);
    }
  }

  /** What registration makes of a hash whose steps all carry one small transaction. */
  lemma RegisteredSmall(before: Index, slot: Slot, txs: ParsedTxs, h: H256, t: Transaction)
    requires Accepts(before.transactions, txs) && h in txs && txs[h] != map[]
    requires h in before.transactions ==> before.transactions[h] == SmallEvmTx(t)
    requires forall i :: i in txs[h] ==> txs[h][i].SmallTx? && txs[h][i].tx == t
    ensures h in Registered(before, slot, txs).transactions && Registered(before, slot, txs).transactions[h] == SmallEvmTx(t)
  {
    hide ApplyEntries;
    SmallStays(t, Lookup(before.transactions, h), EntriesOf(txs[h]), |txs[h]|);
    assert h in WithSteps(txs);
  }

  // -------------------------------------------------- failing to finalize

  /**
   An incomplete slot fails for missing data, and a slot with complete data that
   does not decode fails for that. A slot with both can fail either way; missing
   data is certain to be reported exactly if everything complete decodes.
   */
  lemma MissingDataIff(decode: seq<Byte> -> Option<Transaction>, transactions: map<H256, EvmTx>, slotResults: SlotResults)
    ensures (exists e :: MayFail(decode, transactions, slotResults, e) && !e.Undecodable?) <==> !SlotComplete(transactions, slotResults)
    ensures (exists e :: MayFail(decode, transactions, slotResults, e) && e.Undecodable?) <==>
            !SlotDecodable(decode, transactions, slotResults)
  {
    hide DataComplete, HasResult, Build;
    if !SlotComplete(transactions, slotResults) {
      var h :| h in slotResults && HasResult(slotResults[h]) && !(h in transactions && DataComplete(transactions[h]));
      assert MayFail(decode, transactions, slotResults, if h in transactions then IncompleteData(h) else TxNotFound(h));
    }
    if !SlotDecodable(decode, transactions, slotResults) {
      var h :| h in slotResults && HasResult(slotResults[h]) && h in transactions && DataComplete(transactions[h])
               && Build(decode, transactions[h]).None?;
      assert MayFail(decode, transactions, slotResults, Undecodable(h));
    }
  }

  /** Two holder transactions with a result: one byte of the first has arrived, nothing of the second. */
  function HalfArrived(byte: Byte): map<H256, EvmTx> {
    map[FIRST_HASH := BigEvmTx([byte], map[0 := 1]), SECOND_HASH := NEW_BIG_TX]
  }

  /** If the first one's byte does not decode, hash-map order decides which error is reported. */
  lemma OrderDecidesError(decode: seq<Byte> -> Option<Transaction>, byte: Byte, result: TxResult)
    requires decode([byte]).None?
    ensures MayFail(decode, HalfArrived(byte), SharedSlot(result), Undecodable(FIRST_HASH))
    ensures MayFail(decode, HalfArrived(byte), SharedSlot(result), IncompleteData(SECOND_HASH))
    ensures !SlotComplete(HalfArrived(byte), SharedSlot(result)) && !SlotDecodable(decode, HalfArrived(byte), SharedSlot(result))
  {
    var pieces: map<nat, nat>, none: map<nat, nat>, slotResults: SlotResults := map[0 := 1], map[], SharedSlot(result);
    assert slotResults[FIRST_HASH][3].Some? && slotResults[SECOND_HASH][3].Some?;
    assert Lists([0], pieces.Keys);
    ListingUnique([0], Sorted(pieces.Keys), pieces.Keys);
    ListingUnique([], Sorted(none.Keys), none.Keys);
    assert Chained([0][1..], pieces, 1);
    assert DataComplete(HalfArrived(byte)[FIRST_HASH]) && !DataComplete(HalfArrived(byte)[SECOND_HASH]);
    MissingDataIff(decode, HalfArrived(byte), slotResults);
  }

  // ----------------------------------------------------------- idempotence

  /** An entry that leaves a transaction as it is. */
  ghost predicate Absorbed(tx: EvmTx, step: ParsedTxStep) {
    step.TransmitTx? ==> tx.BigEvmTx? && step.piece.offset in tx.pieces
  }

  /** Kind and pieces are never lost. */
  ghost predicate Grows(a: EvmTx, b: EvmTx) {
    && a.SmallEvmTx? == b.SmallEvmTx?
    && (a.BigEvmTx? ==> a.pieces.Keys <= b.pieces.Keys)
  }

  lemma {:induction false} EntriesAbsorbed(tx: Option<EvmTx>, entries: seq<Entry>, n: nat)
    requires n <= |entries| && ApplyEntries(tx, entries, n).Ok?
    ensures tx.Some? ==> Grows(tx.value, ApplyEntries(tx, entries, n).value.value)
    ensures forall k :: 0 <= k < n ==> Absorbed(ApplyEntries(tx, entries, n).value.value, entries[k].step)
  {
    if n > 0 {
      EntriesAbsorbed(tx, entries, n - 1);
      var previous, next := ApplyEntries(tx, entries, n - 1).value, ApplyEntries(tx, entries, n).value.value;
      assert previous.Some? ==> Grows(previous.value, next);
      forall k | 0 <= k < n
        ensures Absorbed(next, entries[k].step)
      {
        assert k < n - 1 ==> Absorbed(previous.value, entries[k].step);
      }
    }
  }

  lemma {:induction false} AbsorbedEntries(tx: EvmTx, entries: seq<Entry>, n: nat)
    requires n <= |entries| && forall k :: 0 <= k < n ==> Absorbed(tx, entries[k].step)
    ensures ApplyEntries(Some(tx), entries, n) == Ok(Some(tx))
  {
    if n > 0 {
      AbsorbedEntries(tx, entries, n - 1);
    }
  }

  lemma TxRegisteredTwice(before: Index, slot: Slot, txs: ParsedTxs, h: H256)
    requires Accepts(before.transactions, txs) && h in txs
    ensures ApplyEntries(Lookup(Registered(before, slot, txs).transactions, h), EntriesOf(txs[h]), |txs[h]|) ==
            Ok(Lookup(Registered(before, slot, txs).transactions, h))
  {
    if h in WithSteps(txs) {
      var start, entries := Lookup(before.transactions, h), EntriesOf(txs[h]);
      EntriesAbsorbed(start, entries, |txs[h]|);
      AbsorbedEntries(ApplyEntries(start, entries, |txs[h]|).value.value, entries, |txs[h]|);
    }
  }

  lemma AcceptedTwice(before: Index, slot: Slot, txs: ParsedTxs)
    requires Accepts(before.transactions, txs)
    ensures Accepts(Registered(before, slot, txs).transactions, txs)
  {
    forall h | h in txs
      ensures ApplyEntries(Lookup(Registered(before, slot, txs).transactions, h), EntriesOf(txs[h]), |txs[h]|).Ok?
    {
      TxRegisteredTwice(before, slot, txs, h);
    }
  }

  /** What registration leaves of one hash: its own steps on top of what was known. */
  lemma RegisteredLookup(before: Index, slot: Slot, txs: ParsedTxs, h: H256)
    requires Accepts(before.transactions, txs)
    ensures h in WithSteps(txs) ==>
              ApplyEntries(Lookup(before.transactions, h), EntriesOf(txs[h]), |txs[h]|) == Ok(Lookup(Registered(before, slot, txs).transactions, h))
    ensures h !in WithSteps(txs) ==> Lookup(Registered(before, slot, txs).transactions, h) == Lookup(before.transactions, h)
  {
  }

  lemma TransactionsTwice(before: Index, slot: Slot, txs: ParsedTxs)
    requires Accepts(before.transactions, txs) && Accepts(Registered(before, slot, txs).transactions, txs)
    ensures Registered(Registered(before, slot, txs), slot, txs).transactions == Registered(before, slot, txs).transactions
  {
    hide ApplyEntries, EntriesOf, Registered, Lookup;
    var once := Registered(before, slot, txs);
    var twice := Registered(once, slot, txs);
    forall h
      ensures Lookup(twice.transactions, h) == Lookup(once.transactions, h)
    {
      RegisteredLookup(once, slot, txs, h);
      if h in WithSteps(txs) {
        TxRegisteredTwice(before, slot, txs, h);
      }
    }
    SameLookups(twice.transactions, once.transactions);
  }

  /** Registering the same data for a slot again changes nothing in either index. */
  lemma RegisterTwice(before: Index, slot: Slot, txs: ParsedTxs)
    requires Accepts(before.transactions, txs)
    ensures Accepts(Registered(before, slot, txs).transactions, txs)
    ensures Registered(Registered(before, slot, txs), slot, txs) == Registered(before, slot, txs)
  {
    AcceptedTwice(before, slot, txs);
    TransactionsTwice(before, slot, txs);
    ReplacedTwice(before.results, slot, txs);
  }

  lemma ReplacedTwice(results: map<Slot, SlotResults>, slot: Slot, txs: ParsedTxs)
    ensures Replacement(Replacement(SlotResultsAt(results, slot), txs), txs) == Replacement(SlotResultsAt(results, slot), txs)
  {
  }

  // ------------------------------------------------------------ acceptance

  /** What kind of transaction the first entry settles on. */
  ghost predicate SettlesSmall(tx: Option<EvmTx>, entries: seq<Entry>) {
    if tx.Some? then tx.value.SmallEvmTx? else entries != [] && entries[0].step.SmallTx?
  }

  lemma {:induction false} KindSettled(tx: Option<EvmTx>, entries: seq<Entry>, n: nat)
    requires 0 < n <= |entries| && ApplyEntries(tx, entries, n).Ok?
    ensures ApplyEntries(tx, entries, n).value.value.SmallEvmTx? <==> SettlesSmall(tx, entries)
  {
    if n > 1 {
      KindSettled(tx, entries, n - 1);
    } else {
      assert ApplyEntries(tx, entries, 0) == Ok(tx);
    }
  }

  /**
   A hash rejects its steps exactly when it is, or its first step makes it, a
   small transaction and some step transmits a piece.
   */
  lemma {:induction false} RejectedIff(tx: Option<EvmTx>, entries: seq<Entry>, n: nat)
    requires n <= |entries|
    ensures ApplyEntries(tx, entries, n).Err? <==>
            SettlesSmall(tx, entries) && exists k :: 0 <= k < n && entries[k].step.TransmitTx?
  {
    if n > 0 {
      RejectedIff(tx, entries, n - 1);
      if ApplyEntries(tx, entries, n - 1).Ok? {
        if n > 1 {
          KindSettled(tx, entries, n - 1);
        } else {
          assert ApplyEntries(tx, entries, 0) == Ok(tx);
        }
      }
    }
  }
}
