/**
 Registering a whole chain of Solana blocks. As long as every hash stands for
 one transaction, only the set of registered slots matters, not their order.
 */
module Replay {
  import opened Wrappers
  import opened Types
  import opened Ordered
  import opened Reassembly
  import opened TxIndex

  /** What a hash stands for: a small transaction, or bytes sent in pieces. */
  datatype Content = SmallContent(tx: Transaction) | HolderContent(layout: Layout)

  type Truth = H256 -> Content

  /** A confirmed Solana block, reduced to what concerns the rollup. */
  datatype SolanaBlock = SolanaBlock(parentSlot: Slot, txs: ParsedTxs)

  type Storage = map<Slot, SolanaBlock>

  ghost predicate StepFits(c: Content, step: ParsedTxStep) {
    match c
    case SmallContent(t) => step.SmallTx? && step.tx == t
    case HolderContent(l) => l.Valid() && (step.BigTx? || (step.TransmitTx? && IsSlice(l, step.piece)))
  }

  ghost predicate TxFits(c: Content, tx: EvmTx) {
    match c
    case SmallContent(t) => tx == SmallEvmTx(t)
    case HolderContent(l) =>
      && l.Valid() && tx.BigEvmTx? && tx.pieces.Keys <= l.lengths.Keys
      && tx == Denote(l, tx.pieces.Keys)
  }

  /** Every hash of these transactions is of one kind and all its pieces are slices of one byte string. */
  ghost predicate TxsFit(truth: Truth, txs: ParsedTxs) {
    forall h, i :: h in txs && i in txs[h] ==> StepFits(truth(h), txs[h][i])
  }

  ghost predicate Sound(truth: Truth, state: Index, storage: Storage) {
    && (forall h :: h in state.transactions ==> TxFits(truth(h), state.transactions[h]))
    && (forall s :: s in storage ==> TxsFit(truth, storage[s].txs))
  }

  function ArrivedOf(tx: Option<EvmTx>): set<nat> {
    if tx.Some? && tx.value.BigEvmTx? then tx.value.pieces.Keys else {}
  }

  function EntryOffsets(entries: seq<Entry>, n: nat): set<nat>
    requires n <= |entries|
  {
    if n == 0 then {}
    else
      var step := entries[n - 1].step;
      EntryOffsets(entries, n - 1) + if step.TransmitTx? then {step.piece.offset} else {}
  }

  ghost predicate OffsetsFit(c: Content, arrived: set<nat>) {
    c.HolderContent? ==> c.layout.Valid() && arrived <= c.layout.lengths.Keys
  }

  /** The one state a transaction can have once these pieces arrived. */
  ghost function Canonical(c: Content, arrived: set<nat>): EvmTx
    requires OffsetsFit(c, arrived)
  {
    match c
    case SmallContent(t) => SmallEvmTx(t)
    case HolderContent(l) => Denote(l, arrived)
  }

  lemma HolderStepCanonical(l: Layout, tx: Option<EvmTx>, step: ParsedTxStep)
    requires StepFits(HolderContent(l), step) && (tx.Some? ==> TxFits(HolderContent(l), tx.value))
    ensures
      var arrived := ArrivedOf(tx) + if step.TransmitTx? then {step.piece.offset} else {};
      && OffsetsFit(HolderContent(l), arrived)
      && ApplyStep(tx, step) == Ok(Denote(l, arrived))
  {
    var start := if tx.Some? then tx.value else NEW_BIG_TX;
    DenoteNothing(l);
    assert start == Denote(l, ArrivedOf(tx));
    if step.TransmitTx? {
      UpdateAdds(l, ArrivedOf(tx), step.piece.offset);
    } else {
      assert ArrivedOf(tx) + {} == ArrivedOf(tx);
    }
  }

  lemma CanonicalFits(c: Content, arrived: set<nat>)
    requires OffsetsFit(c, arrived)
    ensures TxFits(c, Canonical(c, arrived))
    ensures ArrivedOf(Some(Canonical(c, arrived))) == (if c.HolderContent? then arrived else {})
  {
  }

  lemma StepCanonical(c: Content, tx: Option<EvmTx>, step: ParsedTxStep)
    requires StepFits(c, step) && (tx.Some? ==> TxFits(c, tx.value))
    ensures
      var arrived := ArrivedOf(tx) + if step.TransmitTx? then {step.piece.offset} else {};
      && OffsetsFit(c, arrived)
      && ApplyStep(tx, step) == Ok(Canonical(c, arrived))
      && TxFits(c, Canonical(c, arrived))
      && ArrivedOf(Some(Canonical(c, arrived))) == if c.HolderContent? then arrived else {}
  {
    var arrived := ArrivedOf(tx) + if step.TransmitTx? then {step.piece.offset} else {};
    if c.HolderContent? {
      hide Denote;
      HolderStepCanonical(c.layout, tx, step);
      CanonicalFits(c, arrived);
    }
  }

  lemma {:induction false} EntriesCanonical(c: Content, tx: Option<EvmTx>, entries: seq<Entry>, n: nat)
    requires n <= |entries| && (tx.Some? ==> TxFits(c, tx.value))
    requires forall k :: 0 <= k < n ==> StepFits(c, entries[k].step)
    ensures ApplyEntries(tx, entries, n).Ok?
    ensures n > 0 ==> OffsetsFit(c, ArrivedOf(tx) + EntryOffsets(entries, n))
    ensures n > 0 ==> ApplyEntries(tx, entries, n) == Ok(Some(Canonical(c, ArrivedOf(tx) + EntryOffsets(entries, n))))
    ensures n > 0 ==> TxFits(c, Canonical(c, ArrivedOf(tx) + EntryOffsets(entries, n)))
  {
    if n > 0 {
      hide Denote, StepFits, ApplyStep;
      EntriesCanonical(c, tx, entries, n - 1);
      var previous := ApplyEntries(tx, entries, n - 1).value;
      var step := entries[n - 1].step;
      StepCanonical(c, previous, step);
      var before := ArrivedOf(tx) + EntryOffsets(entries, n - 1);
      if n == 1 {
        assert previous == tx && before == ArrivedOf(tx);
      } else {
        CanonicalFits(c, before);
      }
      assert ArrivedOf(tx) + EntryOffsets(entries, n) == before + if step.TransmitTx? then {step.piece.offset} else {};
    }
  }

  // ------------------------------------------------- one slot, hash by hash

  /** Offsets of the pieces of a hash in a set of blocks. */
  function OffsetsIn(storage: Storage, slots: set<Slot>, h: H256): set<nat> {
    set s, i | s in slots && s in storage && h in storage[s].txs && i in storage[s].txs[h] && storage[s].txs[h][i].TransmitTx? ::
      storage[s].txs[h][i].piece.offset
  }

  function StepOffsets(steps: TxSteps): set<nat> {
    set i | i in steps && steps[i].TransmitTx? :: steps[i].piece.offset
  }

  lemma {:induction false} EntryOffsetsOf(entries: seq<Entry>, n: nat, o: nat)
    requires n <= |entries|
    ensures o in EntryOffsets(entries, n) <==>
            exists k :: 0 <= k < n && entries[k].step.TransmitTx? && entries[k].step.piece.offset == o
  {
    if n > 0 {
      EntryOffsetsOf(entries, n - 1, o);
    }
  }

  lemma AllEntryOffsets(steps: TxSteps)
    ensures EntryOffsets(EntriesOf(steps), |steps|) == StepOffsets(steps)
  {
    var entries := EntriesOf(steps);
    forall o: nat
      ensures o in EntryOffsets(entries, |steps|) <==> o in StepOffsets(steps)
    {
      EntryOffsetsOf(entries, |steps|, o);
      if o in StepOffsets(steps) {
        var i :| i in steps && steps[i].TransmitTx? && steps[i].piece.offset == o;
        var k := Position(Sorted(steps.Keys), steps.Keys, i);
        assert entries[k].step == steps[i];
      }
    }
  }

  /** What registering blocks in which `h` occurs, with pieces `offsets`, makes of its transaction. */
  ghost predicate TxAfter(c: Content, before: Option<EvmTx>, touched: bool, offsets: set<nat>, after: Option<EvmTx>) {
    if touched
    then OffsetsFit(c, ArrivedOf(before) + offsets) && after == Some(Canonical(c, ArrivedOf(before) + offsets))
    else after == before
  }

  lemma HashRegistered(truth: Truth, state: Index, txs: ParsedTxs, h: H256)
    requires TxsFit(truth, txs) && (h in state.transactions ==> TxFits(truth(h), state.transactions[h]))
    requires h in txs
    ensures ApplyEntries(Lookup(state.transactions, h), EntriesOf(txs[h]), |txs[h]|).Ok?
    ensures txs[h] != map[] ==>
              && TxAfter(truth(h), Lookup(state.transactions, h), true, StepOffsets(txs[h]),
                         ApplyEntries(Lookup(state.transactions, h), EntriesOf(txs[h]), |txs[h]|).value)
              && TxFits(truth(h), ApplyEntries(Lookup(state.transactions, h), EntriesOf(txs[h]), |txs[h]|).value.value)
  {
    EntriesCanonical(truth(h), Lookup(state.transactions, h), EntriesOf(txs[h]), |txs[h]|);
    AllEntryOffsets(txs[h]);
  }

  /** Registration of sound data never fails and keeps the state sound. */
  lemma RegisteredSound(truth: Truth, state: Index, storage: Storage, slot: Slot)
    requires Sound(truth, state, storage) && slot in storage
    ensures Accepts(state.transactions, storage[slot].txs)
    ensures Sound(truth, Registered(state, slot, storage[slot].txs), storage)
  {
    var txs := storage[slot].txs;
    forall h | h in txs
      ensures ApplyEntries(Lookup(state.transactions, h), EntriesOf(txs[h]), |txs[h]|).Ok?
    {
      HashRegistered(truth, state, txs, h);
    }
    var after := Registered(state, slot, txs);
    forall h | h in after.transactions
      ensures TxFits(truth(h), after.transactions[h])
    {
      if h in WithSteps(txs) {
        HashRegistered(truth, state, txs, h);
      }
    }
  }

  // ------------------------------------------------------- a list of slots

  /** Registers the blocks of the given slots one after the other. */
  ghost function Replayed(truth: Truth, state: Index, storage: Storage, slots: seq<Slot>): (after: Index)
    requires Sound(truth, state, storage) && forall s :: s in slots ==> s in storage
    ensures Sound(truth, after, storage)
    decreases |slots|
  {
    if slots == [] then state
    else
      var last := |slots| - 1;
      var previous := Replayed(truth, state, storage, slots[..last]);
      assert slots[last] in slots;
      RegisteredSound(truth, previous, storage, slots[last]);
      Registered(previous, slots[last], storage[slots[last]].txs)
  }

  ghost predicate Touches(storage: Storage, slots: set<Slot>, h: H256) {
    exists s :: s in slots && s in storage && h in WithSteps(storage[s].txs)
  }

  lemma OffsetsGrow(storage: Storage, slots: set<Slot>, slot: Slot, h: H256)
    requires slot in storage
    ensures OffsetsIn(storage, slots + {slot}, h) ==
            OffsetsIn(storage, slots, h) + if h in storage[slot].txs then StepOffsets(storage[slot].txs[h]) else {}
  {
    var all, some := OffsetsIn(storage, slots + {slot}, h), OffsetsIn(storage, slots, h);
    var added := if h in storage[slot].txs then StepOffsets(storage[slot].txs[h]) else {};
    forall o | o in some + added
      ensures o in all
    {
      if o in added {
        var i :| i in storage[slot].txs[h] && storage[slot].txs[h][i].TransmitTx? && storage[slot].txs[h][i].piece.offset == o;
        assert slot in slots + {slot};
      }
    }
  }

  lemma TxAfterTwice(c: Content, before: Option<EvmTx>, mid: Option<EvmTx>, after: Option<EvmTx>, touched: bool, o1: set<nat>, o2: set<nat>)
    requires before.Some? ==> TxFits(c, before.value)
    requires TxAfter(c, before, touched, o1, mid) && TxAfter(c, mid, true, o2, after)
    requires !touched ==> o1 == {}
    ensures TxAfter(c, before, true, o1 + o2, after)
  {
    assert ArrivedOf(before) + (o1 + o2) == ArrivedOf(before) + o1 + o2;
    if c.HolderContent? && touched {
      assert ArrivedOf(mid) == ArrivedOf(before) + o1;
    }
    if !touched {
      assert o1 + o2 == o2;
    }
  }

  lemma UntouchedOffsets(storage: Storage, slots: set<Slot>, h: H256)
    requires !Touches(storage, slots, h)
    ensures OffsetsIn(storage, slots, h) == {}
  {
    forall s | s in slots && s in storage && h in storage[s].txs
      ensures storage[s].txs[h] == map[]
    {
      assert h !in WithSteps(storage[s].txs);
    }
  }

  function Members(slots: seq<Slot>): set<Slot> {
    set s | s in slots
  }

  lemma MembersSplit(slots: seq<Slot>)
    requires slots != []
    ensures Members(slots) == Members(slots[..|slots| - 1]) + {slots[|slots| - 1]}
  {
    assert slots == slots[..|slots| - 1] + [slots[|slots| - 1]];
  }

  /** The transaction of a hash after a list of registrations depends on the set of slots only. */
  lemma {:induction false} ReplayedTx(truth: Truth, state: Index, storage: Storage, slots: seq<Slot>, h: H256)
    requires Sound(truth, state, storage) && forall s :: s in slots ==> s in storage
    ensures TxAfter(truth(h), Lookup(state.transactions, h), Touches(storage, Members(slots), h),
                    OffsetsIn(storage, Members(slots), h), Lookup(Replayed(truth, state, storage, slots).transactions, h))
    decreases |slots|
  {
    if slots == [] {
      UntouchedOffsets(storage, Members(slots), h);
    } else {
      var rest, slot := slots[..|slots| - 1], slots[|slots| - 1];
      assert slot in slots;
      ReplayedTx(truth, state, storage, rest, h);
      MembersSplit(slots);
      RegisteredSound(truth, Replayed(truth, state, storage, rest), storage, slot);
      LastTx(truth, state, storage, Replayed(truth, state, storage, rest), Members(rest), slot, h);
    }
  }

  lemma LastTx(truth: Truth, state: Index, storage: Storage, previous: Index, slots: set<Slot>, slot: Slot, h: H256)
    requires Sound(truth, state, storage) && Sound(truth, previous, storage) && slot in storage
    requires Accepts(previous.transactions, storage[slot].txs)
    requires TxAfter(truth(h), Lookup(state.transactions, h), Touches(storage, slots, h),
                     OffsetsIn(storage, slots, h), Lookup(previous.transactions, h))
    ensures TxAfter(truth(h), Lookup(state.transactions, h), Touches(storage, slots + {slot}, h),
                    OffsetsIn(storage, slots + {slot}, h),
                    Lookup(Registered(previous, slot, storage[slot].txs).transactions, h))
  {
    var txs := storage[slot].txs;
    var before, mid := Lookup(state.transactions, h), Lookup(previous.transactions, h);
    var after := Lookup(Registered(previous, slot, txs).transactions, h);
    OffsetsGrow(storage, slots, slot, h);
    var touched := Touches(storage, slots, h);
    if !touched {
      UntouchedOffsets(storage, slots, h);
    }
    if h in WithSteps(txs) {
      assert slot in slots + {slot};
      assert Touches(storage, slots + {slot}, h);
      HashRegistered(truth, previous, txs, h);
      TxAfterTwice(truth(h), before, mid, after, touched, OffsetsIn(storage, slots, h), StepOffsets(txs[h]));
    } else {
      assert after == mid;
      assert h in txs ==> StepOffsets(txs[h]) == {};
      assert Touches(storage, slots + {slot}, h) <==> touched;
      assert OffsetsIn(storage, slots + {slot}, h) == OffsetsIn(storage, slots, h);
    }
  }

  /** Results of a slot after its block was registered. */
  function ResultsAfter(existing: Option<SlotResults>, txs: ParsedTxs): Option<SlotResults> {
    if existing.Some? || WithSteps(txs) != {}
    then Some(Replacement(if existing.Some? then existing.value else map[], txs))
    else None
  }

  lemma ResultsAfterTwice(existing: Option<SlotResults>, txs: ParsedTxs)
    ensures ResultsAfter(ResultsAfter(existing, txs), txs) == ResultsAfter(existing, txs)
  {
    var existing' := if existing.Some? then existing.value else map[];
    assert Replacement(Replacement(existing', txs), txs) == Replacement(existing', txs);
  }

  lemma LastResults(previous: Index, slot: Slot, txs: ParsedTxs, s: Slot)
    requires Accepts(previous.transactions, txs)
    ensures Lookup(Registered(previous, slot, txs).results, s) ==
            if s == slot then ResultsAfter(Lookup(previous.results, s), txs) else Lookup(previous.results, s)
  {
  }

  lemma {:induction false} ReplayedResults(truth: Truth, state: Index, storage: Storage, slots: seq<Slot>, s: Slot)
    requires Sound(truth, state, storage) && forall t :: t in slots ==> t in storage
    ensures Lookup(Replayed(truth, state, storage, slots).results, s) ==
            if s in Members(slots) then ResultsAfter(Lookup(state.results, s), storage[s].txs) else Lookup(state.results, s)
    decreases |slots|
  {
    if slots != [] {
      var rest, slot := slots[..|slots| - 1], slots[|slots| - 1];
      assert slot in slots;
      ReplayedResults(truth, state, storage, rest, s);
      MembersSplit(slots);
      var previous := Replayed(truth, state, storage, rest);
      RegisteredSound(truth, previous, storage, slot);
      LastResults(previous, slot, storage[slot].txs, s);
      if s == slot {
        ResultsAfterTwice(Lookup(state.results, s), storage[s].txs);
      }
    }
  }

  lemma SameCanonical(c: Content, before: Option<EvmTx>, touched: bool, offsets: set<nat>, a: Option<EvmTx>, b: Option<EvmTx>)
    requires TxAfter(c, before, touched, offsets, a) && TxAfter(c, before, touched, offsets, b)
    ensures a == b
  {
  }

  /**
   Two lists of slots with the same members leave the parser in the same state,
   whatever their order and however often a slot is repeated.
   */
  lemma ReplayOrderFree(truth: Truth, state: Index, storage: Storage, a: seq<Slot>, b: seq<Slot>)
    requires Sound(truth, state, storage)
    requires forall s :: s in a ==> s in storage
    requires forall s :: s in b ==> s in storage
    requires Members(a) == Members(b)
    ensures Replayed(truth, state, storage, a) == Replayed(truth, state, storage, b)
  {
    var ra, rb := Replayed(truth, state, storage, a), Replayed(truth, state, storage, b);
    forall h
      ensures Lookup(ra.transactions, h) == Lookup(rb.transactions, h)
    {
      ReplayedTx(truth, state, storage, a, h);
      ReplayedTx(truth, state, storage, b, h);
      SameCanonical(truth(h), Lookup(state.transactions, h), Touches(storage, Members(a), h), OffsetsIn(storage, Members(a), h),
                    Lookup(ra.transactions, h), Lookup(rb.transactions, h));
    }
    SameLookups(ra.transactions, rb.transactions);
    forall s
      ensures Lookup(ra.results, s) == Lookup(rb.results, s)
    {
      ReplayedResults(truth, state, storage, a, s);
      ReplayedResults(truth, state, storage, b, s);
    }
    SameLookups(ra.results, rb.results);
  }

  function OldestFirst(s: seq<Slot>): (r: seq<Slot>)
    ensures |r| == |s| && forall k :: 0 <= k < |s| ==> r[k] == s[|s| - 1 - k]
  {
    if s == [] then [] else OldestFirst(s[1..]) + [s[0]]
  }

  lemma {:induction false} OldestFirstMembers(s: seq<Slot>)
    ensures Members(OldestFirst(s)) == Members(s)
  {
    if s == [] {
    } else {
      OldestFirstMembers(s[1..]);
      assert s == [s[0]] + s[1..];
      assert forall x :: x in OldestFirst(s) <==> x in OldestFirst(s[1..]) || x == s[0];
      assert forall x :: x in OldestFirst(s[1..]) <==> x in Members(OldestFirst(s[1..]));
    }
  }

  /** Walking a chain backwards registers the same as replaying it oldest first. */
  lemma BackwardIsForward(truth: Truth, state: Index, storage: Storage, segment: seq<Slot>)
    requires Sound(truth, state, storage) && forall s :: s in segment ==> s in storage
    ensures forall s :: s in OldestFirst(segment) ==> s in storage
    ensures Replayed(truth, state, storage, segment) == Replayed(truth, state, storage, OldestFirst(segment))
  {
    OldestFirstMembers(segment);
    forall s | s in OldestFirst(segment)
      ensures s in storage
    {
      assert s in Members(OldestFirst(segment));
      assert s in Members(segment);
    }
    ReplayOrderFree(truth, state, storage, segment, OldestFirst(segment));
  }
}
