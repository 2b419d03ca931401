/**
 The table of Solana slots in the database: finalizing the fork that ends in a
 slot, and the view that selects the fork whose blocks are to be produced.
 */
module SlotTable {
  import opened Wrappers
  import opened Types
  import opened Ordered

  datatype SlotStatus = Processed | Confirmed | Finalized

  /** A row of `sol_slot`; the status column may be null. */
  datatype SlotRow = SlotRow(parent: Slot, status: Option<SlotStatus>)

  type Slots = map<Slot, SlotRow>

  /** SQL's `status <> 'Finalized'`: a null status does not satisfy it. */
  predicate Open(slots: Slots, s: Slot) {
    s in slots && slots[s].status.Some? && slots[s].status.value != Finalized
  }

  predicate SlotFinalized(slots: Slots, s: Slot) {
    s in slots && slots[s].status == Some(Finalized)
  }

  /** A stored slot whose status is known and is not final. */
  ghost predicate Unfinished(slots: Slots, s: Slot) {
    s in slots && (slots[s].status == Some(Processed) || slots[s].status == Some(Confirmed))
  }

  /** A descent from `path[0]` to ever earlier ancestors, none of them finalized. */
  ghost predicate IsOpenPath(slots: Slots, path: seq<Slot>) {
    && path != []
    && (forall k :: 0 <= k < |path| ==> Unfinished(slots, path[k]))
    && (forall k :: 0 <= k < |path| - 1 ==> IsParentOf(slots, path[k], path[k + 1]))
  }

  predicate IsParentOf(slots: Slots, child: Slot, parent: Slot) {
    child in slots && slots[child].parent == parent
  }

  /** `x` belongs to the fork: an unbroken run of open slots leads from `slot` down to it. */
  ghost predicate OnFork(slots: Slots, slot: Slot, x: Slot) {
    exists path :: IsOpenPath(slots, path) && path[0] == slot && path[|path| - 1] == x
  }

  ghost predicate IsFork(slots: Slots, slot: Slot, fork: set<Slot>) {
    forall x :: x in fork <==> OnFork(slots, slot, x)
  }

  lemma ForkStart(slots: Slots, slot: Slot)
    ensures OnFork(slots, slot, slot) <==> Open(slots, slot)
  {
    if Open(slots, slot) {
      assert IsOpenPath(slots, [slot]);
    }
  }

  lemma ForkStep(slots: Slots, slot: Slot, x: Slot)
    requires OnFork(slots, slot, x) && Open(slots, slots[x].parent)
    ensures OnFork(slots, slot, slots[x].parent)
  {
    var path :| IsOpenPath(slots, path) && path[0] == slot && path[|path| - 1] == x;
    var more := path + [slots[x].parent];
    forall k | 0 <= k < |more| - 1
      ensures IsParentOf(slots, more[k], more[k + 1])
    {
      if k < |path| - 1 {
        assert IsParentOf(slots, path[k], path[k + 1]);
      }
    }
    assert IsOpenPath(slots, more);
  }

  lemma OpenInSlots(slots: Slots, slot: Slot, x: Slot)
    requires OnFork(slots, slot, x)
    ensures Open(slots, x)
  {
  }

  /** A set that holds the open start and is closed under open parents holds the whole fork. */
  lemma {:induction false} ForkWithin(slots: Slots, path: seq<Slot>, fork: set<Slot>, k: nat)
    requires IsOpenPath(slots, path) && k < |path| && path[0] in fork
    requires forall x :: x in fork && x in slots && Open(slots, slots[x].parent) ==> slots[x].parent in fork
    ensures path[k] in fork
  {
    if k > 0 {
      ForkWithin(slots, path, fork, k - 1);
      assert IsParentOf(slots, path[k - 1], path[k - 1 + 1]);
    }
  }

  class Database {
    var slots: Slots
    var blocks: map<Slot, seq<Byte>>

    constructor (slots: Slots, blocks: map<Slot, seq<Byte>>)
      ensures this.slots == slots && this.blocks == blocks
    {
      this.slots := slots;
      this.blocks := blocks;
    }

    /** The recursive part of the query; a slot found again ends it. */
    method Fork(slot: Slot) returns (fork: set<Slot>)
      ensures IsFork(slots, slot, fork)
    {
      ForkStart(slots, slot);
      fork := {};
      var current := slot;
      while Open(slots, current) && current !in fork
        invariant fork <= slots.Keys
        invariant forall x :: x in fork ==> OnFork(slots, slot, x)
        invariant Open(slots, current) ==> OnFork(slots, slot, current)
        invariant fork == {} ==> current == slot
        invariant fork != {} ==> slot in fork
        invariant forall x :: x in fork && x in slots && Open(slots, slots[x].parent) ==> slots[x].parent in fork || slots[x].parent == current
        decreases slots.Keys - fork
      {
        fork := fork + {current};
        if Open(slots, slots[current].parent) {
          ForkStep(slots, slot, current);
        }
        current := slots[current].parent;
      }
      forall x | OnFork(slots, slot, x)
        ensures x in fork
      {
        var path :| IsOpenPath(slots, path) && path[0] == slot && path[|path| - 1] == x;
        ForkWithin(slots, path, fork, |path| - 1);
      }
    }

    /** `set_finalized_slot`: the flipped slots with their block data. */
    method SetFinalizedSlot(slot: Slot) returns (returned: map<Slot, seq<Byte>>)
      modifies this`slots
      ensures Finalizes(old(slots), blocks, slot, slots, returned)
    {
      var fork := Fork(slot);
      returned := map s | s in fork && s in blocks :: blocks[s];
      slots := map s | s in slots :: if s in fork && s in blocks then slots[s].(status := Some(Finalized)) else slots[s];
    }
  }

  /** Exactly the fork's slots that have block data change, to finalized, and exactly they are returned. */
  ghost predicate Finalizes(before: Slots, blocks: map<Slot, seq<Byte>>, slot: Slot, after: Slots, returned: map<Slot, seq<Byte>>) {
    && after.Keys == before.Keys
    && (forall s :: s in returned <==> OnFork(before, slot, s) && s in blocks)
    && (forall s :: s in returned ==> returned[s] == blocks[s])
    && (forall s :: s in before ==> after[s] == if s in returned then SlotRow(before[s].parent, Some(Finalized)) else before[s])
  }

  ghost predicate AncestorClosed(slots: Slots) {
    forall s :: SlotFinalized(slots, s) && slots[s].parent in slots ==> SlotFinalized(slots, slots[s].parent)
  }

  /** Beneath every fork slot that has block data comes a finalized slot, an open one with block data, or none. */
  ghost predicate NoGap(slots: Slots, blocks: map<Slot, seq<Byte>>, slot: Slot) {
    forall s :: OnFork(slots, slot, s) && s in slots && s in blocks && slots[s].parent in slots ==>
      SlotFinalized(slots, slots[s].parent) || (Open(slots, slots[s].parent) && slots[s].parent in blocks)
  }

  /** Finalization stays closed under ancestors exactly when the fork has no gap in block data or statuses. */
  lemma StaysClosedIffNoGap(before: Slots, blocks: map<Slot, seq<Byte>>, slot: Slot, after: Slots, returned: map<Slot, seq<Byte>>)
    requires Finalizes(before, blocks, slot, after, returned) && AncestorClosed(before)
    ensures AncestorClosed(after) <==> NoGap(before, blocks, slot)
  {
    if NoGap(before, blocks, slot) {
      forall s | SlotFinalized(after, s) && after[s].parent in after
        ensures SlotFinalized(after, after[s].parent)
      {
        if s in returned {
          if Open(before, before[s].parent) {
            ForkStep(before, slot, s);
          }
        } else {
          assert SlotFinalized(before, s);
        }
      }
    }
    if AncestorClosed(after) {
      forall s | OnFork(before, slot, s) && s in before && s in blocks && before[s].parent in before
        ensures SlotFinalized(before, before[s].parent) || (Open(before, before[s].parent) && before[s].parent in blocks)
      {
        assert s in returned && SlotFinalized(after, s);
        var parent := before[s].parent;
        if parent in returned {
          OpenInSlots(before, slot, parent);
        }
      }
    }
  }

  /** With block data and a status for every slot there is no gap, and the slot itself becomes finalized. */
  lemma FullTableHasNoGap(before: Slots, blocks: map<Slot, seq<Byte>>, slot: Slot, after: Slots, returned: map<Slot, seq<Byte>>)
    requires Finalizes(before, blocks, slot, after, returned)
    requires forall s :: s in before ==> s in blocks && before[s].status.Some?
    ensures NoGap(before, blocks, slot)
    ensures slot in before ==> SlotFinalized(after, slot)
    ensures forall s :: OnFork(before, slot, s) <==> s in returned
  {
    ForkStart(before, slot);
    forall s
      ensures OnFork(before, slot, s) <==> s in returned
    {
      if OnFork(before, slot, s) {
        OpenInSlots(before, slot, s);
      }
    }
  }

  /** Two open slots, only the newer of which has block data. */
  const GAPPED: Slots := map[1 := SlotRow(0, Some(Confirmed)), 2 := SlotRow(1, Some(Confirmed))]

  /** On that table a closed set of finalized slots loses its closure. */
  lemma GapBreaksClosure(blocks: map<Slot, seq<Byte>>, after: Slots, returned: map<Slot, seq<Byte>>)
    requires blocks.Keys == {2} && Finalizes(GAPPED, blocks, 2, after, returned)
    ensures AncestorClosed(GAPPED) && !AncestorClosed(after)
    ensures returned.Keys == {2}
  {
    ForkStart(GAPPED, 2);
    assert SlotFinalized(after, 2) && !SlotFinalized(after, 1) && after[2].parent == 1;
    assert !SlotFinalized(GAPPED, 1) && !SlotFinalized(GAPPED, 2);
  }

  /** Slots off the fork, and all parent links, are left alone. */
  lemma OtherForksKept(before: Slots, blocks: map<Slot, seq<Byte>>, slot: Slot, after: Slots, returned: map<Slot, seq<Byte>>, s: Slot)
    requires Finalizes(before, blocks, slot, after, returned) && s in before
    ensures after[s].parent == before[s].parent
    ensures !OnFork(before, slot, s) ==> after[s] == before[s]
    ensures SlotFinalized(before, s) ==> after[s] == before[s]
  {
    if OnFork(before, slot, s) {
      OpenInSlots(before, slot, s);
    }
  }

  lemma OpenPathBefore(before: Slots, blocks: map<Slot, seq<Byte>>, slot: Slot, after: Slots, returned: map<Slot, seq<Byte>>, path: seq<Slot>)
    requires Finalizes(before, blocks, slot, after, returned) && IsOpenPath(after, path)
    ensures IsOpenPath(before, path)
  {
    forall k | 0 <= k < |path| - 1
      ensures IsParentOf(before, path[k], path[k + 1])
    {
      assert IsParentOf(after, path[k], path[k + 1]);
    }
  }

  /** A second call for the same slot finds nothing to finalize, whatever the table looks like. */
  lemma RepeatReturnsNothing(before: Slots, blocks: map<Slot, seq<Byte>>, slot: Slot, after: Slots, returned: map<Slot, seq<Byte>>,
                             last: Slots, again: map<Slot, seq<Byte>>)
    requires Finalizes(before, blocks, slot, after, returned) && Finalizes(after, blocks, slot, last, again)
    ensures again == map[] && last == after
  {
    forall s | OnFork(after, slot, s)
      ensures s !in blocks
    {
      var path :| IsOpenPath(after, path) && path[0] == slot && path[|path| - 1] == s;
      OpenPathBefore(before, blocks, slot, after, returned, path);
      OpenInSlots(after, slot, s);
      assert OnFork(before, slot, s);
    }
    forall s
      ensures s !in again
    {
    }
  }

  // ------------------------------------------------------------- pending view

  /** Slots holding an Ethereum block, and whether one of them has been produced. */
  type ProducedIn = map<Slot, bool>

  /** The recursion goes on from a slot unless it is finalized (or of unknown status) and holds a produced block. */
  predicate GoesOn(slots: Slots, produced: ProducedIn, s: Slot) {
    Open(slots, s) || !(s in produced && produced[s])
  }

  predicate HasNext(slots: Slots, produced: ProducedIn, s: Slot) {
    s in slots && GoesOn(slots, produced, s) && slots[s].parent in slots && 0 < slots[s].parent
  }

  ghost predicate StepsOn(slots: Slots, produced: ProducedIn, chain: seq<Slot>, k: nat)
    requires k + 1 < |chain|
  {
    && IsParentOf(slots, chain[k], chain[k + 1]) && chain[k + 1] in slots && chain[k + 1] != 0
    && (Unfinished(slots, chain[k]) || chain[k] !in produced || !produced[chain[k]])
  }

  ghost predicate NoRepeats(chain: seq<Slot>) {
    forall j, k :: 0 <= j < k < |chain| ==> chain[j] != chain[k]
  }

  /** Distinct stored slots, each the parent of the one before, from which the recursion went on. */
  ghost predicate IsDescent(slots: Slots, produced: ProducedIn, chain: seq<Slot>) {
    && NoRepeats(chain) && (forall s :: s in chain ==> s in slots)
    && forall k :: 0 <= k < |chain| - 1 ==> StepsOn(slots, produced, chain, k)
  }

  /** Nothing new follows: `UNION` drops what was found before. */
  predicate ViewStops(slots: Slots, produced: ProducedIn, chain: seq<Slot>, last: Slot) {
    !HasNext(slots, produced, last) || slots[last].parent in chain
  }

  /** The slots of the view, from the highest slot with an Ethereum block downwards. */
  ghost predicate IsViewChain(slots: Slots, produced: ProducedIn, chain: seq<Slot>) {
    IsDescent(slots, produced, chain) && (chain != [] ==> EndsAt(slots, produced, chain, chain[|chain| - 1]))
  }

  /** The parent is not stored, is slot zero or was found before, or the slot is not open and holds a produced block. */
  ghost predicate EndsAt(slots: Slots, produced: ProducedIn, chain: seq<Slot>, last: Slot) {
    last in slots ==>
      || slots[last].parent !in slots || slots[last].parent == 0 || slots[last].parent in chain
      || (!Unfinished(slots, last) && last in produced && produced[last])
  }

  lemma StopsIffEnds(slots: Slots, produced: ProducedIn, chain: seq<Slot>, last: Slot)
    ensures ViewStops(slots, produced, chain, last) <==> EndsAt(slots, produced, chain, last)
  {
  }

  /** The slots of the recursive view, from the highest slot that holds an Ethereum block; on any table. */
  method ViewSlots(slots: Slots, produced: ProducedIn) returns (chain: seq<Slot>)
    ensures IsViewChain(slots, produced, chain)
    ensures produced.Keys <= slots.Keys ==> (chain == [] <==> produced == map[])
    ensures chain != [] ==> chain[0] in produced && forall s :: s in produced ==> s <= chain[0]
  {
    var top := HighestSlot(produced);
    if top.None? || top.value !in slots {
      return [];
    }
    chain := [top.value];
    var current := top.value;
    StopsIffEnds(slots, produced, chain, current);
    while !ViewStops(slots, produced, chain, current)
      invariant chain != [] && chain[0] == top.value && chain[|chain| - 1] == current
      invariant IsDescent(slots, produced, chain)
      decreases slots.Keys - (set s | s in chain)
    {
      ghost var shorter := chain;
      DescendMore(slots, produced, chain, slots[current].parent);
      current := slots[current].parent;
      chain := chain + [current];
      assert chain[|shorter|] == current;
      assert current in slots.Keys - (set s | s in shorter) && current !in slots.Keys - (set s | s in chain);
      StopsIffEnds(slots, produced, chain, current);
    }
  }

  method HighestSlot(produced: ProducedIn) returns (top: Option<Slot>)
    ensures top.None? <==> produced == map[]
    ensures top.Some? ==> top.value in produced && forall s :: s in produced ==> s <= top.value
  {
    var order := SortedKeys(produced.Keys);
    FirstListed(order, produced.Keys);
    if order == [] {
      return None;
    }
    var last := |order| - 1;
    assert order[last] in order;
    forall s | s in produced
      ensures s <= order[last]
    {
      var i := Position(order, produced.Keys, s);
      SameOrder(order, last, i);
    }
    return Some(order[last]);
  }

  lemma DescendMore(slots: Slots, produced: ProducedIn, chain: seq<Slot>, next: Slot)
    requires IsDescent(slots, produced, chain) && chain != [] && next !in chain
    requires HasNext(slots, produced, chain[|chain| - 1]) && next == slots[chain[|chain| - 1]].parent
    ensures IsDescent(slots, produced, chain + [next])
  {
    var more := chain + [next];
    forall k | 0 <= k < |more| - 1
      ensures StepsOn(slots, produced, more, k)
    {
      if k < |chain| - 1 {
        assert StepsOn(slots, produced, chain, k);
      }
    }
  }

  /** Inside a descent nothing stops it. */
  lemma NotStopped(slots: Slots, produced: ProducedIn, chain: seq<Slot>, k: nat)
    requires IsDescent(slots, produced, chain) && 0 < k < |chain|
    ensures !ViewStops(slots, produced, chain[..k], chain[k - 1])
  {
    assert StepsOn(slots, produced, chain, k - 1);
    assert chain[k] !in chain[..k];
  }

  /** The tables determine the view, cycles of parents included. */
  lemma {:induction false} ViewUnique(slots: Slots, produced: ProducedIn, a: seq<Slot>, b: seq<Slot>, k: nat)
    requires IsViewChain(slots, produced, a) && IsViewChain(slots, produced, b)
    requires a != [] && b != [] && a[0] == b[0] && k < |a|
    ensures k < |b| && a[..k + 1] == b[..k + 1]
  {
    if k == 0 {
      assert a[..1] == [a[0]] && b[..1] == [b[0]];
    } else {
      ViewUnique(slots, produced, a, b, k - 1);
      assert a[..k][k - 1] == b[..k][k - 1];
      assert StepsOn(slots, produced, a, k - 1);
      NotStopped(slots, produced, a, k);
      assert b[..|b|] == b;
      assert k < |b|;
      assert StepsOn(slots, produced, b, k - 1);
      assert a[..k + 1] == a[..k] + [a[k]] && b[..k + 1] == b[..k] + [b[k]];
    }
  }

  /** Parents lie below their children, as Solana numbers its slots. */
  predicate Descending(slots: Slots) {
    forall s :: s in slots ==> slots[s].parent < s || slots[s].parent == 0
  }

  lemma {:induction false} DescentFalls(slots: Slots, produced: ProducedIn, chain: seq<Slot>, j: nat, k: nat)
    requires Descending(slots) && IsDescent(slots, produced, chain) && j <= k < |chain|
    ensures chain[k] <= chain[j]
  {
    if j < k {
      DescentFalls(slots, produced, chain, j, k - 1);
      assert StepsOn(slots, produced, chain, k - 1);
      assert chain[k - 1] in chain;
    }
  }

  /**
   With parents below their children the view ends at the first finalized
   slot with a produced block, or where the chain of stored slots ends; no
   slot before the last one is finalized and produced.
   */
  lemma ViewEnds(slots: Slots, produced: ProducedIn, chain: seq<Slot>, k: nat)
    requires Descending(slots) && IsViewChain(slots, produced, chain) && k < |chain|
    ensures k < |chain| - 1 ==> !(SlotFinalized(slots, chain[k]) && chain[k] in produced && produced[chain[k]])
    ensures chain[k] in slots
    ensures k == |chain| - 1 ==>
              || (!Open(slots, chain[k]) && chain[k] in produced && produced[chain[k]])
              || slots[chain[k]].parent !in slots || slots[chain[k]].parent == 0
  {
    assert chain[k] in chain;
    if k < |chain| - 1 {
      assert StepsOn(slots, produced, chain, k);
    } else if slots[chain[k]].parent in chain && 0 < slots[chain[k]].parent {
      var j :| 0 <= j < |chain| && chain[j] == slots[chain[k]].parent;
      DescentFalls(slots, produced, chain, j, k);
    }
  }
}
