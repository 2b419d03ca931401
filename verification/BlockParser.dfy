/** `BlockParser::parse`: walking parent slots backwards until a slot is complete. */
module BlockParser {
  import opened Wrappers
  import opened Types
  import opened TxIndex
  import opened TxParser
  import opened Replay

  datatype ParseError = SlotIncomplete(blocksParsed: nat) | BlockUnavailable(slot: Slot) | Finalization(error: FinalizeError)

  datatype ParseOutcome =
    | NoBlock
    | Parsed(transactions: seq<(Transaction, TxResult)>)
    | Failed(error: ParseError)

  /** Slots linked child to parent, all of them stored. */
  ghost predicate IsSegment(storage: Storage, finalSlot: Slot, segment: seq<Slot>) {
    && segment != [] && segment[0] == finalSlot
    && (forall s :: s in segment ==> s in storage)
    && (forall i :: 0 <= i < |segment| - 1 ==> segment[i] in storage && segment[i + 1] == storage[segment[i]].parentSlot)
  }

  ghost predicate CompleteIn(state: Index, slot: Slot) {
    SlotComplete(state.transactions, SlotResultsAt(state.results, slot))
  }

  /** At least one block is always parsed. */
  function Budget(maxBlocks: nat, finalSlot: Slot): nat {
    var limit := if maxBlocks < finalSlot then maxBlocks else finalSlot;
    if limit == 0 then 1 else limit
  }

  class BlockParser {
    const storage: Storage

    constructor (storage: Storage)
      ensures this.storage == storage
    {
      this.storage := storage;
    }

    /** `register_block`; a rejected registration is only logged by the source. */
    method RegisterBlock(slot: Slot, block: SolanaBlock, txParser: DefaultTxParser, ghost truth: Truth)
      requires txParser.Valid() && slot in storage && block == storage[slot]
      modifies txParser
      ensures txParser.Valid()
      ensures old(Sound(truth, txParser.State(), storage)) ==>
                && Accepts(old(txParser.transactionsByHash), block.txs)
                && txParser.State() == Registered(old(txParser.State()), slot, block.txs)
    {
      if Sound(truth, txParser.State(), storage) {
        RegisteredSound(truth, txParser.State(), storage, slot);
      }
      var _ := txParser.RegisterSlotTransactions(slot, block.txs);
    }

    /**
     Parses `finalSlot`. If the stored blocks are sound, the parser ends up in
     the state that registering the visited segment gives, and the walk stops
     at the first ancestor that completes the slot.
     */
    method Parse(finalSlot: Slot, maxBlocks: nat, txParser: DefaultTxParser, ghost truth: Truth)
      returns (r: ParseOutcome, ghost segment: seq<Slot>)
      requires txParser.Valid()
      modifies txParser
      ensures txParser.Valid()
      ensures r.NoBlock? <==> finalSlot !in storage
      ensures r.NoBlock? ==> segment == [] && txParser.State() == old(txParser.State())
      ensures !r.NoBlock? ==> IsSegment(storage, finalSlot, segment) && (|segment| == 1 || (|segment| <= maxBlocks && |segment| <= finalSlot))
      ensures r.Parsed? ==>
                && CompleteIn(txParser.State(), finalSlot)
                && IsFinalized(txParser.decode, txParser.transactionsByHash, SlotResultsAt(txParser.resultsBySlot, finalSlot), r.transactions)
      ensures r.Failed? && r.error.SlotIncomplete? ==>
                && !CompleteIn(txParser.State(), finalSlot) && (maxBlocks <= |segment| || finalSlot <= |segment|)
                && r.error.blocksParsed == if maxBlocks < finalSlot then maxBlocks else finalSlot
      ensures r.Failed? && r.error.BlockUnavailable? ==>
                && !CompleteIn(txParser.State(), finalSlot)
                && r.error.slot == storage[segment[|segment| - 1]].parentSlot && r.error.slot !in storage
      ensures r.Failed? && r.error.Finalization? ==>
                && CompleteIn(txParser.State(), finalSlot) && r.error.error.Undecodable?
                && !SlotDecodable(txParser.decode, txParser.transactionsByHash, SlotResultsAt(txParser.resultsBySlot, finalSlot))
      ensures old(Sound(truth, txParser.State(), storage)) && !r.NoBlock? ==>
                && txParser.State() == Replayed(truth, old(txParser.State()), storage, segment)
                && NotCompleteBefore(truth, old(txParser.State()), storage, segment, finalSlot)
      ensures old(Sound(truth, txParser.State(), storage)) && r.Parsed? ==>
                FinalizedByReplay(truth, old(txParser.State()), storage, OldestFirst(segment), txParser.decode, finalSlot, r.transactions)
    {
      hide IsSegment, Sound, Replayed, IsFinalized, SlotComplete, SlotDecodable, MayFail, NotCompleteBefore, WalkedSo, Registered, Accepts,
           FinalizedByReplay, OldestFirst;
      ghost var before := txParser.State();
      ghost var sound := Sound(truth, before, storage);
      segment := [];
      var limit := if maxBlocks < finalSlot then maxBlocks else finalSlot;
      if finalSlot !in storage {
        return NoBlock, segment;
      }
      var currentSlot, currentBlock := finalSlot, storage[finalSlot];
      var blocksParsed := 0;
      SegmentStarts(storage, finalSlot);
      WalkStarts(truth, before, storage, finalSlot);
      while true
        invariant txParser.Valid()
        invariant currentSlot in storage && currentBlock == storage[currentSlot]
        invariant blocksParsed == |segment| && (blocksParsed == 0 || blocksParsed < limit)
        invariant IsSegment(storage, finalSlot, segment + [currentSlot])
        invariant sound ==> WalkedSo(truth, before, storage, segment, finalSlot, txParser.State())
        decreases Budget(maxBlocks, finalSlot) - blocksParsed
      {
        ghost var previous := txParser.State();
        if sound {
          StillSound(truth, before, storage, segment, finalSlot, previous);
        }
        RegisterBlock(currentSlot, currentBlock, txParser, truth);
        blocksParsed := blocksParsed + 1;
        if sound {
          WalkOn(truth, before, storage, segment, finalSlot, previous, currentSlot, txParser.State());
        }
        segment := segment + [currentSlot];

        var complete := txParser.IsSlotComplete(finalSlot);
        if complete {
          var list := txParser.FinalizeSlot(finalSlot);
          match list {
            case Ok(transactions) =>
              if sound {
                ParsedByReplay(truth, before, storage, segment, txParser.State(), txParser.decode, finalSlot, transactions);
              }
              return Parsed(transactions), segment;
            case Err(e) => return Failed(Finalization(e)), segment;
          }
        } else if blocksParsed >= limit {
          return Failed(SlotIncomplete(limit)), segment;
        }
        if sound {
          NotYet(truth, before, storage, segment, finalSlot, txParser.State());
        }
        currentSlot := currentBlock.parentSlot;
        if currentSlot !in storage {
          return Failed(BlockUnavailable(currentSlot)), segment;
        }
        currentBlock := storage[currentSlot];
        SegmentMore(storage, finalSlot, segment, currentSlot);
      }
    }
  }

  lemma SegmentStarts(storage: Storage, finalSlot: Slot)
    requires finalSlot in storage
    ensures IsSegment(storage, finalSlot, [] + [finalSlot])
  {
  }

  lemma SegmentMore(storage: Storage, finalSlot: Slot, segment: seq<Slot>, next: Slot)
    requires IsSegment(storage, finalSlot, segment) && next in storage && next == storage[segment[|segment| - 1]].parentSlot
    ensures IsSegment(storage, finalSlot, segment + [next])
  {
    var longer := segment + [next];
    forall i | 0 <= i < |longer| - 1
      ensures longer[i] in storage && longer[i + 1] == storage[longer[i]].parentSlot
    {
      assert longer[i] == segment[i];
      assert i < |segment| - 1 ==> longer[i + 1] == segment[i + 1];
    }
  }

  lemma WalkStarts(truth: Truth, before: Index, storage: Storage, finalSlot: Slot)
    ensures Sound(truth, before, storage) ==> WalkedSo(truth, before, storage, [], finalSlot, before)
  {
  }

  /** The list is a finalized list of the slot in the state that registering these slots gives. */
  ghost predicate FinalizedByReplay(truth: Truth, before: Index, storage: Storage, slots: seq<Slot>,
                                    decode: seq<Byte> -> Option<Transaction>, finalSlot: Slot, list: seq<(Transaction, TxResult)>)
  {
    && Sound(truth, before, storage) && (forall s :: s in slots ==> s in storage)
    && var replayed := Replayed(truth, before, storage, slots);
    && IsFinalized(decode, replayed.transactions, SlotResultsAt(replayed.results, finalSlot), list)
  }

  /** What the backward walk returns is what a replay of the segment, oldest block first, finalizes. */
  lemma ParsedByReplay(truth: Truth, before: Index, storage: Storage, segment: seq<Slot>, now: Index,
                       decode: seq<Byte> -> Option<Transaction>, finalSlot: Slot, list: seq<(Transaction, TxResult)>)
    requires Sound(truth, before, storage) && forall s :: s in segment ==> s in storage
    requires now == Replayed(truth, before, storage, segment)
    requires IsFinalized(decode, now.transactions, SlotResultsAt(now.results, finalSlot), list)
    ensures FinalizedByReplay(truth, before, storage, OldestFirst(segment), decode, finalSlot, list)
  {
    hide IsFinalized, Sound, Replayed, OldestFirst;
    BackwardIsForward(truth, before, storage, segment);
  }

  /** None of the shorter walks completed the slot. */
  ghost predicate NotCompleteBefore(truth: Truth, before: Index, storage: Storage, segment: seq<Slot>, finalSlot: Slot)
    requires Sound(truth, before, storage) && forall s :: s in segment ==> s in storage
  {
    forall k :: 0 < k < |segment| ==> IncompleteAfter(truth, before, storage, segment, finalSlot, k)
  }

  ghost predicate IncompleteAfter(truth: Truth, before: Index, storage: Storage, segment: seq<Slot>, finalSlot: Slot, k: nat)
    requires Sound(truth, before, storage) && forall s :: s in segment ==> s in storage
    requires k <= |segment|
  {
    assert forall s :: s in segment[..k] ==> s in segment;
    !CompleteIn(Replayed(truth, before, storage, segment[..k]), finalSlot)
  }

  /** The state of the walk before its next registration. */
  ghost predicate WalkedSo(truth: Truth, before: Index, storage: Storage, segment: seq<Slot>, finalSlot: Slot, now: Index) {
    && Sound(truth, before, storage)
    && (forall s :: s in segment ==> s in storage)
    && now == Replayed(truth, before, storage, segment)
    && (forall k :: 0 < k <= |segment| ==> IncompleteAfter(truth, before, storage, segment, finalSlot, k))
  }

  lemma StillSound(truth: Truth, before: Index, storage: Storage, segment: seq<Slot>, finalSlot: Slot, now: Index)
    requires WalkedSo(truth, before, storage, segment, finalSlot, now)
    ensures Sound(truth, now, storage)
  {
  }

  lemma WalkOn(truth: Truth, before: Index, storage: Storage, segment: seq<Slot>, finalSlot: Slot, previous: Index, slot: Slot, now: Index)
    requires WalkedSo(truth, before, storage, segment, finalSlot, previous) && slot in storage
    requires Accepts(previous.transactions, storage[slot].txs) && now == Registered(previous, slot, storage[slot].txs)
    ensures forall s :: s in segment + [slot] ==> s in storage
    ensures now == Replayed(truth, before, storage, segment + [slot])
    ensures NotCompleteBefore(truth, before, storage, segment + [slot], finalSlot)
  {
    var longer := segment + [slot];
    assert longer[..|longer| - 1] == segment;
    forall k | 0 < k < |longer|
      ensures IncompleteAfter(truth, before, storage, longer, finalSlot, k)
    {
      assert IncompleteAfter(truth, before, storage, segment, finalSlot, k);
      assert longer[..k] == segment[..k];
    }
  }

  lemma NotYet(truth: Truth, before: Index, storage: Storage, segment: seq<Slot>, finalSlot: Slot, now: Index)
    requires Sound(truth, before, storage) && forall s :: s in segment ==> s in storage
    requires now == Replayed(truth, before, storage, segment) && !CompleteIn(now, finalSlot)
    requires NotCompleteBefore(truth, before, storage, segment, finalSlot)
    ensures WalkedSo(truth, before, storage, segment, finalSlot, now)
  {
    forall k | 0 < k <= |segment|
      ensures IncompleteAfter(truth, before, storage, segment, finalSlot, k)
    {
      assert segment[..|segment|] == segment;
    }
  }
}
