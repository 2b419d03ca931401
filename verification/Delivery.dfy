/** From the sender's run to the receiver's buffer. */
module Delivery {
  import opened Wrappers
  import opened Types
  import opened Transmit
  import opened Steps
  import opened Tower
  import opened TowerSafety
  import opened TowerProgress
  import opened Reassembly
  import opened Ordered
  import opened TxIndex
  import opened TxParser
  import opened TxProperties
  import opened Replay
  import C = Chunks

  /** The pieces of a run, in sending order. */
  function PiecesSent(trace: seq<Event>): seq<Piece> {
    C.Concat(SentBatches(trace))
  }

  lemma CompletedSendsAll(rlp: seq<Byte>, keys: seq<Pubkey>, isAtomic: bool, world: nat -> Turn)
    requires RunOf(rlp, Compose(true, keys, isAtomic, 0), world).ending.Completed?
    ensures PiecesSent(RunOf(rlp, Compose(true, keys, isAtomic, 0), world).trace) == Pieces(rlp)
  {
    EveryRunSendsOnce(rlp, true, keys, isAtomic, 0, world);
    C.CutIsCut(Pieces(rlp), BATCH_LIMIT);
  }

  /** Numbers of the pieces in a list of arrivals. */
  lemma {:induction false} OrderOf(rlp: seq<Byte>, arrivals: seq<Piece>) returns (order: seq<nat>)
    requires forall p :: p in arrivals ==> p in Pieces(rlp)
    ensures forall k :: k in order ==> k < |Pieces(rlp)|
    ensures Arrivals(rlp, order) == arrivals
  {
    if arrivals == [] {
      order := [];
    } else {
      var rest := OrderOf(rlp, arrivals[1..]);
      assert arrivals[0] in Pieces(rlp);
      var k: nat :| k < |Pieces(rlp)| && Pieces(rlp)[k] == arrivals[0];
      order := [k] + rest;
      assert Arrivals(rlp, order)[1..] == Arrivals(rlp, rest);
      assert arrivals == [arrivals[0]] + arrivals[1..];
      assert Arrivals(rlp, order) == [arrivals[0]] + arrivals[1..];
    }
  }

  lemma AllNumbers(rlp: seq<Byte>, arrivals: seq<Piece>, order: seq<nat>, numbers: set<nat>)
    requires forall k :: k in order ==> k < |Pieces(rlp)|
    requires Arrivals(rlp, order) == arrivals && numbers == set k | k in order
    requires forall p :: p in Pieces(rlp) ==> p in arrivals
    ensures forall k: nat :: k < |Pieces(rlp)| ==> k in numbers
  {
    forall k: nat | k < |Pieces(rlp)|
      ensures k in numbers
    {
      assert Pieces(rlp)[k] in arrivals;
      var j :| 0 <= j < |arrivals| && arrivals[j] == Pieces(rlp)[k];
      assert order[j] in order;
      PieceAt(rlp, k);
      PieceAt(rlp, order[j]);
    }
  }

  /**
   End to end: when a holder run has completed, an indexer that sees the sent
   pieces, in any order and as often as forks repeat them, ends up with a
   complete transaction whose bytes are the RLP.
   */
  lemma Delivered(rlp: seq<Byte>, keys: seq<Pubkey>, isAtomic: bool, world: nat -> Turn, arrivals: seq<Piece>) returns (tx: EvmTx)
    requires rlp != []
    requires RunOf(rlp, Compose(true, keys, isAtomic, 0), world).ending.Completed?
    requires forall p :: p in arrivals <==> p in PiecesSent(RunOf(rlp, Compose(true, keys, isAtomic, 0), world).trace)
    ensures Receive(NEW_BIG_TX, arrivals) == Ok(tx)
    ensures DataComplete(tx) && tx.BigEvmTx? && tx.holderData == rlp
  {
    CompletedSendsAll(rlp, keys, isAtomic, world);
    var order := OrderOf(rlp, arrivals);
    var numbers: set<nat>;
    tx, numbers := CompleteIffInitialRun(rlp, order);
    AllNumbers(rlp, arrivals, order, numbers);
    assert numbers == Below(|Pieces(rlp)|);
  }

  /** And with a cooperating outside world that is what happens: the RLP arrives whole. */
  lemma WillingDelivery(rlp: seq<Byte>, keys: seq<Pubkey>, isAtomic: bool, world: nat -> Turn, arrivals: seq<Piece>) returns (tx: EvmTx)
    requires rlp != [] && WillingUntil(world, 0, ExecutionTurn(rlp, true, keys) + 1)
    requires !isAtomic ==> world(ExecutionTurn(rlp, true, keys)).reply.emulation != Accepted(None)
    requires forall p :: p in arrivals <==> p in PiecesSent(RunOf(rlp, Compose(true, keys, isAtomic, 0), world).trace)
    ensures Receive(NEW_BIG_TX, arrivals) == Ok(tx)
    ensures DataComplete(tx) && tx.BigEvmTx? && tx.holderData == rlp
  {
    WillingRunCompletes(rlp, true, keys, isAtomic, 0, world);
    tx := Delivered(rlp, keys, isAtomic, world, arrivals);
  }

  // ------------------------------------------------------- through the parser

  /** One of the blocks holds this piece of the transaction. */
  ghost predicate Carried(storage: Storage, slots: seq<Slot>, h: H256, piece: Piece) {
    exists s, i :: s in slots && s in storage && h in storage[s].txs && i in storage[s].txs[h] && storage[s].txs[h][i] == TransmitTx(piece)
  }

  lemma CarriedOffset(storage: Storage, slots: seq<Slot>, h: H256, piece: Piece)
    requires Carried(storage, slots, h, piece)
    ensures piece.offset in OffsetsIn(storage, Members(slots), h) && Touches(storage, Members(slots), h)
  {
    var s, i :| s in slots && s in storage && h in storage[s].txs && i in storage[s].txs[h] && storage[s].txs[h][i] == TransmitTx(piece);
    assert s in Members(slots) && storage[s].txs[h][i].piece.offset == piece.offset;
    assert h in WithSteps(storage[s].txs);
  }

  lemma WholeRlp(rlp: seq<Byte>, arrived: set<nat>)
    requires rlp != [] && LayoutOf(rlp).Valid() && arrived <= LayoutOf(rlp).lengths.Keys
    requires forall k: nat :: k < |Pieces(rlp)| ==> At(k) in arrived
    ensures DataComplete(Denote(LayoutOf(rlp), arrived)) && Denote(LayoutOf(rlp), arrived).holderData == rlp
  {
    hide DataComplete, Pieces, Image, Denote;
    var n := |Pieces(rlp)|;
    assert arrived == Starts(Below(n));
    PieceCount(rlp);
    InitialRunPrefix(rlp, n);
    PieceAt(rlp, n - 1);
    DenotedImage(LayoutOf(rlp), arrived);
    assert rlp[..|rlp|] == rlp;
  }

  lemma DenotedImage(l: Layout, arrived: set<nat>)
    requires l.Valid() && arrived <= l.lengths.Keys
    ensures Denote(l, arrived).BigEvmTx? && Denote(l, arrived).holderData == Image(l, arrived)
  {
  }

  /** Registering blocks that carry all pieces leaves the whole RLP in the index. */
  lemma RegisteredWhole(rlp: seq<Byte>, truth: Truth, before: Index, storage: Storage, slots: seq<Slot>, now: Index, h: H256)
    requires rlp != [] && truth(h) == HolderContent(LayoutOf(rlp))
    requires Sound(truth, before, storage) && forall s :: s in slots ==> s in storage
    requires now == Replayed(truth, before, storage, slots)
    requires forall p :: p in Pieces(rlp) ==> Carried(storage, slots, h, p)
    ensures h in now.transactions && now.transactions[h].BigEvmTx? && now.transactions[h].holderData == rlp
    ensures DataComplete(now.transactions[h])
  {
    hide DataComplete, Pieces, Denote, Sound, Replayed, Touches, OffsetsIn, Carried;
    LayoutSlices(rlp);
    PieceCount(rlp);
    var offsets := OffsetsIn(storage, Members(slots), h);
    forall k: nat | k < |Pieces(rlp)|
      ensures At(k) in offsets && Touches(storage, Members(slots), h)
    {
      CarriedOffset(storage, slots, h, Pieces(rlp)[k]);
    }
    assert Pieces(rlp)[0] in Pieces(rlp);
    CarriedOffset(storage, slots, h, Pieces(rlp)[0]);
    ReplayedTx(truth, before, storage, slots, h);
    var arrived := ArrivedOf(Lookup(before.transactions, h)) + offsets;
    WholeRlp(rlp, arrived);
    DenotedImage(LayoutOf(rlp), arrived);
  }

  /** The results that the slot's own block reports for the hash are the ones in the index. */
  lemma RegisteredResults(truth: Truth, before: Index, storage: Storage, slots: seq<Slot>, now: Index, slot: Slot, h: H256)
    requires Sound(truth, before, storage) && forall s :: s in slots ==> s in storage
    requires now == Replayed(truth, before, storage, slots)
    requires slot in slots
    ensures h in WithSteps(storage[slot].txs) ==>
              && h in SlotResultsAt(now.results, slot)
              && forall i :: Lookup(SlotResultsAt(now.results, slot)[h], i) == NewOutcome(storage[slot].txs, h, i)
  {
    hide Sound, Replayed;
    ReplayedResults(truth, before, storage, slots, slot);
    forall i: nat
      ensures h in storage[slot].txs ==> Lookup(Outcomes(storage[slot].txs[h]), i) == NewOutcome(storage[slot].txs, h, i)
    {
      OutcomesReported(storage[slot].txs, h, i);
    }
  }

  /**
   From the sender to the finalized list. A completed holder run has sent the
   pieces of the RLP. Suppose the blocks that a parse registers carry them, and
   the parsed slot has a result of the transaction. Then any list finalized from
   the resulting index (`BlockParser.Parse` ensures both) holds the decoded RLP
   with that result, which is the one the slot's own block reports, unless
   another transaction has its first result at the same index.
   */
  lemma DeliveredToList(rlp: seq<Byte>, keys: seq<Pubkey>, isAtomic: bool, world: nat -> Turn, h: H256,
                        truth: Truth, before: Index, storage: Storage, slots: seq<Slot>, now: Index,
                        decode: seq<Byte> -> Option<Transaction>, finalSlot: Slot, list: seq<(Transaction, TxResult)>, i: nat)
    requires rlp != [] && truth(h) == HolderContent(LayoutOf(rlp))
    requires RunOf(rlp, Compose(true, keys, isAtomic, 0), world).ending.Completed?
    requires Sound(truth, before, storage) && forall s :: s in slots ==> s in storage
    requires now == Replayed(truth, before, storage, slots)
    requires IsFinalized(decode, now.transactions, SlotResultsAt(now.results, finalSlot), list)
    requires forall p :: p in PiecesSent(RunOf(rlp, Compose(true, keys, isAtomic, 0), world).trace) ==> Carried(storage, slots, h, p)
    requires finalSlot in slots
    requires var slotResults := SlotResultsAt(now.results, finalSlot);
             h in slotResults && IsFirstResult(slotResults[h], i) && OnlyFirstAt(slotResults, h, i)
    ensures decode(rlp).Some? && (decode(rlp).value, SlotResultsAt(now.results, finalSlot)[h][i].value) in list
    ensures h in WithSteps(storage[finalSlot].txs) ==>
              Some(SlotResultsAt(now.results, finalSlot)[h][i]) == NewOutcome(storage[finalSlot].txs, h, i)
  {
    hide DataComplete, Sound, Replayed, IsFinalized, Carried, NewOutcome, WithSteps, PiecesSent, RunFrom, Compose, LayoutOf, Pieces;
    CompletedSendsAll(rlp, keys, isAtomic, world);
    RegisteredWhole(rlp, truth, before, storage, slots, now, h);
    RegisteredResults(truth, before, storage, slots, now, finalSlot, h);
    assert Lookup(SlotResultsAt(now.results, finalSlot)[h], i) == Some(SlotResultsAt(now.results, finalSlot)[h][i]);
    ListedAlone(decode, now.transactions, SlotResultsAt(now.results, finalSlot), list, h, i);
  }
}
