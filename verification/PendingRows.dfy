/**
 `get_pending_blocks`: folding the rows of the pending view, which come in no
 particular order, into the parameters for block production.
 */
module PendingRows {
  import opened Wrappers
  import opened Types
  import opened BlockIds
  import opened Blocks

  /** A row of `pending_transactions_with_slot_statuses2`. */
  datatype PendingTx = PendingTx(
    id: BlockId,
    txIdx: nat,
    finalized: bool,
    slotBlockhash: H256,
    slotTimestamp: Option<nat>,
    gasRecipient: Option<nat>,
    ethBlockhash: Option<H256>,
    rlp: seq<Byte>,
    txResult: TxResult)

  /** Decoding of the stored bytes of a transaction. */
  type Decoder = seq<Byte> -> Option<Transaction>

  datatype Loaded = Loaded(pending: PendingSlots, parentHash: Option<H256>, finalizedBlock: Option<FinalizedBlock>)

  /** Decoding errors and the panics on corrupt data. */
  datatype LoadError = Corrupted

  // ------------------------------------------------------- what rows must agree on

  predicate Agree(a: PendingTx, b: PendingTx) {
    && (a.id.slot == b.id.slot ==> a.slotBlockhash == b.slotBlockhash && a.slotTimestamp == b.slotTimestamp && a.finalized == b.finalized)
    && (a.id == b.id ==> a.gasRecipient == b.gasRecipient && a.ethBlockhash == b.ethBlockhash)
    && (a.id == b.id && a.txIdx == b.txIdx ==> a == b)
  }

  /** Columns of one slot or block repeat in all its rows, and no transaction is listed twice. */
  ghost predicate Consistent(rows: seq<PendingTx>) {
    && (forall i, j :: 0 <= i < |rows| && 0 <= j < |rows| ==> Agree(rows[i], rows[j]))
    && (forall i, j :: 0 <= i < j < |rows| ==> rows[i] != rows[j])
  }

  // ----------------------------------------------------------- looking things up

  function HeaderAt(slots: PendingSlots, s: Slot): Option<(H256, nat)> {
    if s in slots then Some((slots[s].blockhash, slots[s].timestamp)) else None
  }

  function RecipientAt(slots: PendingSlots, id: BlockId): Option<Option<nat>> {
    if Contains(slots, id) then Some(slots[id.slot].l2Blocks[id.idx].gasRecipient) else None
  }

  function TxAt(slots: PendingSlots, id: BlockId, txIdx: nat): Option<(Transaction, TxResult)> {
    if Contains(slots, id) && txIdx in slots[id.slot].l2Blocks[id.idx].transactions
    then Some(slots[id.slot].l2Blocks[id.idx].transactions[txIdx])
    else None
  }

  /** Pending blocks with the same lookups are the same. */
  lemma SamePending(a: PendingSlots, b: PendingSlots)
    requires forall s :: HeaderAt(a, s) == HeaderAt(b, s)
    requires forall id :: RecipientAt(a, id) == RecipientAt(b, id)
    requires forall id, i :: TxAt(a, id, i) == TxAt(b, id, i)
    ensures a == b
  {
    forall s
      ensures s in a <==> s in b
    {
      assert HeaderAt(a, s) == HeaderAt(b, s);
    }
    forall s | s in a
      ensures a[s] == b[s]
    {
      assert HeaderAt(a, s) == HeaderAt(b, s);
      forall i
        ensures i in a[s].l2Blocks <==> i in b[s].l2Blocks
        ensures i in a[s].l2Blocks ==> a[s].l2Blocks[i] == b[s].l2Blocks[i]
      {
        SameBlock(a, b, BlockId(s, i));
      }
      assert a[s].l2Blocks == b[s].l2Blocks;
    }
  }

  lemma SameBlock(a: PendingSlots, b: PendingSlots, id: BlockId)
    requires RecipientAt(a, id) == RecipientAt(b, id)
    requires forall i :: TxAt(a, id, i) == TxAt(b, id, i)
    ensures Contains(a, id) <==> Contains(b, id)
    ensures Contains(a, id) ==> a[id.slot].l2Blocks[id.idx] == b[id.slot].l2Blocks[id.idx]
  {
    if Contains(a, id) {
      var x, y := a[id.slot].l2Blocks[id.idx].transactions, b[id.slot].l2Blocks[id.idx].transactions;
      forall i
        ensures i in x <==> i in y
        ensures i in x ==> x[i] == y[i]
      {
        assert TxAt(a, id, i) == TxAt(b, id, i);
      }
      assert x == y;
    }
  }

  // ------------------------------------------------------ what the rows amount to

  predicate Usable(decode: Decoder, row: PendingTx) {
    row.ethBlockhash.Some? || (row.slotTimestamp.Some? && decode(row.rlp).Some?)
  }

  ghost predicate IsPendingRow(rows: set<PendingTx>, row: PendingTx) {
    row in rows && row.ethBlockhash.None?
  }

  /** The pending blocks hold what the rows without a block hash say, and nothing else. */
  ghost predicate Describes(rows: set<PendingTx>, decode: Decoder, slots: PendingSlots) {
    && (forall row :: IsPendingRow(rows, row) ==> RowIn(decode, slots, row))
    && (forall s :: HeaderAt(slots, s).Some? ==> exists row :: IsPendingRow(rows, row) && row.id.slot == s)
    && (forall id :: RecipientAt(slots, id).Some? ==> exists row :: IsPendingRow(rows, row) && row.id == id)
    && (forall id, i :: TxAt(slots, id, i).Some? ==> exists row :: IsPendingRow(rows, row) && row.id == id && row.txIdx == i)
  }

  predicate RowIn(decode: Decoder, slots: PendingSlots, row: PendingTx) {
    && Usable(decode, row) && row.slotTimestamp.Some? && decode(row.rlp).Some?
    && HeaderAt(slots, row.id.slot) == Some((row.slotBlockhash, row.slotTimestamp.value))
    && RecipientAt(slots, row.id) == Some(row.gasRecipient)
    && TxAt(slots, row.id, row.txIdx) == Some((decode(row.rlp).value, row.txResult))
  }

  lemma DescribesUnique(rows: set<PendingTx>, decode: Decoder, a: PendingSlots, b: PendingSlots)
    requires Describes(rows, decode, a) && Describes(rows, decode, b)
    ensures a == b
  {
    forall s
      ensures HeaderAt(a, s) == HeaderAt(b, s)
    {
      HeadersMatch(rows, decode, a, b, s);
      HeadersMatch(rows, decode, b, a, s);
    }
    forall id
      ensures RecipientAt(a, id) == RecipientAt(b, id)
    {
      RecipientsMatch(rows, decode, a, b, id);
      RecipientsMatch(rows, decode, b, a, id);
    }
    forall id, i
      ensures TxAt(a, id, i) == TxAt(b, id, i)
    {
      TxLookupsMatch(rows, decode, a, b, id, i);
      TxLookupsMatch(rows, decode, b, a, id, i);
    }
    SamePending(a, b);
  }

  lemma HeadersMatch(rows: set<PendingTx>, decode: Decoder, a: PendingSlots, b: PendingSlots, s: Slot)
    requires Describes(rows, decode, a) && Describes(rows, decode, b)
    ensures HeaderAt(a, s).Some? ==> HeaderAt(b, s) == HeaderAt(a, s)
  {
    if HeaderAt(a, s).Some? {
      var row :| IsPendingRow(rows, row) && row.id.slot == s;
      assert RowIn(decode, a, row) && RowIn(decode, b, row);
    }
  }

  lemma RecipientsMatch(rows: set<PendingTx>, decode: Decoder, a: PendingSlots, b: PendingSlots, id: BlockId)
    requires Describes(rows, decode, a) && Describes(rows, decode, b)
    ensures RecipientAt(a, id).Some? ==> RecipientAt(b, id) == RecipientAt(a, id)
  {
    if RecipientAt(a, id).Some? {
      var row :| IsPendingRow(rows, row) && row.id == id;
      assert RowIn(decode, a, row) && RowIn(decode, b, row);
    }
  }

  lemma TxLookupsMatch(rows: set<PendingTx>, decode: Decoder, a: PendingSlots, b: PendingSlots, id: BlockId, i: nat)
    requires Describes(rows, decode, a) && Describes(rows, decode, b)
    ensures TxAt(a, id, i).Some? ==> TxAt(b, id, i) == TxAt(a, id, i)
  {
    if TxAt(a, id, i).Some? {
      var row :| IsPendingRow(rows, row) && row.id == id && row.txIdx == i;
      assert RowIn(decode, a, row) && RowIn(decode, b, row);
    }
  }

  predicate HasHash(row: PendingTx) {
    row.ethBlockhash.Some?
  }

  predicate OfFinalized(row: PendingTx) {
    row.finalized
  }

  /** The block hash column, one entry per block, of the rows that satisfy a condition. */
  ghost predicate Collected(rows: set<PendingTx>, taken: PendingTx -> bool, m: map<BlockId, Option<H256>>) {
    && (forall row :: row in rows && taken(row) ==> row.id in m && m[row.id] == row.ethBlockhash)
    && (forall id :: id in m ==> exists row :: row in rows && taken(row) && row.id == id)
  }

  lemma CollectedUnique(rows: set<PendingTx>, taken: PendingTx -> bool, a: map<BlockId, Option<H256>>, b: map<BlockId, Option<H256>>)
    requires Collected(rows, taken, a) && Collected(rows, taken, b)
    ensures a == b
  {
    forall id | id in a
      ensures id in b && b[id] == a[id]
    {
      var row :| row in rows && taken(row) && row.id == id;
    }
    forall id | id in b
      ensures id in a
    {
      var row :| row in rows && taken(row) && row.id == id;
    }
  }

  ghost predicate Greatest(ids: set<BlockId>, id: BlockId) {
    id in ids && forall other :: other in ids ==> other == id || Before(other, id)
  }

  /** `last_entry` of an ordered map. */
  method LastId(ids: set<BlockId>) returns (last: Option<BlockId>)
    ensures last.None? <==> ids == {}
    ensures last.Some? ==> Greatest(ids, last.value)
  {
    last := None;
    var rest := ids;
    ghost var visited: set<BlockId> := {};
    while rest != {}
      invariant visited + rest == ids
      invariant last.None? <==> visited == {}
      invariant last.Some? ==> Greatest(visited, last.value)
      decreases |rest|
    {
      var id :| id in rest;
      if last.None? || Before(last.value, id) {
        last := Some(id);
      }
      visited := visited + {id};
      rest := rest - {id};
    }
    assert visited == ids;
  }

  /** The hash of the greatest produced block. */
  ghost predicate ParentIs(produced: map<BlockId, Option<H256>>, parentHash: Option<H256>) {
    && (produced == map[] ==> parentHash == None)
    && (forall id :: Greatest(produced.Keys, id) ==> parentHash == produced[id])
  }

  /** The greatest finalized block, by its hash if it has one. */
  ghost predicate FinalizedBlockIs(finalized: map<BlockId, Option<H256>>, finalizedBlock: Option<FinalizedBlock>) {
    && (finalized == map[] ==> finalizedBlock == None)
    && (forall id :: Greatest(finalized.Keys, id) ==>
          finalizedBlock == Some(if finalized[id].Some? then FinalizedProduced(finalized[id].value) else FinalizedPending(id)))
  }

  lemma {:induction false} GreatestExists(ids: set<BlockId>) returns (last: BlockId)
    requires ids != {}
    ensures Greatest(ids, last)
  {
    var id :| id in ids;
    if ids == {id} {
      last := id;
    } else {
      var rest := ids - {id};
      last := GreatestExists(rest);
      if Before(last, id) {
        last := id;
      }
      assert forall other :: other in ids ==> other == id || other in rest;
    }
  }

  /** What loading a set of rows must give; nothing is said about their order. */
  ghost predicate Outcome(rows: set<PendingTx>, decode: Decoder, r: Result<Option<Loaded>, LoadError>) {
    && (r.Err? <==> exists row :: row in rows && !Usable(decode, row))
    && (r.Ok? ==> (r.value.None? <==> forall row :: row in rows ==> row.ethBlockhash.Some?))
    && (r.Ok? && r.value.Some? ==>
          && Describes(rows, decode, r.value.value.pending)
          && (exists produced :: Collected(rows, HasHash, produced) && ParentIs(produced, r.value.value.parentHash))
          && (exists finalized :: Collected(rows, OfFinalized, finalized) && FinalizedBlockIs(finalized, r.value.value.finalizedBlock)))
  }

  lemma OutcomeUnique(rows: set<PendingTx>, decode: Decoder, a: Result<Option<Loaded>, LoadError>, b: Result<Option<Loaded>, LoadError>)
    requires Outcome(rows, decode, a) && Outcome(rows, decode, b)
    ensures a == b
  {
    hide Describes, Collected, ParentIs, FinalizedBlockIs, Usable;
    assert a.Err? <==> b.Err?;
    if a.Err? {
      assert a.error == Corrupted && b.error == Corrupted;
    } else if a.value.None? {
      assert b.value.None?;
    } else {
      assert b.value.Some?;
      var x, y := a.value.value, b.value.value;
      DescribesUnique(rows, decode, x.pending, y.pending);
      ParentUnique(rows, x.parentHash, y.parentHash);
      FinalizedBlockUnique(rows, x.finalizedBlock, y.finalizedBlock);
    }
  }

  lemma ParentUnique(rows: set<PendingTx>, a: Option<H256>, b: Option<H256>)
    requires exists produced :: Collected(rows, HasHash, produced) && ParentIs(produced, a)
    requires exists produced :: Collected(rows, HasHash, produced) && ParentIs(produced, b)
    ensures a == b
  {
    hide Collected, Greatest;
    var x :| Collected(rows, HasHash, x) && ParentIs(x, a);
    var y :| Collected(rows, HasHash, y) && ParentIs(y, b);
    CollectedUnique(rows, HasHash, x, y);
    if x != map[] {
      var id := GreatestExists(x.Keys);
    }
  }

  lemma FinalizedBlockUnique(rows: set<PendingTx>, a: Option<FinalizedBlock>, b: Option<FinalizedBlock>)
    requires exists finalized :: Collected(rows, OfFinalized, finalized) && FinalizedBlockIs(finalized, a)
    requires exists finalized :: Collected(rows, OfFinalized, finalized) && FinalizedBlockIs(finalized, b)
    ensures a == b
  {
    hide Collected, Greatest;
    var x :| Collected(rows, OfFinalized, x) && FinalizedBlockIs(x, a);
    var y :| Collected(rows, OfFinalized, y) && FinalizedBlockIs(y, b);
    CollectedUnique(rows, OfFinalized, x, y);
    if x != map[] {
      var id := GreatestExists(x.Keys);
    }
  }

  // -------------------------------------------------------------- folding the rows

  /** `append_pending_tx` into the entries of the row's slot and block. */
  function WithTx(slots: PendingSlots, row: PendingTx, tx: Transaction): PendingSlots
    requires row.slotTimestamp.Some?
  {
    var l1 := if row.id.slot in slots then slots[row.id.slot] else PendingL1Block(row.slotBlockhash, row.slotTimestamp.value, map[]);
    var l2 := if row.id.idx in l1.l2Blocks then l1.l2Blocks[row.id.idx] else PendingL2Block(map[], row.gasRecipient);
    var block := PendingL2Block(l2.transactions[row.txIdx := (tx, row.txResult)], l2.gasRecipient);
    slots[row.id.slot := PendingL1Block(l1.blockhash, l1.timestamp, l1.l2Blocks[row.id.idx := block])]
  }

  lemma WithTxTxAt(slots: PendingSlots, row: PendingTx, tx: Transaction, id: BlockId, i: nat)
    requires row.slotTimestamp.Some?
    ensures TxAt(WithTx(slots, row, tx), id, i) ==
              (if id == row.id && i == row.txIdx then Some((tx, row.txResult)) else TxAt(slots, id, i))
  {
    var more := WithTx(slots, row, tx);
    if id.slot == row.id.slot {
      var l1 := if id.slot in slots then slots[id.slot] else PendingL1Block(row.slotBlockhash, row.slotTimestamp.value, map[]);
      assert id.idx in more[id.slot].l2Blocks <==> id.idx == row.id.idx || id.idx in l1.l2Blocks;
      if id.idx == row.id.idx {
        var l2 := if row.id.idx in l1.l2Blocks then l1.l2Blocks[row.id.idx] else PendingL2Block(map[], row.gasRecipient);
        assert more[id.slot].l2Blocks[id.idx].transactions == l2.transactions[row.txIdx := (tx, row.txResult)];
        assert id == row.id;
      } else {
        assert id.idx in l1.l2Blocks ==> more[id.slot].l2Blocks[id.idx] == l1.l2Blocks[id.idx];
      }
    }
  }

  lemma WithTxLookups(slots: PendingSlots, row: PendingTx, tx: Transaction, more: PendingSlots)
    requires row.slotTimestamp.Some? && more == WithTx(slots, row, tx)
    ensures forall s :: HeaderAt(more, s) ==
              (if s == row.id.slot && HeaderAt(slots, s).None? then Some((row.slotBlockhash, row.slotTimestamp.value)) else HeaderAt(slots, s))
    ensures forall id :: RecipientAt(more, id) ==
              (if id == row.id && RecipientAt(slots, id).None? then Some(row.gasRecipient) else RecipientAt(slots, id))
    ensures forall id, i :: TxAt(more, id, i) ==
              (if id == row.id && i == row.txIdx then Some((tx, row.txResult)) else TxAt(slots, id, i))
  {
    hide TxAt;
    forall id, i: nat
      ensures TxAt(more, id, i) == (if id == row.id && i == row.txIdx then Some((tx, row.txResult)) else TxAt(slots, id, i))
    {
      WithTxTxAt(slots, row, tx, id, i);
    }
  }

  /** Rows loaded so far, each usable, and the next one fitting in. */
  ghost predicate Fits(rows: set<PendingTx>, row: PendingTx) {
    row !in rows && forall other :: other in rows ==> Agree(other, row)
  }

  lemma FitsPlace(rows: set<PendingTx>, decode: Decoder, slots: PendingSlots, row: PendingTx)
    requires Describes(rows, decode, slots) && Fits(rows, row)
    ensures TxAt(slots, row.id, row.txIdx).None?
  {
    hide TxAt, HeaderAt, RecipientAt, RowIn;
    assert forall other :: IsPendingRow(rows, other) && other.id == row.id && other.txIdx == row.txIdx ==> Agree(other, row);
  }

  lemma FitsHeader(rows: set<PendingTx>, decode: Decoder, slots: PendingSlots, row: PendingTx)
    requires Describes(rows, decode, slots) && Fits(rows, row) && HeaderAt(slots, row.id.slot).Some?
    ensures row.slotTimestamp.Some? && HeaderAt(slots, row.id.slot) == Some((row.slotBlockhash, row.slotTimestamp.value))
  {
    hide TxAt, HeaderAt, RecipientAt;
    var other :| IsPendingRow(rows, other) && other.id.slot == row.id.slot;
    assert RowIn(decode, slots, other) && Agree(other, row);
  }

  lemma FitsRecipient(rows: set<PendingTx>, decode: Decoder, slots: PendingSlots, row: PendingTx)
    requires Describes(rows, decode, slots) && Fits(rows, row) && RecipientAt(slots, row.id).Some?
    ensures RecipientAt(slots, row.id) == Some(row.gasRecipient)
  {
    hide TxAt, HeaderAt, RecipientAt;
    var other :| IsPendingRow(rows, other) && other.id == row.id;
    assert RowIn(decode, slots, other) && Agree(other, row);
  }

  /** A row that fits finds its own header and recipient, if any, and a vacant place. */
  lemma FitsVacant(rows: set<PendingTx>, decode: Decoder, slots: PendingSlots, row: PendingTx)
    requires Describes(rows, decode, slots) && Fits(rows, row)
    ensures TxAt(slots, row.id, row.txIdx).None?
    ensures HeaderAt(slots, row.id.slot).Some? ==>
              row.slotTimestamp.Some? && HeaderAt(slots, row.id.slot) == Some((row.slotBlockhash, row.slotTimestamp.value))
    ensures RecipientAt(slots, row.id).Some? ==> RecipientAt(slots, row.id) == Some(row.gasRecipient)
  {
    hide TxAt, HeaderAt, RecipientAt, Describes, Fits;
    FitsPlace(rows, decode, slots, row);
    if HeaderAt(slots, row.id.slot).Some? {
      FitsHeader(rows, decode, slots, row);
    }
    if RecipientAt(slots, row.id).Some? {
      FitsRecipient(rows, decode, slots, row);
    }
  }

  /** A row loaded before is still there. */
  lemma RowKept(decode: Decoder, slots: PendingSlots, row: PendingTx, other: PendingTx, more: PendingSlots)
    requires row.slotTimestamp.Some? && decode(row.rlp).Some? && more == WithTx(slots, row, decode(row.rlp).value)
    requires RowIn(decode, slots, other) && Agree(other, row) && other != row
    ensures RowIn(decode, more, other)
  {
    hide HeaderAt, RecipientAt, TxAt, WithTx;
    WithTxLookups(slots, row, decode(row.rlp).value, more);
  }

  /** The row itself is there. */
  lemma RowAdded(rows: set<PendingTx>, decode: Decoder, slots: PendingSlots, row: PendingTx, more: PendingSlots)
    requires Describes(rows, decode, slots) && Fits(rows, row)
    requires row.slotTimestamp.Some? && decode(row.rlp).Some? && more == WithTx(slots, row, decode(row.rlp).value)
    ensures RowIn(decode, more, row)
  {
    hide HeaderAt, RecipientAt, TxAt, WithTx, Describes, Fits;
    FitsVacant(rows, decode, slots, row);
    WithTxLookups(slots, row, decode(row.rlp).value, more);
  }

  /** Nothing else has come in. */
  lemma OnlyRowAdded(rows: set<PendingTx>, decode: Decoder, slots: PendingSlots, row: PendingTx, more: PendingSlots, all: set<PendingTx>)
    requires Describes(rows, decode, slots) && row.ethBlockhash.None? && row.slotTimestamp.Some? && decode(row.rlp).Some?
    requires more == WithTx(slots, row, decode(row.rlp).value) && all == rows + {row}
    ensures forall s :: HeaderAt(more, s).Some? ==> exists r :: IsPendingRow(all, r) && r.id.slot == s
    ensures forall id :: RecipientAt(more, id).Some? ==> exists r :: IsPendingRow(all, r) && r.id == id
    ensures forall id, i :: TxAt(more, id, i).Some? ==> exists r :: IsPendingRow(all, r) && r.id == id && r.txIdx == i
  {
    hide HeaderAt, RecipientAt, TxAt, WithTx, RowIn;
    WithTxLookups(slots, row, decode(row.rlp).value, more);
    assert IsPendingRow(all, row);
    forall s | HeaderAt(more, s).Some?
      ensures exists r :: IsPendingRow(all, r) && r.id.slot == s
    {
      if HeaderAt(slots, s).Some? {
        var r :| IsPendingRow(rows, r) && r.id.slot == s;
        assert IsPendingRow(all, r);
      }
    }
    forall id | RecipientAt(more, id).Some?
      ensures exists r :: IsPendingRow(all, r) && r.id == id
    {
      if RecipientAt(slots, id).Some? {
        var r :| IsPendingRow(rows, r) && r.id == id;
        assert IsPendingRow(all, r);
      }
    }
    forall id, i | TxAt(more, id, i).Some?
      ensures exists r :: IsPendingRow(all, r) && r.id == id && r.txIdx == i
    {
      if TxAt(slots, id, i).Some? {
        var r :| IsPendingRow(rows, r) && r.id == id && r.txIdx == i;
        assert IsPendingRow(all, r);
      }
    }
  }

  lemma AppendDescribes(rows: set<PendingTx>, decode: Decoder, slots: PendingSlots, row: PendingTx, more: PendingSlots)
    requires Describes(rows, decode, slots) && Fits(rows, row)
    requires row.ethBlockhash.None? && row.slotTimestamp.Some? && decode(row.rlp).Some?
    requires more == WithTx(slots, row, decode(row.rlp).value)
    ensures Describes(rows + {row}, decode, more)
  {
    hide HeaderAt, RecipientAt, TxAt, WithTx, RowIn, Agree;
    RowAdded(rows, decode, slots, row, more);
    OnlyRowAdded(rows, decode, slots, row, more, rows + {row});
    forall r | IsPendingRow(rows + {row}, r)
      ensures RowIn(decode, more, r)
    {
      if r != row {
        assert IsPendingRow(rows, r);
        RowKept(decode, slots, row, r, more);
      }
    }
  }

  lemma ProducedDescribes(rows: set<PendingTx>, decode: Decoder, slots: PendingSlots, row: PendingTx)
    requires Describes(rows, decode, slots) && row.ethBlockhash.Some?
    ensures Describes(rows + {row}, decode, slots)
  {
    hide HeaderAt, RecipientAt, TxAt;
    assert forall r :: IsPendingRow(rows + {row}, r) <==> IsPendingRow(rows, r);
  }

  lemma CollectMore(rows: set<PendingTx>, taken: PendingTx -> bool, m: map<BlockId, Option<H256>>, row: PendingTx)
    requires Collected(rows, taken, m) && Fits(rows, row)
    ensures Collected(rows + {row}, taken, if taken(row) && row.id !in m then m[row.id := row.ethBlockhash] else m)
  {
    var more := if taken(row) && row.id !in m then m[row.id := row.ethBlockhash] else m;
    if taken(row) && row.id in m {
      var other :| other in rows && taken(other) && other.id == row.id;
      assert Agree(other, row);
    }
    forall id | id in more
      ensures exists r :: r in rows + {row} && taken(r) && r.id == id
    {
      if id in m {
        var r :| r in rows && taken(r) && r.id == id;
        assert r in rows + {row};
      } else {
        assert row in rows + {row};
      }
    }
  }

  /** The three maps after some of the rows. */
  ghost predicate LoadedSo(rows: set<PendingTx>, decode: Decoder, slots: PendingSlots,
                           produced: map<BlockId, Option<H256>>, finalized: map<BlockId, Option<H256>>)
  {
    Describes(rows, decode, slots) && Collected(rows, HasHash, produced) && Collected(rows, OfFinalized, finalized)
  }

  ghost function RowSet(rows: seq<PendingTx>): set<PendingTx> {
    set row | row in rows
  }

  lemma NextFits(rows: seq<PendingTx>, n: nat)
    requires Consistent(rows) && n < |rows|
    ensures Fits(RowSet(rows[..n]), rows[n])
    ensures RowSet(rows[..n + 1]) == RowSet(rows[..n]) + {rows[n]}
    ensures rows[n] in RowSet(rows)
  {
    assert rows[..n + 1] == rows[..n] + [rows[n]];
  }

  lemma AllUsable(rows: set<PendingTx>, decode: Decoder, slots: PendingSlots)
    requires Describes(rows, decode, slots)
    ensures forall row :: row in rows ==> Usable(decode, row)
    ensures slots == map[] <==> forall row :: row in rows ==> HasHash(row)
  {
    forall row | row in rows
      ensures Usable(decode, row)
      ensures row.ethBlockhash.None? ==> slots != map[]
    {
      if row.ethBlockhash.None? {
        assert IsPendingRow(rows, row) && RowIn(decode, slots, row);
      }
    }
    if slots != map[] {
      var s :| s in slots;
      assert HeaderAt(slots, s).Some?;
      var row :| IsPendingRow(rows, row) && row.id.slot == s;
    }
  }

  /** The loaded pending blocks have no empty slot entry. */
  lemma LoadedHasNoEmptySlot(rows: set<PendingTx>, decode: Decoder, slots: PendingSlots)
    requires Describes(rows, decode, slots)
    ensures NoEmptySlot(slots)
  {
    forall s | s in slots
      ensures slots[s].l2Blocks != map[]
    {
      assert HeaderAt(slots, s).Some?;
      var row :| IsPendingRow(rows, row) && row.id.slot == s;
      assert RowIn(decode, slots, row);
      assert row.id.idx in slots[s].l2Blocks;
    }
  }

  /** The fold of `get_pending_blocks`; on consistent rows its result depends only on which rows there are. */
  method GetPendingBlocks(rows: seq<PendingTx>, decode: Decoder) returns (r: Result<Option<Loaded>, LoadError>)
    ensures Consistent(rows) ==> Outcome(RowSet(rows), decode, r)
  {
    hide Describes, Collected, Consistent, Fits, Usable, RowIn, WithTx;
    var slots: PendingSlots := map[];
    var produced: map<BlockId, Option<H256>> := map[];
    var finalized: map<BlockId, Option<H256>> := map[];
    NothingLoaded(decode);
    assert rows[..0] == [];
    for n := 0 to |rows|
      invariant Consistent(rows) ==> LoadedSo(RowSet(rows[..n]), decode, slots, produced, finalized)
    {
      var row := rows[n];
      ghost var done := RowSet(rows[..n]);
      if Consistent(rows) {
        NextFits(rows, n);
        FitsVacant(done, decode, slots, row);
        CollectMore(done, OfFinalized, finalized, row);
        CollectMore(done, HasHash, produced, row);
        UnusableRow(rows, n, decode);
      }
      if row.finalized && row.id !in finalized {
        finalized := finalized[row.id := row.ethBlockhash];
      }
      if row.ethBlockhash.Some? {
        if row.id !in produced {
          produced := produced[row.id := row.ethBlockhash];
        }
        if Consistent(rows) {
          ProducedDescribes(done, decode, slots, row);
        }
      } else {
        if row.slotTimestamp.None? || TxAt(slots, row.id, row.txIdx).Some? || decode(row.rlp).None? {
          return Err(Corrupted);
        }
        ghost var before := slots;
        slots := WithTx(slots, row, decode(row.rlp).value);
        if Consistent(rows) {
          AppendDescribes(done, decode, before, row, slots);
        }
      }
    }
    assert rows[..|rows|] == rows;
    if Consistent(rows) {
      AllUsable(RowSet(rows), decode, slots);
    }
    if slots == map[] {
      return Ok(None);
    }
    var lastProduced := LastId(produced.Keys);
    var lastFinalized := LastId(finalized.Keys);
    var parentHash := if lastProduced.Some? then produced[lastProduced.value] else None;
    var finalizedBlock := if lastFinalized.None? then None
                    else if finalized[lastFinalized.value].Some? then Some(FinalizedProduced(finalized[lastFinalized.value].value))
                    else Some(FinalizedPending(lastFinalized.value));
    OnlyGreatest(produced.Keys, lastProduced);
    OnlyGreatest(finalized.Keys, lastFinalized);
    assert ParentIs(produced, parentHash) && FinalizedBlockIs(finalized, finalizedBlock);
    r := Ok(Some(Loaded(slots, parentHash, finalizedBlock)));
  }

  lemma NothingLoaded(decode: Decoder)
    ensures LoadedSo(RowSet([]), decode, map[], map[], map[])
  {
  }

  lemma OnlyGreatest(ids: set<BlockId>, last: Option<BlockId>)
    requires last.Some? ==> Greatest(ids, last.value)
    ensures forall id :: last.Some? && Greatest(ids, id) ==> id == last.value
  {
  }

  lemma UnusableRow(rows: seq<PendingTx>, n: nat, decode: Decoder)
    requires n < |rows|
    ensures rows[n] in RowSet(rows)
    ensures rows[n].ethBlockhash.None? && (rows[n].slotTimestamp.None? || decode(rows[n].rlp).None?) ==> !Usable(decode, rows[n])
  {
  }

  /** Two listings of the same rows, in whatever order the database returns them, load the same. */
  lemma OrderDoesNotMatter(a: seq<PendingTx>, b: seq<PendingTx>, decode: Decoder,
                           x: Result<Option<Loaded>, LoadError>, y: Result<Option<Loaded>, LoadError>)
    requires multiset(a) == multiset(b) && Consistent(a) && Consistent(b)
    requires Outcome(RowSet(a), decode, x) && Outcome(RowSet(b), decode, y)
    ensures x == y
  {
    assert RowSet(a) == RowSet(b) by {
      forall row
        ensures row in a <==> row in b
      {
        assert row in multiset(a) <==> row in multiset(b);
      }
    }
    OutcomeUnique(RowSet(a), decode, x, y);
  }
}
