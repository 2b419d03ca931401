/** Receipt bookkeeping of `blocks_produced` and `new_receipt`. */
module Receipts {
  import opened Types
  import opened Ordered
  import opened Blocks
  import opened EthBlocks

  datatype ReceiptParams = ReceiptParams(blockhash: H256, blockNumber: nat, txIndex: nat, blockGasUsed: nat, firstLogIndex: nat)

  /** The accounting part of a transaction receipt. */
  datatype Receipt = Receipt(transactionIndex: nat, gasUsed: nat, cumulativeGasUsed: nat, transactionLogIndexes: seq<nat>, status: nat)

  /** The transactions of a pending block in the order of their indexes. */
  ghost predicate InIndexOrder(block: PendingL2Block, order: seq<nat>, txs: seq<TxEntry>) {
    && order == Sorted(block.transactions.Keys) && |txs| == |order|
    && forall k :: 0 <= k < |order| ==> order[k] in block.transactions && txs[k] == block.transactions[order[k]]
  }

  lemma NothingCounted(txs: seq<TxEntry>)
    ensures SumGas(txs[..0]) == 0 && LogCount(txs[..0]) == 0
  {
  }

  lemma CountMore(txs: seq<TxEntry>, n: nat)
    requires n < |txs|
    ensures SumGas(txs[..n + 1]) == SumGas(txs[..n]) + txs[n].1.gasReport.gasValue
    ensures LogCount(txs[..n + 1]) == LogCount(txs[..n]) + |txs[n].1.logs|
  {
    assert txs[..n + 1][..n] == txs[..n];
  }

  ghost predicate ReceiptParamsAt(params: BlockParams, order: seq<nat>, txs: seq<TxEntry>, list: seq<ReceiptParams>, k: nat)
    requires k < |list| <= |txs| == |order|
  {
    list[k] == ReceiptParams(params.hash, params.number, order[k], SumGas(txs[..k]), LogCount(txs[..k]))
  }

  /** The loop over the transactions of one produced block. */
  method AllReceiptParams(block: PendingL2Block, params: BlockParams)
    returns (list: seq<ReceiptParams>, order: seq<nat>, txs: seq<TxEntry>)
    ensures InIndexOrder(block, order, txs)
    ensures |list| == |txs| && forall k :: 0 <= k < |list| ==> ReceiptParamsAt(params, order, txs, list, k)
  {
    hide SumGas, LogCount;
    order := SortedKeys(block.transactions.Keys);
    txs := Values(block.transactions);
    list := [];
    NothingCounted(txs);
    var blockGasUsed, logIndex := 0, 0;
    for n := 0 to |txs|
      invariant |list| == n && blockGasUsed == SumGas(txs[..n]) && logIndex == LogCount(txs[..n])
      invariant forall k :: 0 <= k < n ==> ReceiptParamsAt(params, order, txs, list, k)
    {
      CountMore(txs, n);
      ghost var previous := list;
      list := list + [ReceiptParams(params.hash, params.number, order[n], blockGasUsed, logIndex)];
      forall k | 0 <= k < n
        ensures ReceiptParamsAt(params, order, txs, list, k)
      {
        assert ReceiptParamsAt(params, order, txs, previous, k);
      }
      blockGasUsed := blockGasUsed + txs[n].1.gasReport.gasValue;
      logIndex := logIndex + |txs[n].1.logs|;
    }
  }

  /** Consecutive numbers from `first` on. */
  function From(first: nat, count: nat): (r: seq<nat>)
    ensures |r| == count && forall k :: 0 <= k < count ==> r[k] == first + k
  {
    seq(count, k requires 0 <= k => first + k)
  }

  /** `new_receipt`, without the fields that are copied through. */
  method NewReceipt(entry: TxEntry, params: ReceiptParams) returns (receipt: Receipt)
    ensures receipt == Receipt(params.txIndex, entry.1.gasReport.gasValue, params.blockGasUsed + entry.1.gasReport.gasValue, From(params.firstLogIndex, |entry.1.logs|),
                               if entry.1.exitCode == 0 then 1 else 0)
  {
    var transactionLogIndex := params.firstLogIndex;
    var indexes := [];
    for k := 0 to |entry.1.logs|
      invariant indexes == From(params.firstLogIndex, k) && transactionLogIndex == params.firstLogIndex + k
    {
      indexes := indexes + [transactionLogIndex];
      transactionLogIndex := transactionLogIndex + 1;
    }
    receipt := Receipt(params.txIndex, entry.1.gasReport.gasValue, params.blockGasUsed + entry.1.gasReport.gasValue, indexes, if entry.1.exitCode == 0 then 1 else 0);
  }

  /** The receipts of one block, each from its own parameters. */
  method BlockReceipts(block: PendingL2Block, params: BlockParams) returns (receipts: seq<Receipt>, order: seq<nat>, txs: seq<TxEntry>)
    ensures InIndexOrder(block, order, txs)
    ensures |receipts| == |txs| && forall k :: 0 <= k < |receipts| ==> ReceiptAt(order, txs, receipts, k)
  {
    var list;
    list, order, txs := AllReceiptParams(block, params);
    receipts := [];
    for n := 0 to |list|
      invariant |receipts| == n && forall k :: 0 <= k < n ==> ReceiptAt(order, txs, receipts, k)
    {
      assert ReceiptParamsAt(params, order, txs, list, n);
      var receipt := NewReceipt(txs[n], list[n]);
      ghost var previous := receipts;
      receipts := receipts + [receipt];
      forall k | 0 <= k < n
        ensures ReceiptAt(order, txs, receipts, k)
      {
        assert ReceiptAt(order, txs, previous, k);
      }
    }
  }

  ghost predicate ReceiptAt(order: seq<nat>, txs: seq<TxEntry>, receipts: seq<Receipt>, k: nat)
    requires k < |receipts| <= |txs| == |order|
  {
    && receipts[k].transactionIndex == order[k]
    && receipts[k].gasUsed == txs[k].1.gasReport.gasValue
    && receipts[k].cumulativeGasUsed == SumGas(txs[..k]) + txs[k].1.gasReport.gasValue
    && receipts[k].transactionLogIndexes == From(LogCount(txs[..k]), |txs[k].1.logs|)
    && receipts[k].status == (if txs[k].1.exitCode == 0 then 1 else 0)
  }

  function LogIndexes(receipts: seq<Receipt>): seq<nat> {
    if receipts == [] then [] else LogIndexes(receipts[..|receipts| - 1]) + receipts[|receipts| - 1].transactionLogIndexes
  }

  /** Cumulative gas counts everything up to and including the transaction. */
  lemma CumulativeGas(order: seq<nat>, txs: seq<TxEntry>, receipts: seq<Receipt>, k: nat)
    requires |receipts| == |txs| == |order| && k < |txs| && ReceiptAt(order, txs, receipts, k)
    ensures receipts[k].cumulativeGasUsed == SumGas(txs[..k + 1])
    ensures k == |txs| - 1 ==> receipts[k].cumulativeGasUsed == SumGas(txs)
  {
    CountMore(txs, k);
    assert txs[..|txs|] == txs;
  }

  /** The last receipt of a block carries the gas that grouping recorded for that block. */
  lemma LastIsBlockGas(all: seq<TxEntry>, mode: BlockParseMode, cuts: seq<nat>, blocks: seq<EthBlock>, k: nat,
                       txs: seq<TxEntry>, order: seq<nat>, receipts: seq<Receipt>)
    requires IsGrouping(all, mode, cuts, blocks) && k < |blocks|
    requires cuts[k] < cuts[k + 1] <= |all| && txs == all[cuts[k]..cuts[k + 1]]
    requires |receipts| == |order| == |txs|
    requires forall i :: 0 <= i < |receipts| ==> ReceiptAt(order, txs, receipts, i)
    ensures receipts[|receipts| - 1].cumulativeGasUsed == blocks[k].blockGasUsed
  {
    assert BlockBetween(all, mode, cuts, blocks, k);
    CumulativeGas(order, txs, receipts, |receipts| - 1);
  }

  /** Across the block the log indexes are 0, 1, 2, … without gap or repeat. */
  lemma {:induction false} LogIndexesAreConsecutive(order: seq<nat>, txs: seq<TxEntry>, receipts: seq<Receipt>, n: nat)
    requires |receipts| == |txs| == |order| && n <= |txs|
    requires forall k :: 0 <= k < |receipts| ==> ReceiptAt(order, txs, receipts, k)
    ensures LogIndexes(receipts[..n]) == From(0, LogCount(txs[..n]))
    ensures n == |txs| ==> LogIndexes(receipts) == From(0, LogCount(txs))
  {
    if n > 0 {
      hide SumGas;
      LogIndexesAreConsecutive(order, txs, receipts, n - 1);
      CountMore(txs, n - 1);
      assert receipts[..n][..n - 1] == receipts[..n - 1];
      assert ReceiptAt(order, txs, receipts, n - 1);
      var low, count := LogCount(txs[..n - 1]), |txs[n - 1].1.logs|;
      assert From(0, low) + From(low, count) == From(0, low + count);
    }
    assert receipts[..|txs|] == receipts && txs[..|txs|] == txs;
  }
}
