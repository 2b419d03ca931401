/** `create_eth_blocks`: grouping the transactions of a slot into Ethereum blocks. */
module EthBlocks {
  import opened Wrappers
  import opened Types

  datatype BlockParseMode = EngineApi | SingleState

  datatype EthBlock = EthBlock(transactions: seq<H256>, blockGasUsed: nat, gasRecipient: Option<nat>)

  type TxEntry = (Transaction, TxResult)

  function SumGas(txs: seq<TxEntry>): nat {
    if txs == [] then 0 else SumGas(txs[..|txs| - 1]) + txs[|txs| - 1].1.gasReport.gasValue
  }

  function Hashes(txs: seq<TxEntry>): (r: seq<H256>)
    ensures |r| == |txs| && forall k :: 0 <= k < |txs| ==> r[k] == txs[k].0.hash
  {
    seq(|txs|, k requires 0 <= k < |txs| => txs[k].0.hash)
  }

  /** The block made of one stretch of transactions. */
  function BlockOf(txs: seq<TxEntry>, recipient: Option<nat>): EthBlock {
    EthBlock(Hashes(txs), SumGas(txs), recipient)
  }

  /** The boundaries between blocks: `cuts` starts at 0, ends at the number of transactions and increases. */
  ghost predicate IsCutting(cuts: seq<nat>, count: nat) {
    && cuts != [] && cuts[0] == 0 && cuts[|cuts| - 1] == count
    && forall j, k :: 0 <= j < k < |cuts| ==> cuts[j] < cuts[k]
  }

  /** Block `k` consists of the transactions between two boundaries. */
  ghost predicate BlockBetween(txs: seq<TxEntry>, mode: BlockParseMode, cuts: seq<nat>, blocks: seq<EthBlock>, k: nat)
    requires k < |blocks| && |cuts| == |blocks| + 1
  {
    && cuts[k] < cuts[k + 1] <= |txs|
    && blocks[k] == BlockOf(txs[cuts[k]..cuts[k + 1]], if mode.EngineApi? then txs[cuts[k]].1.gasReport.gasRecipient else None)
    && (mode.EngineApi? ==> forall i :: cuts[k] <= i < cuts[k + 1] ==> txs[i].1.gasReport.gasRecipient == txs[cuts[k]].1.gasReport.gasRecipient)
    && (mode.EngineApi? && 0 < k ==> 0 < cuts[k] && txs[cuts[k]].1.gasReport.gasRecipient != txs[cuts[k] - 1].1.gasReport.gasRecipient)
  }

  /**
   A grouping: consecutive non-empty stretches that cover all transactions; in
   engine mode each is a maximal run of one gas recipient, in single-state
   mode there is at most one.
   */
  ghost predicate IsGrouping(txs: seq<TxEntry>, mode: BlockParseMode, cuts: seq<nat>, blocks: seq<EthBlock>) {
    && |cuts| == |blocks| + 1 && IsCutting(cuts, |txs|)
    && (forall k :: 0 <= k < |blocks| ==> BlockBetween(txs, mode, cuts, blocks, k))
    && (mode.SingleState? ==> |blocks| <= 1)
  }

  /** There is only one grouping. */
  lemma {:induction false} CutsAgree(txs: seq<TxEntry>, a: seq<nat>, x: seq<EthBlock>, b: seq<nat>, y: seq<EthBlock>, k: nat)
    requires IsGrouping(txs, EngineApi, a, x) && IsGrouping(txs, EngineApi, b, y) && k < |a|
    ensures k < |b| && a[k] == b[k]
  {
    if k > 0 {
      CutsAgree(txs, a, x, b, y, k - 1);
      assert BlockBetween(txs, EngineApi, a, x, k - 1);
      assert a[k - 1] < |txs|;
      assert k - 1 < |y|;
      assert BlockBetween(txs, EngineApi, b, y, k - 1);
      NoEarlierCut(txs, a, x, b, y, k);
      NoEarlierCut(txs, b, y, a, x, k);
    }
  }

  lemma BoundaryDiffers(txs: seq<TxEntry>, a: seq<nat>, x: seq<EthBlock>, k: nat)
    requires IsGrouping(txs, EngineApi, a, x) && 0 < k < |x|
    ensures a[k - 1] < a[k] < |txs| && txs[a[k]].1.gasReport.gasRecipient != txs[a[k - 1]].1.gasReport.gasRecipient
  {
    assert BlockBetween(txs, EngineApi, a, x, k - 1) && BlockBetween(txs, EngineApi, a, x, k);
  }

  /** Where one grouping ends a run, no other can go on with it. */
  lemma NoEarlierCut(txs: seq<TxEntry>, a: seq<nat>, x: seq<EthBlock>, b: seq<nat>, y: seq<EthBlock>, k: nat)
    requires IsGrouping(txs, EngineApi, a, x) && IsGrouping(txs, EngineApi, b, y)
    requires 0 < k < |a| && k < |b| && a[k - 1] == b[k - 1]
    ensures a[k] >= b[k]
  {
    assert BlockBetween(txs, EngineApi, a, x, k - 1) && BlockBetween(txs, EngineApi, b, y, k - 1);
    if k < |a| - 1 {
      BoundaryDiffers(txs, a, x, k);
      assert forall i :: b[k - 1] <= i < b[k] ==> txs[i].1.gasReport.gasRecipient == txs[b[k - 1]].1.gasReport.gasRecipient;
    }
  }

  lemma GroupingUnique(txs: seq<TxEntry>, mode: BlockParseMode, a: seq<nat>, x: seq<EthBlock>, b: seq<nat>, y: seq<EthBlock>)
    requires IsGrouping(txs, mode, a, x) && IsGrouping(txs, mode, b, y)
    ensures x == y
  {
    if mode.EngineApi? {
      CutsAgree(txs, a, x, b, y, |a| - 1);
      CutsAgree(txs, b, y, a, x, |b| - 1);
      forall k | 0 <= k < |x|
        ensures x[k] == y[k]
      {
        CutsAgree(txs, a, x, b, y, k);
        CutsAgree(txs, a, x, b, y, k + 1);
        assert BlockBetween(txs, mode, a, x, k) && BlockBetween(txs, mode, b, y, k);
      }
    } else if x != [] {
      assert BlockBetween(txs, mode, a, x, 0);
      assert y != [];
      assert BlockBetween(txs, mode, b, y, 0);
    }
  }

  // ------------------------------------------------------------- what is conserved

  function AllHashes(blocks: seq<EthBlock>): seq<H256> {
    if blocks == [] then [] else AllHashes(blocks[..|blocks| - 1]) + blocks[|blocks| - 1].transactions
  }

  function TotalGas(blocks: seq<EthBlock>): nat {
    if blocks == [] then 0 else TotalGas(blocks[..|blocks| - 1]) + blocks[|blocks| - 1].blockGasUsed
  }

  lemma {:induction false} SumGasAppend(a: seq<TxEntry>, b: seq<TxEntry>)
    ensures SumGas(a + b) == SumGas(a) + SumGas(b)
  {
    if b == [] {
      assert a + b == a;
    } else {
      SumGasAppend(a, b[..|b| - 1]);
      assert (a + b)[..|a + b| - 1] == a + b[..|b| - 1];
    }
  }

  lemma HashesSplit(txs: seq<TxEntry>, low: nat, high: nat)
    requires low <= high <= |txs|
    ensures Hashes(txs[..high]) == Hashes(txs[..low]) + Hashes(txs[low..high])
  {
  }

  /** The first `n` blocks hold exactly the transactions before boundary `n`, in order. */
  lemma {:induction false} HashesKept(txs: seq<TxEntry>, mode: BlockParseMode, cuts: seq<nat>, blocks: seq<EthBlock>, n: nat)
    requires IsGrouping(txs, mode, cuts, blocks) && n <= |blocks|
    ensures cuts[n] <= |txs|
    ensures AllHashes(blocks[..n]) == Hashes(txs[..cuts[n]])
  {
    if n > 0 {
      HashesKept(txs, mode, cuts, blocks, n - 1);
      assert BlockBetween(txs, mode, cuts, blocks, n - 1);
      assert blocks[..n][..n - 1] == blocks[..n - 1];
      HashesSplit(txs, cuts[n - 1], cuts[n]);
    }
  }

  lemma GasSplit(txs: seq<TxEntry>, low: nat, high: nat)
    requires low <= high <= |txs|
    ensures SumGas(txs[..high]) == SumGas(txs[..low]) + SumGas(txs[low..high])
  {
    assert txs[..high] == txs[..low] + txs[low..high];
    SumGasAppend(txs[..low], txs[low..high]);
  }

  lemma {:induction false} GasKept(txs: seq<TxEntry>, mode: BlockParseMode, cuts: seq<nat>, blocks: seq<EthBlock>, n: nat)
    requires IsGrouping(txs, mode, cuts, blocks) && n <= |blocks|
    ensures cuts[n] <= |txs|
    ensures TotalGas(blocks[..n]) == SumGas(txs[..cuts[n]])
  {
    if n > 0 {
      GasKept(txs, mode, cuts, blocks, n - 1);
      assert BlockBetween(txs, mode, cuts, blocks, n - 1);
      assert blocks[..n][..n - 1] == blocks[..n - 1];
      GasSplit(txs, cuts[n - 1], cuts[n]);
    }
  }

  /** Nothing is lost, repeated or reordered, gas is conserved, and no block is empty. */
  lemma GroupingConserves(txs: seq<TxEntry>, mode: BlockParseMode, cuts: seq<nat>, blocks: seq<EthBlock>)
    requires IsGrouping(txs, mode, cuts, blocks)
    ensures AllHashes(blocks) == Hashes(txs)
    ensures TotalGas(blocks) == SumGas(txs)
    ensures forall k :: 0 <= k < |blocks| ==> blocks[k].transactions != []
    ensures mode.EngineApi? ==> forall k :: 0 < k < |blocks| ==> blocks[k].gasRecipient != blocks[k - 1].gasRecipient
  {
    HashesKept(txs, mode, cuts, blocks, |blocks|);
    GasKept(txs, mode, cuts, blocks, |blocks|);
    assert blocks[..|blocks|] == blocks && txs[..|txs|] == txs;
    forall k | 0 <= k < |blocks|
      ensures blocks[k].transactions != []
      ensures mode.EngineApi? && 0 < k ==> blocks[k].gasRecipient != blocks[k - 1].gasRecipient
    {
      assert BlockBetween(txs, mode, cuts, blocks, k);
      if 0 < k {
        assert BlockBetween(txs, mode, cuts, blocks, k - 1);
      }
    }
  }

  // ------------------------------------------------------------------- the loop

  /** The log index at which transaction `n` is updated; in engine mode it restarts behind the transaction that opens a block. */
  function LogIndexAt(txs: seq<TxEntry>, mode: BlockParseMode, n: nat): nat
    requires n <= |txs|
  {
    if n == 0 then 0
    else if mode.EngineApi? && n > 1 && txs[n - 1].1.gasReport.gasRecipient != txs[n - 2].1.gasReport.gasRecipient then 0
    else LogIndexAt(txs, mode, n - 1) + |txs[n - 1].1.logs|
  }

  function LogCount(txs: seq<TxEntry>): nat {
    if txs == [] then 0 else LogCount(txs[..|txs| - 1]) + |txs[|txs| - 1].1.logs|
  }

  /** Transaction `m` opens a block behind others. */
  predicate Opens(txs: seq<TxEntry>, mode: BlockParseMode, m: nat)
    requires m < |txs|
  {
    mode.EngineApi? && 0 < m && txs[m].1.gasReport.gasRecipient != txs[m - 1].1.gasReport.gasRecipient
  }

  lemma LogCountMore(txs: seq<TxEntry>, low: nat, n: nat)
    requires low < n <= |txs|
    ensures LogCount(txs[low..n]) == LogCount(txs[low..n - 1]) + |txs[n - 1].1.logs|
  {
    assert txs[low..n][..n - 1 - low] == txs[low..n - 1];
  }

  /** The log index counts all logs before transaction `n`, or those behind the last transaction that opened a block. */
  lemma {:induction false} LogIndexCounts(txs: seq<TxEntry>, mode: BlockParseMode, m: nat, n: nat)
    requires m <= n <= |txs| && forall j :: m <= j < n ==> !Opens(txs, mode, j)
    requires m == 0 || Opens(txs, mode, m - 1)
    ensures LogIndexAt(txs, mode, n) == LogCount(txs[m..n])
  {
    if n == m {
      assert txs[m..n] == [];
    } else {
      LogIndexCounts(txs, mode, m, n - 1);
      LogCountMore(txs, m, n);
      assert !Opens(txs, mode, n - 1);
    }
  }

  /** The transactions with user deposits rewritten; how is not modelled. */
  function Updated(update: (Transaction, nat) -> Transaction, txs: seq<TxEntry>, mode: BlockParseMode, n: nat): (r: seq<TxEntry>)
    requires n <= |txs|
    ensures |r| == |txs|
  {
    seq(|txs|, k requires 0 <= k < |txs| => if k < n then (update(txs[k].0, LogIndexAt(txs, mode, k)), txs[k].1) else txs[k])
  }

  lemma UpdatedAt(update: (Transaction, nat) -> Transaction, before: seq<TxEntry>, mode: BlockParseMode)
    ensures forall k :: 0 <= k < |before| ==>
              Updated(update, before, mode, |before|)[k] == (update(before[k].0, LogIndexAt(before, mode, k)), before[k].1)
  {
  }

  lemma NothingUpdated(update: (Transaction, nat) -> Transaction, before: seq<TxEntry>, mode: BlockParseMode)
    ensures before == Updated(update, before, mode, 0)
  {
  }

  lemma UpdateNext(update: (Transaction, nat) -> Transaction, before: seq<TxEntry>, mode: BlockParseMode, n: nat,
                   previous: seq<TxEntry>, now: seq<TxEntry>)
    requires n < |before| && previous == Updated(update, before, mode, n)
    requires now == previous[n := (update(previous[n].0, LogIndexAt(before, mode, n)), previous[n].1)]
    ensures previous[n] == before[n] && now == Updated(update, before, mode, n + 1)
  {
  }

  /** The finished blocks and the one still being filled. */
  ghost predicate Filling(txs: seq<TxEntry>, mode: BlockParseMode, cuts: seq<nat>, blocks: seq<EthBlock>, n: nat,
                          blockTxs: seq<H256>, gas: nat, recipient: Option<nat>)
  {
    && 0 < n <= |txs| && cuts != [] && cuts[|cuts| - 1] < n
    && IsGrouping(txs[..n], mode, cuts + [n], blocks + [EthBlock(blockTxs, gas, recipient)])
  }

  /** A stretch one transaction longer. */
  lemma BlockMore(txs: seq<TxEntry>, low: nat, n: nat, recipient: Option<nat>)
    requires low <= n < |txs|
    ensures BlockOf(txs[low..n + 1], recipient) ==
            EthBlock(BlockOf(txs[low..n], recipient).transactions + [txs[n].0.hash],
                     BlockOf(txs[low..n], recipient).blockGasUsed + txs[n].1.gasReport.gasValue, recipient)
    ensures BlockOf(txs[low..n], recipient).gasRecipient == recipient
  {
    assert txs[low..n + 1][..n - low] == txs[low..n];
  }

  lemma SameBetween(txs: seq<TxEntry>, n: nat, m: nat, mode: BlockParseMode, cuts: seq<nat>, blocks: seq<EthBlock>, k: nat,
                    moreCuts: seq<nat>, moreBlocks: seq<EthBlock>)
    requires n <= m <= |txs| && k < |blocks| && |cuts| == |blocks| + 1 && k < |moreBlocks| && |moreCuts| == |moreBlocks| + 1
    requires BlockBetween(txs[..n], mode, cuts, blocks, k)
    requires moreCuts[k] == cuts[k] && moreCuts[k + 1] == cuts[k + 1] && moreBlocks[k] == blocks[k]
    ensures BlockBetween(txs[..m], mode, moreCuts, moreBlocks, k)
  {
    assert txs[..n][cuts[k]..cuts[k + 1]] == txs[..m][cuts[k]..cuts[k + 1]];
    assert forall i :: 0 <= i < n ==> txs[..n][i] == txs[..m][i];
  }

  /** The block being filled, one transaction longer. */
  lemma LastBlockMore(txs: seq<TxEntry>, mode: BlockParseMode, n: nat, cuts: seq<nat>, blocks: seq<EthBlock>, last: EthBlock,
                      moreCuts: seq<nat>, moreBlocks: seq<EthBlock>)
    requires n < |txs| && |cuts| == |blocks| + 1 == |moreCuts| == |moreBlocks| + 1 && blocks != []
    requires var b := |blocks| - 1; BlockBetween(txs[..n], mode, cuts, blocks, b) && cuts[b + 1] == n && moreCuts[b] == cuts[b] && moreCuts[b + 1] == n + 1
    requires last == blocks[|blocks| - 1] && (mode.EngineApi? ==> txs[n].1.gasReport.gasRecipient == last.gasRecipient)
    requires moreBlocks[|blocks| - 1] == EthBlock(last.transactions + [txs[n].0.hash], last.blockGasUsed + txs[n].1.gasReport.gasValue, last.gasRecipient)
    ensures BlockBetween(txs[..n + 1], mode, moreCuts, moreBlocks, |blocks| - 1)
  {
    hide BlockOf;
    var low := cuts[|blocks| - 1];
    var less, more := txs[..n], txs[..n + 1];
    assert less[low..n] == txs[low..n] && more[low..n + 1] == txs[low..n + 1];
    BlockMore(txs, low, n, if mode.EngineApi? then txs[low].1.gasReport.gasRecipient else None);
    assert forall i :: 0 <= i < n ==> less[i] == more[i];
  }

  lemma FillMoreBlocks(txs: seq<TxEntry>, mode: BlockParseMode, n: nat, cuts: seq<nat>, blocks: seq<EthBlock>, last: EthBlock,
                       moreCuts: seq<nat>, moreBlocks: seq<EthBlock>, less: seq<TxEntry>, more: seq<TxEntry>)
    requires n < |txs| && less == txs[..n] && more == txs[..n + 1] && |cuts| == |blocks| + 1 == |moreCuts| == |moreBlocks| + 1 && blocks != []
    requires forall k :: 0 <= k < |blocks| ==> BlockBetween(less, mode, cuts, blocks, k)
    requires moreCuts == cuts[..|blocks|] + [n + 1] && cuts[|blocks|] == n
    requires last == blocks[|blocks| - 1] && (mode.EngineApi? ==> txs[n].1.gasReport.gasRecipient == last.gasRecipient)
    requires moreBlocks == blocks[..|blocks| - 1] + [EthBlock(last.transactions + [txs[n].0.hash], last.blockGasUsed + txs[n].1.gasReport.gasValue, last.gasRecipient)]
    ensures forall k :: 0 <= k < |moreBlocks| ==> BlockBetween(more, mode, moreCuts, moreBlocks, k)
  {
    forall k | 0 <= k < |moreBlocks|
      ensures BlockBetween(more, mode, moreCuts, moreBlocks, k)
    {
      assert BlockBetween(less, mode, cuts, blocks, k);
      if k < |blocks| - 1 {
        SameBetween(txs, n, n + 1, mode, cuts, blocks, k, moreCuts, moreBlocks);
      } else {
        LastBlockMore(txs, mode, n, cuts, blocks, last, moreCuts, moreBlocks);
      }
    }
  }

  /** A transaction of the current recipient joins the block being filled. */
  lemma FillMore(txs: seq<TxEntry>, mode: BlockParseMode, cuts: seq<nat>, blocks: seq<EthBlock>, n: nat,
                 blockTxs: seq<H256>, gas: nat, recipient: Option<nat>)
    requires Filling(txs, mode, cuts, blocks, n, blockTxs, gas, recipient) && n < |txs|
    requires mode.EngineApi? ==> txs[n].1.gasReport.gasRecipient == recipient
    ensures Filling(txs, mode, cuts, blocks, n + 1, blockTxs + [txs[n].0.hash], gas + txs[n].1.gasReport.gasValue, recipient)
  {
    hide BlockBetween, IsCutting;
    var last := EthBlock(blockTxs, gas, recipient);
    var more := EthBlock(blockTxs + [txs[n].0.hash], gas + txs[n].1.gasReport.gasValue, recipient);
    assert (cuts + [n])[..|blocks| + 1] == cuts && (blocks + [last])[..|blocks|] == blocks;
    FillMoreBlocks(txs, mode, n, cuts + [n], blocks + [last], last, cuts + [n + 1], blocks + [more], txs[..n], txs[..n + 1]);
    CutMoved(cuts, n);
    CutBelow(cuts, n);
  }

  lemma CutBelow(cuts: seq<nat>, n: nat)
    requires IsCutting(cuts + [n], n) && cuts != []
    ensures cuts[|cuts| - 1] < n
  {
    var all := cuts + [n];
    assert all[|cuts| - 1] < all[|cuts|];
  }

  lemma CutMoved(cuts: seq<nat>, n: nat)
    requires IsCutting(cuts + [n], n) && cuts != []
    ensures IsCutting(cuts + [n + 1], n + 1)
    ensures IsCutting(cuts + [n] + [n + 1], n + 1)
  {
    var a, b, c := cuts + [n], cuts + [n + 1], cuts + [n] + [n + 1];
    assert forall j :: 0 <= j < |cuts| ==> a[j] < a[|cuts|];
    assert forall j :: 0 <= j < |cuts| ==> a[j] == b[j] == c[j];
  }

  /** A transaction of another recipient closes the block and opens the next. */
  lemma FillNext(txs: seq<TxEntry>, cuts: seq<nat>, blocks: seq<EthBlock>, n: nat,
                 blockTxs: seq<H256>, gas: nat, recipient: Option<nat>)
    requires Filling(txs, EngineApi, cuts, blocks, n, blockTxs, gas, recipient) && n < |txs|
    requires txs[n].1.gasReport.gasRecipient != recipient
    ensures Filling(txs, EngineApi, cuts + [n], blocks + [EthBlock(blockTxs, gas, recipient)], n + 1,
                    [txs[n].0.hash], txs[n].1.gasReport.gasValue, txs[n].1.gasReport.gasRecipient)
  {
    hide IsCutting;
    var last, next := EthBlock(blockTxs, gas, recipient), EthBlock([txs[n].0.hash], txs[n].1.gasReport.gasValue, txs[n].1.gasReport.gasRecipient);
    var less, more, oldCuts, newCuts := txs[..n], txs[..n + 1], cuts + [n], cuts + [n] + [n + 1];
    var oldBlocks, newBlocks := blocks + [last], blocks + [last] + [next];
    forall k | 0 <= k < |newBlocks|
      ensures BlockBetween(more, EngineApi, newCuts, newBlocks, k)
    {
      if k < |oldBlocks| {
        assert BlockBetween(less, EngineApi, oldCuts, oldBlocks, k);
        SameBetween(txs, n, n + 1, EngineApi, oldCuts, oldBlocks, k, newCuts, newBlocks);
      } else {
        assert BlockBetween(less, EngineApi, oldCuts, oldBlocks, |blocks|);
        OpensBlock(txs, n, oldCuts, oldBlocks, newCuts, newBlocks);
      }
    }
    CutMoved(cuts, n);
  }

  lemma OpensBlock(txs: seq<TxEntry>, n: nat, oldCuts: seq<nat>, oldBlocks: seq<EthBlock>, newCuts: seq<nat>, newBlocks: seq<EthBlock>)
    requires 0 < n < |txs| && oldBlocks != [] && |oldCuts| == |oldBlocks| + 1 && |newBlocks| == |oldBlocks| + 1 && |newCuts| == |newBlocks| + 1
    requires BlockBetween(txs[..n], EngineApi, oldCuts, oldBlocks, |oldBlocks| - 1) && oldCuts[|oldBlocks|] == n
    requires newCuts[|oldBlocks|] == n && newCuts[|oldBlocks| + 1] == n + 1
    requires newBlocks[|oldBlocks|] == EthBlock([txs[n].0.hash], txs[n].1.gasReport.gasValue, txs[n].1.gasReport.gasRecipient)
    requires txs[n].1.gasReport.gasRecipient != oldBlocks[|oldBlocks| - 1].gasRecipient
    ensures BlockBetween(txs[..n + 1], EngineApi, newCuts, newBlocks, |oldBlocks|)
  {
    FirstGas(txs, n);
    assert txs[..n][n - 1] == txs[..n + 1][n - 1] && txs[..n + 1][n] == txs[n];
  }

  lemma FirstGas(txs: seq<TxEntry>, n: nat)
    requires n < |txs|
    ensures txs[..n + 1][n..n + 1] == [txs[n]]
    ensures SumGas([txs[n]]) == txs[n].1.gasReport.gasValue && Hashes([txs[n]]) == [txs[n].0.hash]
  {
    assert [txs[n]][..0] == [];
  }

  /** The first transaction opens the first block. */
  lemma FillFirst(txs: seq<TxEntry>, mode: BlockParseMode, recipient: Option<nat>)
    requires txs != [] && recipient == if mode.EngineApi? then txs[0].1.gasReport.gasRecipient else None
    ensures Filling(txs, mode, [0], [], 1, [txs[0].0.hash], txs[0].1.gasReport.gasValue, recipient)
  {
    FirstGas(txs, 0);
    var blocks := [EthBlock([txs[0].0.hash], txs[0].1.gasReport.gasValue, recipient)];
    assert [] + blocks == blocks;
    assert [0] + [1] == [0, 1];
    assert BlockBetween(txs[..1], mode, [0, 1], blocks, 0);
  }

  /** Later updates do not change what has been grouped. */
  lemma FillingStable(a: seq<TxEntry>, b: seq<TxEntry>, mode: BlockParseMode, cuts: seq<nat>, blocks: seq<EthBlock>, n: nat,
                      blockTxs: seq<H256>, gas: nat, recipient: Option<nat>)
    requires Filling(a, mode, cuts, blocks, n, blockTxs, gas, recipient) && n <= |b| && a[..n] == b[..n]
    ensures Filling(b, mode, cuts, blocks, n, blockTxs, gas, recipient)
  {
  }

  /**
   Updates every transaction in place and groups them. The hashes in the
   blocks are those of the updated transactions.
   */
  method CreateEthBlocks(transactions: array<TxEntry>, mode: BlockParseMode, update: (Transaction, nat) -> Transaction)
    returns (ethBlocks: seq<EthBlock>, ghost cuts: seq<nat>)
    modifies transactions
    ensures transactions[..] == Updated(update, old(transactions[..]), mode, transactions.Length)
    ensures forall k :: 0 <= k < transactions.Length ==>
              transactions[k] == (update(old(transactions[k].0), LogIndexAt(old(transactions[..]), mode, k)), old(transactions[k].1))
    ensures IsGrouping(transactions[..], mode, cuts, ethBlocks)
  {
    hide IsGrouping, IsCutting, BlockBetween, Filling, Updated;
    ghost var before := transactions[..];
    var blockGasUsed: nat, blockTxs: seq<H256>, blockLogIndex: nat := 0, [], 0;
    var gasRecipient: Option<nat> := None;
    ethBlocks, cuts := [], [0];
    NothingUpdated(update, before, mode);
    for n := 0 to transactions.Length
      invariant transactions[..] == Updated(update, before, mode, n)
      invariant blockLogIndex == LogIndexAt(before, mode, n)
      invariant n == 0 ==> blockTxs == [] && gasRecipient == None && blockGasUsed == 0 && ethBlocks == [] && cuts == [0]
      invariant 0 < n ==> blockTxs != [] && Filling(transactions[..], mode, cuts, ethBlocks, n, blockTxs, blockGasUsed, gasRecipient)
      invariant 0 < n && mode.EngineApi? ==> gasRecipient == before[n - 1].1.gasReport.gasRecipient
    {
      ghost var previous := transactions[..];
      var (tx, txResult) := transactions[n];
      tx := update(tx, blockLogIndex);
      transactions[n] := (tx, txResult);
      ghost var now := transactions[..];
      assert now == previous[n := (tx, txResult)];
      UpdateNext(update, before, mode, n, previous, now);
      if 0 < n {
        assert previous[..n] == now[..n];
        FillingStable(previous, now, mode, cuts, ethBlocks, n, blockTxs, blockGasUsed, gasRecipient);
      }
      blockLogIndex := blockLogIndex + |txResult.logs|;
      assert now[n] == (tx, txResult) && [] + [tx.hash] == [tx.hash];
      if mode.EngineApi? {
        if txResult.gasReport.gasRecipient == gasRecipient {
          if 0 < n {
            FillMore(now, mode, cuts, ethBlocks, n, blockTxs, blockGasUsed, gasRecipient);
          } else {
            FillFirst(now, mode, gasRecipient);
          }
          blockTxs := blockTxs + [tx.hash];
          blockGasUsed := blockGasUsed + txResult.gasReport.gasValue;
        } else if blockTxs == [] {
          FillFirst(now, mode, txResult.gasReport.gasRecipient);
          blockTxs := blockTxs + [tx.hash];
          blockGasUsed := txResult.gasReport.gasValue;
          gasRecipient := txResult.gasReport.gasRecipient;
        } else {
          FillNext(now, cuts, ethBlocks, n, blockTxs, blockGasUsed, gasRecipient);
          cuts := cuts + [n];
          ethBlocks := ethBlocks + [EthBlock(blockTxs, blockGasUsed, gasRecipient)];
          blockTxs := [tx.hash];
          blockGasUsed := txResult.gasReport.gasValue;
          gasRecipient := txResult.gasReport.gasRecipient;
          blockLogIndex := 0;
        }
      } else {
        if 0 < n {
          FillMore(now, mode, cuts, ethBlocks, n, blockTxs, blockGasUsed, gasRecipient);
        } else {
          FillFirst(now, mode, gasRecipient);
        }
        blockTxs := blockTxs + [tx.hash];
        blockGasUsed := blockGasUsed + txResult.gasReport.gasValue;
      }
    }
    UpdatedAt(update, before, mode);
    if blockTxs != [] {
      FilledGrouping(transactions[..], mode, cuts, ethBlocks, blockTxs, blockGasUsed, gasRecipient);
      cuts := cuts + [transactions.Length];
      ethBlocks := ethBlocks + [EthBlock(blockTxs, blockGasUsed, gasRecipient)];
    } else {
      NothingGrouped(mode);
    }
  }

  lemma FilledGrouping(txs: seq<TxEntry>, mode: BlockParseMode, cuts: seq<nat>, blocks: seq<EthBlock>,
                       blockTxs: seq<H256>, gas: nat, recipient: Option<nat>)
    requires Filling(txs, mode, cuts, blocks, |txs|, blockTxs, gas, recipient)
    ensures IsGrouping(txs, mode, cuts + [|txs|], blocks + [EthBlock(blockTxs, gas, recipient)])
  {
    assert txs[..|txs|] == txs;
  }

  lemma NothingGrouped(mode: BlockParseMode)
    ensures IsGrouping([], mode, [0], [])
  {
  }
}
