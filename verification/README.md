# Rome SDK: a verified model of its core

A Dafny project that models the state-changing core of the Rome SDK and proves
what holds of it on every input and in every run. `dafny verify dfyconfig.toml`
checks everything. Five connected parts:

- **Transmission and reassembly** (`Chunks`, `Transmit`, `Reassembly`, `TxIndex`,
  `TxParser`, `TxProperties`, `Replay`, `BlockParser`). A signed RLP is cut into
  800-byte pieces; an indexer puts the pieces back together from Solana blocks
  that it visits backwards, on forks and repeatedly. The main results: reassembly
  of any arrivals is exactly what arrived, completeness holds exactly for gap-free
  initial runs, the index does not depend on the order or repetition of
  registered blocks, and the backward walk ends in the state of a forward replay.
- **Transaction machines under the tower** (`Steps`, `Machines`, `Tower`,
  `TowerSafety`, `TowerProgress`, `Driver`, `Delivery`). The small automata are
  objects changed in place (`Machines`, `Driver`), each method proved equal to a step
  function on values (`Steps`, `Tower`); the theorems about whole runs, against an
  arbitrary outside world, are in `TowerSafety`, when and how runs end in
  `TowerProgress`.
  `Delivery` joins both ends: a completed holder run delivers the RLP to any indexer
  that sees its pieces, down to the finalized list of the slot.
- **Block production** (`BlockIds`, `Blocks`, `Producers`, `Production`,
  `PendingRows`, `SlotTable`, `EthBlocks`, `Receipts`). Grouping transactions into
  Ethereum blocks, choosing the fork to produce, loading pending blocks, producing
  them in batches, storing parameters and receipts, restoring, finalizing. Batched
  production is proved to refine one unlimited pass.
- **Holder allocator** (`HolderAllocator`, `HolderWalks`). Compare-and-exchange on one 64-bit
  word, for any number of agents and any interleaving of single atomic steps.
  Loads may return old values (each agent's own view only moves forward), a failed
  exchange may be spurious.
- **Scalar codec** (`U256Rlp`). The payload codec of 256-bit scalars in Appendix B
  of the Ethereum Yellow Paper.

Calls to the outside are parameters: a `Reply` answers the emulator and account
lookups of one `advance`, a `Turn` adds which transactions land, an `Engine` is a
deterministic function from parent and payload to a block, a `Lookup` is what geth
says at the start of a production call, decoding is a partial function.

Where names and code differ, the model follows the code:

- `ProducedBlocks::len` counts slots, so a limit of `n` ends a batch with the first
  block of its `n`-th slot (`Producers.StopsMidSlot`); the single-state producer
  counts blocks.
- `HolderFactory::available_holders` adds up the bits that are set, which are the
  holders in use (`HolderAllocator.EveryRunCountsHolders`).
- `AltComposedHolder` is described in its source as working without a holder; it is
  the variant with one.
- Two different pieces at one offset do not commute: the first one wins
  (`Reassembly.CommutesIffCompatible`).
- `set_finalized_slot` flips only fork slots that have block data, so a gap in the
  data leaves an open ancestor below a finalized slot (`SlotTable.GapBreaksClosure`;
  the exact condition is in `SlotTable.StaysClosedIffNoGap`).
- When two hashes share the index of their first result, as two rollup instructions
  of one Solana transaction do, one of them is dropped from the finalized list; which
  one depends on hash-map order (`TxProperties.SharedIndexLosesOne`; the exact
  condition is in `TxProperties.OneEntryEachIff`).
- Finalizing a slot that has both an incomplete transaction and a complete one that
  does not decode reports one of the two, depending on hash-map order
  (`TxProperties.OrderDecidesError`; the exact conditions are in
  `TxProperties.MissingDataIff`).
- Starting a production run is refused when no parent is known and geth already has
  blocks; the source panics there, the model returns `UnknownParent`. A parent hash that
  geth does not know, or a parent without number, panics in the source and is
  `LookupFailed` here.

## Model

| member | source | states |
|---|---|---|
| Chunks.CutIsCut | rome-utils/src/iter.rs:1-14 | the chunks concatenate to the input, none is empty or longer than the size, and all but the last are full |
| Chunks.CutUnique | rome-utils/src/iter.rs:1-14 | those three conditions determine the chunking |
| Chunks.IntoChunks | rome-utils/src/iter.rs:1-14 | the draining loop produces exactly that chunking |
| Transmit.PieceAt | rome-evm-client/src/tx/transmit_tx.rs:56-75 | piece k is tagged with offset 800k and carries the RLP's bytes from there |
| Transmit.BatchRange | rome-evm-client/src/tx/transmit_tx.rs:82-100 | batch j carries consecutive bytes from 9600j on, up to the end of the RLP, never more than the permitted growth |
| Reassembly.IsDataComplete | rome-evm-client/src/indexer/parsers/default_tx_parser.rs:71-88 | the position loop answers whether the recorded pieces follow each other from offset 0 |
| Reassembly.CompleteIffTiles | rome-evm-client/src/indexer/parsers/default_tx_parser.rs:71-88 | the data is complete exactly if there is a piece at 0 and every piece is the last one or is followed by the next |
| Reassembly.UpdateAdds | rome-evm-client/src/indexer/parsers/default_tx_parser.rs:48-69 | registering a slice of a byte string adds its offset to what has arrived and leaves the buffer the image of the arrived slices |
| Reassembly.RoundTrip | rome-evm-client/src/indexer/parsers/default_tx_parser.rs:48-69 | for chunks of an RLP in any order, with any repeats and omissions, the holder equals the RLP on every arrived chunk, is zero elsewhere, and ends with the furthest chunk |
| Reassembly.CompleteIffInitialRun | rome-evm-client/src/indexer/parsers/default_tx_parser.rs:48-88 | the data is complete exactly if the arrived chunks are a non-empty gap-free initial run; the holder is then that prefix, and the whole RLP once all arrived |
| Reassembly.CommutesIffCompatible | rome-evm-client/src/indexer/parsers/default_tx_parser.rs:48-69 | two registrations commute from every state exactly if equal offsets carry equal data and overlaps agree |
| Reassembly.BatchGrowth | rome-evm-client/src/tx/transmit_tx.rs:82-100 | whatever part of a batch has landed after the earlier batches, the holder has grown by no more than the runtime permits |
| TxParser.DefaultTxParser.RegisterSlotTransactions | rome-evm-client/src/indexer/parsers/default_tx_parser.rs:124-211 | success leaves exactly the state of plain replacement, whatever the hash-map order, with the reported results spelled out; on failure names the rejected hash and what was registered before it |
| TxParser.DefaultTxParser.IsSlotComplete | rome-evm-client/src/indexer/parsers/default_tx_parser.rs:213-234 | true exactly if every hash of the slot that has a result is known and complete |
| TxParser.DefaultTxParser.FinalizeSlot | rome-evm-client/src/indexer/parsers/default_tx_parser.rs:236-261 | succeeds exactly if the slot is complete and decodable; fails with the error of one of its hashes, and if everything complete decodes it fails for missing data exactly if the slot is not complete; the list is ordered by first result index |
| TxParser.FirstResult | rome-evm-client/src/indexer/parsers/default_tx_parser.rs:236-261 | finds the lowest index of a hash that has a result, if any |
| TxProperties.MissingDataIff | rome-evm-client/src/indexer/parsers/default_tx_parser.rs:236-261 | a missing-data failure is possible exactly if the slot is not complete, a decoding failure exactly if something complete does not decode; so missing data is certain to be reported only if everything complete decodes |
| TxProperties.OrderDecidesError | rome-evm-client/src/indexer/parsers/default_tx_parser.rs:236-261 | a slot with one undecodable and one incomplete hash, on which either error can be returned |
| TxIndex.RegisteredReplaces | rome-evm-client/src/indexer/parsers/default_tx_parser.rs:129-210 | after a registration the slot records at each index what the new step there reports (a small or holder transaction its own result, a transmitted piece none), other slots are untouched |
| TxProperties.RegisteredListed | rome-evm-client/src/indexer/parsers/tx_parser.rs:24-31 | a registered hash that reports a result, and shares the index of its first one with no other hash, is in every finalized list with that result: the small transaction itself, or the decoded bytes of a holder |
| TxProperties.RegisteredSmall | rome-evm-client/src/indexer/parsers/default_tx_parser.rs:165-195 | a hash whose steps all carry one small transaction is that transaction afterwards |
| TxProperties.RegisterTwice | rome-evm-client/src/indexer/parsers/default_tx_parser.rs:124-211 | registering the same data again changes nothing in either index |
| TxProperties.RejectedIff | rome-evm-client/src/indexer/parsers/default_tx_parser.rs:165-195 | a hash rejects its steps exactly if a holder piece meets a small transaction |
| TxProperties.OneEntryEachIff | rome-evm-client/src/indexer/parsers/default_tx_parser.rs:236-261 | the finalized list has one entry for each hash with a result exactly if no two of them share the index of their first result; otherwise it is shorter |
| TxProperties.SharedIndexLosesOne | rome-evm-client/src/indexer/parsers/block_parser.rs:57-84 | a slot with two transactions of one Solana transaction, of which either may be lost |
| TxProperties.FinalizedUnique | rome-evm-client/src/indexer/parsers/default_tx_parser.rs:236-261 | without a shared index the finalized list is unique, so hash-map order cannot show |
| Replay.RegisteredSound | rome-evm-client/src/indexer/parsers/default_tx_parser.rs:124-211 | stored blocks whose hashes are of one kind with pieces of one byte string are accepted and keep the index sound |
| Replay.ReplayOrderFree | rome-evm-client/src/indexer/parsers/default_tx_parser.rs:124-211 | registering two lists of slots with the same members, in any order and with repeats, gives the same index |
| Replay.BackwardIsForward | rome-evm-client/src/indexer/parsers/block_parser.rs:640-677 | registering an ancestor segment newest-first gives the state of registering it oldest-first |
| BlockParser.BlockParser.Parse | rome-evm-client/src/indexer/parsers/block_parser.rs:640-677 | walks parents within its budget, ends in the replay of the visited segment, stops at the first ancestor that completes the slot, returns what an oldest-first replay of the segment finalizes unless something complete does not decode, and says which way it fails otherwise |
| TowerSafety.PopStep | rome-evm-client/src/tx/transmit_tx.rs:86-99 | popping from the reversed batches hands out the first batch not yet sent and leaves the others in order |
| Machines.TransmitTx.Ixs | rome-evm-client/src/tx/transmit_tx.rs:56-75 | threading the offset through the chunks gives the pieces of the RLP |
| Machines.TransmitTx.Advance | rome-evm-client/src/tx/transmit_tx.rs:81-102 | new state and answer are those of the transmit step function |
| Machines.AltTx.TxDataAlloc | rome-evm-client/src/tx/alt.rs:58-84 | takes the keys and cuts them into transactions that carry all of them, in order and once, 24 each and the rest in the last |
| Steps.AltIxsBuild | rome-evm-client/src/tx/alt.rs:58-84 | the table transactions are the one that gives up the old table and then those that carry exactly the keys |
| Machines.AltTx.Advance | rome-evm-client/src/tx/alt.rs:164-185 | new state and answer are those of the lookup table step function, errors leaving the state the source leaves |
| Machines.AtomicTx.Advance | rome-evm-client/src/tx/atomic.rs:80-93 | new state and answer are those of the step function |
| Machines.IterativeTx.Advance | rome-evm-client/src/tx/iterative.rs:113-139 | new state and answer are those of the step function |
| Machines.AtomicTxHolder.Advance | rome-evm-client/src/tx/atomic_holder.rs:56-76 | new state of both machines and answer are those of the step function |
| Machines.IterativeTxHolder.Advance | rome-evm-client/src/tx/iterative_holder.rs:87-127 | new state of both machines and answer are those of the step function |
| Machines.Iterable.AdvanceWithVersion | rome-evm-client/src/tx/atomic.rs:63-74 | execution steps of the own kind get the given version, all others pass through |
| Machines.AltComposed.Advance | rome-evm-client/src/tx/alt_composed.rs:37-53 | new state of all machines and answer are those of the composed step function |
| Machines.AltComposedHolder.Advance | rome-evm-client/src/tx/alt_composed_holder.rs:39-56 | new state of all machines and answer are those of the composed step function |
| TowerSafety.JoinSendsBoth | rome-evm-client/src/tx/alt_composed_holder.rs:68-84 | joining is defined exactly for the steps the two machines can meet in, sends what both send, and ends only if both end |
| Driver.ComposeIterable | rome-evm-client/src/tx/builder.rs:126-166 | builds fresh, separate objects in the initial state of the machine that `compose_iterable` chooses |
| Driver.SendAndConfirmTxIterable | rome-solana/src/tower.rs:135-241 | the driver loop on the objects produces exactly the trace, signatures, ending and final state of the run, and marks a step as confirmed exactly if its transactions landed, its slot was polled or its confirmation was positive |
| Driver.Handle | rome-solana/src/tower.rs:151-237 | one step is sent, its signatures collected, and the loop goes on exactly if everything that is checked landed |
| Tower.ContinuesIffConfirmed | rome-solana/src/tower.rs:151-237 | what going on means, on the turn: every transaction of a checked step landed, the slot was polled, the confirmation was positive |
| Tower.AdvanceDrops | rome-evm-client/src/tx/alt_composed_holder.rs:39-84 | every step but the end brings every machine nearer to its end, so runs are finite |
| TowerSafety.MachineStepped | rome-evm-client/src/tx/alt_composed_holder.rs:39-84 | one step from any reachable state sends the next unsent batch and table transactions, executes only when nothing is left, and keeps the state reachable |
| TowerSafety.EveryRunSendsOnce | rome-solana/src/tower.rs:135-241 | over everything any step sends: in every run the RLP's batches go out in order and at most once, as do the transactions that give up the old table and carry exactly the keys, and at most one step executes; a completed run did all of it exactly once |
| TowerSafety.EveryRunExecutesLast | rome-evm-client/src/tx/alt_composed_holder.rs:39-84 | an execution comes only after all batches and table transactions were sent and landed, in a step of its own kind, numbered from zero, as many as the emulation of that turn or the composed transaction says; with more than 28 keys it is a version 0 transaction on the table fetched on turn 1, otherwise a legacy one |
| TowerSafety.EveryRunConfirms | rome-solana/src/tower.rs:151-237 | for every event of every run: the loop went on exactly if all its checked transactions landed, its slot was polled, its poll confirmed; a run reports a failed send or a missing confirmation exactly if its last event is one where that is not so |
| TowerSafety.EveryRunEnds | rome-solana/src/tower.rs:135-241 | no unreachable, expect or unwrap fires, except for an emulation without virtual machine; a completed machine stays at the end, its iterative execution was confirmed by the poll of the last turn, and the signatures returned are those of all transactions that landed, in sending order |
| TowerProgress.WillingRunCompletes | rome-evm-client/src/tx/builder.rs:126-166 | if nothing fails up to the turn after the execution, the run reaches the end there, having executed on the turn given by the number of batches and the lookup table; it panics exactly if it is an iterative holder run whose emulation on that turn has no virtual machine |
| TowerProgress.RunProgresses | rome-evm-client/src/tx/alt_composed_holder.rs:39-84 | the same ending and length from every reachable state of every machine that has yet to execute |
| TowerProgress.FailsIffDeclined | rome-evm-client/src/tx/alt_composed_holder.rs:39-84 | on every reachable state, `advance` fails exactly if one of the answers asked for in that state is an error, and panics exactly if the transaction is due, no answer is an error and there is no virtual machine |
| TowerProgress.EveryFailureExplained | rome-solana/src/tower.rs:145-237 | a run that does not complete names what stopped it: an answer that its machine asked for on the turn behind the trace and on no earlier turn was refused, a virtual machine that was due there was missing, or on its last event a send did not land, a poll failed or a confirmation was missing |
| Delivery.CompletedSendsAll | rome-evm-client/src/tx/builder.rs:148-165 | a completed holder run has sent exactly the pieces of the RLP |
| Delivery.Delivered | rome-evm-client/src/indexer/parsers/default_tx_parser.rs:48-88 | an indexer that sees the pieces of a completed run, in any order with repeats, holds a complete transaction equal to the RLP |
| Delivery.WillingDelivery | rome-evm-client/src/indexer/parsers/default_tx_parser.rs:48-88 | when nothing fails up to the turn after the execution, that is what happens |
| Delivery.DeliveredToList | rome-evm-client/src/indexer/parsers/block_parser.rs:640-677 | if the registered blocks carry the pieces of a completed run and the parsed slot has a result for the transaction, every list finalized from the index holds the decoded RLP with that result, the one the slot's block reports, unless another transaction shares the index of its first result |
| BlockIds.ListIds | rome-evm-client/src/indexer/pending_blocks.rs:57-75 | nested iteration lists every id once, in the order of slot and index |
| Blocks.PendingBlocks.RetainAfter | rome-evm-client/src/indexer/pending_blocks.rs:34-47 | visits the slots and leaves the trimmed map |
| Blocks.RetainedKeeps | rome-evm-client/src/indexer/pending_blocks.rs:34-47 | exactly the later blocks stay, unchanged, and no empty slot entry appears |
| Blocks.ItemsSuffix | rome-evm-client/src/indexer/pending_blocks.rs:34-66 | trimming after the n-th pending block leaves exactly the rest of the iteration |
| Blocks.EmptyIffNoIds | rome-evm-client/src/indexer/pending_blocks.rs:24-26 | without empty slot entries, no entry means no pending block |
| Blocks.PendingBlocks.Iter | rome-evm-client/src/indexer/pending_blocks.rs:57-66 | the iteration yields every pending block with its slot's data, in order |
| Blocks.ProducedBlocks.Insert | rome-evm-client/src/indexer/produced_blocks.rs:42-47 | one block is added under its slot and index, no entry is left empty |
| Blocks.InsertedHas | rome-evm-client/src/indexer/produced_blocks.rs:42-47 | afterwards only that block's parameters differ, and only its slot may be new |
| Blocks.ProducedBlocks.LastKeyValue | rome-evm-client/src/indexer/produced_blocks.rs:36-40 | the greatest id with its parameters, or none exactly if nothing was produced |
| Producers.EngineAPIBlockProducer.ProduceBlocks | rome-evm-client/src/indexer/block_producers/engine_api_block_producer.rs:110-246 | a non-empty prefix of the pending blocks is built into the engine's chain on the parent, up to the first block that reaches the slot limit; every engine call gets the right parent, finalized pointer and payload, field by field; failures name the block |
| Producers.PayloadIffCarries | rome-evm-client/src/indexer/block_producers/engine_api_block_producer.rs:178-205 | the payload of a pending block is the one with its timestamp and gas recipient and, by ascending transaction index, each transaction with its gas price and the gas it used |
| Producers.StartsSo | rome-evm-client/src/indexer/block_producers/engine_api_block_producer.rs:118-170 | production starts exactly if the parent is known or geth's chain is empty; it builds on the block asked for, from the known finalized hash, or geth's, or the parent's on an empty chain, and finalizes up to the pending id only |
| Producers.SingleStateBlockProducer.ProduceBlocks | rome-evm-client/src/indexer/block_producers/single_state_block_producer.rs:39-71 | a prefix limited by the number of blocks, hash-linked, with each slot's hash and number |
| Producers.DummyBlockProducer.ProduceBlocks | rome-evm-client/src/client.rs:90-124 | a prefix limited by the number of slots, hash-linked, numbered consecutively from the shared counter |
| Producers.ChainUnique | rome-evm-client/src/indexer/block_producers/engine_api_block_producer.rs:173-234 | on one parent there is only one chain |
| Producers.RefusedIsLongest | rome-evm-client/src/indexer/block_producers/engine_api_block_producer.rs:225-232 | a chain the engine refuses to extend contains every other one |
| Producers.StopsMidSlot | rome-evm-client/src/indexer/produced_blocks.rs:19-21 | a batch cut short by the slot count ends with the first block of its last slot |
| Producers.PointerIsAncestor | rome-evm-client/src/indexer/block_producers/engine_api_block_producer.rs:163-217 | if the starting finalized hash is at or below the parent, every call's is at or below its parent |
| Producers.PointerFollows | rome-evm-client/src/indexer/block_producers/engine_api_block_producer.rs:175-217 | the pointer follows the produced blocks up to and including the pending id and rests on the last of them, or where it started |
| Production.EthereumBlockStorage.BlocksProduced | rome-evm-client/src/indexer/pg_storage/ethereum_block_storage.rs:689-717 | exactly the rows without parameters that are pending and produced get theirs |
| Production.StoredIsWritten | rome-evm-client/src/indexer/pg_storage/ethereum_block_storage.rs:697-703 | storing a batch of pending blocks writes each of its items at most once and no other row |
| Production.ProduceInBatches | rome-evm-client/src/indexer/rollup_indexer.rs:355-376 | the loop ends; on success the whole chain is stored and nothing is pending, on failure whole batches before the failing call are stored; it succeeds if every call may start and the engine never refuses, and otherwise fails with the error of the call that could not start or the block that was refused |
| Production.EveryCallBelowParent | rome-evm-client/src/indexer/block_producers/engine_api_block_producer.rs:163-217 | over all batches: if each producer call starts with a finalized hash at or below its parent, every engine call is given one at or below the parent it builds on |
| Production.BatchesRefineOneShot | rome-evm-client/src/indexer/rollup_indexer.rs:355-376 | for every batch size the stored chain and rows are those of one unlimited pass |
| Production.BatchesFailLikeOneShot | rome-evm-client/src/indexer/rollup_indexer.rs:355-376 | where the engine refuses a block, the single pass is refused at the same block and the batches stored a prefix of its chain |
| Production.EveryPendingOnce | rome-evm-client/src/indexer/pg_storage/migrations/2024-11-26-124439_eth_block/up.sql:138-150 | every pending row without parameters gets them once, each block naming the one before |
| Production.WrittenUnique | rome-evm-client/src/indexer/pg_storage/migrations/2024-11-26-124439_eth_block/up.sql:138-150 | what a write does to the table is determined by the items and their parameters |
| Production.GetBlocksParams | rome-evm-client/src/indexer/rollup_indexer.rs:420-442 | all requested parameters are collected under their numbers, or the call fails exactly if one is missing |
| Production.RestoreBlocks | rome-evm-client/src/indexer/rollup_indexer.rs:382-417 | the first pending blocks get the fetched blocks in ascending order of number, hash-linked from the stored parent, all or nothing; it fails exactly if a requested block is missing or the next fetched block names another parent |
| Production.RestoredConsecutive | rome-evm-client/src/indexer/rollup_indexer.rs:390-410 | if the producer answers with the requested numbers, the restored numbers are consecutive from the first one |
| Production.RestoreThenProduce | rome-evm-client/src/indexer/rollup_indexer.rs:341-376 | restoring blocks the producer once built and producing the rest on top gives the chain and the rows that producing everything gives |
| PendingRows.GetPendingBlocks | rome-evm-client/src/indexer/pg_storage/ethereum_block_storage.rs:484-540 | on consistent rows the result is what the set of rows says: pending blocks, parent hash and finalized block |
| PendingRows.AppendDescribes | rome-evm-client/src/indexer/pg_storage/ethereum_block_storage.rs:159-182 | appending a row adds exactly its transaction, keeping header and recipient of known entries |
| PendingRows.OrderDoesNotMatter | rome-evm-client/src/indexer/pg_storage/ethereum_block_storage.rs:484-540 | any two orders of the same rows load the same |
| PendingRows.LoadedHasNoEmptySlot | rome-evm-client/src/indexer/pg_storage/ethereum_block_storage.rs:159-182 | loaded pending blocks have no empty slot entry |
| SlotTable.Database.SetFinalizedSlot | rome-evm-client/src/indexer/pg_storage/migrations/2025-05-06-124637_fix_queries/up.sql:5-37 | exactly the open run of ancestors from the slot that has block data is flipped and returned, on any table |
| SlotTable.StaysClosedIffNoGap | rome-evm-client/src/indexer/pg_storage/migrations/2025-05-06-124637_fix_queries/up.sql:26-34 | finalization stays closed under ancestors exactly if no fork slot with data has an ancestor without data or status |
| SlotTable.FullTableHasNoGap | rome-evm-client/src/indexer/pg_storage/migrations/2025-05-06-124637_fix_queries/up.sql:26-34 | with data and status for every slot there is no gap, the whole fork is returned and the slot is finalized |
| SlotTable.GapBreaksClosure | rome-evm-client/src/indexer/pg_storage/migrations/2025-05-06-124637_fix_queries/up.sql:32-35 | two open slots, block data only for the newer: finalizing it leaves its parent open |
| SlotTable.OtherForksKept | rome-evm-client/src/indexer/pg_storage/migrations/2025-05-06-124637_fix_queries/up.sql:32-35 | slots off the fork, finalized ones and parent links are left alone |
| SlotTable.RepeatReturnsNothing | rome-evm-client/src/indexer/pg_storage/migrations/2025-05-06-124637_fix_queries/up.sql:5-37 | a second call returns nothing and changes nothing |
| SlotTable.ViewSlots | rome-evm-client/src/indexer/pg_storage/migrations/2025-05-06-124637_fix_queries/up.sql:42-86 | on any table the recursive view visits one chain of distinct parents from the highest slot with an Ethereum block |
| SlotTable.ViewUnique | rome-evm-client/src/indexer/pg_storage/migrations/2025-05-06-124637_fix_queries/up.sql:42-86 | the tables determine that chain, cycles of parents included |
| SlotTable.ViewEnds | rome-evm-client/src/indexer/pg_storage/migrations/2025-05-06-124637_fix_queries/up.sql:77-86 | with parents below children the chain ends at the first finalized slot with a produced block, or where stored slots end |
| EthBlocks.CreateEthBlocks | rome-evm-client/src/indexer/parsers/block_parser.rs:268-328 | every transaction is updated in place and the blocks are a grouping of the updated ones |
| EthBlocks.LogIndexCounts | rome-evm-client/src/indexer/parsers/block_parser.rs:268-328 | the log index a transaction is updated with counts all logs before it, or in engine mode those behind the last transaction that opened a block |
| EthBlocks.GroupingUnique | rome-evm-client/src/indexer/parsers/block_parser.rs:284-309 | there is only one grouping into maximal runs of one gas recipient |
| EthBlocks.GroupingConserves | rome-evm-client/src/indexer/parsers/block_parser.rs:280-327 | the blocks' hashes are the transactions' in order, gas is conserved, no block is empty, neighbours differ in recipient |
| Receipts.AllReceiptParams | rome-evm-client/src/indexer/pg_storage/transaction_storage.rs:212-231 | each transaction gets the gas and the number of logs before it |
| Receipts.NewReceipt | rome-evm-client/src/indexer/pg_storage/transaction_storage.rs:48-92 | cumulative gas and consecutive log indexes from the first one |
| Receipts.BlockReceipts | rome-evm-client/src/indexer/pg_storage/transaction_storage.rs:144-172 | the receipts of a produced block carry each transaction's index, gas, gas up to it, consecutive log indexes and status |
| Receipts.CumulativeGas | rome-evm-client/src/indexer/pg_storage/transaction_storage.rs:65-68 | cumulative gas is the sum up to and including the transaction |
| Receipts.LastIsBlockGas | rome-evm-client/src/indexer/parsers/block_parser.rs:280-325 | for every block of a grouping, the last receipt's cumulative gas is the gas the grouping recorded for that block |
| Receipts.LogIndexesAreConsecutive | rome-evm-client/src/indexer/pg_storage/transaction_storage.rs:70-92 | across a block the log indexes are 0, 1, 2, … without gap or repeat |
| HolderWalks.BitIsShift | rome-utils/src/holder/mod.rs:40-47 | index i is the bit of weight 2^i |
| HolderAllocator.ClaimKeeps | rome-utils/src/holder/mod.rs:43-66 | a successful claim takes an index nobody owned and changes only its bit |
| HolderAllocator.ClearKeeps | rome-utils/src/holder/mod.rs:96-105 | a successful drop clears exactly its own bit |
| HolderAllocator.DropSeesItsBit | rome-utils/src/holder/mod.rs:91-95 | the early exit of drop is never taken, however old the loaded value |
| HolderAllocator.StepKeeps | rome-utils/src/holder/mod.rs:35-107 | every atomic step of any agent keeps the invariant |
| HolderAllocator.EveryRun | rome-utils/src/holder/mod.rs:35-107 | in every reachable state a bit is set exactly if it was set initially or exactly one live holder owns it; no two live holders share an index |
| HolderWalks.EveryRunWalks | rome-utils/src/holder/mod.rs:35-72 | in every interleaved run a search passes over index k only if the value it loaded last has that bit, or if the bit was clear and the exchange met another value; it claims k after passing over exactly the k lower indexes and gives up only after all 64 |
| HolderWalks.EveryHolderWalked | rome-utils/src/holder/mod.rs:35-72 | in every reachable state the index of a live holder is the number of indexes its search passed over |
| HolderWalks.AloneTakesLowest | rome-utils/src/holder/mod.rs:35-72 | the run of one agent takes the lowest free index and gives up only if all are taken |
| HolderWalks.NeverStuck | rome-utils/src/holder/mod.rs:35-107 | in every reachable state every unfinished agent can take a step |
| HolderAllocator.EveryRunCountsHolders | rome-utils/src/holder/factory.rs:21-26 | on a word that starts empty, the number of set bits is the number of live holders, in every reachable state |
| HolderAllocator.AvailableHolders | rome-utils/src/holder/factory.rs:21-26 | the loop adds up exactly the set bits |
| HolderAllocator.Allocator.TryNew | rome-utils/src/holder/mod.rs:35-72 | without interference the lowest free index is taken, and none exactly if all are taken |
| HolderAllocator.Allocator.HoldAndRelease | rome-utils/src/holder/mod.rs:35-107 | without interference, taking a holder and dropping it leaves the word as it was |
| HolderAllocator.TakeAndDrop | rome-utils/src/holder/mod.rs:87-107 | taking a free index and dropping it restores the word |
| U256Rlp.Decode | rome-utils/src/rlp.rs:13-25 | accepts at most 32 bytes without leading zero and gives their big-endian value, otherwise the error the source gives |
| U256Rlp.EncodeDecode | rome-utils/src/rlp.rs:5-25 | decoding after encoding is the identity on all 256-bit values |
| U256Rlp.DecodeEncode | rome-utils/src/rlp.rs:5-25 | encoding after decoding is the identity on all accepted byte strings |

## Left out

- RPC, gRPC, Kafka, Celestia, configuration, telemetry, retries and pollers: I/O plumbing.
- The emulator, the EVM program's argument formats, signatures, hashing, RLP decoding of transactions and log parsing: parameters or opaque functions.
- The factor 1.2 on the number of iterations: a floating-point product; the count is part of the emulation's answer.
- Overflow panics of `U256` sums of gas and log counts, and of conversions to 64-bit values: sums are unbounded.
- `AtomicSvm`, cross-rollup and cross-chain transactions: variants of the atomic machine.
- Instruction contents other than the piece, key chunk or iteration number; signers; block hashes.
- `WaitNextSlot` polling: waiting succeeds or the RPC fails; an unbounded wait is not modelled. The wait may be replaced by a batch in `join_parallel`, so nothing is claimed about it.
- Calling `advance` again after an error: the tower never does.
- `Machines.IterativeTx.Advance`: instructions are counted, not stored.
- `EvmTx` is a value kept in a map, changed by replacement; aliasing of its buffer is not modelled.
- `DefaultTxParser::retain_from_slot`: drops data a newer slot may still name.
- `BlockParser.BlockParser.Parse`: retries for missing blocks, the deposit transaction in front of the list and the log parsing are not modelled.
- `RollupIndexer::run`, `parse_blocks_batch` and `reproduce_blocks`: reorg jumps and a comparison keyed by block number instead of index.
- `log_index` in receipts: it adds the position to an already advancing counter.
- `EthBlocks.CreateEthBlocks`: how a user deposit's hash changes is an arbitrary function of the transaction and the log index; in engine mode that index restarts behind the transaction that opens a block, as in the source.
- `Production.ProduceInBatches`: the finalized block of the parameters stays the same for all batches, as in the source; failures of the database are not modelled, nor which blocks geth no longer knows.
- `restore_or_produce_blocks`: the choice between the two. It restores only if storage is more than one block behind the producer; with exactly one block to restore it produces that block again instead, which by `Production.RestoreThenProduce` gives the same block.
- `Receipts.AllReceiptParams`: the update of the result rows by slot and hash is not modelled, only what is written.
- `PendingRows.GetPendingBlocks`: panics on corrupt data and decoding errors are one error.
- `SlotTable.ViewSlots`: the view's columns other than slots are not modelled, nor that a partly produced top slot returns only its unproduced blocks.
- `update_finalized_block2`, `store_blocks` and `clean_from_slot`: status assignment outside `set_finalized_slot`.
- `HolderAllocator.Allocator.TryNew`: covers the run without interference; the interleaved runs are those of the state machine. Memory orderings finer than a per-agent view of the word's modification order are not modelled.
- `rome-utils/src/lib.rs` does not declare the holder module; its file is modelled on its own.
