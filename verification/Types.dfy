/** Vocabulary shared by the indexer and the transaction machines. */
module Types {
  import opened Wrappers

  type Byte = b: nat | b < 256

  /** A 256-bit hash; only equality of hashes is ever used. */
  datatype H256 = H256(bits: nat)

  type Slot = nat

  /** A decoded Ethereum transaction: its hash and whatever else it carries. */
  datatype Transaction = Transaction(hash: H256, body: seq<Byte>)

  datatype Log = Log(address: nat, data: seq<Byte>)

  datatype GasReport = GasReport(gasValue: nat, gasPrice: nat, gasRecipient: Option<nat>)

  /** Outcome of one Ethereum transaction. */
  datatype TxResult = TxResult(exitCode: int, logs: seq<Log>, gasReport: GasReport)
}
