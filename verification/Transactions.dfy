/** Parsed transactions: what the payload search, the classifier and the gate look at. */
module Transactions {
  import opened Bytes

  datatype OutPoint = OutPoint(txid: Bytes32, n: U32)

  datatype TxOut = TxOut(value: int, script: seq<Byte>)

  datatype Shielded = Shielded(spends: nat, outputs: nat, joinsplits: nat) {
    predicate Any() {
      spends > 0 || outputs > 0 || joinsplits > 0
    }
  }

  datatype Transaction = Transaction(vin: seq<OutPoint>, vout: seq<TxOut>, shielded: Shielded)
}
