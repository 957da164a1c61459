/**
  Transactions and their parts, as every ledger component sees them
  (src/primitives/transaction.h).  Hashes are opaque; NULL_HASH is uint256(0).
*/
module Primitives {

  datatype Hash = Hash(code: nat)

  const NULL_HASH := Hash(0)

  type TxId = Hash

  /** A byte of a script or of a serialised stream. */
  type byte = b: int | 0 <= b < 256

  datatype Option<+T> = None | Some(value: T)

  datatype OutPoint = OutPoint(hash: TxId, n: nat)
  {
    /** The prevout of a coinbase input. */
    predicate IsNull() { hash == NULL_HASH && n == NULL_INDEX }
  }

  const NULL_INDEX: nat := 0xFFFF_FFFF

  const OP_RETURN: byte := 0x6a

  const COIN: nat := 100_000_000
  const MAX_MONEY: nat := 90_000_000 * COIN

  const MAX_BLOCK_SIGOPS: nat := 20_000_000 / 50

  /** nRounds of every output that has not been through the mixing code. */
  const NO_ROUNDS: int := -10

  /** An output.  Only the amount decides whether it is null. */
  datatype TxOut = TxOut(value: int, rounds: int, script: seq<byte>)
  {
    predicate IsNull() { value == -1 }

    predicate IsEmpty() { value == 0 && script == [] }

    predicate IsUnspendable() { |script| > 0 && script[0] == OP_RETURN }
  }

  const NULL_OUT := TxOut(-1, NO_ROUNDS, [])

  datatype Transaction = Transaction(id: TxId, version: int, time: int, vin: seq<OutPoint>, vout: seq<TxOut>)
  {
    predicate IsCoinBase() { |vin| == 1 && vin[0].IsNull() && |vout| >= 1 }

    predicate IsCoinStake() { |vin| > 0 && !vin[0].IsNull() && |vout| >= 2 && vout[0].IsEmpty() }
  }
}
