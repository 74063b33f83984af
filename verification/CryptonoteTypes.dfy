/**
  The entities that the block store handles: transactions, blocks, and the
  functions of them that the store calls but does not define.
 */
module CryptonoteTypes {

  datatype Hash = Hash(id: nat)
  datatype KeyImage = KeyImage(id: nat)
  datatype Key = Key(id: nat)

  datatype TxIn =
    | TxInGen(height: nat)
    | TxInToScript(prev: Hash, prevout: nat)
    | TxInToScriptHash(prev: Hash, prevout: nat)
    | TxInToKey(amount: nat, keyOffsets: seq<nat>, image: KeyImage)

  datatype TxOutTarget =
    | TxOutToScript(keys: seq<Key>)
    | TxOutToScriptHash(hash: Hash)
    | TxOutToKey(key: Key)

  datatype TxOut = TxOut(amount: nat, target: TxOutTarget)

  /** `masks[i]` stands for `rct_signatures.outPk[i].mask`. */
  datatype Transaction = Transaction(
    version: nat,
    unlockTime: nat,
    vin: seq<TxIn>,
    vout: seq<TxOut>,
    masks: seq<Key>)

  datatype Block = Block(
    timestamp: nat,
    prevId: Hash,
    nonce: nat,
    minerTx: Transaction,
    txHashes: seq<Hash>)

  /**
    Hashing and commitments. Every result below holds whatever these functions
    are; in particular none of them is taken to be injective.
   */
  datatype Crypto = Crypto(
    txHash: Transaction -> Hash,
    blockHash: Block -> Hash,
    zeroCommit: nat -> Key)

  const NULL_TX := Transaction(0, 0, [], [], [])
  const NULL_BLOCK := Block(0, Hash(0), 0, NULL_TX, [])

  /** `typeid(txin_to_key)` or `typeid(txin_gen)`: the input kinds the store accepts. */
  predicate SupportedInput(txin: TxIn) {
    txin.TxInToKey? || txin.TxInGen?
  }

  predicate Supported(tx: Transaction) {
    forall i | 0 <= i < |tx.vin| :: SupportedInput(tx.vin[i])
  }

  /** Some input is `txin_gen`: the flag `miner_tx` after the input loop. */
  predicate HasGen(vin: seq<TxIn>) {
    exists i | 0 <= i < |vin| :: vin[i].TxInGen?
  }

  /** The key images of the `txin_to_key` inputs, in order. */
  function ImageList(vin: seq<TxIn>): (images: seq<KeyImage>)
    ensures |images| <= |vin|
  {
    if vin == [] then []
    else
      var front := ImageList(vin[..|vin| - 1]);
      match vin[|vin| - 1]
      case TxInToKey(_, _, image) => front + [image]
      case _ => front
  }

  function Images(vin: seq<TxIn>): set<KeyImage> {
    set image | image in ImageList(vin)
  }
}
