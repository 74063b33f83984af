/**
  What the tables hold, said without reference to the order in which they were
  filled: every table as a function of the plain list of blocks.
 */
module Ledger {
  import opened CryptonoteTypes
  import opened Store

  // --------------------------------------------------- the plain lists

  predicate NoDup<T(==)>(xs: seq<T>) {
    forall i, j | 0 <= i < j < |xs| :: xs[i] != xs[j]
  }

  /** The position of `x` in `xs`. */
  function Find<T(==)>(xs: seq<T>, x: T): (i: nat)
    requires x in xs
    ensures i < |xs| && xs[i] == x
  {
    if xs[|xs| - 1] == x then |xs| - 1 else Find(xs[..|xs| - 1], x)
  }

  /** A block with one transaction per listed hash. */
  type SizedEntry = e: Entry | |e.block.txHashes| == |e.txs| witness Entry(NULL_BLOCK, 0, 0, 0, [])

  /** A recorded transaction: its hash, itself, and the height of its block. */
  datatype TxRec = TxRec(hash: Hash, tx: Transaction, height: nat)

  function ItemRecs(items: seq<Listed>, height: nat): seq<TxRec> {
    seq(|items|, i requires 0 <= i < |items| => TxRec(items[i].hash, items[i].tx, height))
  }

  function EntryRecs(c: Crypto, e: SizedEntry, height: nat): seq<TxRec> {
    [TxRec(c.txHash(e.block.minerTx), e.block.minerTx, height)] + ItemRecs(ListedOf(e), height)
  }

  /** The transactions of a chain, block after block, the miner transaction of a block before its listed ones. */
  function Recs(c: Crypto, chain: seq<SizedEntry>): seq<TxRec> {
    if chain == [] then []
    else Recs(c, chain[..|chain| - 1]) + EntryRecs(c, chain[|chain| - 1], |chain| - 1)
  }

  function RecHashes(recs: seq<TxRec>): seq<Hash> {
    seq(|recs|, i requires 0 <= i < |recs| => recs[i].hash)
  }

  /** Every key image spent by the transactions, in order. */
  function SpentList(recs: seq<TxRec>): seq<KeyImage> {
    if recs == [] then [] else SpentList(recs[..|recs| - 1]) + ImageList(recs[|recs| - 1].tx.vin)
  }

  function BlockHashes(c: Crypto, chain: seq<SizedEntry>): seq<Hash> {
    seq(|chain|, i requires 0 <= i < |chain| => c.blockHash(chain[i].block))
  }

  /** An output as it is to be stored. */
  datatype OutRec = OutRec(
    hash: Hash, local: nat, amount: nat, key: Key, unlockTime: nat, height: nat, commitment: Key)

  function KeyOf(target: TxOutTarget): Key {
    match target case TxOutToKey(key) => key case _ => Key(0)
  }

  predicate Coinbase(tx: Transaction) {
    exists txin | txin in tx.vin :: txin.TxInGen?
  }

  /**
    Output `i` of a transaction. If some input is `txin_gen` it is stored with amount 0
    and a commitment to its amount, and otherwise with its amount and its mask.
   */
  function OutRecAt(c: Crypto, r: TxRec, i: nat): OutRec
    requires i < |r.tx.vout|
  {
    var out := r.tx.vout[i];
    var mask := if i < |r.tx.masks| then r.tx.masks[i] else Key(0);
    if Coinbase(r.tx)
    then OutRec(r.hash, i, 0, KeyOf(out.target), r.tx.unlockTime, r.height, c.zeroCommit(out.amount))
    else OutRec(r.hash, i, out.amount, KeyOf(out.target), r.tx.unlockTime, r.height, mask)
  }

  function OutRecs(c: Crypto, r: TxRec): seq<OutRec> {
    seq(|r.tx.vout|, i requires 0 <= i < |r.tx.vout| => OutRecAt(c, r, i))
  }

  function AllOuts(c: Crypto, recs: seq<TxRec>): seq<OutRec> {
    if recs == [] then [] else AllOuts(c, recs[..|recs| - 1]) + OutRecs(c, recs[|recs| - 1])
  }

  // -------------------------------------------------------- the tables

  /** A table filled in order, from key 0 on. */
  function Table<V>(xs: seq<V>): map<nat, V> {
    map k: nat | k < |xs| :: xs[k]
  }

  /** The outputs stored under `amount`, in order, each with its position among all outputs. */
  function Entries(outs: seq<OutRec>, amount: nat): seq<OutKey> {
    if outs == [] then []
    else
      var n := |outs| - 1;
      var o := outs[n];
      Entries(outs[..n], amount)
      + if o.amount == amount then [OutKey(n, o.key, o.unlockTime, o.height, o.commitment)] else []
  }

  function Amounts(outs: seq<OutRec>): set<nat> {
    set i | 0 <= i < |outs| :: outs[i].amount
  }

  lemma {:induction false} UsedAmount(outs: seq<OutRec>, amount: nat)
    ensures amount in Amounts(outs) <==> Entries(outs, amount) != []
  {
    if outs != [] {
      var n := |outs| - 1;
      UsedAmount(outs[..n], amount);
      assert Amounts(outs) == Amounts(outs[..n]) + {outs[n].amount};
    }
  }

  function AmountTableOf(outs: seq<OutRec>, amount: nat): AmountTable
    requires amount in Amounts(outs)
  {
    UsedAmount(outs, amount);
    var table := Table(Entries(outs, amount));
    assert 0 in table;
    table
  }

  function OutTxs(outs: seq<OutRec>): seq<OutTx> {
    seq(|outs|, i requires 0 <= i < |outs| => OutTx(outs[i].hash, outs[i].local))
  }

  function IndexOuts(outs: seq<OutRec>): OutputTables {
    OutputTables(Table(OutTxs(outs)), map amount | amount in Amounts(outs) :: AmountTableOf(outs, amount))
  }

  /** The amount index of each of `own`, when they are stored after `before`. */
  function Ranks(before: seq<OutRec>, own: seq<OutRec>): seq<nat> {
    seq(|own|, j requires 0 <= j < |own| => |Entries(before + own[..j], own[j].amount)|)
  }

  function RecTxs(recs: seq<TxRec>): seq<Transaction> {
    seq(|recs|, i requires 0 <= i < |recs| => recs[i].tx)
  }

  /** The amount indices of each transaction's outputs. */
  function RecRanks(c: Crypto, recs: seq<TxRec>): seq<seq<nat>> {
    seq(|recs|, i requires 0 <= i < |recs| => Ranks(AllOuts(c, recs[..i]), OutRecs(c, recs[i])))
  }

  function IndexTxs(c: Crypto, recs: seq<TxRec>): TxTables {
    var hashes := RecHashes(recs);
    TxTables(
      Table(RecTxs(recs)),
      map h | h in hashes :: var i := Find(hashes, h); TxData(i, recs[i].tx.unlockTime, recs[i].height),
      Table(RecRanks(c, recs)))
  }

  function Blocks(chain: seq<SizedEntry>): seq<Block> {
    seq(|chain|, i requires 0 <= i < |chain| => chain[i].block)
  }

  function Infos(c: Crypto, chain: seq<SizedEntry>): seq<BlockInfo> {
    seq(|chain|, i requires 0 <= i < |chain| =>
      BlockInfo(
        timestamp := chain[i].block.timestamp,
        coins := chain[i].coins,
        size := chain[i].size,
        difficulty := chain[i].difficulty,
        hash := c.blockHash(chain[i].block)))
  }

  function IndexBlocks(c: Crypto, chain: seq<SizedEntry>): BlockTables {
    var hashes := BlockHashes(c, chain);
    BlockTables(Table(Blocks(chain)), Table(Infos(c, chain)), map h | h in hashes :: Find(hashes, h))
  }

  /** The tables when the blocks are `chain` and the recorded transactions `recs`. */
  function IndexWith(c: Crypto, chain: seq<SizedEntry>, recs: seq<TxRec>): Tables {
    Tables(IndexBlocks(c, chain), IndexTxs(c, recs), IndexOuts(AllOuts(c, recs)), set image | image in SpentList(recs))
  }

  function Index(c: Crypto, chain: seq<SizedEntry>): Tables {
    IndexWith(c, chain, Recs(c, chain))
  }

  // ------------------------------------------------------ valid chains

  /** Every output pays to a key, and has a mask to store unless it is a coinbase output. */
  predicate Storable(tx: Transaction) {
    && (forall out | out in tx.vout :: out.target.TxOutToKey?)
    && (Coinbase(tx) || |tx.vout| <= |tx.masks|)
  }

  predicate ValidRecs(recs: seq<TxRec>) {
    && NoDup(RecHashes(recs))
    && NoDup(SpentList(recs))
    && forall i | 0 <= i < |recs| :: Storable(recs[i].tx)
  }

  /** Each block names the one below it as its parent, and no two have the same hash. */
  predicate ValidLinks(c: Crypto, chain: seq<SizedEntry>) {
    && NoDup(BlockHashes(c, chain))
    && forall i | 0 < i < |chain| :: chain[i].block.prevId == c.blockHash(chain[i - 1].block)
  }

  predicate ValidChain(c: Crypto, chain: seq<SizedEntry>) {
    ValidRecs(Recs(c, chain)) && ValidLinks(c, chain)
  }
}
