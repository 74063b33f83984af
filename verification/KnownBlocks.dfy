/**
  Blocks that are offered again. Their miner transaction is refused before the block is
  even looked at: `TX_EXISTS`, or `KEY_IMAGE_EXISTS` if it spends something.
 */
module KnownBlocks {
  import opened CryptonoteTypes
  import opened Outcomes
  import opened Store
  import opened Reversal
  import opened Aborts
  import opened Ledger
  import opened Refusals
  import opened Runs
  import opened SpentImages
  import opened LoggedRuns
  import opened HandedBack

  /** How a transaction is refused whose hash is known and whose images are spent. */
  function RepeatError(tx: Transaction): Error {
    if Images(tx.vin) == {} then TxExists else KeyImageExists
  }

  lemma RepeatedTxRefused(c: Crypto, s: Tables, tx: Transaction, hash: Hash)
    requires Supported(tx) && Images(tx.vin) <= s.spent && hash in s.txs.indices
    ensures AddTransaction(c, s, tx, hash) == Threw(s, RepeatError(tx))
  {
    ImagesAreInputs(tx.vin);
    assert forall b | 0 <= b < |tx.vin| && tx.vin[b].TxInToKey? :: tx.vin[b].image in Images(tx.vin);
    if Images(tx.vin) == {} {
      KnownHashRefused(c, s, tx, hash);
      assert s.spent + Images(tx.vin) == s.spent;
    } else {
      StaleFirst(s.spent, tx.vin);
      var a := FirstStale(s.spent, tx.vin, |tx.vin|);
      StaleImageRefused(c, s, tx, hash, a);
      assert s.spent + ImagesIn(tx.vin, 0, a) == s.spent;
    }
  }

  lemma StaleFirst(spent: set<KeyImage>, vin: seq<TxIn>)
    requires Images(vin) <= spent && Images(vin) != {}
    ensures !FreshInputs(spent, vin, 0, |vin|)
    ensures ImagesIn(vin, 0, FirstStale(spent, vin, |vin|)) == {}
  {
    ImagesAreInputs(vin);
    var image :| image in Images(vin);
    var k :| 0 <= k < |vin| && vin[k].TxInToKey? && vin[k].image == image;
    assert forall b | 0 <= b < |vin| && vin[b].TxInToKey? :: vin[b].image in spent;
  }

  lemma RepeatedBlockRefused(c: Crypto, s: Tables, e: SizedEntry)
    requires Supported(e.block.minerTx)
    requires Images(e.block.minerTx.vin) <= s.spent && c.txHash(e.block.minerTx) in s.txs.indices
    ensures AddBlock(c, s, e) == Threw(s, RepeatError(e.block.minerTx))
  {
    RepeatedTxRefused(c, s, e.block.minerTx, c.txHash(e.block.minerTx));
  }

  /** The miner transaction's hash and images are there. */
  ghost predicate HasMiner(c: Crypto, block: Block, s: Tables) {
    c.txHash(block.minerTx) in s.txs.indices && Images(block.minerTx.vin) <= s.spent
  }

  lemma SupportedSpends(c: Crypto, s: Tables, item: Listed)
    requires AddOne(c, s, item).Done? && Supported(item.tx)
    ensures AddOne(c, s, item).state.spent == s.spent + Images(item.tx.vin)
    ensures AddOne(c, s, item).state.txs.indices.Keys == s.txs.indices.Keys + {item.hash}
  {
    RecordedTables(c, s, item.tx, item.hash);
  }

  /** From any tables: the block just added is refused, and nothing changes. */
  lemma AddedTwice(c: Crypto, s: Tables, e: SizedEntry)
    requires AddBlock(c, s, e).Done? && AllSupported(e)
    ensures var s' := AddBlock(c, s, e).state;
            && AddBlock(c, s', e) == Threw(s', RepeatError(e.block.minerTx))
            && AddBlockAtomic(c, s', e) == Threw(s', RepeatError(e.block.minerTx))
  {
    var mid := AddedTxs(c, s, e);
    var has := (t: Tables) => HasMiner(c, e.block, t);
    SupportedSpends(c, s, MinerOf(c, e));
    forall t, item | item in ListedOf(e) && has(t) && Adder(c)(t, item).Done? ensures has(Adder(c)(t, item).state) {
      SupportedSpends(c, t, item);
    }
    ForwardKeeps(Adder(c), mid, ListedOf(e), has);
    RepeatedBlockRefused(c, AddBlock(c, s, e).state, e);
  }

  /** After any run of supported blocks, every block of the reported chain is refused in this way. */
  lemma KnownBlockRefused(c: Crypto, ops: seq<Op>, b: nat)
    requires SupportedOps(ops) && b < |CurrentChain(c, ops)|
    ensures var s, e := RunTables(c, EMPTY, ops).0, CurrentChain(c, ops)[b];
            StepTables(c, s, Add(e)) == (s, Refused(RepeatError(e.block.minerTx)))
  {
    var s, e := RunTables(c, EMPTY, ops).0, CurrentChain(c, ops)[b];
    var tx := e.block.minerTx;
    RecordedIffListed(c, ops, c.txHash(tx), tx);
    assert Lists(c, e, c.txHash(tx), tx);
    SupportedIsHarmless(ops);
    SpentDisjointUnion(c, ops);
    RunIsTraced(c, ops);
    assert Images(tx.vin) <= s.spent;
    RepeatedBlockRefused(c, s, e);
  }
}
