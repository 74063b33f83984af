/**
  How `add_block` refuses. For one transaction this is said of all tables; for a block, of
  the tables of a valid chain, where the plain list of blocks decides which exception is
  thrown and which tables it leaves behind.
 */
module Refusals {
  import opened CryptonoteTypes
  import opened Outcomes
  import opened Store
  import opened Reversal
  import opened Aborts
  import opened Ledger
  import opened Refinement
  import opened Positions

  // ------------------------------------------- one transaction, any tables

  /** Input `a` is the first whose image is spent already, before the transaction or in it. */
  predicate StaleAt(spent: set<KeyImage>, vin: seq<TxIn>, a: nat) {
    && a < |vin| && vin[a].TxInToKey? && FreshInputs(spent, vin, 0, a)
    && (vin[a].image in spent || vin[a].image in ImagesIn(vin, 0, a))
  }

  /** The first such input, when there is one before `k`. */
  function FirstStale(spent: set<KeyImage>, vin: seq<TxIn>, k: nat): (a: nat)
    requires k <= |vin| && !FreshInputs(spent, vin, 0, k)
    ensures a < k && StaleAt(spent, vin, a)
  {
    if FreshInputs(spent, vin, 0, k - 1) then k - 1 else FirstStale(spent, vin, k - 1)
  }

  /** From any tables, a spent image ends the call; the images before it stay spent, and nothing else changes. */
  lemma StaleImageRefused(c: Crypto, s: Tables, tx: Transaction, hash: Hash, a: nat)
    requires StaleAt(s.spent, tx.vin, a) && forall b | 0 <= b < a :: SupportedInput(tx.vin[b])
    ensures AddTransaction(c, s, tx, hash)
         == Threw(s.(spent := s.spent + ImagesIn(tx.vin, 0, a)), KeyImageExists)
  {
    ScanReaches(s.spent, tx.vin, 0, a);
  }

  lemma ScanPasses(spent: set<KeyImage>, tx: Transaction)
    requires Supported(tx) && FreshInputs(spent, tx.vin, 0, |tx.vin|)
    ensures ScanInputs(spent, tx.vin, 0) == Done(spent + Images(tx.vin), true)
  {
    ScanReaches(spent, tx.vin, 0, |tx.vin|);
    ImagesAreInputs(tx.vin);
  }

  /** From any tables, a known hash ends the call once the inputs have passed; their images stay spent. */
  lemma KnownHashRefused(c: Crypto, s: Tables, tx: Transaction, hash: Hash)
    requires Supported(tx) && FreshInputs(s.spent, tx.vin, 0, |tx.vin|) && hash in s.txs.indices
    ensures AddTransaction(c, s, tx, hash) == Threw(s.(spent := s.spent + Images(tx.vin)), TxExists)
  {
    ScanPasses(s.spent, tx);
  }

  /** The tables once inputs and hash have passed: images, hash and transaction are in. */
  function Begun(s: Tables, tx: Transaction, hash: Hash): Tables {
    var id := |s.txs.txs|;
    s.(spent := s.spent + Images(tx.vin),
       txs := s.txs.(indices := s.txs.indices[hash := TxData(id, tx.unlockTime, Height(s))],
                     txs := s.txs.txs[id := tx]))
  }

  /** From any tables with a gap among the ids, a new hash is entered before the call ends. */
  lemma GapRefused(c: Crypto, s: Tables, tx: Transaction, hash: Hash)
    requires Supported(tx) && FreshInputs(s.spent, tx.vin, 0, |tx.vin|) && hash !in s.txs.indices
    requires !Dense(s.txs.txs)
    ensures AddTransaction(c, s, tx, hash)
         == Threw(Begun(s, tx, hash).(txs := Begun(s, tx, hash).txs.(txs := s.txs.txs)), DbError)
  {
    ScanPasses(s.spent, tx);
    DenseIffAppendable(s.txs.txs);
  }

  /** From any tables: which outputs are stored, and what the others leave behind. */
  lemma AddOutputIff(t: OutputTables, o: NewOut)
    ensures AddOutput(t, o).Done? <==>
            o.out.target.TxOutToKey? && Dense(t.txs) && Dense(TableOf(t, o.out.amount))
    ensures AddOutput(t, o).Threw? ==>
              && AddOutput(t, o).error == DbError
              && AddOutput(t, o).state ==
                 if o.out.target.TxOutToKey? && Dense(t.txs) then t.(txs := t.txs[|t.txs| := OutTx(o.hash, o.local)])
                 else t
  {
    DenseIffAppendable(t.txs);
    DenseIffAppendable(TableOf(t, o.out.amount));
  }

  // ------------------------------------------------------------- outputs

  /** Output `i` pays to a key, and has a mask to store unless it is a coinbase output. */
  predicate StorableAt(tx: Transaction, i: nat) {
    i < |tx.vout| && tx.vout[i].target.TxOutToKey? && (Coinbase(tx) || i < |tx.masks|)
  }

  lemma StorableIff(tx: Transaction)
    ensures Storable(tx) <==> forall i | 0 <= i < |tx.vout| :: StorableAt(tx, i)
  {
    if forall i | 0 <= i < |tx.vout| :: StorableAt(tx, i) {
      forall out | out in tx.vout ensures out.target.TxOutToKey? {
        var i :| 0 <= i < |tx.vout| && tx.vout[i] == out;
        assert StorableAt(tx, i);
      }
      if tx.vout != [] {
        assert StorableAt(tx, |tx.vout| - 1);
      }
    }
    if Storable(tx) {
      forall i | 0 <= i < |tx.vout| ensures StorableAt(tx, i) {
        assert tx.vout[i] in tx.vout;
      }
    }
  }

  function UnstorableFrom(tx: Transaction, i: nat): (k: nat)
    requires i <= |tx.vout|
    ensures i <= k <= |tx.vout| && forall j | i <= j < k :: StorableAt(tx, j)
    ensures k < |tx.vout| ==> !StorableAt(tx, k)
    decreases |tx.vout| - i
  {
    if i == |tx.vout| || !StorableAt(tx, i) then i else UnstorableFrom(tx, i + 1)
  }

  /** The first output that cannot be stored. */
  function FirstUnstorable(tx: Transaction): (i: nat)
    requires !Storable(tx)
    ensures i < |tx.vout| && !StorableAt(tx, i) && forall j | 0 <= j < i :: StorableAt(tx, j)
  {
    StorableIff(tx);
    UnstorableFrom(tx, 0)
  }

  /** Undefined if its mask is missing, and a database error if it does not pay to a key. */
  function OutputError(tx: Transaction): Error
    requires !Storable(tx)
  {
    if !Coinbase(tx) && FirstUnstorable(tx) >= |tx.masks| then Undefined else DbError
  }

  lemma UnstorableThrows(c: Crypto, f: Filing, tx: Transaction, hash: Hash, height: nat)
    requires !Storable(tx)
    ensures FileOne(f, NewOuts(c, tx, hash, height)[FirstUnstorable(tx)]) == Threw(f, OutputError(tx))
  {
    CoinbaseHasGen(tx);
  }

  /** From any tables, the first output that cannot be stored ends the call; the ones before it stay filed. */
  lemma UnstorableRefused(c: Crypto, s: Tables, tx: Transaction, hash: Hash, f: Filing)
    requires Supported(tx) && FreshInputs(s.spent, tx.vin, 0, |tx.vin|) && hash !in s.txs.indices
    requires Dense(s.txs.txs) && !Storable(tx)
    requires Forward(FileOne, Filing(s.outs, []), NewOuts(c, tx, hash, Height(s))[..FirstUnstorable(tx)]) == Done(f, ())
    ensures AddTransaction(c, s, tx, hash) == Threw(Begun(s, tx, hash).(outs := f.tables), OutputError(tx))
  {
    ScanPasses(s.spent, tx);
    DenseIffAppendable(s.txs.txs);
    UnstorableThrows(c, f, tx, hash, Height(s));
    ForwardNext(FileOne, Filing(s.outs, []), NewOuts(c, tx, hash, Height(s)), FirstUnstorable(tx), f);
  }

  // ------------------------------------------- one transaction, on the list

  function SpentSet(recs: seq<TxRec>): set<KeyImage> {
    set image | image in SpentList(recs)
  }

  /** Why the transaction cannot follow the recorded ones; nothing if it can. */
  function TxError(recs: seq<TxRec>, r: TxRec): Option<Error> {
    if !NoDup(SpentList(recs) + ImageList(r.tx.vin)) then Some(KeyImageExists)
    else if r.hash in RecHashes(recs) then Some(TxExists)
    else if !Storable(r.tx) then Some(OutputError(r.tx))
    else None
  }

  lemma TxErrorIff(c: Crypto, recs: seq<TxRec>, r: TxRec)
    requires ValidRecs(recs)
    ensures TxError(recs, r).None? <==> ValidRecs(recs + [r])
  {
    ValidRecsGrow(c, recs, r);
  }

  lemma FreshOnList(recs: seq<TxRec>, vin: seq<TxIn>)
    requires ValidRecs(recs)
    ensures FreshInputs(SpentSet(recs), vin, 0, |vin|) <==> NoDup(SpentList(recs) + ImageList(vin))
  {
    FreshIffNoDup(SpentList(recs), vin);
  }

  /** The images that the refused transaction leaves spent. */
  function ImagesLeft(recs: seq<TxRec>, r: TxRec): set<KeyImage>
    requires ValidRecs(recs)
  {
    FreshOnList(recs, r.tx.vin);
    if NoDup(SpentList(recs) + ImageList(r.tx.vin)) then Images(r.tx.vin)
    else ImagesIn(r.tx.vin, 0, FirstStale(SpentSet(recs), r.tx.vin, |r.tx.vin|))
  }

  /** The tables that the refused transaction leaves behind. */
  function TxLeft(c: Crypto, chain: seq<SizedEntry>, recs: seq<TxRec>, r: TxRec): Tables
    requires ValidRecs(recs) && TxError(recs, r).Some?
  {
    var s, t := IndexWith(c, chain, recs), IndexTxs(c, recs);
    var spent := SpentSet(recs) + ImagesLeft(recs, r);
    if TxError(recs, r).value in {KeyImageExists, TxExists} then s.(spent := spent)
    else
      s.(spent := spent,
         txs := t.(txs := t.txs[|recs| := r.tx],
                   indices := t.indices[r.hash := TxData(|recs|, r.tx.unlockTime, r.height)]),
         outs := IndexOuts(AllOuts(c, recs) + OutRecs(c, r)[..FirstUnstorable(r.tx)]))
  }

  lemma FiledBefore(c: Crypto, before: seq<OutRec>, r: TxRec)
    requires !Storable(r.tx)
    ensures var i, own := FirstUnstorable(r.tx), OutRecs(c, r);
            Forward(FileOne, Filing(IndexOuts(before), []), NewOuts(c, r.tx, r.hash, r.height)[..i])
            == Done(Filing(IndexOuts(before + own[..i]), Ranks(before, own[..i])), ())
  {
    var i, news := FirstUnstorable(r.tx), NewOuts(c, r.tx, r.hash, r.height);
    CoinbaseHasGen(r.tx);
    forall j | 0 <= j < i ensures news[j].Some? && Stores(news[j].value, OutRecs(c, r)[j]) {
      assert StorableAt(r.tx, j);
    }
    FileOutputsIndexes(before, OutRecs(c, r)[..i], news[..i]);
  }

  /** On the tables of a valid chain, the list decides whether a transaction is refused, how, and what is left. */
  lemma AddOneRefused(c: Crypto, chain: seq<SizedEntry>, recs: seq<TxRec>, item: Listed)
    requires ValidRecs(recs) && Supported(item.tx) && TxError(recs, TxRec(item.hash, item.tx, |chain|)).Some?
    ensures var r := TxRec(item.hash, item.tx, |chain|);
            AddOne(c, IndexWith(c, chain, recs), item) == Threw(TxLeft(c, chain, recs, r), TxError(recs, r).value)
  {
    var r, s := TxRec(item.hash, item.tx, |chain|), IndexWith(c, chain, recs);
    FreshOnList(recs, r.tx.vin);
    if !NoDup(SpentList(recs) + ImageList(r.tx.vin)) {
      StaleImageRefused(c, s, r.tx, r.hash, FirstStale(s.spent, r.tx.vin, |r.tx.vin|));
    } else if r.hash in RecHashes(recs) {
      KnownHashRefused(c, s, r.tx, r.hash);
    } else {
      UnstorableOnList(c, chain, recs, r, s);
    }
  }

  lemma UnstorableOnList(c: Crypto, chain: seq<SizedEntry>, recs: seq<TxRec>, r: TxRec, s: Tables)
    requires ValidRecs(recs) && Supported(r.tx) && r.height == |chain| && s == IndexWith(c, chain, recs)
    requires NoDup(SpentList(recs) + ImageList(r.tx.vin)) && r.hash !in RecHashes(recs) && !Storable(r.tx)
    ensures AddTransaction(c, s, r.tx, r.hash) == Threw(TxLeft(c, chain, recs, r), OutputError(r.tx))
  {
    var i, outs := FirstUnstorable(r.tx), AllOuts(c, recs);
    FreshOnList(recs, r.tx.vin);
    TableDense(RecTxs(recs));
    TableSize(RecTxs(recs));
    TableSize(Blocks(chain));
    FiledBefore(c, outs, r);
    UnstorableRefused(
      c, s, r.tx, r.hash, Filing(IndexOuts(outs + OutRecs(c, r)[..i]), Ranks(outs, OutRecs(c, r)[..i])));
  }

  // ------------------------------------------------- a block, on the list

  function RefusedFrom(recs: seq<TxRec>, more: seq<TxRec>, i: nat): (k: nat)
    requires i <= |more|
    ensures i <= k <= |more| && forall j | i <= j < k :: TxError(recs + more[..j], more[j]).None?
    ensures k < |more| ==> TxError(recs + more[..k], more[k]).Some?
    decreases |more| - i
  {
    if i == |more| || TxError(recs + more[..i], more[i]).Some? then i else RefusedFrom(recs, more, i + 1)
  }

  /** The first of these transactions that cannot follow the ones before it; their number if all can. */
  function FirstRefused(recs: seq<TxRec>, more: seq<TxRec>): (k: nat)
    ensures k <= |more| && forall j | 0 <= j < k :: TxError(recs + more[..j], more[j]).None?
    ensures k < |more| ==> TxError(recs + more[..k], more[k]).Some?
  {
    RefusedFrom(recs, more, 0)
  }

  lemma {:induction false} ValidUpTo(c: Crypto, recs: seq<TxRec>, more: seq<TxRec>, k: nat)
    requires ValidRecs(recs) && k <= |more| && forall j | 0 <= j < k :: TxError(recs + more[..j], more[j]).None?
    ensures ValidRecs(recs + more[..k])
  {
    if k == 0 {
      assert recs + more[..k] == recs;
    } else {
      ValidUpTo(c, recs, more, k - 1);
      TxErrorIff(c, recs + more[..k - 1], more[k - 1]);
      assert recs + more[..k] == (recs + more[..k - 1]) + [more[k - 1]];
    }
  }

  /** Why the block cannot go onto the chain, once its transactions have. */
  function LinkError(c: Crypto, chain: seq<SizedEntry>, block: Block): Option<Error> {
    if c.blockHash(block) in BlockHashes(c, chain) then Some(BlockExists)
    else if chain != [] && block.prevId !in BlockHashes(c, chain) then Some(DbError)
    else if chain != [] && block.prevId != c.blockHash(chain[|chain| - 1].block) then Some(BlockParentDne)
    else None
  }

  /** Why the block is refused: a wrong number of transactions, the first bad one, or a bad link. */
  function BlockError(c: Crypto, chain: seq<SizedEntry>, e: Entry): Option<Error> {
    if |e.block.txHashes| != |e.txs| then Some(SizeMismatch)
    else
      var recs, more := Recs(c, chain), EntryRecs(c, e, |chain|);
      var k := FirstRefused(recs, more);
      if k < |more| then TxError(recs + more[..k], more[k]) else LinkError(c, chain, e.block)
  }

  /** The tables that the refused block leaves behind, before the backend rolls them back. */
  function BlockLeft(c: Crypto, chain: seq<SizedEntry>, e: Entry): Tables
    requires ValidChain(c, chain)
  {
    if |e.block.txHashes| != |e.txs| then Index(c, chain)
    else
      var recs, more := Recs(c, chain), EntryRecs(c, e, |chain|);
      var k := FirstRefused(recs, more);
      ValidUpTo(c, recs, more, k);
      if k < |more| then TxLeft(c, chain, recs + more[..k], more[k]) else IndexWith(c, chain, recs + more)
  }

  lemma LinkErrorIff(c: Crypto, chain: seq<SizedEntry>, e: SizedEntry)
    requires ValidLinks(c, chain)
    ensures LinkError(c, chain, e.block).None? <==> ValidLinks(c, chain + [e])
  {
    ValidLinksGrow(c, chain, e);
    if chain != [] {
      assert BlockHashes(c, chain)[|chain| - 1] == c.blockHash(chain[|chain| - 1].block);
    }
  }

  /** The list refuses exactly the blocks that would make it invalid. */
  lemma BlockErrorIff(c: Crypto, chain: seq<SizedEntry>, e: Entry)
    requires ValidChain(c, chain)
    ensures BlockError(c, chain, e).None? <==> |e.block.txHashes| == |e.txs| && ValidChain(c, chain + [e])
  {
    if |e.block.txHashes| == |e.txs| {
      var recs, more := Recs(c, chain), EntryRecs(c, e, |chain|);
      var k := FirstRefused(recs, more);
      RecsGrow(c, chain, e);
      LinkErrorIff(c, chain, e);
      ValidUpTo(c, recs, more, k);
      if k < |more| {
        TxErrorIff(c, recs + more[..k], more[k]);
        InvalidStays(c, recs, more, k);
      } else {
        assert more[..k] == more;
      }
    }
  }

  lemma InvalidStays(c: Crypto, recs: seq<TxRec>, more: seq<TxRec>, k: nat)
    requires k < |more| && !ValidRecs((recs + more[..k]) + [more[k]])
    ensures !ValidRecs(recs + more)
  {
    if ValidRecs(recs + more) {
      assert recs + more == ((recs + more[..k]) + [more[k]]) + more[k + 1..];
      ValidRecsPrefix(c, (recs + more[..k]) + [more[k]], more[k + 1..]);
    }
  }

  lemma ListedRefused(
      c: Crypto, chain: seq<SizedEntry>, recs: seq<TxRec>, items: seq<Listed>, i: nat, mid: seq<TxRec>)
    requires i < |items| && forall j | 0 <= j < |items| :: Supported(items[j].tx)
    requires ValidRecs(recs) && mid == recs + ItemRecs(items[..i], |chain|) && ValidRecs(mid)
    requires TxError(mid, TxRec(items[i].hash, items[i].tx, |chain|)).Some?
    ensures var r := TxRec(items[i].hash, items[i].tx, |chain|);
            Forward(Adder(c), IndexWith(c, chain, recs), items)
            == Threw(TxLeft(c, chain, mid, r), TxError(mid, r).value)
  {
    AddListedIndexes(c, chain, recs, items[..i]);
    AddOneRefused(c, chain, mid, items[i]);
    ForwardNext(Adder(c), IndexWith(c, chain, recs), items, i, IndexWith(c, chain, mid));
  }

  lemma EntryRecsUpTo(c: Crypto, recs: seq<TxRec>, e: SizedEntry, height: nat, k: nat)
    requires 0 < k <= |e.txs|
    ensures recs + EntryRecs(c, e, height)[..k]
         == (recs + [TxRec(MinerOf(c, e).hash, e.block.minerTx, height)]) + ItemRecs(ListedOf(e)[..k - 1], height)
    ensures EntryRecs(c, e, height)[k] == TxRec(ListedOf(e)[k - 1].hash, ListedOf(e)[k - 1].tx, height)
  {
  }

  /** A transaction of the block is refused: the miner transaction or a listed one. */
  lemma TxsRefused(c: Crypto, chain: seq<SizedEntry>, e: SizedEntry, k: nat, mid: seq<TxRec>, r: TxRec)
    requires ValidChain(c, chain) && AllSupported(e) && k < |EntryRecs(c, e, |chain|)|
    requires mid == Recs(c, chain) + EntryRecs(c, e, |chain|)[..k] && r == EntryRecs(c, e, |chain|)[k]
    requires ValidRecs(mid) && TxError(mid, r).Some?
    ensures AddBlockTxs(c, Index(c, chain), e) == Threw(TxLeft(c, chain, mid, r), TxError(mid, r).value)
  {
    var recs, miner := Recs(c, chain), MinerOf(c, e);
    if k == 0 {
      assert mid == recs;
      AddOneRefused(c, chain, recs, miner);
    } else {
      var first := TxRec(miner.hash, miner.tx, |chain|);
      EntryRecsUpTo(c, recs, e, |chain|, k);
      ValidRecsPrefix(c, recs + [first], ItemRecs(ListedOf(e)[..k - 1], |chain|));
      AddOneIndexes(c, chain, recs, miner);
      ListedRefused(c, chain, recs + [first], ListedOf(e), k - 1, mid);
    }
  }

  lemma RecordRefused(c: Crypto, chain: seq<SizedEntry>, e: SizedEntry)
    requires ValidLinks(c, chain) && LinkError(c, chain, e.block).Some?
    ensures AddBlockRecord(c, IndexBlocks(c, chain), e)
         == Threw(IndexBlocks(c, chain), LinkError(c, chain, e.block).value)
  {
    TableSize(Blocks(chain));
    if chain != [] {
      ParentIsTop(c, chain, e.block.prevId);
    }
  }

  /**
    On the tables of a valid chain, the list alone decides what becomes of a block of
    supported transactions: the tables of the longer chain and the position, or the
    exception and the tables that it leaves.
   */
  lemma AddBlockAnswers(c: Crypto, chain: seq<SizedEntry>, e: Entry)
    requires ValidChain(c, chain) && AllSupported(e)
    ensures AddBlock(c, Index(c, chain), e) ==
            if BlockError(c, chain, e).None? then Done(Index(c, chain + [e]), |chain|)
            else Threw(BlockLeft(c, chain, e), BlockError(c, chain, e).value)
  {
    BlockErrorIff(c, chain, e);
    AddBlockIndexes(c, chain, e);
    if |e.block.txHashes| == |e.txs| && BlockError(c, chain, e).Some? {
      var recs, more := Recs(c, chain), EntryRecs(c, e, |chain|);
      var k := FirstRefused(recs, more);
      ValidUpTo(c, recs, more, k);
      if k < |more| {
        TxsRefused(c, chain, e, k, recs + more[..k], more[k]);
      } else {
        assert more[..k] == more;
        RecsGrow(c, chain, e);
        AddBlockTxsIndexes(c, chain, e);
        RecordRefused(c, chain, e);
      }
    }
  }
}
