/**
  The tables refine the plain list of blocks: on tables that index a valid chain,
  `add_block` completes exactly when the longer chain is valid too, and then the
  tables index the longer chain.
 */
module Refinement {
  import opened CryptonoteTypes
  import opened Outcomes
  import opened Store
  import opened Reversal
  import opened Aborts
  import opened Ledger

  // ----------------------------------------------------- tables and lists

  lemma {:induction false} TableSize<V>(xs: seq<V>)
    ensures |Table(xs)| == |xs| && Appendable(Table(xs), |xs|)
  {
    if xs == [] {
      assert Table(xs).Keys == {};
    } else {
      var n := |xs| - 1;
      TableSize(xs[..n]);
      TableGrows(xs[..n], xs[n]);
      assert xs[..n] + [xs[n]] == xs;
    }
  }

  lemma TableGrows<V>(xs: seq<V>, x: V)
    ensures Table(xs + [x]) == Table(xs)[|xs| := x]
  {
  }

  lemma NoDupGrows<T>(xs: seq<T>, x: T)
    ensures NoDup(xs + [x]) <==> NoDup(xs) && x !in xs
  {
    var xs' := xs + [x];
    assert forall i | 0 <= i < |xs| :: xs'[i] == xs[i];
    if x in xs {
      var i :| 0 <= i < |xs| && xs[i] == x;
      assert xs'[i] == xs'[|xs|];
    }
  }

  /** The map from a list's elements to their positions. */
  lemma FindGrows<T>(xs: seq<T>, x: T, y: T)
    requires x !in xs && y in xs + [x]
    ensures Find(xs + [x], y) == if y == x then |xs| else Find(xs, y)
  {
    assert (xs + [x])[..|xs|] == xs;
  }

  // ---------------------------------------------------------------- outputs

  lemma EntriesGrow(outs: seq<OutRec>, o: OutRec, amount: nat)
    ensures Entries(outs + [o], amount)
         == Entries(outs, amount)
            + if o.amount == amount then [OutKey(|outs|, o.key, o.unlockTime, o.height, o.commitment)] else []
  {
    assert (outs + [o])[..|outs|] == outs;
  }

  lemma TableOfIndex(outs: seq<OutRec>, amount: nat)
    ensures TableOf(IndexOuts(outs), amount) == Table(Entries(outs, amount))
  {
    UsedAmount(outs, amount);
  }

  lemma UsedAmountsGrow(outs: seq<OutRec>, o: OutRec)
    ensures Amounts(outs + [o]) == Amounts(outs) + {o.amount}
  {
    var outs' := outs + [o];
    assert outs'[|outs|] == o;
    assert forall i | 0 <= i < |outs| :: outs'[i] == outs[i];
  }

  /** The table of the amount of `o`, with `o` as its last entry. */
  function OwnTable(outs: seq<OutRec>, o: OutRec): AmountTable {
    var entries := Entries(outs, o.amount);
    var table := Table(entries)[|entries| := OutKey(|outs|, o.key, o.unlockTime, o.height, o.commitment)];
    assert |entries| in table;
    table
  }

  lemma OwnTableGrows(outs: seq<OutRec>, o: OutRec)
    ensures Table(Entries(outs + [o], o.amount)) == OwnTable(outs, o)
  {
    EntriesGrow(outs, o, o.amount);
    TableGrows(Entries(outs, o.amount), OutKey(|outs|, o.key, o.unlockTime, o.height, o.commitment));
  }

  /** Storing one more output adds one entry to the table of its amount and leaves the others alone. */
  lemma AmountsGrow(outs: seq<OutRec>, o: OutRec)
    ensures IndexOuts(outs + [o]).amounts == IndexOuts(outs).amounts[o.amount := OwnTable(outs, o)]
  {
    var amounts, amounts' := IndexOuts(outs).amounts, IndexOuts(outs + [o]).amounts;
    UsedAmountsGrow(outs, o);
    forall amount | amount in amounts' ensures amounts'[amount] == amounts[o.amount := OwnTable(outs, o)][amount] {
      AmountAfter(outs, o, amount);
    }
    SameMaps(amounts', amounts[o.amount := OwnTable(outs, o)]);
  }

  lemma SameMaps<K, V>(m: map<K, V>, m': map<K, V>)
    requires m.Keys == m'.Keys && forall k | k in m :: m[k] == m'[k]
    ensures m == m'
  {
  }

  lemma AmountAfter(outs: seq<OutRec>, o: OutRec, amount: nat)
    requires amount in Amounts(outs + [o])
    ensures amount == o.amount || amount in Amounts(outs)
    ensures AmountTableOf(outs + [o], amount)
         == if amount == o.amount then OwnTable(outs, o) else AmountTableOf(outs, amount)
  {
    UsedAmountsGrow(outs, o);
    if amount == o.amount {
      OwnTableGrows(outs, o);
    } else {
      EntriesGrow(outs, o, amount);
    }
  }

  /** The call of `add_output` that stores `o`. */
  predicate Stores(n: NewOut, o: OutRec) {
    n == NewOut(o.hash, TxOut(o.amount, TxOutToKey(o.key)), o.local, o.unlockTime, o.height, o.commitment)
  }

  lemma AddOutputIndexes(outs: seq<OutRec>, o: OutRec, n: NewOut)
    requires Stores(n, o)
    ensures AddOutput(IndexOuts(outs), n) == Done(IndexOuts(outs + [o]), |Entries(outs, o.amount)|)
  {
    TableOfIndex(outs, o.amount);
    TableSize(Entries(outs, o.amount));
    OutTxsGrow(outs, o);
    AmountsGrow(outs, o);
  }

  lemma OutTxsGrow(outs: seq<OutRec>, o: OutRec)
    ensures |IndexOuts(outs).txs| == |outs| && Appendable(IndexOuts(outs).txs, |outs|)
    ensures IndexOuts(outs + [o]).txs == IndexOuts(outs).txs[|outs| := OutTx(o.hash, o.local)]
  {
    TableSize(OutTxs(outs));
    TableGrows(OutTxs(outs), OutTx(o.hash, o.local));
    assert OutTxs(outs + [o]) == OutTxs(outs) + [OutTx(o.hash, o.local)];
  }

  lemma FileOneIndexes(before: seq<OutRec>, own: seq<OutRec>, o: Option<NewOut>)
    requires own != [] && o.Some? && Stores(o.value, own[|own| - 1])
    ensures var front := own[..|own| - 1];
            FileOne(Filing(IndexOuts(before + front), Ranks(before, front)), o)
            == Done(Filing(IndexOuts(before + own), Ranks(before, own)), ())
  {
    AddOutputIndexes(before + own[..|own| - 1], own[|own| - 1], o.value);
    RanksGrow(before, own);
  }

  /** The output loop of `add_transaction`, on tables that index `before`. */
  lemma {:induction false} FileOutputsIndexes(before: seq<OutRec>, own: seq<OutRec>, news: seq<Option<NewOut>>)
    requires |own| == |news|
    requires forall i | 0 <= i < |own| :: news[i].Some? && Stores(news[i].value, own[i])
    ensures Forward(FileOne, Filing(IndexOuts(before), []), news)
         == Done(Filing(IndexOuts(before + own), Ranks(before, own)), ())
  {
    if own == [] {
      assert before + own == before && Ranks(before, own) == [];
    } else {
      var n := |own| - 1;
      FileOutputsIndexes(before, own[..n], news[..n]);
      FileOneIndexes(before, own, news[n]);
    }
  }

  lemma RanksGrow(before: seq<OutRec>, own: seq<OutRec>)
    requires own != []
    ensures var n := |own| - 1;
            && (before + own[..n]) + [own[n]] == before + own
            && Ranks(before, own) == Ranks(before, own[..n]) + [|Entries(before + own[..n], own[n].amount)|]
  {
    var n := |own| - 1;
    assert forall j | 0 <= j < n :: own[..n][..j] == own[..j];
  }

  // ----------------------------------------------------------- transactions

  lemma CoinbaseHasGen(tx: Transaction)
    ensures HasGen(tx.vin) <==> Coinbase(tx)
  {
    if HasGen(tx.vin) {
      var i :| 0 <= i < |tx.vin| && tx.vin[i].TxInGen?;
      assert tx.vin[i] in tx.vin;
    }
  }

  lemma NewOutsStore(c: Crypto, r: TxRec)
    requires Storable(r.tx)
    ensures |NewOuts(c, r.tx, r.hash, r.height)| == |OutRecs(c, r)|
    ensures forall i | 0 <= i < |OutRecs(c, r)| ::
              var call := NewOuts(c, r.tx, r.hash, r.height)[i];
              call.Some? && Stores(call.value, OutRecs(c, r)[i])
  {
    CoinbaseHasGen(r.tx);
    forall i | 0 <= i < |r.tx.vout|
      ensures var call := NewOuts(c, r.tx, r.hash, r.height)[i];
              call.Some? && Stores(call.value, OutRecs(c, r)[i])
    {
      assert r.tx.vout[i] in r.tx.vout;
    }
  }

  /** The output loop runs to its end only on a storable transaction, whatever the tables. */
  lemma FiledMeansStorable(c: Crypto, t: OutputTables, tx: Transaction, hash: Hash, height: nat)
    requires FileOutputs(c, t, tx, hash, height).Done?
    ensures Storable(tx)
  {
    var start, news := Filing(t, []), NewOuts(c, tx, hash, height);
    forall i | 0 <= i < |tx.vout|
      ensures news[i].Some? && tx.vout[i].target.TxOutToKey?
    {
      ForwardPrefix(FileOne, start, news, i + 1);
      assert news[..i + 1][..i] == news[..i];
      assert FileOne(Forward(FileOne, start, news[..i]).state, news[i]).Done?;
    }
    if !HasGen(tx.vin) && |tx.vout| > 0 {
      assert news[|tx.vout| - 1].Some?;
    }
    CoinbaseHasGen(tx);
  }

  lemma AllOutsGrow(c: Crypto, recs: seq<TxRec>, r: TxRec)
    ensures AllOuts(c, recs + [r]) == AllOuts(c, recs) + OutRecs(c, r)
    ensures SpentList(recs + [r]) == SpentList(recs) + ImageList(r.tx.vin)
    ensures RecHashes(recs + [r]) == RecHashes(recs) + [r.hash]
  {
    assert (recs + [r])[..|recs|] == recs;
  }

  lemma IndicesGrow(c: Crypto, recs: seq<TxRec>, r: TxRec)
    requires r.hash !in RecHashes(recs)
    ensures IndexTxs(c, recs + [r]).indices
         == IndexTxs(c, recs).indices[r.hash := TxData(|recs|, r.tx.unlockTime, r.height)]
  {
    var hashes, recs' := RecHashes(recs), recs + [r];
    assert RecHashes(recs') == hashes + [r.hash];
    forall h | h in hashes + [r.hash]
      ensures Find(hashes + [r.hash], h) == if h == r.hash then |recs| else Find(hashes, h)
      ensures h in hashes ==> recs'[Find(hashes, h)] == recs[Find(hashes, h)]
    {
      FindGrows(hashes, r.hash, h);
    }
  }

  lemma IndexTxsGrows(c: Crypto, recs: seq<TxRec>, r: TxRec)
    requires r.hash !in RecHashes(recs)
    ensures var t := IndexTxs(c, recs);
            IndexTxs(c, recs + [r])
            == TxTables(
                 t.txs[|recs| := r.tx],
                 t.indices[r.hash := TxData(|recs|, r.tx.unlockTime, r.height)],
                 t.outputs[|recs| := Ranks(AllOuts(c, recs), OutRecs(c, r))])
  {
    IndicesGrow(c, recs, r);
    TableGrows(RecTxs(recs), r.tx);
    assert RecTxs(recs + [r]) == RecTxs(recs) + [r.tx];
    RecRanksGrow(c, recs, r);
    TableGrows(RecRanks(c, recs), Ranks(AllOuts(c, recs), OutRecs(c, r)));
  }

  lemma RecRanksGrow(c: Crypto, recs: seq<TxRec>, r: TxRec)
    ensures RecRanks(c, recs + [r]) == RecRanks(c, recs) + [Ranks(AllOuts(c, recs), OutRecs(c, r))]
  {
    var recs' := recs + [r];
    var ranks, ranks' := RecRanks(c, recs), RecRanks(c, recs');
    forall i | 0 <= i < |recs| ensures ranks'[i] == ranks[i] {
      assert recs'[..i] == recs[..i];
    }
    assert recs'[..|recs|] == recs;
  }

  lemma RecordIndexes(c: Crypto, recs: seq<TxRec>, r: TxRec, s: Tables)
    requires s.txs == IndexTxs(c, recs) && s.outs == IndexOuts(AllOuts(c, recs)) && Height(s) == r.height
    requires r.hash !in RecHashes(recs) && Storable(r.tx)
    ensures RecordTransaction(c, s, r.tx, r.hash)
         == Done(s.(txs := IndexTxs(c, recs + [r]), outs := IndexOuts(AllOuts(c, recs + [r]))), true)
  {
    TableSize(RecTxs(recs));
    TableSize(RecRanks(c, recs));
    NewOutsStore(c, r);
    FileOutputsIndexes(AllOuts(c, recs), OutRecs(c, r), NewOuts(c, r.tx, r.hash, r.height));
    AllOutsGrow(c, recs, r);
    IndexTxsGrows(c, recs, r);
  }

  // ------------------------------------------------------------ key images

  lemma NoDupPrefix<T>(xs: seq<T>, ys: seq<T>)
    requires NoDup(xs + ys)
    ensures NoDup(xs)
  {
    assert forall i | 0 <= i < |xs| :: (xs + ys)[i] == xs[i];
  }

  /** The images of a transaction are fresh exactly when appending them to the spent ones repeats none. */
  lemma {:induction false} FreshIffNoDup(list: seq<KeyImage>, vin: seq<TxIn>)
    requires NoDup(list)
    ensures FreshInputs((set image | image in list), vin, 0, |vin|) <==> NoDup(list + ImageList(vin))
  {
    var spent := set image | image in list;
    if vin == [] {
      assert list + ImageList(vin) == list;
    } else {
      var n := |vin| - 1;
      var front, last := vin[..n], vin[n];
      FreshIffNoDup(list, front);
      FreshLast(spent, vin);
      if last.TxInToKey? {
        assert list + ImageList(vin) == (list + ImageList(front)) + [last.image];
        NoDupGrows(list + ImageList(front), last.image);
        ImagesAreInputs(front);
        assert last.image in list + ImageList(front) <==> last.image in spent || last.image in Images(front);
      }
    }
  }

  lemma FreshLast(spent: set<KeyImage>, vin: seq<TxIn>)
    requires vin != []
    ensures var n := |vin| - 1;
            FreshInputs(spent, vin, 0, |vin|) <==>
            && FreshInputs(spent, vin[..n], 0, n)
            && (vin[n].TxInToKey? ==> vin[n].image !in spent && vin[n].image !in Images(vin[..n]))
  {
    var n := |vin| - 1;
    var front := vin[..n];
    assert forall a | 0 <= a < n :: front[a] == vin[a];
    ImagesAreInputs(front);
    assert FreshInputs(spent, vin, 0, n) <==> FreshInputs(spent, front, 0, n);
  }

  // ------------------------------------------------- one transaction more

  lemma ValidRecsGrow(c: Crypto, recs: seq<TxRec>, r: TxRec)
    ensures ValidRecs(recs + [r]) <==>
            && ValidRecs(recs)
            && r.hash !in RecHashes(recs)
            && NoDup(SpentList(recs) + ImageList(r.tx.vin))
            && Storable(r.tx)
  {
    var recs' := recs + [r];
    AllOutsGrow(c, recs, r);
    NoDupGrows(RecHashes(recs), r.hash);
    if NoDup(SpentList(recs')) {
      NoDupPrefix(SpentList(recs), ImageList(r.tx.vin));
    }
    assert forall i | 0 <= i < |recs| :: recs'[i] == recs[i];
    assert recs'[|recs|] == r;
  }

  /** `add_transaction` on indexed tables: it completes exactly when the longer list is valid. */
  lemma AddOneIndexes(c: Crypto, chain: seq<SizedEntry>, recs: seq<TxRec>, item: Listed)
    requires ValidRecs(recs) && Supported(item.tx)
    ensures var recs' := recs + [TxRec(item.hash, item.tx, |chain|)];
            var added := AddOne(c, IndexWith(c, chain, recs), item);
            if ValidRecs(recs') then added == Done(IndexWith(c, chain, recs'), ()) else added.Threw?
  {
    var r, s := TxRec(item.hash, item.tx, |chain|), IndexWith(c, chain, recs);
    ValidRecsGrow(c, recs, r);
    FreshIffNoDup(SpentList(recs), item.tx.vin);
    ScanReaches(s.spent, item.tx.vin, 0, |item.tx.vin|);
    if NoDup(SpentList(recs) + ImageList(item.tx.vin)) {
      TableSize(Blocks(chain));
      SpentAfter(c, recs, r);
      var s' := s.(spent := s.spent + ImagesIn(item.tx.vin, 0, |item.tx.vin|));
      if r.hash !in RecHashes(recs) {
        RecordOrThrow(c, recs, r, s');
      }
    }
  }

  lemma SpentAfter(c: Crypto, recs: seq<TxRec>, r: TxRec)
    ensures (set image | image in SpentList(recs)) + ImagesIn(r.tx.vin, 0, |r.tx.vin|)
         == set image | image in SpentList(recs + [r])
  {
    AllOutsGrow(c, recs, r);
    ImagesAreInputs(r.tx.vin);
  }

  lemma RecordOrThrow(c: Crypto, recs: seq<TxRec>, r: TxRec, s: Tables)
    requires s.txs == IndexTxs(c, recs) && s.outs == IndexOuts(AllOuts(c, recs)) && Height(s) == r.height
    requires r.hash !in RecHashes(recs)
    ensures var recorded := RecordTransaction(c, s, r.tx, r.hash);
            if Storable(r.tx)
            then recorded == Done(s.(txs := IndexTxs(c, recs + [r]), outs := IndexOuts(AllOuts(c, recs + [r]))), true)
            else recorded.Threw?
  {
    if Storable(r.tx) {
      RecordIndexes(c, recs, r, s);
    } else if RecordTransaction(c, s, r.tx, r.hash).Done? {
      FiledMeansStorable(c, s.outs, r.tx, r.hash, r.height);
      assert false;
    }
  }

  lemma ItemRecsGrow(recs: seq<TxRec>, items: seq<Listed>, height: nat)
    requires items != []
    ensures var n := |items| - 1;
            recs + ItemRecs(items, height)
            == (recs + ItemRecs(items[..n], height)) + [TxRec(items[n].hash, items[n].tx, height)]
  {
  }

  lemma {:induction false} AddListedIndexes(
      c: Crypto, chain: seq<SizedEntry>, recs: seq<TxRec>, items: seq<Listed>)
    requires ValidRecs(recs) && forall i | 0 <= i < |items| :: Supported(items[i].tx)
    ensures var recs' := recs + ItemRecs(items, |chain|);
            var added := Forward(Adder(c), IndexWith(c, chain, recs), items);
            if ValidRecs(recs') then added == Done(IndexWith(c, chain, recs'), ()) else added.Threw?
  {
    if items == [] {
      assert recs + ItemRecs(items, |chain|) == recs;
    } else {
      var n := |items| - 1;
      var front, r := items[..n], TxRec(items[n].hash, items[n].tx, |chain|);
      AddListedIndexes(c, chain, recs, front);
      var mid := recs + ItemRecs(front, |chain|);
      ItemRecsGrow(recs, items, |chain|);
      ValidRecsGrow(c, mid, r);
      if ValidRecs(mid) {
        AddOneIndexes(c, chain, mid, items[n]);
      }
    }
  }

  // ------------------------------------------------------ one block more

  lemma RecsGrow(c: Crypto, chain: seq<SizedEntry>, e: SizedEntry)
    ensures Recs(c, chain + [e]) == Recs(c, chain) + EntryRecs(c, e, |chain|)
  {
    assert (chain + [e])[..|chain|] == chain;
  }

  lemma {:induction false} ValidRecsPrefix(c: Crypto, recs: seq<TxRec>, more: seq<TxRec>)
    requires ValidRecs(recs + more)
    ensures ValidRecs(recs)
    decreases |more|
  {
    if more == [] {
      assert recs + more == recs;
    } else {
      var n := |more| - 1;
      assert recs + more == (recs + more[..n]) + [more[n]];
      ValidRecsGrow(c, recs + more[..n], more[n]);
      ValidRecsPrefix(c, recs, more[..n]);
    }
  }

  lemma AddBlockTxsIndexes(c: Crypto, chain: seq<SizedEntry>, e: SizedEntry)
    requires ValidRecs(Recs(c, chain)) && AllSupported(e)
    ensures var recs := Recs(c, chain + [e]);
            var added := AddBlockTxs(c, Index(c, chain), e);
            if ValidRecs(recs) then added == Done(IndexWith(c, chain, recs), ()) else added.Threw?
  {
    var recs, miner := Recs(c, chain), MinerOf(c, e);
    var r, listed := TxRec(miner.hash, miner.tx, |chain|), ItemRecs(ListedOf(e), |chain|);
    RecsGrow(c, chain, e);
    assert Recs(c, chain + [e]) == (recs + [r]) + listed;
    AddOneIndexes(c, chain, recs, miner);
    if ValidRecs(recs + [r]) {
      AddListedIndexes(c, chain, recs + [r], ListedOf(e));
    } else if ValidRecs((recs + [r]) + listed) {
      ValidRecsPrefix(c, recs + [r], listed);
      assert false;
    }
  }

  lemma ValidLinksGrow(c: Crypto, chain: seq<SizedEntry>, e: SizedEntry)
    ensures BlockHashes(c, chain + [e]) == BlockHashes(c, chain) + [c.blockHash(e.block)]
    ensures ValidLinks(c, chain + [e]) <==>
            && ValidLinks(c, chain)
            && c.blockHash(e.block) !in BlockHashes(c, chain)
            && (chain != [] ==> e.block.prevId == c.blockHash(chain[|chain| - 1].block))
  {
    var chain' := chain + [e];
    assert BlockHashes(c, chain') == BlockHashes(c, chain) + [c.blockHash(e.block)];
    NoDupGrows(BlockHashes(c, chain), c.blockHash(e.block));
    assert forall i | 0 <= i < |chain| :: chain'[i] == chain[i];
    if chain != [] && ValidLinks(c, chain') {
      assert chain'[|chain|].block.prevId == c.blockHash(chain'[|chain| - 1].block);
    }
  }

  lemma IndexBlocksGrows(c: Crypto, chain: seq<SizedEntry>, e: SizedEntry)
    requires c.blockHash(e.block) !in BlockHashes(c, chain)
    ensures var t := IndexBlocks(c, chain);
            IndexBlocks(c, chain + [e])
            == BlockTables(
                 t.blocks[|chain| := e.block],
                 t.info[|chain| := InfoOf(c, e)],
                 t.heights[c.blockHash(e.block) := |chain|])
  {
    var hash, hashes := c.blockHash(e.block), BlockHashes(c, chain);
    ValidLinksGrow(c, chain, e);
    TableGrows(Blocks(chain), e.block);
    assert Blocks(chain + [e]) == Blocks(chain) + [e.block];
    TableGrows(Infos(c, chain), InfoOf(c, e));
    assert Infos(c, chain + [e]) == Infos(c, chain) + [InfoOf(c, e)];
    forall h | h in hashes + [hash]
      ensures Find(hashes + [hash], h) == if h == hash then |chain| else Find(hashes, h)
    {
      FindGrows(hashes, hash, h);
    }
  }

  /** With distinct hashes, the parent at height `n - 1` is the last block. */
  lemma FindLast<T>(xs: seq<T>, x: T)
    requires NoDup(xs) && xs != [] && x in xs
    ensures Find(xs, x) == |xs| - 1 <==> x == xs[|xs| - 1]
  {
  }

  lemma AddBlockRecordIndexes(c: Crypto, chain: seq<SizedEntry>, e: SizedEntry)
    requires ValidLinks(c, chain)
    ensures var added := AddBlockRecord(c, IndexBlocks(c, chain), e);
            if ValidLinks(c, chain + [e]) then added == Done(IndexBlocks(c, chain + [e]), ()) else added.Threw?
  {
    var t := IndexBlocks(c, chain);
    assert |t.blocks| == |chain| && Appendable(t.blocks, |chain|) && Appendable(t.info, |chain|) by {
      TableSize(Blocks(chain));
      TableSize(Infos(c, chain));
    }
    ValidLinksGrow(c, chain, e);
    if c.blockHash(e.block) !in BlockHashes(c, chain) {
      IndexBlocksGrows(c, chain, e);
      if chain != [] {
        ParentIsTop(c, chain, e.block.prevId);
      }
    }
  }

  /** The backend's check of the parent's height picks out the top block. */
  lemma ParentIsTop(c: Crypto, chain: seq<SizedEntry>, parent: Hash)
    requires NoDup(BlockHashes(c, chain)) && chain != []
    ensures var heights := IndexBlocks(c, chain).heights;
            parent in heights && heights[parent] == |chain| - 1 <==>
            parent == c.blockHash(chain[|chain| - 1].block)
  {
    var hashes := BlockHashes(c, chain);
    assert hashes[|chain| - 1] == c.blockHash(chain[|chain| - 1].block);
    if parent in hashes {
      FindLast(hashes, parent);
    }
  }

  /** `add_block` on tables that index a valid chain. */
  lemma AddBlockIndexes(c: Crypto, chain: seq<SizedEntry>, e: Entry)
    requires ValidChain(c, chain) && AllSupported(e)
    ensures var added := AddBlock(c, Index(c, chain), e);
            if |e.block.txHashes| == |e.txs| && ValidChain(c, chain + [e])
            then added == Done(Index(c, chain + [e]), |chain|)
            else added.Threw?
  {
    if |e.block.txHashes| == |e.txs| {
      TableSize(Blocks(chain));
      AddBlockTxsIndexes(c, chain, e);
      AddBlockRecordIndexes(c, chain, e);
    }
  }
}
