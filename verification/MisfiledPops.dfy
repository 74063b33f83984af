/**
  Pops that a misfiled output stops. The block has been taken off the block tables by then,
  and the misfiled transaction is in the caller's vector: it goes there before its outputs
  are looked for.
 */
module MisfiledPops {
  import opened CryptonoteTypes
  import opened Outcomes
  import opened Store
  import opened Reversal
  import opened Aborts
  import opened Ledger
  import opened Refinement
  import opened Positions
  import opened Runs
  import opened LoggedRuns
  import opened MixedCoinbase
  import opened AbortedBlocks

  /**
    The last output of nonzero amount of `tx` is at `i`, and among the outputs `outs` there
    is none of that amount at the index where the backend looks for it.
   */
  predicate LooksInVain(outs: seq<OutRec>, tx: Transaction, i: nat) {
    !Coherent(tx) && LastNonzeroAt(tx, i) && |Entries(outs, tx.vout[i].amount)| <= |Entries(outs, 0)| + i
  }

  lemma SlotIsEmpty(c: Crypto, outs: seq<OutRec>, r: TxRec, own: seq<OutRec>, i: nat)
    requires LooksInVain(outs, r.tx, i) && own == OutRecs(c, r)
    ensures var slots := Slots(r.tx, Ranks(outs, own));
            ClearSlot(IndexOuts(outs + own[..i + 1]), slots[i]) == Threw(IndexOuts(outs + own[..i + 1]), OutputDne)
  {
    var amount := r.tx.vout[i].amount;
    MisfiledOutputHitsAnother(c, outs, r, own, i);
    MisfiledAmounts(c, r);
    OtherEntries(outs, own[..i + 1], amount);
    TableOfIndex(outs + own[..i + 1], amount);
  }

  lemma ClearingStops(c: Crypto, outs: seq<OutRec>, r: TxRec, own: seq<OutRec>, i: nat)
    requires LooksInVain(outs, r.tx, i) && own == OutRecs(c, r)
    ensures Backward(ClearSlot, IndexOuts(outs + own), Slots(r.tx, Ranks(outs, own)))
         == Threw(IndexOuts(outs + own[..i + 1]), OutputDne)
  {
    var slots := Slots(r.tx, Ranks(outs, own));
    LaterOutputsComeOff(c, outs, r, own, i);
    SlotIsEmpty(c, outs, r, own, i);
    BackwardNext(ClearSlot, IndexOuts(outs + own[..i + 1]), slots, i);
  }

  /** The tables that the removal of the newest transaction leaves: its images, itself and its last outputs are gone. */
  function PartlyRemoved(c: Crypto, s: Tables, recs: seq<TxRec>, r: TxRec, i: nat): Tables {
    s.(spent := s.spent - Images(r.tx.vin),
       txs := s.txs.(txs := s.txs.txs - {|recs|}),
       outs := IndexOuts(AllOuts(c, recs) + OutRecs(c, r)[..if i < |r.tx.vout| then i + 1 else 0]))
  }

  lemma RemovesUpTo(s: Tables, hash: Hash, id: nat, tx: Transaction, issued: seq<nat>, o: OutputTables)
    requires hash in s.txs.indices && s.txs.indices[hash].id == id && id in s.txs.txs && s.txs.txs[id] == tx
    requires id in s.txs.outputs && s.txs.outputs[id] == issued && issued != []
    requires Backward(ClearSlot, s.outs, Slots(tx, issued)) == Threw(o, OutputDne)
    ensures RemoveTransaction(s, hash)
         == Threw(s.(spent := s.spent - Images(tx.vin), txs := s.txs.(txs := s.txs.txs - {id}), outs := o), OutputDne)
  {
  }

  lemma RemovalStops(c: Crypto, s: Tables, recs: seq<TxRec>, r: TxRec, i: nat)
    requires ValidRecs(recs + [r]) && LooksInVain(AllOuts(c, recs), r.tx, i)
    requires s.txs == IndexTxs(c, recs + [r]) && s.outs == IndexOuts(AllOuts(c, recs + [r]))
    ensures GetTx(s.txs, r.hash) == Some(r.tx)
    ensures RemoveTransaction(s, r.hash) == Threw(PartlyRemoved(c, s, recs, r, i), OutputDne)
  {
    var outs, own := AllOuts(c, recs), OutRecs(c, r);
    assert (recs + [r])[|recs|] == r && (recs + [r])[..|recs|] == recs;
    RecIndexed(c, recs + [r], |recs|);
    assert s.outs == IndexOuts(outs + own) by {
      AllOutsGrow(c, recs, r);
    }
    ClearingStops(c, outs, r, own, i);
    RemovesUpTo(s, r.hash, |recs|, r.tx, Ranks(outs, own), IndexOuts(outs + own[..i + 1]));
  }

  // ---------------------------------------------------------- whole blocks

  lemma PopOneStops(c: Crypto, p: Popping, recs: seq<TxRec>, r: TxRec, i: nat)
    requires ValidRecs(recs + [r]) && LooksInVain(AllOuts(c, recs), r.tx, i)
    requires p.tables.txs == IndexTxs(c, recs + [r]) && p.tables.outs == IndexOuts(AllOuts(c, recs + [r]))
    ensures PopOne(p, r.hash) == Threw(Popping(PartlyRemoved(c, p.tables, recs, r, i), p.txs + [r.tx]), OutputDne)
  {
    RemovalStops(c, p.tables, recs, r, i);
  }

  lemma ItemRecsSplit(recs: seq<TxRec>, items: seq<Listed>, height: nat, k: nat)
    requires k <= |items|
    ensures recs + ItemRecs(items, height) == (recs + ItemRecs(items[..k], height)) + ItemRecs(items[k..], height)
  {
  }

  lemma OneMoreRec(recs: seq<TxRec>, items: seq<Listed>, height: nat, j: nat)
    requires j < |items|
    ensures recs + ItemRecs(items[..j + 1], height)
         == (recs + ItemRecs(items[..j], height)) + [TxRec(items[j].hash, items[j].tx, height)]
  {
    ItemRecsGrow(recs, items[..j + 1], height);
    assert items[..j + 1][..j] == items[..j];
  }

  /** On the tables of a list, the pop comes down to the tables of a shorter one. */
  lemma PopListedDownTo(
      c: Crypto, chain: seq<SizedEntry>, recs: seq<TxRec>, items: seq<Listed>, k: nat, out: seq<Transaction>)
    requires k <= |items| && forall j | k <= j < |items| :: Reversible(items[j].tx)
    requires forall j | 0 <= j < |items| :: Supported(items[j].tx)
    requires ValidRecs(recs) && ValidRecs(recs + ItemRecs(items, |chain|))
    ensures ValidRecs(recs + ItemRecs(items[..k], |chain|))
    ensures Backward(PopOne, Popping(IndexWith(c, chain, recs + ItemRecs(items, |chain|)), out), Hashes(items))
         == Backward(PopOne, Popping(IndexWith(c, chain, recs + ItemRecs(items[..k], |chain|)),
                                     out + Reversed(Txs(items[k..]))), Hashes(items[..k]))
  {
    ItemRecsSplit(recs, items, |chain|, k);
    ValidRecsPrefix(c, recs + ItemRecs(items[..k], |chain|), ItemRecs(items[k..], |chain|));
    AddListedIndexes(c, chain, recs, items);
    AddListedIndexes(c, chain, recs, items[..k]);
    PopListedBackTo(c, IndexWith(c, chain, recs), items, k, out);
  }

  lemma PopListedStopsAt(
      c: Crypto, chain: seq<SizedEntry>, recs: seq<TxRec>, items: seq<Listed>, j: nat, i: nat, out: seq<Transaction>)
    requires j < |items| && forall k | j < k < |items| :: Reversible(items[k].tx)
    requires forall k | 0 <= k < |items| :: Supported(items[k].tx)
    requires ValidRecs(recs) && ValidRecs(recs + ItemRecs(items, |chain|))
    requires LooksInVain(AllOuts(c, recs + ItemRecs(items[..j], |chain|)), items[j].tx, i)
    ensures var s, below := IndexWith(c, chain, recs + ItemRecs(items, |chain|)), recs + ItemRecs(items[..j], |chain|);
            var r := TxRec(items[j].hash, items[j].tx, |chain|);
            Backward(PopOne, Popping(s, out), Hashes(items))
            == Threw(Popping(PartlyRemoved(c, IndexWith(c, chain, below + [r]), below, r, i),
                             out + Reversed(Txs(items[j..]))), OutputDne)
  {
    var below, r := recs + ItemRecs(items[..j], |chain|), TxRec(items[j].hash, items[j].tx, |chain|);
    OneMoreRec(recs, items, |chain|, j);
    PopListedDownTo(c, chain, recs, items, j + 1, out);
    StopsHere(c, IndexWith(c, chain, below + [r]), below, r, items, j, i, out);
  }

  lemma StopsHere(
      c: Crypto, s: Tables, below: seq<TxRec>, r: TxRec, items: seq<Listed>, j: nat, i: nat, out: seq<Transaction>)
    requires ValidRecs(below + [r]) && LooksInVain(AllOuts(c, below), r.tx, i)
    requires s.txs == IndexTxs(c, below + [r]) && s.outs == IndexOuts(AllOuts(c, below + [r]))
    requires j < |items| && r.hash == items[j].hash && r.tx == items[j].tx
    ensures Backward(PopOne, Popping(s, out + Reversed(Txs(items[j + 1..]))), Hashes(items[..j + 1]))
         == Threw(Popping(PartlyRemoved(c, s, below, r, i), out + Reversed(Txs(items[j..]))), OutputDne)
  {
    var p := Popping(s, out + Reversed(Txs(items[j + 1..])));
    PopOneStops(c, p, below, r, i);
    StopsAtLast(p, items, j, PopOne(p, r.hash));
    OneMoreReversed(items, j, out);
  }

  lemma StopsAtLast(p: Popping, items: seq<Listed>, j: nat, popped: Outcome<Popping, ()>)
    requires j < |items| && popped == PopOne(p, items[j].hash) && popped.Threw?
    ensures Backward(PopOne, p, Hashes(items[..j + 1])) == popped
  {
    var hashes := Hashes(items[..j + 1]);
    assert hashes[|hashes| - 1] == items[j].hash;
  }

  lemma OneMoreReversed(items: seq<Listed>, j: nat, out: seq<Transaction>)
    requires j < |items|
    ensures (out + Reversed(Txs(items[j + 1..]))) + [items[j].tx] == out + Reversed(Txs(items[j..]))
  {
    assert Txs(items[j..]) == [items[j].tx] + Txs(items[j + 1..]);
    ReversedConcat([items[j].tx], Txs(items[j + 1..]));
    assert Reversed([items[j].tx]) == [items[j].tx];
  }

  /** The records of the block up to the listed transaction `j`. */
  function RecsUpTo(c: Crypto, chain: seq<SizedEntry>, e: SizedEntry, j: nat): seq<TxRec>
    requires j <= |e.txs|
  {
    Recs(c, chain) + EntryRecs(c, e, |chain|)[..j + 1]
  }

  lemma RecsUpToListed(c: Crypto, chain: seq<SizedEntry>, e: SizedEntry, j: nat)
    requires j <= |e.txs|
    ensures RecsUpTo(c, chain, e, j)
         == (Recs(c, chain) + [MinerRec(c, e, |chain|)]) + ItemRecs(ListedOf(e)[..j], |chain|)
  {
  }

  /**
    Popping a block whose last misfiled transaction is the listed one at `j`, when the output
    is looked for in vain: `OUTPUT_DNE`. What was listed from `j` on is in the vector, and
    the backend takes only the tables back.
   */
  lemma PopStopsAtMisfiled(
      c: Crypto, chain: seq<SizedEntry>, e: SizedEntry, j: nat, i: nat, out: seq<Transaction>)
    requires ValidChain(c, chain + [e]) && AllSupported(e)
    requires j < |e.txs| && forall k | j < k < |e.txs| :: Coherent(e.txs[k])
    requires LooksInVain(AllOuts(c, RecsUpTo(c, chain, e, j)), e.txs[j], i)
    ensures var s, recs := Index(c, chain + [e]), RecsUpTo(c, chain, e, j);
            var r := TxRec(e.block.txHashes[j], e.txs[j], |chain|);
            var left := PartlyRemoved(c, IndexWith(c, chain, recs + [r]), recs, r, i);
            && PopBlock(c, Popping(s, out)) == Threw(Popping(left, out + Reversed(e.txs[j..])), OutputDne)
            && PopBlockAtomic(c, Popping(s, out)) == Threw(Popping(s, out + Reversed(e.txs[j..])), OutputDne)
  {
    var recs, items := Recs(c, chain) + [MinerRec(c, e, |chain|)], ListedOf(e);
    RecsOfTop(c, chain, e);
    RecsUpToListed(c, chain, e, j);
    ValidRecsPrefix(c, recs, ItemRecs(items, |chain|));
    PopListedStopsAt(c, chain, recs, items, j, i, out);
    ListedParts(e, j);
    PopBlockOf(c, chain + [e], Index(c, chain + [e]), out);
    assert (chain + [e])[..|chain|] == chain;
  }

  /** The same when only the miner transaction is misfiled: then all listed transactions are in the vector. */
  lemma PopStopsAtMisfiledMiner(c: Crypto, chain: seq<SizedEntry>, e: SizedEntry, i: nat, out: seq<Transaction>)
    requires ValidChain(c, chain + [e]) && AllSupported(e) && forall k | 0 <= k < |e.txs| :: Coherent(e.txs[k])
    requires LooksInVain(AllOuts(c, Recs(c, chain)), e.block.minerTx, i)
    ensures var s, recs, r := Index(c, chain + [e]), Recs(c, chain), MinerRec(c, e, |chain|);
            var left := PartlyRemoved(c, IndexWith(c, chain, recs + [r]), recs, r, i);
            && PopBlock(c, Popping(s, out)) == Threw(Popping(left, out + Reversed(e.txs)), OutputDne)
            && PopBlockAtomic(c, Popping(s, out)) == Threw(Popping(s, out + Reversed(e.txs)), OutputDne)
  {
    var recs, r, s := Recs(c, chain), MinerRec(c, e, |chain|), Index(c, chain + [e]);
    ListedComeOff(c, chain, e, out);
    PopBlockOf(c, chain + [e], s, out);
    assert (chain + [e])[..|chain|] == chain;
    MinerStops(c, chain, recs, r, i, Popping(s.(blocks := IndexBlocks(c, chain)), out), e);
  }

  lemma ListedComeOff(c: Crypto, chain: seq<SizedEntry>, e: SizedEntry, out: seq<Transaction>)
    requires ValidChain(c, chain + [e]) && AllSupported(e) && forall k | 0 <= k < |e.txs| :: Coherent(e.txs[k])
    ensures var recs := Recs(c, chain) + [MinerRec(c, e, |chain|)];
            && ValidRecs(recs)
            && Backward(PopOne, Popping(Index(c, chain + [e]).(blocks := IndexBlocks(c, chain)), out), e.block.txHashes)
               == Done(Popping(IndexWith(c, chain, recs), out + Reversed(e.txs)), ())
  {
    var recs, items := Recs(c, chain) + [MinerRec(c, e, |chain|)], ListedOf(e);
    RecsOfTop(c, chain, e);
    ValidRecsPrefix(c, recs, ItemRecs(items, |chain|));
    AllComeOff(c, chain, recs, items, out);
    ListedParts(e, 0);
    assert items[0..] == items;
  }

  lemma AllComeOff(c: Crypto, chain: seq<SizedEntry>, recs: seq<TxRec>, items: seq<Listed>, out: seq<Transaction>)
    requires forall j | 0 <= j < |items| :: Reversible(items[j].tx)
    requires ValidRecs(recs) && ValidRecs(recs + ItemRecs(items, |chain|))
    ensures Backward(PopOne, Popping(IndexWith(c, chain, recs + ItemRecs(items, |chain|)), out), Hashes(items))
         == Done(Popping(IndexWith(c, chain, recs), out + Reversed(Txs(items[0..]))), ())
  {
    NothingLeft(recs, items, |chain|);
    PopListedDownTo(c, chain, recs, items, 0, out);
  }

  lemma NothingLeft(recs: seq<TxRec>, items: seq<Listed>, height: nat)
    ensures recs + ItemRecs(items[..0], height) == recs && Hashes(items[..0]) == []
  {
  }

  lemma MinerStops(
      c: Crypto, chain: seq<SizedEntry>, recs: seq<TxRec>, r: TxRec, i: nat, p: Popping, e: SizedEntry)
    requires ValidRecs(recs + [r]) && LooksInVain(AllOuts(c, recs), r.tx, i) && r == MinerRec(c, e, |chain|)
    requires Backward(PopOne, p, e.block.txHashes)
          == Done(Popping(IndexWith(c, chain, recs + [r]), p.txs + Reversed(e.txs)), ())
    ensures PopBlockTxs(c, p, e.block)
         == Threw(Popping(PartlyRemoved(c, IndexWith(c, chain, recs + [r]), recs, r, i), p.txs + Reversed(e.txs)),
                  OutputDne)
  {
    RemovalStops(c, IndexWith(c, chain, recs + [r]), recs, r, i);
  }

  // ------------------------------------------------------------ at an input

  /** A block that lists the misfiled transaction of `MixedCoinbase`. */
  function ListingEntry(c: Crypto): SizedEntry {
    Entry(Block(0, Hash(0), 0, MINER_TX, [HashFor(c, 0)]), 0, 0, 0, [MIXED_TX])
  }

  lemma ListingRecs(c: Crypto)
    ensures Recs(c, [ListingEntry(c)]) == [TxRec(c.txHash(MINER_TX), MINER_TX, 0)] + [TxRec(HashFor(c, 0), MIXED_TX, 0)]
    ensures RecsUpTo(c, [], ListingEntry(c), 0) == [TxRec(c.txHash(MINER_TX), MINER_TX, 0)]
  {
    var e := ListingEntry(c);
    RecsGrow(c, [], e);
    assert [] + [e] == [e];
    assert ItemRecs(ListedOf(e), 0) == [TxRec(HashFor(c, 0), MIXED_TX, 0)];
  }

  lemma ListingIsValid(c: Crypto)
    ensures ValidChain(c, [ListingEntry(c)])
  {
    var e, r, r' := ListingEntry(c), TxRec(c.txHash(MINER_TX), MINER_TX, 0), TxRec(HashFor(c, 0), MIXED_TX, 0);
    ListingRecs(c);
    MixedIsIrreversible();
    assert [] + [r] == [r] && [] + [e] == [e];
    assert ImageList(MINER_TX.vin) == [] && MINER_TX.vin[0] in MINER_TX.vin;
    ValidRecsGrow(c, [], r);
    assert SpentList([]) + ImageList(MINER_TX.vin) == [];
    ValidRecsGrow(c, [r], r');
    assert ImageList(MIXED_TX.vin[..1]) == [];
    assert SpentList([r]) + ImageList(MIXED_TX.vin) == [KeyImage(1)];
    ValidLinksGrow(c, [], e);
  }

  lemma ListingGoesIn(c: Crypto)
    ensures AllSupported(ListingEntry(c)) && AddBlock(c, EMPTY, ListingEntry(c)) == Done(Index(c, [ListingEntry(c)]), 0)
  {
    var none: seq<SizedEntry> := [];
    ListingIsValid(c);
    MixedIsIrreversible();
    EmptyIndex(c);
    assert none + [ListingEntry(c)] == [ListingEntry(c)];
    AddBlockIndexes(c, none, ListingEntry(c));
  }

  lemma ListingLooksInVain(c: Crypto)
    ensures LooksInVain(AllOuts(c, RecsUpTo(c, [], ListingEntry(c), 0)), MIXED_TX, 0)
  {
    var r := TxRec(c.txHash(MINER_TX), MINER_TX, 0);
    ListingRecs(c);
    MixedIsIrreversible();
    assert AllOuts(c, [r]) == [] by {
      assert [] + [r] == [r];
      AllOutsGrow(c, [], r);
    }
  }

  lemma ListingStops(c: Crypto, out: seq<Transaction>)
    requires ValidChain(c, [ListingEntry(c)]) && AllSupported(ListingEntry(c))
    requires LooksInVain(AllOuts(c, RecsUpTo(c, [], ListingEntry(c), 0)), MIXED_TX, 0)
    ensures var s := Index(c, [ListingEntry(c)]);
            PopBlockAtomic(c, Popping(s, out)) == Threw(Popping(s, out + [MIXED_TX]), OutputDne)
  {
    var none: seq<SizedEntry> := [];
    var e := ListingEntry(c);
    assert none + [e] == [e];
    PopStopsAtMisfiled(c, none, e, 0, 0, out);
    assert Reversed(e.txs[0..]) == [MIXED_TX];
  }

  /** The pop ends with `OUTPUT_DNE`. The tables stay as they were, and the vector holds the transaction even so. */
  lemma MisfiledHandedOut(c: Crypto, out: seq<Transaction>)
    ensures var added := AddBlock(c, EMPTY, ListingEntry(c));
            && added.Done?
            && PopBlockAtomic(c, Popping(added.state, out)) == Threw(Popping(added.state, out + [MIXED_TX]), OutputDne)
  {
    ListingIsValid(c);
    ListingGoesIn(c);
    ListingLooksInVain(c);
    ListingStops(c, out);
  }
}
