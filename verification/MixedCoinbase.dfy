/**
  What goes wrong when a transaction with `txin_gen` beside other inputs is popped:
  its outputs are filed under amount 0 and looked for under their own amounts.
 */
module MixedCoinbase {
  import opened CryptonoteTypes
  import opened Outcomes
  import opened Store
  import opened Reversal
  import opened Ledger
  import opened Refinement
  import opened Runs
  import opened Positions
  import opened LoggedRuns

  const MIXED_TX := Transaction(
    2, 0, [TxInGen(0), TxInToKey(0, [], KeyImage(1))], [TxOut(5, TxOutToKey(Key(7)))], [])

  const MIXED_ENTRY := Entry(Block(0, Hash(0), 0, MIXED_TX, []), 0, 0, 0, [])

  lemma MixedIsIrreversible()
    ensures Supported(MIXED_TX) && Storable(MIXED_TX) && !Coherent(MIXED_TX)
  {
    assert MIXED_TX.vin[0].TxInGen? && MIXED_TX.vin[0] in MIXED_TX.vin;
    assert MIXED_TX.vout[0].amount == 5;
  }

  lemma MixedIsValid(c: Crypto)
    ensures ValidChain(c, [MIXED_ENTRY])
  {
    var e: SizedEntry := MIXED_ENTRY;
    var r := TxRec(c.txHash(MIXED_TX), MIXED_TX, 0);
    MixedIsIrreversible();
    RecsGrow(c, [], e);
    assert [] + [r] == [r] && [] + [e] == [e];
    assert Recs(c, [e]) == [r];
    ValidRecsGrow(c, [], r);
    assert ImageList(MIXED_TX.vin[..1]) == [];
    assert SpentList([]) + ImageList(MIXED_TX.vin) == [KeyImage(1)];
    ValidLinksGrow(c, [], e);
  }

  // ------------------------------------------------------- in general

  /** The last output of nonzero amount is at `i`. */
  predicate LastNonzeroAt(tx: Transaction, i: nat) {
    i < |tx.vout| && tx.vout[i].amount != 0 && forall j | i < j < |tx.vout| :: tx.vout[j].amount == 0
  }

  lemma LastNonzero(tx: Transaction) returns (i: nat)
    requires !Coherent(tx)
    ensures LastNonzeroAt(tx, i)
  {
    i := |tx.vout| - 1;
    while tx.vout[i].amount == 0
      invariant i < |tx.vout| && forall j | i < j < |tx.vout| :: tx.vout[j].amount == 0
      decreases i
    {
      i := i - 1;
    }
  }

  lemma RemovesLastIndexed(outs: seq<OutRec>, o: OutRec)
    ensures RemoveOutput(IndexOuts(outs + [o]), o.amount, |Entries(outs, o.amount)|) == Done(IndexOuts(outs), ())
  {
    var n := NewOut(o.hash, TxOut(o.amount, TxOutToKey(o.key)), o.local, o.unlockTime, o.height, o.commitment);
    AddOutputIndexes(outs, o, n);
    RemoveOutputUndoesAdd(IndexOuts(outs), n);
  }

  lemma UpToLast<T>(xs: seq<T>, ys: seq<T>, n: nat)
    requires 0 < n <= |ys|
    ensures xs + ys[..n] == (xs + ys[..n - 1]) + [ys[n - 1]]
  {
  }

  /** Outputs whose slot is right come off one after the other. */
  lemma {:induction false} ClearsRightSlots(outs: seq<OutRec>, own: seq<OutRec>, slots: seq<Slot>, k: nat, n: nat)
    requires k <= n <= |own| == |slots|
    requires forall j | k <= j < n :: slots[j] == Slot(own[j].amount, Some(Ranks(outs, own)[j]))
    ensures Backward(ClearSlot, IndexOuts(outs + own[..n]), slots[..n])
         == Backward(ClearSlot, IndexOuts(outs + own[..k]), slots[..k])
    decreases n
  {
    if k < n {
      UpToLast(outs, own, n);
      RemovesLastIndexed(outs + own[..n - 1], own[n - 1]);
      BackwardNext(ClearSlot, IndexOuts(outs + own[..n]), slots, n - 1);
      ClearsRightSlots(outs, own, slots, k, n - 1);
    }
  }

  /**
    What the removal of a misfiled output does, when the tables are `now` and the ids of the
    transaction's own outputs start at `first`. If the slot that the backend looks in is
    empty it throws; otherwise it deletes the output there, which belongs to another,
    earlier transaction, so that all outputs of this one stay.
   */
  ghost predicate HitsAnother(now: OutputTables, first: nat, slot: Slot)
    requires slot.index.Some?
  {
    var table, k := TableOf(now, slot.amount), slot.index.value;
    if k in table then
      var victim := table[k].outputId;
      && victim in now.txs && victim < first
      && ClearSlot(now, slot) == Done(OutputTables(now.txs - {victim}, DropEntry(now.amounts, slot.amount, k)), ())
    else
      ClearSlot(now, slot) == Threw(now, OutputDne)
  }

  /** Dropping an entry takes it out of its amount's table and leaves the others alone. */
  lemma DropsOne(t: OutputTables, amount: nat, index: nat)
    requires amount in t.amounts
    ensures var t' := t.(amounts := DropEntry(t.amounts, amount, index));
            && TableOf(t', amount) == TableOf(t, amount) - {index}
            && forall other | other != amount :: TableOf(t', other) == TableOf(t, other)
  {
  }

  lemma MisfiledAmounts(c: Crypto, r: TxRec)
    requires !Coherent(r.tx)
    ensures forall j | 0 <= j < |OutRecs(c, r)| :: OutRecs(c, r)[j].amount == 0
    ensures forall j | 0 <= j < |r.tx.vout| :: RemovalAmount(r.tx, j) == r.tx.vout[j].amount
  {
    CoinbaseHasGen(r.tx);
  }

  /**
    Of a misfiled transaction, with outputs `own` after any others, those after the last
    one of nonzero amount come off as they should.
   */
  lemma LaterOutputsComeOff(c: Crypto, outs: seq<OutRec>, r: TxRec, own: seq<OutRec>, i: nat)
    requires !Coherent(r.tx) && LastNonzeroAt(r.tx, i) && own == OutRecs(c, r)
    ensures var slots := Slots(r.tx, Ranks(outs, own));
            Backward(ClearSlot, IndexOuts(outs + own), slots)
            == Backward(ClearSlot, IndexOuts(outs + own[..i + 1]), slots[..i + 1])
  {
    MisfiledAmounts(c, r);
    LaterComeOff(outs, own, Slots(r.tx, Ranks(outs, own)), i);
  }

  /**
    And that one hits another: the backend takes its position among the entries of amount 0
    for one among the entries of its own amount.
   */
  lemma MisfiledOutputHitsAnother(c: Crypto, outs: seq<OutRec>, r: TxRec, own: seq<OutRec>, i: nat)
    requires !Coherent(r.tx) && LastNonzeroAt(r.tx, i) && own == OutRecs(c, r)
    ensures var slot := Slots(r.tx, Ranks(outs, own))[i];
            && slot == Slot(r.tx.vout[i].amount, Some(|Entries(outs, 0)| + i))
            && HitsAnother(IndexOuts(outs + own[..i + 1]), |outs|, slot)
  {
    MisfiledSlot(c, outs, r, own, i);
    assert forall j | 0 <= j < |own| :: own[j].amount == 0 by {
      MisfiledAmounts(c, r);
    }
    SlotHits(outs, own[..i + 1], Slots(r.tx, Ranks(outs, own))[i]);
  }

  lemma MisfiledSlot(c: Crypto, outs: seq<OutRec>, r: TxRec, own: seq<OutRec>, i: nat)
    requires !Coherent(r.tx) && i < |r.tx.vout| && own == OutRecs(c, r)
    ensures Slots(r.tx, Ranks(outs, own))[i] == Slot(r.tx.vout[i].amount, Some(|Entries(outs, 0)| + i))
  {
    MisfiledAmounts(c, r);
    MisfiledRank(outs, own, i);
  }

  lemma SlotHits(outs: seq<OutRec>, own: seq<OutRec>, slot: Slot)
    requires slot.amount != 0 && slot.index.Some? && forall j | 0 <= j < |own| :: own[j].amount == 0
    ensures HitsAnother(IndexOuts(outs + own), |outs|, slot)
  {
    EarlierOutputs(outs, own, slot.amount);
    ClearHits(IndexOuts(outs + own), |outs|, slot);
  }

  lemma ClearHits(now: OutputTables, first: nat, slot: Slot)
    requires slot.index.Some?
    requires forall k | k in TableOf(now, slot.amount) ::
               TableOf(now, slot.amount)[k].outputId in now.txs && TableOf(now, slot.amount)[k].outputId < first
    ensures HitsAnother(now, first, slot)
  {
  }

  lemma LaterComeOff(outs: seq<OutRec>, own: seq<OutRec>, slots: seq<Slot>, i: nat)
    requires i < |own| == |slots|
    requires forall j | i < j < |own| :: slots[j] == Slot(own[j].amount, Some(Ranks(outs, own)[j]))
    ensures Backward(ClearSlot, IndexOuts(outs + own), slots)
         == Backward(ClearSlot, IndexOuts(outs + own[..i + 1]), slots[..i + 1])
  {
    assert own[..|own|] == own && slots[..|own|] == slots;
    ClearsRightSlots(outs, own, slots, i + 1, |own|);
  }

  /** The index that a misfiled output was issued counts the entries of amount 0. */
  lemma MisfiledRank(outs: seq<OutRec>, own: seq<OutRec>, i: nat)
    requires i < |own| && forall j | 0 <= j < |own| :: own[j].amount == 0
    ensures Ranks(outs, own)[i] == |Entries(outs, 0)| + i
  {
    ZeroEntries(outs, own, i);
  }

  /** When the newest outputs `own` are all under 0, the entries of another amount belong to earlier ones. */
  lemma EarlierOutputs(outs: seq<OutRec>, own: seq<OutRec>, a: nat)
    requires a != 0 && forall i | 0 <= i < |own| :: own[i].amount == 0
    ensures var t := IndexOuts(outs + own);
            forall k | k in TableOf(t, a) ::
              TableOf(t, a)[k].outputId in t.txs && TableOf(t, a)[k].outputId < |outs|
  {
    var t := IndexOuts(outs + own);
    OtherEntries(outs, own, a);
    TableOfIndex(outs + own, a);
    forall k | k in TableOf(t, a) ensures TableOf(t, a)[k].outputId in t.txs && TableOf(t, a)[k].outputId < |outs| {
      EntrySource(outs, a, k);
    }
  }

  /** Outputs stored under amount 0 only lengthen table 0. */
  lemma {:induction false} ZeroEntries(outs: seq<OutRec>, own: seq<OutRec>, n: nat)
    requires n <= |own| && forall i | 0 <= i < |own| :: own[i].amount == 0
    ensures |Entries(outs + own[..n], 0)| == |Entries(outs, 0)| + n
  {
    if n == 0 {
      assert outs + own[..n] == outs;
    } else {
      ZeroEntries(outs, own, n - 1);
      UpToLast(outs, own, n);
      EntriesGrow(outs + own[..n - 1], own[n - 1], 0);
    }
  }

  lemma {:induction false} OtherEntries(outs: seq<OutRec>, own: seq<OutRec>, amount: nat)
    requires amount != 0 && forall i | 0 <= i < |own| :: own[i].amount == 0
    ensures Entries(outs + own, amount) == Entries(outs, amount)
  {
    if own == [] {
      assert outs + own == outs;
    } else {
      var n := |own| - 1;
      OtherEntries(outs, own[..n], amount);
      assert outs + own == (outs + own[..n]) + [own[n]];
      EntriesGrow(outs + own[..n], own[n], amount);
    }
  }

  // ------------------------------------------------------------ at inputs

  /** Removing a transaction with one output is as good as clearing its slot. */
  lemma RemovesSingle(s: Tables, hash: Hash, tx: Transaction, issued: seq<nat>)
    requires GetTx(s.txs, hash) == Some(tx) && |tx.vout| == 1 == |issued|
    requires s.txs.indices[hash].id in s.txs.outputs && s.txs.outputs[s.txs.indices[hash].id] == issued
    ensures var cleared, removed := ClearSlot(s.outs, Slots(tx, issued)[0]), RemoveTransaction(s, hash);
            if cleared.Done? then removed.Done? && removed.state.outs == cleared.state
            else removed.Threw? && removed.error == cleared.error
  {
    var slots := Slots(tx, issued);
    assert slots == [slots[0]];
    BackwardOne(ClearSlot, s.outs, slots[0]);
  }

  /** A block whose only transaction is its miner transaction, with one output. */
  predicate SingleEntry(e: SizedEntry) {
    e.txs == [] && |e.block.minerTx.vout| == 1
  }

  /** Popping such a block from the top of a valid chain. */
  lemma PopsSingle(c: Crypto, chain: seq<SizedEntry>, e: SizedEntry, out: seq<Transaction>)
    requires ValidChain(c, chain + [e]) && SingleEntry(e)
    ensures var s, tx := Index(c, chain + [e]), e.block.minerTx;
            var outs, own := AllOuts(c, Recs(c, chain)), OutRecs(c, TxRec(c.txHash(tx), tx, |chain|));
            var cleared := ClearSlot(IndexOuts(outs + own), Slots(tx, Ranks(outs, own))[0]);
            var popped := PopBlock(c, Popping(s, out));
            if cleared.Done? then popped.Done? && popped.state.tables.outs == cleared.state
            else popped.Threw? && popped.error == cleared.error
  {
    var s, recs, tx := Index(c, chain + [e]), Recs(c, chain), e.block.minerTx;
    var r := TxRec(c.txHash(tx), tx, |chain|);
    SingleRecs(c, chain, e);
    AllOutsGrow(c, recs, r);
    var issued := Ranks(AllOuts(c, recs), OutRecs(c, r));
    SingleFound(c, recs, r, s.txs);
    PopBlockOf(c, chain + [e], s, out);
    assert (chain + [e])[..|chain|] == chain;
    RemovesSingle(s.(blocks := IndexBlocks(c, chain)), r.hash, tx, issued);
  }

  lemma SingleRecs(c: Crypto, chain: seq<SizedEntry>, e: SizedEntry)
    requires SingleEntry(e)
    ensures Recs(c, chain + [e]) == Recs(c, chain) + [TxRec(c.txHash(e.block.minerTx), e.block.minerTx, |chain|)]
  {
    RecsGrow(c, chain, e);
  }

  lemma SingleFound(c: Crypto, recs: seq<TxRec>, r: TxRec, t: TxTables)
    requires ValidRecs(recs + [r]) && t == IndexTxs(c, recs + [r])
    ensures GetTx(t, r.hash) == Some(r.tx) && t.indices[r.hash].id in t.outputs
    ensures t.outputs[t.indices[r.hash].id] == Ranks(AllOuts(c, recs), OutRecs(c, r))
  {
    RecIndexed(c, recs + [r], |recs|);
    assert (recs + [r])[|recs|] == r && (recs + [r])[..|recs|] == recs;
  }

  /** Popping a block of one misfiled output hits another one, or throws. */
  lemma PopsMisfiled(c: Crypto, chain: seq<SizedEntry>, e: SizedEntry, out: seq<Transaction>)
    requires ValidChain(c, chain + [e]) && SingleEntry(e) && !Coherent(e.block.minerTx)
    ensures var s, outs := Index(c, chain + [e]), AllOuts(c, Recs(c, chain));
            var slot := Slot(e.block.minerTx.vout[0].amount, Some(|Entries(outs, 0)|));
            var popped := PopBlock(c, Popping(s, out));
            && HitsAnother(s.outs, |outs|, slot)
            && (if ClearSlot(s.outs, slot).Done?
                then popped.Done? && popped.state.tables.outs == ClearSlot(s.outs, slot).state
                else popped.Threw? && popped.error == OutputDne)
  {
    var tx := e.block.minerTx;
    var r, recs := TxRec(c.txHash(tx), tx, |chain|), Recs(c, chain);
    var outs, own := AllOuts(c, recs), OutRecs(c, r);
    PopsSingle(c, chain, e, out);
    assert Index(c, chain + [e]).outs == IndexOuts(outs + own) by {
      SingleRecs(c, chain, e);
      AllOutsGrow(c, recs, r);
    }
    SingleHits(c, outs, r, own);
    HitsOrThrows(IndexOuts(outs + own), |outs|, Slots(tx, Ranks(outs, own))[0]);
  }

  lemma SingleHits(c: Crypto, outs: seq<OutRec>, r: TxRec, own: seq<OutRec>)
    requires !Coherent(r.tx) && |r.tx.vout| == 1 && own == OutRecs(c, r)
    ensures var slot := Slots(r.tx, Ranks(outs, own))[0];
            && slot == Slot(r.tx.vout[0].amount, Some(|Entries(outs, 0)|))
            && HitsAnother(IndexOuts(outs + own), |outs|, slot)
  {
    var i := LastNonzero(r.tx);
    assert own[..i + 1] == own;
    MisfiledOutputHitsAnother(c, outs, r, own, i);
  }

  lemma HitsOrThrows(now: OutputTables, first: nat, slot: Slot)
    requires slot.index.Some? && HitsAnother(now, first, slot)
    ensures ClearSlot(now, slot).Threw? ==> ClearSlot(now, slot).error == OutputDne
  {
  }

  /** A block whose miner transaction is of this kind, added to an empty store: its pop ends with `OUTPUT_DNE`. */
  lemma MixedBlockIsNotUndone(c: Crypto, out: seq<Transaction>)
    ensures AddBlock(c, EMPTY, MIXED_ENTRY).Done?
    ensures var popped := PopBlock(c, Popping(AddBlock(c, EMPTY, MIXED_ENTRY).state, out));
            popped.Threw? && popped.error == OutputDne
  {
    var none: seq<SizedEntry> := [];
    MixedIsIrreversible();
    MixedIsValid(c);
    EmptyIndex(c);
    assert none + [MIXED_ENTRY] == [MIXED_ENTRY];
    AddBlockIndexes(c, none, MIXED_ENTRY);
    PopsMisfiled(c, none, MIXED_ENTRY, out);
    assert AllOuts(c, Recs(c, none)) == [];
  }

  const PLAIN_TX := Transaction(
    2, 0, [TxInToKey(0, [], KeyImage(2))], [TxOut(5, TxOutToKey(Key(8)))], [Key(9)])

  const PLAIN_ENTRY := Entry(Block(0, Hash(0), 0, PLAIN_TX, []), 0, 0, 0, [])

  /** The block of `MIXED_TX` on top of that of `PLAIN_TX`. */
  function MixedOnTop(c: Crypto): SizedEntry {
    Entry(Block(0, c.blockHash(PLAIN_ENTRY.block), 0, MIXED_TX, []), 0, 0, 0, [])
  }

  predicate HashesDiffer(c: Crypto) {
    && c.txHash(PLAIN_TX) != c.txHash(MIXED_TX)
    && c.blockHash(PLAIN_ENTRY.block) != c.blockHash(MixedOnTop(c).block)
  }

  lemma PlainIsValid(c: Crypto)
    ensures ValidChain(c, [PLAIN_ENTRY]) && Recs(c, [PLAIN_ENTRY]) == [TxRec(c.txHash(PLAIN_TX), PLAIN_TX, 0)]
  {
    var e: SizedEntry := PLAIN_ENTRY;
    var r := TxRec(c.txHash(PLAIN_TX), PLAIN_TX, 0);
    assert [] + [r] == [r] && [] + [e] == [e];
    SingleRecs(c, [], e);
    ValidRecsGrow(c, [], r);
    assert SpentList([]) + ImageList(PLAIN_TX.vin) == [KeyImage(2)];
    ValidLinksGrow(c, [], e);
  }

  lemma BothRecsAreValid(c: Crypto, r: TxRec, r': TxRec)
    requires r == TxRec(c.txHash(PLAIN_TX), PLAIN_TX, 0) && r' == TxRec(c.txHash(MIXED_TX), MIXED_TX, 1)
    requires r.hash != r'.hash && ValidRecs([r])
    ensures ValidRecs([r] + [r'])
  {
    MixedIsIrreversible();
    ValidRecsGrow(c, [r], r');
    assert ImageList(PLAIN_TX.vin) == [KeyImage(2)];
    assert ImageList(MIXED_TX.vin[..1]) == [];
    assert SpentList([r]) + ImageList(MIXED_TX.vin) == [KeyImage(2), KeyImage(1)];
  }

  lemma BothAreValid(c: Crypto)
    requires HashesDiffer(c)
    ensures ValidChain(c, [PLAIN_ENTRY] + [MixedOnTop(c)])
  {
    PlainIsValid(c);
    SingleRecs(c, [PLAIN_ENTRY], MixedOnTop(c));
    BothRecsAreValid(c, TxRec(c.txHash(PLAIN_TX), PLAIN_TX, 0), TxRec(c.txHash(MIXED_TX), MIXED_TX, 1));
    ValidLinksGrow(c, [PLAIN_ENTRY], MixedOnTop(c));
  }

  lemma BothGoIn(c: Crypto)
    requires HashesDiffer(c)
    ensures AddBlock(c, EMPTY, PLAIN_ENTRY) == Done(Index(c, [PLAIN_ENTRY]), 0)
    ensures AddBlock(c, Index(c, [PLAIN_ENTRY]), MixedOnTop(c)) == Done(Index(c, [PLAIN_ENTRY] + [MixedOnTop(c)]), 1)
  {
    var none: seq<SizedEntry> := [];
    MixedIsIrreversible();
    PlainIsValid(c);
    BothAreValid(c);
    EmptyIndex(c);
    assert none + [PLAIN_ENTRY] == [PLAIN_ENTRY];
    AddBlockIndexes(c, none, PLAIN_ENTRY);
    AddBlockIndexes(c, [PLAIN_ENTRY], MixedOnTop(c));
  }

  /**
    On top of a block with an output of the same amount the pop completes. It deletes that
    output, which belongs to the block below, and leaves its own.
   */
  lemma MixedPopHitsAnother(c: Crypto, out: seq<Transaction>) returns (first: Tables, second: Tables)
    requires HashesDiffer(c)
    ensures AddBlock(c, EMPTY, PLAIN_ENTRY) == Done(first, 0) && AddBlock(c, first, MixedOnTop(c)) == Done(second, 1)
    ensures first.outs.txs == map[0 := OutTx(c.txHash(PLAIN_TX), 0)]
    ensures PopBlock(c, Popping(second, out)).Done?
    ensures PopBlock(c, Popping(second, out)).state.tables.outs.txs == map[1 := OutTx(c.txHash(MIXED_TX), 0)]
  {
    first, second := Index(c, [PLAIN_ENTRY]), Index(c, [PLAIN_ENTRY] + [MixedOnTop(c)]);
    BothGoIn(c);
    PlainOutputs(c);
    PopHitsPlain(c, out, second);
  }

  lemma PlainOutputs(c: Crypto)
    ensures Index(c, [PLAIN_ENTRY]).outs.txs == map[0 := OutTx(c.txHash(PLAIN_TX), 0)]
  {
    OutputsHere(c);
  }

  lemma PopHitsPlain(c: Crypto, out: seq<Transaction>, s: Tables)
    requires HashesDiffer(c) && s == Index(c, [PLAIN_ENTRY] + [MixedOnTop(c)])
    ensures var popped := PopBlock(c, Popping(s, out));
            popped.Done? && popped.state.tables.outs.txs == map[1 := OutTx(c.txHash(MIXED_TX), 0)]
  {
    BothAreValid(c);
    MixedIsIrreversible();
    PopsMisfiled(c, [PLAIN_ENTRY], MixedOnTop(c), out);
    OutputsHere(c);
    EntryHit(c, s.outs);
  }

  lemma EntryHit(c: Crypto, t: OutputTables)
    requires t.txs == map[0 := OutTx(c.txHash(PLAIN_TX), 0), 1 := OutTx(c.txHash(MIXED_TX), 0)]
    requires 0 in TableOf(t, 5) && TableOf(t, 5)[0].outputId == 0
    ensures ClearSlot(t, Slot(5, Some(0))).Done?
    ensures ClearSlot(t, Slot(5, Some(0))).state.txs == map[1 := OutTx(c.txHash(MIXED_TX), 0)]
  {
  }

  lemma TwoOutputs(o: OutRec, o': OutRec)
    requires o.amount != 0
    ensures IndexOuts([o]).txs == map[0 := OutTx(o.hash, o.local)] && |Entries([o], 0)| == 0
    ensures var t := IndexOuts([o] + [o']);
            && t.txs == map[0 := OutTx(o.hash, o.local), 1 := OutTx(o'.hash, o'.local)]
            && 0 in TableOf(t, o.amount) && TableOf(t, o.amount)[0].outputId == 0
  {
    assert [o][..0] == [] && ([o] + [o'])[..0] == [];
    assert OutTxs([o]) == [OutTx(o.hash, o.local)];
    assert OutTxs([o] + [o']) == [OutTx(o.hash, o.local), OutTx(o'.hash, o'.local)];
    EntryStored([o] + [o'], 0);
  }

  lemma OutputsOf(c: Crypto, r: TxRec, r': TxRec)
    requires |r.tx.vout| == 1 == |r'.tx.vout|
    ensures AllOuts(c, [r]) == [OutRecAt(c, r, 0)]
    ensures AllOuts(c, [r] + [r']) == [OutRecAt(c, r, 0)] + [OutRecAt(c, r', 0)]
  {
    assert [] + [r] == [r] && AllOuts(c, []) == [];
    assert OutRecs(c, r) == [OutRecAt(c, r, 0)] && OutRecs(c, r') == [OutRecAt(c, r', 0)];
    AllOutsGrow(c, [], r);
    AllOutsGrow(c, [r], r');
  }

  /** The outputs of the two blocks, and the entry that the pop looks for. */
  lemma OutputsHere(c: Crypto)
    ensures var outs := AllOuts(c, Recs(c, [PLAIN_ENTRY]));
            var t := Index(c, [PLAIN_ENTRY] + [MixedOnTop(c)]).outs;
            && IndexOuts(outs).txs == map[0 := OutTx(c.txHash(PLAIN_TX), 0)]
            && t.txs == map[0 := OutTx(c.txHash(PLAIN_TX), 0), 1 := OutTx(c.txHash(MIXED_TX), 0)]
            && |Entries(outs, 0)| == 0 && 0 in TableOf(t, 5) && TableOf(t, 5)[0].outputId == 0
  {
    var r, r' := TxRec(c.txHash(PLAIN_TX), PLAIN_TX, 0), TxRec(c.txHash(MIXED_TX), MIXED_TX, 1);
    PlainIsValid(c);
    SingleRecs(c, [PLAIN_ENTRY], MixedOnTop(c));
    OutputsOf(c, r, r');
    assert OutRecAt(c, r, 0).amount == 5;
    TwoOutputs(OutRecAt(c, r, 0), OutRecAt(c, r', 0));
  }
}
