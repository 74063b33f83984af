/**
  An input at which `pop_block` hands back another transaction than the block came with:
  two blocks that list the same hash, the second for a transaction that is given up. The
  pop takes a transaction out from among the others, and the store takes no more.
 */
module WrongHandedBack {
  import opened CryptonoteTypes
  import opened Outcomes
  import opened Store
  import opened Ledger
  import opened Refinement
  import opened Positions
  import opened Runs
  import opened LoggedRuns
  import opened AbortedBlocks
  import opened Gaps

  const SECOND_MINER_TX := Transaction(2, 0, [TxInGen(1)], [], [])

  const LATER_TX := Transaction(2, 0, [TxInToKey(0, [], KeyImage(2))], [], [])

  /** A hash that neither miner transaction has. */
  function SharedHash(c: Crypto): Hash {
    Hash(c.txHash(MINER_TX).id + c.txHash(SECOND_MINER_TX).id + 1)
  }

  /** Another one. */
  function LaterHash(c: Crypto): Hash {
    Hash(SharedHash(c).id + 1)
  }

  function FirstEntry(c: Crypto): SizedEntry {
    Entry(Block(0, Hash(0), 0, MINER_TX, [SharedHash(c), LaterHash(c)]), 0, 0, 0, [SPEND_TX, LATER_TX])
  }

  function SecondEntry(c: Crypto): SizedEntry {
    var parent := c.blockHash(FirstEntry(c).block);
    Entry(Block(0, parent, 0, SECOND_MINER_TX, [SharedHash(c)]), 0, 0, 0, [SCRIPT_TX])
  }

  /** The two miner transactions and the two blocks have different hashes. */
  predicate HashesDiffer(c: Crypto) {
    && c.txHash(MINER_TX) != c.txHash(SECOND_MINER_TX)
    && c.blockHash(FirstEntry(c).block) != c.blockHash(SecondEntry(c).block)
  }

  function SecondMiner(c: Crypto): Listed {
    Listed(c.txHash(SECOND_MINER_TX), SECOND_MINER_TX)
  }

  /** The transaction tables after the first block. */
  predicate HoldsFirst(c: Crypto, t: TxTables) {
    && t.txs == map[0 := MINER_TX, 1 := SPEND_TX, 2 := LATER_TX] && |t.txs| == 3
    && t.outputs == map[0 := [], 1 := [], 2 := []]
    && t.indices.Keys == {c.txHash(MINER_TX), SharedHash(c), LaterHash(c)}
    && t.indices[c.txHash(MINER_TX)].id == 0
    && t.indices[SharedHash(c)].id == 1
    && t.indices[LaterHash(c)].id == 2
  }

  /** The transaction tables after both blocks: the miner transactions, and the first block's own ones. */
  predicate Holds(c: Crypto, t: TxTables) {
    && t.txs == map[0 := MINER_TX, 1 := SPEND_TX, 2 := LATER_TX, 3 := SECOND_MINER_TX]
    && t.outputs == map[0 := [], 1 := [], 2 := [], 3 := []]
    && t.indices.Keys == {c.txHash(MINER_TX), SharedHash(c), LaterHash(c), c.txHash(SECOND_MINER_TX)}
    && t.indices[c.txHash(MINER_TX)].id == 0
    && t.indices[SharedHash(c)].id == 1
    && t.indices[LaterHash(c)].id == 2
    && t.indices[c.txHash(SECOND_MINER_TX)].id == 3
  }

  /** The transaction tables after the pop: the first block's transaction is gone from among the others. */
  predicate HoldsRest(c: Crypto, t: TxTables) {
    && t.txs == map[0 := MINER_TX, 2 := LATER_TX]
    && t.outputs == map[0 := [], 2 := []]
    && t.indices.Keys == {c.txHash(MINER_TX), LaterHash(c)}
    && t.indices[LaterHash(c)].id == 2
  }

  // ------------------------------------------------------- the first block

  function AfterMiner(c: Crypto): Tables {
    Bare(EMPTY, MinerListed(c))
  }

  function AfterSpend(c: Crypto): Tables {
    Bare(AfterMiner(c), Listed(SharedHash(c), SPEND_TX))
  }

  function AfterLater(c: Crypto): Tables {
    Bare(AfterSpend(c), Listed(LaterHash(c), LATER_TX))
  }

  lemma FirstSizes(c: Crypto)
    ensures var s := AfterMiner(c);
            s.txs.txs == map[0 := MINER_TX] && s.txs.outputs == map[0 := []] && |s.txs.txs| == 1 && s.spent == {}
    ensures var s := AfterSpend(c);
            && s.txs.txs == map[0 := MINER_TX, 1 := SPEND_TX] && s.txs.outputs == map[0 := [], 1 := []]
            && |s.txs.txs| == 2 && s.spent == {IMAGE}
            && s.txs.indices.Keys == {c.txHash(MINER_TX), SharedHash(c)}
  {
    FirstTables(c);
    ImagesHere();
    var s0, s1 := AfterMiner(c), AfterSpend(c);
    assert |s0.txs.txs| == |s0.txs.txs.Keys| == 1;
    assert s1.txs.txs.Keys == {0, 1} && |s1.txs.txs| == |s1.txs.txs.Keys|;
  }

  lemma LaterGoesIn(c: Crypto)
    ensures AddOne(c, AfterSpend(c), Listed(LaterHash(c), LATER_TX)) == Done(AfterLater(c), ())
  {
    FirstSizes(c);
    assert ImageList(LATER_TX.vin) == [KeyImage(2)];
    assert Images(LATER_TX.vin) == {KeyImage(2)};
    AddsBare(c, AfterSpend(c), Listed(LaterHash(c), LATER_TX));
  }

  lemma TwoListed(c: Crypto, s0: Tables, a: Listed, b: Listed, s1: Tables, s2: Tables)
    requires AddOne(c, s0, a) == Done(s1, ()) && AddOne(c, s1, b) == Done(s2, ())
    ensures Forward(Adder(c), s0, [a, b]) == Done(s2, ())
  {
    var items := [a, b];
    assert items[..0] == [] && items[..2] == items;
    ForwardNext(Adder(c), s0, items, 0, s0);
    ForwardNext(Adder(c), s0, items, 1, s1);
  }

  lemma SpendGoesInHere(c: Crypto)
    ensures AddOne(c, AfterMiner(c), Listed(SharedHash(c), SPEND_TX)) == Done(AfterSpend(c), ())
  {
    FirstTables(c);
    FirstSizes(c);
    SpendGoesIn(c, AfterMiner(c), SharedHash(c));
  }

  lemma FirstListed(c: Crypto)
    ensures Forward(Adder(c), AfterMiner(c), ListedOf(FirstEntry(c))) == Done(AfterLater(c), ())
  {
    var spend, later := Listed(SharedHash(c), SPEND_TX), Listed(LaterHash(c), LATER_TX);
    assert ListedOf(FirstEntry(c)) == [spend, later];
    SpendGoesInHere(c);
    LaterGoesIn(c);
    TwoListed(c, AfterMiner(c), spend, later, AfterSpend(c), AfterLater(c));
  }

  lemma FirstGoesIn(c: Crypto)
    ensures AddBlock(c, EMPTY, FirstEntry(c)).Done?
    ensures AddBlock(c, EMPTY, FirstEntry(c)).state.txs == AfterLater(c).txs
    ensures BlocksIndexed(c, [FirstEntry(c)], AddBlock(c, EMPTY, FirstEntry(c)).state)
  {
    var e := FirstEntry(c);
    FirstListed(c);
    BlockGoesIn(c, AfterLater(c), e);
    EmptyIndex(c);
    AddBlockRecords(c, [], EMPTY, e);
    assert [] + [e] == [e];
  }

  lemma FirstTxs(c: Crypto)
    ensures HoldsFirst(c, AfterLater(c).txs)
  {
    FirstSizes(c);
    var t := AfterLater(c).txs;
    assert t.txs.Keys == {0, 1, 2} && |t.txs| == |t.txs.Keys|;
  }

  // ------------------------------------------------------ the second block

  lemma SecondMinerGoesIn(c: Crypto, s: Tables)
    requires c.txHash(SECOND_MINER_TX) !in s.txs.indices
    requires Appendable(s.txs.txs, |s.txs.txs|) && Appendable(s.txs.outputs, |s.txs.txs|)
    ensures AddOne(c, s, SecondMiner(c)) == Done(Bare(s, SecondMiner(c)), ())
  {
    assert ImageList(SECOND_MINER_TX.vin) == [];
    assert s.spent + Images(SECOND_MINER_TX.vin) == s.spent;
    AddsBare(c, s, SecondMiner(c));
  }

  lemma LinksHold(c: Crypto)
    requires HashesDiffer(c)
    ensures ValidLinks(c, [FirstEntry(c)] + [SecondEntry(c)])
  {
    var first, second := FirstEntry(c), SecondEntry(c);
    ValidLinksGrow(c, [], first);
    assert [] + [first] == [first];
    ValidLinksGrow(c, [first], second);
  }

  /** A block goes onto a chain once its transactions have and it links to it. */
  lemma GoesOn(c: Crypto, chain: seq<SizedEntry>, s: Tables, e: SizedEntry, s': Tables)
    requires BlocksIndexed(c, chain, s) && ValidLinks(c, chain + [e])
    requires AddBlockTxs(c, s, e) == Done(s', ()) && s'.blocks == s.blocks
    ensures AddBlock(c, s, e).Done? && AddBlock(c, s, e).state.txs == s'.txs
    ensures BlocksIndexed(c, chain + [e], AddBlock(c, s, e).state)
  {
    AddBlockRecordIndexes(c, chain, e);
  }

  lemma SecondTxsGoIn(c: Crypto, s: Tables)
    requires HashesDiffer(c) && HoldsFirst(c, s.txs)
    ensures AddBlockTxs(c, s, SecondEntry(c)) == Done(Bare(s, SecondMiner(c)), ())
  {
    SecondMinerGoesIn(c, s);
    ScriptIsGivenUp(c, Bare(s, SecondMiner(c)), SharedHash(c));
    assert ListedOf(SecondEntry(c)) == [Listed(SharedHash(c), SCRIPT_TX)];
  }

  lemma SecondGoesIn(c: Crypto, s: Tables)
    requires HashesDiffer(c) && BlocksIndexed(c, [FirstEntry(c)], s) && HoldsFirst(c, s.txs)
    ensures AddBlock(c, s, SecondEntry(c)).Done?
    ensures AddBlock(c, s, SecondEntry(c)).state.txs == Bare(s, SecondMiner(c)).txs
    ensures BlocksIndexed(c, [FirstEntry(c)] + [SecondEntry(c)], AddBlock(c, s, SecondEntry(c)).state)
  {
    SecondTxsGoIn(c, s);
    LinksHold(c);
    GoesOn(c, [FirstEntry(c)], s, SecondEntry(c), Bare(s, SecondMiner(c)));
  }

  lemma BothHeld(c: Crypto, s: Tables)
    requires HashesDiffer(c) && HoldsFirst(c, s.txs)
    ensures Holds(c, Bare(s, SecondMiner(c)).txs)
  {
  }

  // ------------------------------------------------------------ the pop

  lemma RemovesBare(s: Tables, hash: Hash)
    requires hash in s.txs.indices && s.txs.indices[hash].id in s.txs.txs && s.txs.indices[hash].id in s.txs.outputs
    requires s.txs.txs[s.txs.indices[hash].id].vout == [] && s.txs.outputs[s.txs.indices[hash].id] == []
    ensures RemoveTransaction(s, hash).Done?
    ensures RemoveTransaction(s, hash).state.txs == Without(s.txs, s.txs.indices[hash].id, hash)
  {
    assert Slots(s.txs.txs[s.txs.indices[hash].id], []) == [];
  }

  lemma PopsOther(c: Crypto, p: Popping)
    requires HashesDiffer(c) && Holds(c, p.tables.txs)
    ensures var popped := PopBlockTxs(c, p, SecondEntry(c).block);
            && popped.Done? && popped.state.txs == p.txs + [SPEND_TX]
            && HoldsRest(c, popped.state.tables.txs)
  {
    var hash, miner := SharedHash(c), c.txHash(SECOND_MINER_TX);
    RemovesBare(p.tables, hash);
    var mid := PopOne(p, hash).state;
    assert [hash][..0] == [];
    assert Backward(PopOne, p, [hash]) == Done(mid, ());
    RemovesBare(mid.tables, miner);
  }

  lemma SecondPops(c: Crypto, s: Tables)
    requires HashesDiffer(c) && BlocksIndexed(c, [FirstEntry(c)] + [SecondEntry(c)], s) && Holds(c, s.txs)
    ensures var popped := PopBlock(c, Popping(s, []));
            && popped.Done? && popped.value == SecondEntry(c).block && popped.state.txs == [SPEND_TX]
            && HoldsRest(c, popped.state.tables.txs) && BlocksIndexed(c, [FirstEntry(c)], popped.state.tables)
  {
    var chain := [FirstEntry(c)] + [SecondEntry(c)];
    assert chain[..1] == [FirstEntry(c)];
    PopBlockOf(c, chain, s, []);
    PopsOther(c, Popping(s.(blocks := IndexBlocks(c, chain[..1])), []));
    PopBlockUnrecords(c, chain, s);
  }

  lemma BothGoIn(c: Crypto) returns (first: Tables, second: Tables)
    requires HashesDiffer(c)
    ensures AddBlock(c, EMPTY, FirstEntry(c)).Done? && AddBlock(c, EMPTY, FirstEntry(c)).state == first
    ensures AddBlock(c, first, SecondEntry(c)).Done? && AddBlock(c, first, SecondEntry(c)).state == second
    ensures HoldsFirst(c, first.txs)
    ensures Holds(c, second.txs) && BlocksIndexed(c, [FirstEntry(c)] + [SecondEntry(c)], second)
  {
    FirstGoesIn(c);
    FirstTxs(c);
    first := AddBlock(c, EMPTY, FirstEntry(c)).state;
    SecondGoesIn(c, first);
    BothHeld(c, first);
    second := AddBlock(c, first, SecondEntry(c)).state;
  }

  /** The tables after both blocks went in and the second one was popped. */
  lemma BothThenPop(c: Crypto) returns (first: Tables, second: Tables, popped: Tables)
    requires HashesDiffer(c)
    ensures AddBlock(c, EMPTY, FirstEntry(c)).Done? && AddBlock(c, EMPTY, FirstEntry(c)).state == first
    ensures AddBlock(c, first, SecondEntry(c)).Done? && AddBlock(c, first, SecondEntry(c)).state == second
    ensures GetTx(first.txs, SharedHash(c)) == Some(SPEND_TX)
    ensures PopBlock(c, Popping(second, [])) == Done(Popping(popped, [SPEND_TX]), SecondEntry(c).block)
    ensures HoldsRest(c, popped.txs) && BlocksIndexed(c, [FirstEntry(c)], popped)
  {
    first, second := BothGoIn(c);
    SecondPops(c, second);
    popped := PopBlock(c, Popping(second, [])).state.tables;
  }

  /**
    Both blocks go in, and the pop of the second one completes. It hands back the first
    block's transaction instead of its own, and the first block's transaction is gone.
   */
  lemma OtherHandedBack(c: Crypto)
    requires HashesDiffer(c)
    ensures var first := AddBlock(c, EMPTY, FirstEntry(c));
            var second := AddBlock(c, first.state, SecondEntry(c));
            var popped := PopBlock(c, Popping(second.state, []));
            && first.Done? && second.Done? && popped.Done?
            && GetTx(first.state.txs, SharedHash(c)) == Some(SPEND_TX)
            && popped.value == SecondEntry(c).block && SecondEntry(c).txs == [SCRIPT_TX]
            && popped.state.txs == [SPEND_TX]
            && GetTx(popped.state.tables.txs, SharedHash(c)) == None
  {
    var first, second, popped := BothThenPop(c);
  }

  // ------------------------------------------------------------ afterwards

  lemma BackwardStops<S, I>(step: Step<S, I>, s: S, a: I, b: I, s1: S)
    requires step(s, b) == Done(s1, ()) && step(s1, a).Threw?
    ensures Backward(step, s, [a, b]) == step(s1, a)
  {
    assert [a, b][..1] == [a];
  }

  lemma FirstTxMissing(c: Crypto, p: Popping)
    requires HoldsRest(c, p.tables.txs)
    ensures PopBlockTxs(c, p, FirstEntry(c).block).Threw?
    ensures PopBlockTxs(c, p, FirstEntry(c).block).error == TxDne
  {
    RemovesBare(p.tables, LaterHash(c));
    var mid := PopOne(p, LaterHash(c)).state;
    assert PopOne(mid, SharedHash(c)) == Threw(mid, TxDne);
    BackwardStops(PopOne, p, SharedHash(c), LaterHash(c), mid);
  }

  lemma GapHere(c: Crypto, s: Tables)
    requires HoldsRest(c, s.txs)
    ensures s.txs.txs.Keys == {0, 2} && !Dense(s.txs.txs)
  {
    assert 1 !in s.txs.txs && |s.txs.txs| == |s.txs.txs.Keys| == 2;
  }

  lemma Jams(c: Crypto, s: Tables, out: seq<Transaction>)
    requires HoldsRest(c, s.txs) && BlocksIndexed(c, [FirstEntry(c)], s)
    ensures s.txs.txs.Keys == {0, 2}
    ensures forall tx, hash | Supported(tx) :: AddTransaction(c, s, tx, hash).Threw?
    ensures PopBlock(c, Popping(s, out)).Threw? && PopBlock(c, Popping(s, out)).error == TxDne
  {
    GapHere(c, s);
    forall tx, hash | Supported(tx) ensures AddTransaction(c, s, tx, hash).Threw? {
      GapRefuses(c, s, tx, hash);
    }
    PopBlockOf(c, [FirstEntry(c)], s, out);
    FirstTxMissing(c, Popping(s.(blocks := IndexBlocks(c, [FirstEntry(c)][..0])), out));
  }

  /**
    The pop leaves the transaction ids 0 and 2. With that gap no supported transaction goes
    in any more, under any hash, and the first block cannot be popped either.
   */
  lemma StoreIsJammed(c: Crypto, out: seq<Transaction>)
    requires HashesDiffer(c)
    ensures var second := AddBlock(c, AddBlock(c, EMPTY, FirstEntry(c)).state, SecondEntry(c)).state;
            var s := PopBlock(c, Popping(second, [])).state.tables;
            && s.txs.txs.Keys == {0, 2}
            && (forall tx, hash | Supported(tx) :: AddTransaction(c, s, tx, hash).Threw?)
            && PopBlock(c, Popping(s, out)).Threw? && PopBlock(c, Popping(s, out)).error == TxDne
  {
    var first, second, s := BothThenPop(c);
    Jams(c, s, out);
  }
}
