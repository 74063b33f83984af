/**
  What giving a transaction up leads to, at inputs: a block that goes in and never comes
  off again, and a key image that is spent twice.
 */
module AbortedBlocks {
  import opened CryptonoteTypes
  import opened Outcomes
  import opened Store
  import opened Reversal
  import opened Aborts
  import opened SpentImages

  const IMAGE := KeyImage(1)

  const MINER_TX := Transaction(2, 0, [TxInGen(0)], [], [])
  const SCRIPT_TX := Transaction(2, 0, [TxInToScript(Hash(0), 0)], [], [])
  const SPEND_TX := Transaction(2, 0, [TxInToKey(0, [], IMAGE)], [], [])
  const CLEAR_TX := Transaction(2, 0, [TxInToScript(Hash(0), 0), TxInToKey(0, [], IMAGE)], [], [])

  /** Hashes that differ from each other and from that of the miner transaction. */
  function HashFor(c: Crypto, i: nat): Hash {
    Hash(c.txHash(MINER_TX).id + 1 + i)
  }

  function EntryOf(c: Crypto, txs: seq<Transaction>): Entry {
    var hashes := seq(|txs|, i requires 0 <= i < |txs| => HashFor(c, i));
    Entry(Block(0, Hash(0), 0, MINER_TX, hashes), 0, 0, 0, txs)
  }

  lemma HashesAreNew(c: Crypto, txs: seq<Transaction>)
    ensures NewHashes(c, EMPTY, EntryOf(c, txs))
  {
  }

  lemma ImagesHere()
    ensures Images(MINER_TX.vin) == {} == Images(SCRIPT_TX.vin)
    ensures Images(SPEND_TX.vin) == {IMAGE} == Images(CLEAR_TX.vin)
  {
    assert ImageList(SPEND_TX.vin) == [IMAGE];
    assert CLEAR_TX.vin[..1] == SCRIPT_TX.vin;
    assert ImageList(CLEAR_TX.vin) == [IMAGE];
  }

  // ------------------------------------------------------- one by one

  /** What `add_transaction` does with a transaction without outputs once its inputs are accepted. */
  function Bare(s: Tables, item: Listed): Tables {
    var id := |s.txs.txs|;
    s.(txs := TxTables(
         s.txs.txs[id := item.tx],
         s.txs.indices[item.hash := TxData(id, item.tx.unlockTime, Height(s))],
         s.txs.outputs[id := []]),
       spent := s.spent + Images(item.tx.vin))
  }

  lemma AddsBare(c: Crypto, s: Tables, item: Listed)
    requires item.tx.vout == [] && item.hash !in s.txs.indices
    requires Appendable(s.txs.txs, |s.txs.txs|) && Appendable(s.txs.outputs, |s.txs.txs|)
    requires ScanInputs(s.spent, item.tx.vin, 0) == Done(s.spent + Images(item.tx.vin), true)
    ensures AddOne(c, s, item) == Done(Bare(s, item), ())
  {
    assert NewOuts(c, item.tx, item.hash, Height(s)) == [];
  }

  lemma MinerGoesIn(c: Crypto)
    ensures AddOne(c, EMPTY, MinerListed(c)) == Done(Bare(EMPTY, MinerListed(c)), ())
  {
    ImagesHere();
    AddsBare(c, EMPTY, MinerListed(c));
  }

  lemma SpendGoesIn(c: Crypto, s: Tables, hash: Hash)
    requires IMAGE !in s.spent && hash !in s.txs.indices
    requires Appendable(s.txs.txs, |s.txs.txs|) && Appendable(s.txs.outputs, |s.txs.txs|)
    ensures AddOne(c, s, Listed(hash, SPEND_TX)) == Done(Bare(s, Listed(hash, SPEND_TX)), ())
  {
    ImagesHere();
    AddsBare(c, s, Listed(hash, SPEND_TX));
  }

  /** Giving `CLEAR_TX` up takes the image out of the spent set, whoever spent it. */
  lemma ClearIsGivenUp(c: Crypto, s: Tables, hash: Hash)
    ensures AddOne(c, s, Listed(hash, CLEAR_TX)) == Done(s.(spent := s.spent - {IMAGE}), ())
  {
    ImagesHere();
    AbortClearsImages(c, s, CLEAR_TX, hash, 0);
  }

  function MinerListed(c: Crypto): Listed {
    Listed(c.txHash(MINER_TX), MINER_TX)
  }

  /** A block goes into an empty store once its listed transactions have. */
  lemma BlockGoesIn(c: Crypto, s: Tables, e: Entry)
    requires |e.block.txHashes| == |e.txs| && e.block.minerTx == MINER_TX
    requires Forward(Adder(c), Bare(EMPTY, MinerListed(c)), ListedOf(e)) == Done(s, ()) && s.blocks == EMPTY.blocks
    ensures AddBlock(c, EMPTY, e).Done? && AddBlock(c, EMPTY, e).state.txs == s.txs
    ensures AddBlock(c, EMPTY, e).state.spent == s.spent
  {
    MinerGoesIn(c);
  }

  // ---------------------------------------------- a block that stays on top

  lemma ScriptIsGivenUp(c: Crypto, s: Tables, hash: Hash)
    ensures Forward(Adder(c), s, [Listed(hash, SCRIPT_TX)]) == Done(s, ())
  {
    var items := [Listed(hash, SCRIPT_TX)];
    assert AddOne(c, s, items[0]) == Done(s, ()) by {
      ImagesHere();
      AbortClearsImages(c, s, SCRIPT_TX, hash, 0);
    }
    assert items[..0] == [] && items[..1] == items;
    ForwardNext(Adder(c), s, items, 0, s);
  }

  lemma StuckGoesIn(c: Crypto)
    ensures AddBlock(c, EMPTY, EntryOf(c, [SCRIPT_TX])).Done?
  {
    var e := EntryOf(c, [SCRIPT_TX]);
    assert ListedOf(e) == [Listed(HashFor(c, 0), SCRIPT_TX)];
    ScriptIsGivenUp(c, Bare(EMPTY, MinerListed(c)), HashFor(c, 0));
    BlockGoesIn(c, Bare(EMPTY, MinerListed(c)), e);
  }

  /** A block that lists one transaction with a script input: it goes in, and every pop ends with `TX_DNE`. */
  lemma StuckBlock(c: Crypto, out: seq<Transaction>)
    ensures var e := EntryOf(c, [SCRIPT_TX]);
            var added := AddBlock(c, EMPTY, e);
            && added.Done? && NewHashes(c, EMPTY, e) && AllCoherent(e) && !AllSupported(e)
            && PopBlockAtomic(c, Popping(added.state, out)) == Threw(Popping(added.state, out), TxDne)
  {
    var e := EntryOf(c, [SCRIPT_TX]);
    StuckGoesIn(c);
    HashesAreNew(c, [SCRIPT_TX]);
    assert e.txs[0] == SCRIPT_TX && !SupportedInput(SCRIPT_TX.vin[0]);
    PopStopsAtAborted(c, EMPTY, e, 0, out);
    assert out + Reversed(e.txs[1..]) == out;
  }

  // ------------------------------------ a pop that fails and hands something out

  lemma PartlyStuckGoesIn(c: Crypto)
    ensures AddBlock(c, EMPTY, EntryOf(c, [SCRIPT_TX, SPEND_TX])).Done?
  {
    var e, s0 := EntryOf(c, [SCRIPT_TX, SPEND_TX]), Bare(EMPTY, MinerListed(c));
    var items := [Listed(HashFor(c, 0), SCRIPT_TX), Listed(HashFor(c, 1), SPEND_TX)];
    assert ListedOf(e) == items;
    assert items[..1] == [items[0]] && items[..2] == items;
    FirstTables(c);
    assert |s0.txs.txs| == |s0.txs.txs.Keys|;
    ScriptIsGivenUp(c, s0, HashFor(c, 0));
    SpendGoesIn(c, s0, HashFor(c, 1));
    ForwardNext(Adder(c), s0, items, 1, s0);
    BlockGoesIn(c, Bare(s0, items[1]), e);
  }

  /** A block of which the second listed transaction comes off before the first one stops the pop. */
  lemma FailedPopHandsOut(c: Crypto, out: seq<Transaction>)
    ensures var added := AddBlock(c, EMPTY, EntryOf(c, [SCRIPT_TX, SPEND_TX]));
            && added.Done?
            && PopBlockAtomic(c, Popping(added.state, out)) == Threw(Popping(added.state, out + [SPEND_TX]), TxDne)
  {
    var e := EntryOf(c, [SCRIPT_TX, SPEND_TX]);
    PartlyStuckGoesIn(c);
    HashesAreNew(c, [SCRIPT_TX, SPEND_TX]);
    assert e.txs[0] == SCRIPT_TX && !SupportedInput(SCRIPT_TX.vin[0]);
    assert Reversible(SPEND_TX);
    VectorKeepsPopped(c, EMPTY, e, 0, out);
    assert Reversed(e.txs[1..]) == [SPEND_TX];
  }

  // -------------------------------------------- an image spent twice

  const RESPEND := [SPEND_TX, CLEAR_TX, SPEND_TX]

  /** The tables after the three transactions. */
  function Respent(s: Tables, h1: Hash, h3: Hash): Tables {
    var s1 := Bare(s, Listed(h1, SPEND_TX));
    Bare(s1.(spent := s1.spent - {IMAGE}), Listed(h3, SPEND_TX))
  }

  lemma Respends(c: Crypto, s0: Tables, h1: Hash, h2: Hash, h3: Hash)
    requires IMAGE !in s0.spent && h1 !in s0.txs.indices && h3 !in s0.txs.indices && h1 != h3
    requires s0.txs.txs.Keys == {0} == s0.txs.outputs.Keys
    ensures Forward(Adder(c), s0, [Listed(h1, SPEND_TX), Listed(h2, CLEAR_TX), Listed(h3, SPEND_TX)])
         == Done(Respent(s0, h1, h3), ())
    ensures |s0.txs.txs| == 1 && |Bare(s0, Listed(h1, SPEND_TX)).txs.txs| == 2
  {
    var items := [Listed(h1, SPEND_TX), Listed(h2, CLEAR_TX), Listed(h3, SPEND_TX)];
    var s1 := Bare(s0, items[0]);
    var s2 := s1.(spent := s1.spent - {IMAGE});
    assert |s0.txs.txs| == |s0.txs.txs.Keys|;
    SpendGoesIn(c, s0, h1);
    assert s1.txs.txs.Keys == {0, 1} == s1.txs.outputs.Keys && |s1.txs.txs| == |s1.txs.txs.Keys|;
    ClearIsGivenUp(c, s1, h2);
    SpendGoesIn(c, s2, h3);
    ForwardThree(Adder(c), s0, items, s1, s2, Respent(s0, h1, h3));
  }

  lemma ForwardThree<S, I>(step: Step<S, I>, s0: S, items: seq<I>, s1: S, s2: S, s3: S)
    requires |items| == 3 && step(s0, items[0]) == Done(s1, ())
    requires step(s1, items[1]) == Done(s2, ()) && step(s2, items[2]) == Done(s3, ())
    ensures Forward(step, s0, items) == Done(s3, ())
  {
    assert items[..0] == [] && items[..3] == items;
    ForwardNext(step, s0, items, 0, s0);
    ForwardNext(step, s0, items, 1, s1);
    ForwardNext(step, s0, items, 2, s2);
  }

  lemma RespentTxs(s0: Tables, h1: Hash, h3: Hash)
    requires h1 != h3 && |s0.txs.txs| == 1 && |Bare(s0, Listed(h1, SPEND_TX)).txs.txs| == 2
    ensures var t := Respent(s0, h1, h3).txs;
            && GetTx(t, h1) == Some(SPEND_TX) && t.indices[h1].id == 1
            && GetTx(t, h3) == Some(SPEND_TX) && t.indices[h3].id == 2
  {
  }

  lemma FirstTables(c: Crypto)
    ensures var s0 := Bare(EMPTY, MinerListed(c));
            && s0.blocks == EMPTY.blocks && s0.spent == {}
            && s0.txs.txs.Keys == {0} == s0.txs.outputs.Keys && s0.txs.indices.Keys == {c.txHash(MINER_TX)}
  {
    ImagesHere();
  }

  lemma RespendGoesIn(c: Crypto)
    ensures var e := EntryOf(c, RESPEND);
            var added := AddBlock(c, EMPTY, e);
            && added.Done?
            && GetTx(added.state.txs, HashFor(c, 0)) == Some(SPEND_TX) && added.state.txs.indices[HashFor(c, 0)].id == 1
            && GetTx(added.state.txs, HashFor(c, 2)) == Some(SPEND_TX) && added.state.txs.indices[HashFor(c, 2)].id == 2
  {
    var e, s0 := EntryOf(c, RESPEND), Bare(EMPTY, MinerListed(c));
    var items := [Listed(HashFor(c, 0), SPEND_TX), Listed(HashFor(c, 1), CLEAR_TX), Listed(HashFor(c, 2), SPEND_TX)];
    assert ListedOf(e) == items;
    FirstTables(c);
    Respends(c, s0, HashFor(c, 0), HashFor(c, 1), HashFor(c, 2));
    RespentTxs(s0, HashFor(c, 0), HashFor(c, 2));
    BlockGoesIn(c, Respent(s0, HashFor(c, 0), HashFor(c, 2)), e);
  }

  /**
    A block that spends an image, names it in a transaction that is given up, and spends
    it again: it goes into an empty store, and both spending transactions are recorded.
   */
  lemma ImageSpentTwice(c: Crypto)
    ensures var e := EntryOf(c, RESPEND);
            var added := AddBlock(c, EMPTY, e);
            && added.Done? && HashFor(c, 0) != HashFor(c, 2)
            && GetTx(added.state.txs, HashFor(c, 0)) == Some(SPEND_TX)
            && GetTx(added.state.txs, HashFor(c, 2)) == Some(SPEND_TX)
            && !SpentOnce(added.state.txs.txs)
  {
    RespendGoesIn(c);
    ImagesHere();
    var txs := AddBlock(c, EMPTY, EntryOf(c, RESPEND)).state.txs.txs;
    assert 1 in txs && 2 in txs && txs[1] == txs[2] == SPEND_TX && IMAGE in Images(SPEND_TX.vin);
  }

  /** The transaction that is given up is what the condition on runs excludes. */
  lemma ClearIsHarmful()
    ensures !Harmless(CLEAR_TX) && Harmless(SPEND_TX) && Harmless(SCRIPT_TX) && Harmless(MINER_TX)
  {
    var vin := CLEAR_TX.vin;
    assert StopsAt(vin, 0) && FreshInputs({}, vin, 0, 0);
    assert vin[1].TxInToKey? && vin[1].image in ImagesIn(vin, 1, 2);
    assert ImagesIn(vin, 0, 0) == {};
    assert ImagesIn(SCRIPT_TX.vin, 1, 1) == {};
  }
}
