/**
  Blocks that never come off again. A block with a given-up transaction whose hashes were
  all new keeps its place along every run: to pop it, some transaction would have to be
  found under the hash of the one given up, and every block that could put one there has to
  be popped first, which takes that transaction out again.
 */
module StuckBlocks {
  import opened CryptonoteTypes
  import opened Outcomes
  import opened Store
  import opened Reversal
  import opened Aborts
  import opened Ledger
  import opened Refinement
  import opened Runs
  import opened LoggedRuns
  import opened HandedBack

  /**
    The blocks of `base` are in place, and `hash`, which the last of them lists, is known
    only if a block above lists it as well.
   */
  ghost predicate Waits(c: Crypto, base: seq<SizedEntry>, hash: Hash, chain: seq<SizedEntry>, t: TxTables) {
    && base != [] && base <= chain && hash in BlockHashSet(c, base[|base| - 1].block)
    && (hash in t.indices ==> ListedAbove(c, chain, |base| - 1, hash))
  }

  ghost predicate StuckOn(c: Crypto, base: seq<SizedEntry>, hash: Hash, chain: seq<SizedEntry>, s: Tables) {
    Traced(c, chain, s) && Waits(c, base, hash, chain, s.txs)
  }

  lemma WaitsAfterAdd(
      c: Crypto, base: seq<SizedEntry>, hash: Hash, chain: seq<SizedEntry>, e: SizedEntry, t: TxTables, t': TxTables)
    requires Waits(c, base, hash, chain, t) && CameIn(t, t', BlockHashSet(c, e.block))
    ensures Waits(c, base, hash, chain + [e], t')
  {
    var chain' := chain + [e];
    if hash in t'.indices {
      assert chain'[|chain|] == e;
      if hash in t.indices {
        var d :| |base| - 1 < d < |chain| && hash in BlockHashSet(c, chain[d].block);
        assert chain'[d] == chain[d];
      }
    }
  }

  lemma WaitsAfterPop(
      c: Crypto, base: seq<SizedEntry>, hash: Hash, below: seq<SizedEntry>, top: SizedEntry, t: TxTables, t': TxTables)
    requires Waits(c, base, hash, below + [top], t) && WentOut(t, t', BlockHashSet(c, top.block))
    ensures Waits(c, base, hash, below, t')
  {
    var chain := below + [top];
    assert chain[|below|] == top;
    assert base[|base| - 1] == chain[|base| - 1];
    if hash in t'.indices {
      var d :| |base| - 1 < d < |chain| && hash in BlockHashSet(c, chain[d].block);
      assert below[d] == chain[d];
    }
  }

  lemma StuckAdd(c: Crypto, base: seq<SizedEntry>, hash: Hash, chain: seq<SizedEntry>, s: Tables, e: SizedEntry)
    requires StuckOn(c, base, hash, chain, s) && AddBlock(c, s, e).Done?
    ensures StuckOn(c, base, hash, chain + [e], AddBlock(c, s, e).state)
  {
    TracedAdd(c, chain, s, e);
    AddBlockComesIn(c, s, e);
    WaitsAfterAdd(c, base, hash, chain, e, s.txs, AddBlock(c, s, e).state.txs);
  }

  lemma StuckPop(
      c: Crypto, base: seq<SizedEntry>, hash: Hash, chain: seq<SizedEntry>, s: Tables, popped: Outcome<Popping, Block>)
    requires StuckOn(c, base, hash, chain, s) && popped == PopBlock(c, Popping(s, [])) && popped.Done?
    ensures chain != [] && StuckOn(c, base, hash, chain[..|chain| - 1], popped.state.tables)
  {
    TracedPop(c, chain, s, [], popped);
    SplitLast(chain);
    WaitsAfterPop(c, base, hash, chain[..|chain| - 1], chain[|chain| - 1], s.txs, popped.state.tables.txs);
  }

  lemma StuckStep(c: Crypto, base: seq<SizedEntry>, hash: Hash, chain: seq<SizedEntry>, s: Tables, op: Op)
    requires StuckOn(c, base, hash, chain, s)
    ensures StuckOn(c, base, hash, LoggedStep(chain, op, Completes(c, s, op)), StepTables(c, s, op).0)
  {
    match op
    case Add(e) =>
      if AddBlock(c, s, e).Done? {
        StuckAdd(c, base, hash, chain, s, e);
      }
    case Pop =>
      if PopBlock(c, Popping(s, [])).Done? {
        StuckPop(c, base, hash, chain, s, PopBlock(c, Popping(s, [])));
      }
  }

  lemma ListedHashesDiffer(c: Crypto, s: Tables, e: SizedEntry, j: nat)
    requires NewHashes(c, s, e) && j < |e.txs|
    ensures var items, hash := ListedOf(e), e.block.txHashes[j];
            && hash !in s.txs.indices && hash != MinerOf(c, e).hash
            && forall i | 0 <= i < |items| && items[i].hash == hash :: i == j
  {
    NewHashesListed(c, s, e, j);
    forall i | j < i < |e.txs| ensures ListedOf(e)[i].hash != ListedOf(e)[j].hash {
      NewHashesListed(c, s, e, i);
    }
  }

  lemma MinerHashDiffers(c: Crypto, s: Tables, e: SizedEntry)
    requires NewHashes(c, s, e)
    ensures MinerOf(c, e).hash !in s.txs.indices
    ensures forall i | 0 <= i < |e.txs| :: ListedOf(e)[i].hash != MinerOf(c, e).hash
  {
    var hashes := [c.txHash(e.block.minerTx)] + e.block.txHashes;
    assert hashes[0] == MinerOf(c, e).hash;
    forall i | 0 <= i < |e.txs| ensures ListedOf(e)[i].hash != MinerOf(c, e).hash {
      NewHashesListed(c, s, e, i);
    }
  }

  /** A hash of the block that is still unknown after the block went in. */
  lemma UnknownHash(c: Crypto, s: Tables, e: SizedEntry) returns (hash: Hash)
    requires AddBlock(c, s, e).Done? && NewHashes(c, s, e) && !AllSupported(e)
    ensures hash in BlockHashSet(c, e.block) && hash !in AddBlock(c, s, e).state.txs.indices
  {
    var mid := AddedTxs(c, s, e);
    AddOneFiles(c, s, MinerOf(c, e));
    if !Supported(e.block.minerTx) {
      hash := MinerOf(c, e).hash;
      MinerHashDiffers(c, s, e);
    } else {
      var j :| 0 <= j < |e.txs| && !Supported(e.txs[j]);
      hash := e.block.txHashes[j];
      ListedHashesDiffer(c, s, e, j);
    }
    StaysUnknown(c, mid, ListedOf(e), hash);
  }

  /**
    A block with a given-up transaction, all of whose hashes were new, stays for good: whatever
    came before and whatever comes after, it keeps its place, and the height stays above it.
   */
  lemma StuckForever(c: Crypto, before: seq<Op>, e: SizedEntry, after: seq<Op>)
    requires var s := RunTables(c, EMPTY, before).0;
             AddBlock(c, s, e).Done? && NewHashes(c, s, e) && !AllSupported(e)
    ensures var s := RunTables(c, EMPTY, before + [Add(e)] + after).0;
            var height := |CurrentChain(c, before)|;
            && CurrentChain(c, before) + [e] <= CurrentChain(c, before + [Add(e)] + after)
            && height < Height(s) && height in s.blocks.blocks && s.blocks.blocks[height] == e.block
  {
    var s, chain, ops := RunTables(c, EMPTY, before).0, CurrentChain(c, before), before + [Add(e)];
    var base := chain + [e];
    StuckFromStart(c, before, e);
    var hash := UnknownHash(c, s, e);
    assert StuckOn(c, base, hash, CurrentChain(c, ops), RunTables(c, EMPTY, ops).0);
    var inv := (chain: seq<SizedEntry>, s: Tables) => StuckOn(c, base, hash, chain, s);
    forall chain, s, op | inv(chain, s)
      ensures inv(LoggedStep(chain, op, Completes(c, s, op)), StepTables(c, s, op).0)
    {
      StuckStep(c, base, hash, chain, s, op);
    }
    ReportedStays(c, ops, after, inv);
    BlockInPlace(c, CurrentChain(c, ops + after), RunTables(c, EMPTY, ops + after).0, chain, e);
  }

  lemma BlockInPlace(c: Crypto, chain: seq<SizedEntry>, s: Tables, below: seq<SizedEntry>, e: SizedEntry)
    requires BlocksIndexed(c, chain, s) && below + [e] <= chain
    ensures |below| < Height(s) && |below| in s.blocks.blocks && s.blocks.blocks[|below|] == e.block
  {
    TableSize(Blocks(chain));
    assert (below + [e])[|below|] == chain[|below|];
  }

  /** The tables and the chain right after the block went in. */
  lemma StuckFromStart(c: Crypto, before: seq<Op>, e: SizedEntry)
    requires AddBlock(c, RunTables(c, EMPTY, before).0, e).Done?
    ensures var ops, s := before + [Add(e)], RunTables(c, EMPTY, before).0;
            && RunTables(c, EMPTY, ops).0 == AddBlock(c, s, e).state
            && CurrentChain(c, ops) == CurrentChain(c, before) + [e]
            && Traced(c, CurrentChain(c, ops), RunTables(c, EMPTY, ops).0)
  {
    var ops := before + [Add(e)];
    assert ops[..|ops| - 1] == before;
    CurrentChainStep(c, ops);
    RunIsTraced(c, ops);
  }
}
