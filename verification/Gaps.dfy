/**
  Gaps among the transaction ids. As long as there is one, no transaction is recorded. A
  completed pop makes none exactly when the hashes of the block lead to the newest
  transactions, and adding never makes one.
 */
module Gaps {
  import opened CryptonoteTypes
  import opened Outcomes
  import opened Store
  import opened Reversal
  import opened ReversalLimits
  import opened Ledger
  import opened Positions
  import opened Runs
  import opened LoggedRuns
  import opened HandedBack
  import opened Reachable

  // -------------------------------------------------------- with a gap

  /** A transaction is recorded only if the ids have no gap, and the new id makes none. */
  lemma RecordedMeansDense(c: Crypto, s: Tables, item: Listed)
    requires AddOne(c, s, item).Done? && Supported(item.tx)
    ensures Dense(s.txs.txs) && Dense(AddOne(c, s, item).state.txs.txs)
  {
    RecordedTables(c, s, item.tx, item.hash);
    RecordedIffSupported(c, s, item.tx, item.hash);
    assert Appendable(s.txs.txs, |s.txs.txs|);
    DenseIffAppendable(s.txs.txs);
    PutDense(s.txs.txs, item.tx);
  }

  /** With a gap, no supported transaction goes in. */
  lemma GapRefuses(c: Crypto, s: Tables, tx: Transaction, hash: Hash)
    requires !Dense(s.txs.txs) && Supported(tx)
    ensures AddTransaction(c, s, tx, hash).Threw?
  {
    if AddTransaction(c, s, tx, hash).Done? {
      RecordedMeansDense(c, s, Listed(hash, tx));
    }
  }

  lemma GivenUpWithGap(c: Crypto, s: Tables, item: Listed)
    requires !Dense(s.txs.txs) && AddOne(c, s, item).Done?
    ensures !Supported(item.tx) && AddOne(c, s, item).state.txs == s.txs
  {
    RecordedIffSupported(c, s, item.tx, item.hash);
    if Supported(item.tx) {
      RecordedMeansDense(c, s, item);
    }
  }

  lemma ListedGivenUp(c: Crypto, s: Tables, items: seq<Listed>, i: nat)
    requires !Dense(s.txs.txs) && Forward(Adder(c), s, items).Done? && i < |items|
    ensures !Supported(items[i].tx)
  {
    var kept := (t: Tables) => t.txs == s.txs;
    forall t, item | kept(t) && Adder(c)(t, item).Done? ensures kept(Adder(c)(t, item).state) {
      GivenUpWithGap(c, t, item);
    }
    ForwardAt(Adder(c), s, items, i);
    ForwardKeeps(Adder(c), s, items[..i], kept);
    GivenUpWithGap(c, Forward(Adder(c), s, items[..i]).state, items[i]);
  }

  /** While there is a gap, only blocks go in of which every transaction is given up. */
  lemma GapRefusesBlocks(c: Crypto, s: Tables, e: SizedEntry)
    requires !Dense(s.txs.txs) && AddBlock(c, s, e).Done?
    ensures !Supported(e.block.minerTx) && forall i | 0 <= i < |e.txs| :: !Supported(e.txs[i])
    ensures AddBlock(c, s, e).state.txs == s.txs
  {
    var kept := (t: Tables) => t.txs == s.txs;
    forall t, item | kept(t) && AddOne(c, t, item).Done? ensures kept(AddOne(c, t, item).state) {
      GivenUpWithGap(c, t, item);
    }
    AddBlockKeeps(c, s, e, kept);
    var mid := AddedTxs(c, s, e);
    GivenUpWithGap(c, s, MinerOf(c, e));
    forall i | 0 <= i < |e.txs| ensures !Supported(e.txs[i]) {
      ListedGivenUp(c, mid, ListedOf(e), i);
    }
  }

  // ---------------------------------------------------- where gaps come from

  /** A hash of the block leads to transaction `id`. */
  ghost predicate TakesId(c: Crypto, t: TxTables, block: Block, id: nat) {
    exists hash | hash in BlockHashSet(c, block) :: hash in t.indices && t.indices[hash].id == id
  }

  /** What the hashes of the top block lead to are the newest transactions. */
  ghost predicate NewestTop(c: Crypto, s: Tables) {
    GetTopBlock(s.blocks).Done? ==>
    var block := GetTopBlock(s.blocks).value;
    forall id: nat | |s.txs.txs| - (1 + |block.txHashes|) <= id < |s.txs.txs| :: TakesId(c, s.txs, block, id)
  }

  /** From `t` to `t'` hashes went together with their transactions, and nothing else. */
  ghost predicate Shrunk(t: TxTables, t': TxTables) {
    && Within(t'.indices, t.indices) && t'.txs.Keys <= t.txs.Keys
    && |t'.txs| - |t'.indices| == |t.txs| - |t.indices|
    && (forall h | h in t.indices && h !in t'.indices :: t.indices[h].id !in t'.txs)
    && (forall id | id in t.txs && id !in t'.txs :: WentWith(t, t', id))
  }

  ghost predicate WentWith(t: TxTables, t': TxTables, id: nat) {
    exists h | h in t.indices :: t.indices[h].id == id && h !in t'.indices
  }

  lemma RemoveShrinks(t: TxTables, s: Tables, hash: Hash)
    requires Shrunk(t, s.txs) && RemoveTransaction(s, hash).Done?
    ensures Shrunk(t, RemoveTransaction(s, hash).state.txs)
  {
    RemovedTx(s, hash);
    var id, t' := s.txs.indices[hash].id, RemoveTransaction(s, hash).state.txs;
    DeleteShrinks(s.txs.txs, id);
    DeleteShrinks(s.txs.indices, hash);
    forall g | g in t.txs && g !in t'.txs ensures WentWith(t, t', g) {
      if g == id {
        assert t.indices[hash].id == g;
      } else {
        assert WentWith(t, s.txs, g);
      }
    }
  }

  lemma PopKeepsShrunk(c: Crypto, p: Popping)
    requires PopBlock(c, p).Done?
    ensures Shrunk(p.tables.txs, PopBlock(c, p).state.tables.txs)
  {
    var shrunk := (t: Tables) => Shrunk(p.tables.txs, t.txs);
    forall t, hash | shrunk(t) && RemoveTransaction(t, hash).Done? ensures shrunk(RemoveTransaction(t, hash).state) {
      RemoveShrinks(p.tables.txs, t, hash);
    }
    PopBlockKeeps(c, p, GetTopBlock(p.tables.blocks).value, shrunk);
  }

  lemma PopCounts(c: Crypto, p: Popping, block: Block)
    requires PopBlockTxs(c, p, block).Done? && Orderly(p.tables.txs)
    ensures var t' := PopBlockTxs(c, p, block).state.tables.txs;
            && WentOut(p.tables.txs, t', BlockHashSet(c, block))
            && |t'.indices| == |p.tables.txs.indices| - (1 + |block.txHashes|)
  {
    PopTxsGoOut(c, p, block);
    PopListedTxCount(p, block.txHashes);
    RemoveCounts(Backward(PopOne, p, block.txHashes).state.tables, c.txHash(block.minerTx));
  }

  lemma PopShrinks(c: Crypto, p: Popping, block: Block, p': Popping)
    requires PopBlock(c, p) == Done(p', block) && Orderly(p.tables.txs)
    ensures GetTopBlock(p.tables.blocks) == Done(p.tables.blocks, block)
    ensures Shrunk(p.tables.txs, p'.tables.txs) && WentOut(p.tables.txs, p'.tables.txs, BlockHashSet(c, block))
    ensures |p'.tables.txs.indices| == |p.tables.txs.indices| - (1 + |block.txHashes|)
  {
    PopKeepsShrunk(c, p);
    PopCounts(c, p.(tables := p.tables.(blocks := RemoveBlockRecord(p.tables.blocks).state)), block);
  }

  lemma NoGapIff(c: Crypto, t: TxTables, block: Block, t': TxTables)
    requires Dense(t.txs) && Shrunk(t, t') && WentOut(t, t', BlockHashSet(c, block))
    requires |t'.indices| == |t.indices| - (1 + |block.txHashes|)
    ensures Dense(t'.txs) <==>
            forall id: nat | |t.txs| - (1 + |block.txHashes|) <= id < |t.txs| :: TakesId(c, t, block, id)
  {
    DenseIffAppendable(t'.txs);
    forall id | id in t.txs ensures id !in t'.txs <==> TakesId(c, t, block, id) {
      if id !in t'.txs {
        assert WentWith(t, t', id);
      }
    }
  }

  /** A completed pop of tables without a gap leaves none if and only if it takes the newest transactions. */
  lemma PopLeavesNoGapIff(c: Crypto, s: Tables, out: seq<Transaction>)
    requires Orderly(s.txs) && Dense(s.txs.txs) && PopBlock(c, Popping(s, out)).Done?
    ensures Dense(PopBlock(c, Popping(s, out)).state.tables.txs.txs) <==> NewestTop(c, s)
  {
    var popped := PopBlock(c, Popping(s, out));
    PopShrinks(c, Popping(s, out), popped.value, popped.state);
    NoGapIff(c, s.txs, popped.value, popped.state.tables.txs);
  }

  // ------------------------------------------------------------- all runs

  lemma AddOneLeavesNoGap(c: Crypto, s: Tables, item: Listed)
    requires Dense(s.txs.txs) && AddOne(c, s, item).Done?
    ensures Dense(AddOne(c, s, item).state.txs.txs)
  {
    RecordedIffSupported(c, s, item.tx, item.hash);
    if Supported(item.tx) {
      RecordedMeansDense(c, s, item);
    }
  }

  lemma AddLeavesNoGap(c: Crypto, s: Tables, e: SizedEntry)
    requires Dense(s.txs.txs) && AddBlock(c, s, e).Done?
    ensures Dense(AddBlock(c, s, e).state.txs.txs)
  {
    var dense := (t: Tables) => Dense(t.txs.txs);
    forall t, item | dense(t) && AddOne(c, t, item).Done? ensures dense(AddOne(c, t, item).state) {
      AddOneLeavesNoGap(c, t, item);
    }
    AddBlockKeeps(c, s, e, dense);
  }

  ghost predicate NoGap(c: Crypto, ops: seq<Op>) {
    Dense(RunTables(c, EMPTY, ops).0.txs.txs)
  }

  lemma StepLeavesNoGapIff(c: Crypto, ops: seq<Op>, i: nat)
    requires i < |ops| && NoGap(c, ops[..i])
    ensures var s := RunTables(c, EMPTY, ops[..i]).0;
            NoGap(c, ops[..i + 1]) <==> (ops[i].Pop? && Completes(c, s, Pop) ==> NewestTop(c, s))
  {
    var s, front := RunTables(c, EMPTY, ops[..i]).0, ops[..i + 1];
    assert front[..i] == ops[..i] && front[i] == ops[i];
    RunIsTraced(c, ops[..i]);
    match ops[i]
    case Add(e) => if AddBlock(c, s, e).Done? { AddLeavesNoGap(c, s, e); }
    case Pop => if PopBlock(c, Popping(s, [])).Done? { PopLeavesNoGapIff(c, s, []); }
  }

  /** Every pop that completes takes the newest transactions. */
  ghost predicate TakesNewest(c: Crypto, ops: seq<Op>) {
    forall i | 0 <= i < |ops| && ops[i].Pop? && Completes(c, RunTables(c, EMPTY, ops[..i]).0, Pop) ::
      NewestTop(c, RunTables(c, EMPTY, ops[..i]).0)
  }

  lemma {:induction false} NoGapUpTo(c: Crypto, ops: seq<Op>, k: nat)
    requires k <= |ops| && TakesNewest(c, ops)
    ensures NoGap(c, ops[..k])
  {
    if k > 0 {
      NoGapUpTo(c, ops, k - 1);
      StepLeavesNoGapIff(c, ops, k - 1);
    }
  }

  /** A run from empty never leaves a gap if and only if every pop that completes takes the newest transactions. */
  lemma RunLeavesNoGapIff(c: Crypto, ops: seq<Op>)
    ensures (forall k | 0 <= k <= |ops| :: NoGap(c, ops[..k])) <==> TakesNewest(c, ops)
  {
    if TakesNewest(c, ops) {
      forall k | 0 <= k <= |ops| ensures NoGap(c, ops[..k]) {
        NoGapUpTo(c, ops, k);
      }
    } else {
      var i :| 0 <= i < |ops| && ops[i].Pop? && Completes(c, RunTables(c, EMPTY, ops[..i]).0, Pop)
               && !NewestTop(c, RunTables(c, EMPTY, ops[..i]).0);
      if NoGap(c, ops[..i]) {
        StepLeavesNoGapIff(c, ops, i);
      }
    }
  }
}
