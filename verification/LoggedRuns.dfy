/**
  The chain that the calls themselves report: a block goes on with every completed
  `add_block`, and the top block comes off with every completed `pop_block`. The block
  tables always hold this chain; the transaction tables do as long as no transaction
  with unsupported inputs is offered, even where misfiled outputs spoil the output tables.
 */
module LoggedRuns {
  import opened CryptonoteTypes
  import opened Outcomes
  import opened Store
  import opened Reversal
  import opened Aborts
  import opened Ledger
  import opened Refinement
  import opened Runs
  import opened Conservation
  import opened Positions

  function LoggedStep(chain: seq<SizedEntry>, op: Op, completed: bool): seq<SizedEntry> {
    if !completed then chain
    else
      match op
      case Add(e) => if |e.block.txHashes| == |e.txs| then chain + [e] else chain
      case Pop => if chain == [] then chain else chain[..|chain| - 1]
  }

  function LoggedChain(ops: seq<Op>, log: seq<Report>): seq<SizedEntry>
    requires |ops| == |log|
  {
    if ops == [] then []
    else
      var n := |ops| - 1;
      LoggedStep(LoggedChain(ops[..n], log[..n]), ops[n], !log[n].Refused?)
  }

  /** The chain that a run from empty has reported. */
  function CurrentChain(c: Crypto, ops: seq<Op>): seq<SizedEntry> {
    LogLength(c, EMPTY, ops);
    LoggedChain(ops, RunTables(c, EMPTY, ops).1)
  }

  lemma CurrentChainStep(c: Crypto, ops: seq<Op>)
    requires ops != []
    ensures var front, last := ops[..|ops| - 1], ops[|ops| - 1];
            var now := RunTables(c, EMPTY, front).0;
            && CurrentChain(c, ops) == LoggedStep(CurrentChain(c, front), last, Completes(c, now, last))
            && RunTables(c, EMPTY, ops).0 == StepTables(c, now, last).0
  {
    var n := |ops| - 1;
    LogLength(c, EMPTY, ops[..n]);
    assert RunTables(c, EMPTY, ops).1[..n] == RunTables(c, EMPTY, ops[..n]).1;
  }

  /** One call, on the reported chain and the tables. */
  function LoggedCall(c: Crypto, chain: seq<SizedEntry>, s: Tables, op: Op): (seq<SizedEntry>, Tables) {
    (LoggedStep(chain, op, Completes(c, s, op)), StepTables(c, s, op).0)
  }

  lemma {:induction false} StaysAlong(
      state: seq<Op> -> (seq<SizedEntry>, Tables),
      call: (seq<SizedEntry>, Tables, Op) -> (seq<SizedEntry>, Tables),
      ops: seq<Op>, more: seq<Op>, inv: (seq<SizedEntry>, Tables) -> bool)
    requires forall ops | ops != [] ::
               var (chain, s) := state(ops[..|ops| - 1]);
               state(ops) == call(chain, s, ops[|ops| - 1])
    requires inv(state(ops).0, state(ops).1)
    requires forall chain, s, op | op in more && inv(chain, s) :: inv(call(chain, s, op).0, call(chain, s, op).1)
    ensures inv(state(ops + more).0, state(ops + more).1)
    decreases |more|
  {
    if more == [] {
      assert ops + more == ops;
    } else {
      StaysAlong(state, call, ops, more[..|more| - 1], inv);
      FrontOfConcat(ops, more);
    }
  }

  /** What holds of the reported chain after a run and is kept by every call holds however the run goes on. */
  lemma ReportedStays(
      c: Crypto, ops: seq<Op>, more: seq<Op>, inv: (seq<SizedEntry>, Tables) -> bool)
    requires inv(CurrentChain(c, ops), RunTables(c, EMPTY, ops).0)
    requires forall chain, s, op | op in more && inv(chain, s) ::
               inv(LoggedStep(chain, op, Completes(c, s, op)), StepTables(c, s, op).0)
    ensures inv(CurrentChain(c, ops + more), RunTables(c, EMPTY, ops + more).0)
  {
    var state := (ops: seq<Op>) => (CurrentChain(c, ops), RunTables(c, EMPTY, ops).0);
    var call := (chain: seq<SizedEntry>, s: Tables, op: Op) => LoggedCall(c, chain, s, op);
    forall ops | ops != []
      ensures var (chain, s) := state(ops[..|ops| - 1]);
              state(ops) == call(chain, s, ops[|ops| - 1])
    {
      CurrentChainStep(c, ops);
    }
    StaysAlong(state, call, ops, more, inv);
  }

  lemma ReportedKeeps(c: Crypto, ops: seq<Op>, inv: (seq<SizedEntry>, Tables) -> bool)
    requires inv([], EMPTY)
    requires forall chain, s, op | op in ops && inv(chain, s) ::
               inv(LoggedStep(chain, op, Completes(c, s, op)), StepTables(c, s, op).0)
    ensures inv(CurrentChain(c, ops), RunTables(c, EMPTY, ops).0)
  {
    ReportedStays(c, [], ops, inv);
    assert [] + ops == ops;
  }

  // ---------------------------------------------------- the block tables

  ghost predicate BlocksIndexed(c: Crypto, chain: seq<SizedEntry>, s: Tables) {
    ValidLinks(c, chain) && s.blocks == IndexBlocks(c, chain)
  }

  lemma AddBlockRecords(c: Crypto, chain: seq<SizedEntry>, s: Tables, e: SizedEntry)
    requires BlocksIndexed(c, chain, s) && AddBlock(c, s, e).Done?
    ensures BlocksIndexed(c, chain + [e], AddBlock(c, s, e).state)
  {
    AddTxsKeepsBlocks(c, s, e);
    AddBlockRecordIndexes(c, chain, e);
  }

  lemma RemoveRecordIndexes(c: Crypto, chain: seq<SizedEntry>, e: SizedEntry)
    requires ValidLinks(c, chain + [e])
    ensures ValidLinks(c, chain)
    ensures GetTopBlock(IndexBlocks(c, chain + [e])) == Done(IndexBlocks(c, chain + [e]), e.block)
    ensures RemoveBlockRecord(IndexBlocks(c, chain + [e])) == Done(IndexBlocks(c, chain), ())
  {
    ValidLinksGrow(c, chain, e);
    AddBlockRecordIndexes(c, chain, e);
    RemoveBlockRecordUndoesAdd(c, IndexBlocks(c, chain), e);
  }

  /** A pop starts by taking the chain's top block off. */
  lemma PopBlockOf(c: Crypto, chain: seq<SizedEntry>, s: Tables, out: seq<Transaction>)
    requires BlocksIndexed(c, chain, s) && chain != []
    ensures var below, top := chain[..|chain| - 1], chain[|chain| - 1];
            && ValidLinks(c, below)
            && PopBlock(c, Popping(s, out))
               == PopBlockTxs(c, Popping(s.(blocks := IndexBlocks(c, below)), out), top.block)
  {
    var below, top := chain[..|chain| - 1], chain[|chain| - 1];
    SplitLast(chain);
    RemoveRecordIndexes(c, below, top);
  }

  lemma PopNeedsBlock(c: Crypto, chain: seq<SizedEntry>, s: Tables, out: seq<Transaction>)
    requires BlocksIndexed(c, chain, s) && PopBlock(c, Popping(s, out)).Done?
    ensures chain != []
  {
    TableSize(Blocks(chain));
  }

  lemma PopBlockUnrecords(c: Crypto, chain: seq<SizedEntry>, s: Tables)
    requires BlocksIndexed(c, chain, s) && chain != [] && PopBlock(c, Popping(s, [])).Done?
    ensures BlocksIndexed(c, chain[..|chain| - 1], PopBlock(c, Popping(s, [])).state.tables)
  {
    var below, top := chain[..|chain| - 1], chain[|chain| - 1];
    PopBlockOf(c, chain, s, []);
    PopTxsKeepsBlocks(c, Popping(s.(blocks := IndexBlocks(c, below)), []), top.block);
  }

  lemma BlocksAfterAdd(c: Crypto, chain: seq<SizedEntry>, s: Tables, e: Entry)
    requires BlocksIndexed(c, chain, s)
    ensures BlocksIndexed(c, LoggedStep(chain, Add(e), Completes(c, s, Add(e))), StepTables(c, s, Add(e)).0)
  {
    if AddBlock(c, s, e).Done? {
      AddBlockRecords(c, chain, s, e);
    }
  }

  lemma BlocksAfterPop(c: Crypto, chain: seq<SizedEntry>, s: Tables)
    requires BlocksIndexed(c, chain, s)
    ensures BlocksIndexed(c, LoggedStep(chain, Pop, Completes(c, s, Pop)), StepTables(c, s, Pop).0)
  {
    if PopBlock(c, Popping(s, [])).Done? {
      PopNeedsBlock(c, chain, s, []);
      PopBlockUnrecords(c, chain, s);
    }
  }

  lemma BlocksStep(c: Crypto, chain: seq<SizedEntry>, s: Tables, op: Op)
    requires BlocksIndexed(c, chain, s)
    ensures BlocksIndexed(c, LoggedStep(chain, op, Completes(c, s, op)), StepTables(c, s, op).0)
  {
    match op
    case Add(e) => BlocksAfterAdd(c, chain, s, e);
    case Pop => BlocksAfterPop(c, chain, s);
  }

  /** After any run whatever, the block tables hold exactly the reported chain, each block linked to the one below. */
  lemma BlocksAreReported(c: Crypto, ops: seq<Op>)
    ensures RunTables(c, EMPTY, ops).0.blocks == IndexBlocks(c, CurrentChain(c, ops))
    ensures ValidLinks(c, CurrentChain(c, ops))
  {
    var inv := (chain: seq<SizedEntry>, s: Tables) => BlocksIndexed(c, chain, s);
    EmptyIndex(c);
    forall chain, s, op | inv(chain, s)
      ensures inv(LoggedStep(chain, op, Completes(c, s, op)), StepTables(c, s, op).0)
    {
      BlocksStep(c, chain, s, op);
    }
    ReportedKeeps(c, ops, inv);
  }

  // ---------------------------------------------- the transaction tables

  /** The transaction tables hold `recs`; only the amount indices in them are left open. */
  ghost predicate TxsIndexed(c: Crypto, recs: seq<TxRec>, t: TxTables) {
    && NoDup(RecHashes(recs))
    && t.txs == Table(RecTxs(recs))
    && t.indices == IndexTxs(c, recs).indices
    && IndicesFit(t)
  }

  /** Every recorded transaction has one amount index per output. */
  predicate IndicesFit(t: TxTables) {
    t.outputs.Keys == t.txs.Keys && forall id | id in t.txs :: |t.outputs[id]| == |t.txs[id].vout|
  }

  lemma TxTablesGrow(c: Crypto, recs: seq<TxRec>, r: TxRec)
    ensures Table(RecTxs(recs + [r])) == Table(RecTxs(recs))[|recs| := r.tx]
    ensures |Table(RecTxs(recs))| == |recs| && |recs| !in Table(RecTxs(recs))
    ensures NoDup(RecHashes(recs + [r])) <==> NoDup(RecHashes(recs)) && r.hash !in IndexTxs(c, recs).indices
    ensures NoDup(RecHashes(recs + [r])) ==>
              IndexTxs(c, recs + [r]).indices
              == IndexTxs(c, recs).indices[r.hash := TxData(|recs|, r.tx.unlockTime, r.height)]
  {
    TableSize(RecTxs(recs));
    TableGrows(RecTxs(recs), r.tx);
    assert RecTxs(recs + [r]) == RecTxs(recs) + [r.tx];
    AllOutsGrow(c, recs, r);
    NoDupGrows(RecHashes(recs), r.hash);
    if r.hash !in RecHashes(recs) {
      IndicesGrow(c, recs, r);
    }
  }

  /** The transaction tables with one more transaction. */
  function With(t: TxTables, id: nat, r: TxRec, issued: seq<nat>): TxTables {
    TxTables(
      t.txs[id := r.tx],
      t.indices[r.hash := TxData(id, r.tx.unlockTime, r.height)],
      t.outputs[id := issued])
  }

  lemma FitWith(t: TxTables, id: nat, r: TxRec, issued: seq<nat>)
    requires IndicesFit(t) && |issued| == |r.tx.vout|
    ensures IndicesFit(With(t, id, r, issued))
  {
  }

  lemma IndexedWith(c: Crypto, recs: seq<TxRec>, r: TxRec, t: TxTables, issued: seq<nat>)
    requires TxsIndexed(c, recs, t) && r.hash !in t.indices && |issued| == |r.tx.vout|
    ensures |t.txs| == |recs| && TxsIndexed(c, recs + [r], With(t, |recs|, r, issued))
  {
    TxTablesGrow(c, recs, r);
    FitWith(t, |recs|, r, issued);
  }

  function Without(t: TxTables, id: nat, hash: Hash): TxTables {
    TxTables(t.txs - {id}, t.indices - {hash}, t.outputs - {id})
  }

  lemma IndexedWithout(c: Crypto, recs: seq<TxRec>, r: TxRec, t: TxTables)
    requires TxsIndexed(c, recs + [r], t)
    ensures r.hash in t.indices && t.indices[r.hash].id == |recs| && |recs| in t.txs && t.txs[|recs|] == r.tx
    ensures TxsIndexed(c, recs, Without(t, |recs|, r.hash))
  {
    TxTablesGrow(c, recs, r);
    PutThenDelete(Table(RecTxs(recs)), |recs|, r.tx);
    PutThenDelete(IndexTxs(c, recs).indices, r.hash, t.indices[r.hash]);
  }

  lemma AddTxIndexed(c: Crypto, recs: seq<TxRec>, s: Tables, item: Listed)
    requires TxsIndexed(c, recs, s.txs) && AddOne(c, s, item).Done? && Supported(item.tx)
    ensures TxsIndexed(c, recs + [TxRec(item.hash, item.tx, Height(s))], AddOne(c, s, item).state.txs)
  {
    RecordedTables(c, s, item.tx, item.hash);
    FileOneIssuesOne();
    OneIndexPerOutput(FileOne, Filing(s.outs, []), NewOuts(c, item.tx, item.hash, Height(s)));
    var issued := FileOutputs(c, s.outs, item.tx, item.hash, Height(s)).state.issued;
    IndexedWith(c, recs, TxRec(item.hash, item.tx, Height(s)), s.txs, issued);
  }

  lemma {:induction false} AddListedIndexed(c: Crypto, recs: seq<TxRec>, s: Tables, items: seq<Listed>)
    requires TxsIndexed(c, recs, s.txs) && Forward(Adder(c), s, items).Done?
    requires forall i | 0 <= i < |items| :: Supported(items[i].tx)
    ensures TxsIndexed(c, recs + ItemRecs(items, Height(s)), Forward(Adder(c), s, items).state.txs)
  {
    if items == [] {
      assert recs + ItemRecs(items, Height(s)) == recs;
    } else {
      var front, last := items[..|items| - 1], items[|items| - 1];
      AddListedIndexed(c, recs, s, front);
      AddListedKeepsBlocks(c, s, front);
      ItemRecsGrow(recs, items, Height(s));
      AddTxIndexed(c, recs + ItemRecs(front, Height(s)), Forward(Adder(c), s, front).state, last);
    }
  }

  function MinerRec(c: Crypto, e: Entry, height: nat): TxRec {
    TxRec(MinerOf(c, e).hash, e.block.minerTx, height)
  }

  lemma RecsOfTop(c: Crypto, chain: seq<SizedEntry>, e: SizedEntry)
    ensures Recs(c, chain + [e]) == (Recs(c, chain) + [MinerRec(c, e, |chain|)]) + ItemRecs(ListedOf(e), |chain|)
  {
    RecsGrow(c, chain, e);
  }

  /** A completed `add_block` is the miner transaction and then the listed ones. */
  lemma AddedTxs(c: Crypto, s: Tables, e: SizedEntry) returns (mid: Tables)
    requires AddBlock(c, s, e).Done?
    ensures AddOne(c, s, MinerOf(c, e)).Done? && AddOne(c, s, MinerOf(c, e)).state == mid && Height(mid) == Height(s)
    ensures Forward(Adder(c), mid, ListedOf(e)).Done?
    ensures AddBlock(c, s, e).state.txs == Forward(Adder(c), mid, ListedOf(e)).state.txs
  {
    mid := AddOne(c, s, MinerOf(c, e)).state;
    AddOneFiles(c, s, MinerOf(c, e));
  }

  lemma AddBlockTxsIndexed(c: Crypto, chain: seq<SizedEntry>, s: Tables, e: SizedEntry)
    requires TxsIndexed(c, Recs(c, chain), s.txs) && Height(s) == |chain|
    requires AddBlock(c, s, e).Done? && AllSupported(e)
    ensures TxsIndexed(c, Recs(c, chain + [e]), AddBlock(c, s, e).state.txs)
  {
    var mid := AddedTxs(c, s, e);
    var recs := Recs(c, chain) + [MinerRec(c, e, |chain|)];
    assert TxsIndexed(c, recs, mid.txs) by {
      AddTxIndexed(c, Recs(c, chain), s, MinerOf(c, e));
    }
    AddListedIndexed(c, recs, mid, ListedOf(e));
    RecsOfTop(c, chain, e);
  }

  /** What a completed removal leaves of the transaction tables, whatever the output tables are. */
  lemma RemovedTx(s: Tables, hash: Hash)
    requires RemoveTransaction(s, hash).Done?
    ensures hash in s.txs.indices
    ensures RemoveTransaction(s, hash).state.txs == Without(s.txs, s.txs.indices[hash].id, hash)
  {
  }

  lemma PopOneIndexed(c: Crypto, recs: seq<TxRec>, r: TxRec, p: Popping)
    requires TxsIndexed(c, recs + [r], p.tables.txs) && PopOne(p, r.hash).Done?
    ensures TxsIndexed(c, recs, PopOne(p, r.hash).state.tables.txs)
    ensures PopOne(p, r.hash).state.txs == p.txs + [r.tx]
  {
    IndexedWithout(c, recs, r, p.tables.txs);
    RemovedTx(p.tables, r.hash);
  }

  /** If every round takes the last transaction off, the loop takes all of them off. */
  lemma {:induction false} PopsRecs(
      pop: Step<Popping, Hash>, inv: (seq<TxRec>, TxTables) -> bool,
      recs: seq<TxRec>, items: seq<Listed>, height: nat, p: Popping)
    requires forall recs, r: TxRec, p: Popping | inv(recs + [r], p.tables.txs) && pop(p, r.hash).Done? ::
               inv(recs, pop(p, r.hash).state.tables.txs) && pop(p, r.hash).state.txs == p.txs + [r.tx]
    requires inv(recs + ItemRecs(items, height), p.tables.txs)
    requires Backward(pop, p, Hashes(items)).Done?
    ensures inv(recs, Backward(pop, p, Hashes(items)).state.tables.txs)
    ensures Backward(pop, p, Hashes(items)).state.txs == p.txs + Reversed(Txs(items))
    decreases |items|
  {
    if items == [] {
      assert recs + ItemRecs(items, height) == recs;
      assert p.txs + Reversed(Txs(items)) == p.txs;
    } else {
      var n := |items| - 1;
      var front, last := items[..n], items[n];
      var p' := pop(p, last.hash).state;
      ItemRecsGrow(recs, items, height);
      assert inv(recs + ItemRecs(front, height), p'.tables.txs) && p'.txs == p.txs + [last.tx] by {
        var r := TxRec(last.hash, last.tx, height);
        assert inv((recs + ItemRecs(front, height)) + [r], p.tables.txs) && pop(p, r.hash).Done?;
      }
      assert Hashes(items)[..n] == Hashes(front);
      PopsRecs(pop, inv, recs, front, height, p');
      ReversedLast(items, 0, p.txs);
      assert items[0..] == items && front[0..] == front;
    }
  }

  lemma PopListedIndexed(c: Crypto, recs: seq<TxRec>, items: seq<Listed>, height: nat, p: Popping)
    requires TxsIndexed(c, recs + ItemRecs(items, height), p.tables.txs)
    requires Backward(PopOne, p, Hashes(items)).Done?
    ensures TxsIndexed(c, recs, Backward(PopOne, p, Hashes(items)).state.tables.txs)
    ensures Backward(PopOne, p, Hashes(items)).state.txs == p.txs + Reversed(Txs(items))
  {
    var inv := (recs: seq<TxRec>, t: TxTables) => TxsIndexed(c, recs, t);
    forall recs, r: TxRec, p: Popping | inv(recs + [r], p.tables.txs) && PopOne(p, r.hash).Done?
      ensures inv(recs, PopOne(p, r.hash).state.tables.txs) && PopOne(p, r.hash).state.txs == p.txs + [r.tx]
    {
      PopOneIndexed(c, recs, r, p);
    }
    PopsRecs(PopOne, inv, recs, items, height, p);
  }

  /** A completed pop is a completed loop and a completed removal of the miner transaction. */
  lemma PoppedTxs(c: Crypto, p: Popping, e: SizedEntry) returns (p': Popping)
    requires PopBlockTxs(c, p, e.block).Done?
    ensures Backward(PopOne, p, Hashes(ListedOf(e))).Done? && Backward(PopOne, p, Hashes(ListedOf(e))).state == p'
    ensures MinerOf(c, e).hash in p'.tables.txs.indices
    ensures var miner, popped := MinerOf(c, e).hash, PopBlockTxs(c, p, e.block).state;
            && popped.tables.txs == Without(p'.tables.txs, p'.tables.txs.indices[miner].id, miner)
            && popped.txs == p'.txs
  {
    ListedParts(e, 0);
    p' := Backward(PopOne, p, e.block.txHashes).state;
    RemovedTx(p'.tables, MinerOf(c, e).hash);
  }

  lemma ListedPopped(c: Crypto, recs: seq<TxRec>, e: SizedEntry, height: nat, p: Popping, p': Popping)
    requires TxsIndexed(c, recs + ItemRecs(ListedOf(e), height), p.tables.txs)
    requires Backward(PopOne, p, Hashes(ListedOf(e))).Done? && Backward(PopOne, p, Hashes(ListedOf(e))).state == p'
    ensures TxsIndexed(c, recs, p'.tables.txs) && p'.txs == p.txs + Reversed(e.txs)
  {
    PopListedIndexed(c, recs, ListedOf(e), height, p);
    assert Txs(ListedOf(e)) == e.txs;
  }

  lemma MinerPopped(c: Crypto, recs: seq<TxRec>, r: TxRec, t: TxTables, t': TxTables)
    requires TxsIndexed(c, recs + [r], t)
    requires r.hash in t.indices && t' == Without(t, t.indices[r.hash].id, r.hash)
    ensures TxsIndexed(c, recs, t')
  {
    IndexedWithout(c, recs, r, t);
  }

  lemma PopBlockTxsIndexed(c: Crypto, chain: seq<SizedEntry>, e: SizedEntry, p: Popping)
    requires TxsIndexed(c, Recs(c, chain + [e]), p.tables.txs)
    requires PopBlockTxs(c, p, e.block).Done?
    ensures TxsIndexed(c, Recs(c, chain), PopBlockTxs(c, p, e.block).state.tables.txs)
    ensures PopBlockTxs(c, p, e.block).state.txs == p.txs + Reversed(e.txs)
  {
    var recs, r := Recs(c, chain), MinerRec(c, e, |chain|);
    var p' := PoppedTxs(c, p, e);
    RecsOfTop(c, chain, e);
    ListedPopped(c, recs + [r], e, |chain|, p, p');
    MinerPopped(c, recs, r, p'.tables.txs, PopBlockTxs(c, p, e.block).state.tables.txs);
  }

  ghost predicate ChainIndexed(c: Crypto, chain: seq<SizedEntry>, s: Tables) {
    BlocksIndexed(c, chain, s) && TxsIndexed(c, Recs(c, chain), s.txs)
  }

  lemma AddStepIndexed(c: Crypto, chain: seq<SizedEntry>, s: Tables, e: SizedEntry)
    requires ChainIndexed(c, chain, s) && AddBlock(c, s, e).Done? && AllSupported(e)
    ensures TxsIndexed(c, Recs(c, chain + [e]), AddBlock(c, s, e).state.txs)
  {
    TableSize(Blocks(chain));
    AddBlockTxsIndexed(c, chain, s, e);
  }

  lemma PopStepIndexed(
      c: Crypto, chain: seq<SizedEntry>, s: Tables, out: seq<Transaction>, popped: Outcome<Popping, Block>)
    requires ChainIndexed(c, chain, s) && chain != []
    requires popped == PopBlock(c, Popping(s, out)) && popped.Done?
    ensures TxsIndexed(c, Recs(c, chain[..|chain| - 1]), popped.state.tables.txs)
    ensures popped.value == chain[|chain| - 1].block && popped.state.txs == out + Reversed(chain[|chain| - 1].txs)
  {
    var below, top := chain[..|chain| - 1], chain[|chain| - 1];
    PopBlockOf(c, chain, s, out);
    SplitLast(chain);
    PopTopIndexed(c, below, top, Popping(s.(blocks := IndexBlocks(c, below)), out), popped);
  }

  lemma PopTopIndexed(
      c: Crypto, below: seq<SizedEntry>, top: SizedEntry, p: Popping, popped: Outcome<Popping, Block>)
    requires TxsIndexed(c, Recs(c, below + [top]), p.tables.txs)
    requires popped == PopBlockTxs(c, p, top.block) && popped.Done?
    ensures TxsIndexed(c, Recs(c, below), popped.state.tables.txs)
    ensures popped.value == top.block && popped.state.txs == p.txs + Reversed(top.txs)
  {
    PopBlockTxsIndexed(c, below, top, p);
  }

  lemma ChainStep(c: Crypto, chain: seq<SizedEntry>, s: Tables, op: Op)
    requires ChainIndexed(c, chain, s) && (op.Add? ==> AllSupported(op.entry))
    ensures ChainIndexed(c, LoggedStep(chain, op, Completes(c, s, op)), StepTables(c, s, op).0)
  {
    BlocksStep(c, chain, s, op);
    if !Completes(c, s, op) {
      return;
    }
    match op
    case Add(e) =>
      AddStepIndexed(c, chain, s, e);
    case Pop =>
      PopNeedsBlock(c, chain, s, []);
      PopStepIndexed(c, chain, s, [], PopBlock(c, Popping(s, [])));
  }

  /** After any run of supported blocks, the transaction tables hold exactly the transactions of the reported chain. */
  lemma TxsAreReported(c: Crypto, ops: seq<Op>)
    requires SupportedOps(ops)
    ensures ChainIndexed(c, CurrentChain(c, ops), RunTables(c, EMPTY, ops).0)
  {
    var inv := (chain: seq<SizedEntry>, s: Tables) => ChainIndexed(c, chain, s);
    EmptyIndex(c);
    forall chain, s, op | op in ops && inv(chain, s)
      ensures inv(LoggedStep(chain, op, Completes(c, s, op)), StepTables(c, s, op).0)
    {
      ChainStep(c, chain, s, op);
    }
    ReportedKeeps(c, ops, inv);
  }

  // ------------------------------------------------- what is recorded

  /** The block goes with this transaction under this hash. */
  predicate Lists(c: Crypto, e: SizedEntry, hash: Hash, tx: Transaction) {
    || (hash == c.txHash(e.block.minerTx) && tx == e.block.minerTx)
    || exists i | 0 <= i < |e.txs| :: hash == e.block.txHashes[i] && tx == e.txs[i]
  }

  ghost predicate ChainLists(c: Crypto, chain: seq<SizedEntry>, hash: Hash, tx: Transaction) {
    exists b | 0 <= b < |chain| :: Lists(c, chain[b], hash, tx)
  }

  lemma {:induction false} RecsAreListed(c: Crypto, chain: seq<SizedEntry>, hash: Hash, tx: Transaction)
    ensures ChainLists(c, chain, hash, tx) <==> HasRec(Recs(c, chain), hash, tx)
  {
    if chain != [] {
      var n := |chain| - 1;
      var below, e := chain[..n], chain[n];
      RecsAreListed(c, below, hash, tx);
      EntryRecsAreListed(c, e, n, hash, tx);
      RecsConcat(Recs(c, below), EntryRecs(c, e, n), hash, tx);
      assert forall b | 0 <= b < n :: below[b] == chain[b];
    }
  }

  ghost predicate HasRec(recs: seq<TxRec>, hash: Hash, tx: Transaction) {
    exists i | 0 <= i < |recs| :: recs[i].hash == hash && recs[i].tx == tx
  }

  lemma RecsConcat(xs: seq<TxRec>, ys: seq<TxRec>, hash: Hash, tx: Transaction)
    ensures HasRec(xs + ys, hash, tx) <==> HasRec(xs, hash, tx) || HasRec(ys, hash, tx)
  {
    var zs := xs + ys;
    assert forall i | 0 <= i < |xs| :: zs[i] == xs[i];
    assert forall j | 0 <= j < |ys| :: zs[|xs| + j] == ys[j];
  }

  lemma EntryRecsAreListed(c: Crypto, e: SizedEntry, height: nat, hash: Hash, tx: Transaction)
    ensures HasRec(EntryRecs(c, e, height), hash, tx) <==>
            Lists(c, e, hash, tx)
  {
    var recs := EntryRecs(c, e, height);
    assert recs[0].hash == c.txHash(e.block.minerTx) && recs[0].tx == e.block.minerTx;
    assert forall i | 0 <= i < |e.txs| :: recs[i + 1].hash == e.block.txHashes[i] && recs[i + 1].tx == e.txs[i];
  }

  /** After any run of supported blocks, a hash leads to a transaction exactly when a block of the chain lists both. */
  lemma RecordedIffListed(c: Crypto, ops: seq<Op>, hash: Hash, tx: Transaction)
    requires SupportedOps(ops)
    ensures GetTx(RunTables(c, EMPTY, ops).0.txs, hash) == Some(tx) <==>
            ChainLists(c, CurrentChain(c, ops), hash, tx)
  {
    var chain, t := CurrentChain(c, ops), RunTables(c, EMPTY, ops).0.txs;
    TxsAreReported(c, ops);
    RecsAreListed(c, chain, hash, tx);
    FoundIffRecorded(c, Recs(c, chain), t, hash, tx);
  }

  lemma FoundIffRecorded(c: Crypto, recs: seq<TxRec>, t: TxTables, hash: Hash, tx: Transaction)
    requires TxsIndexed(c, recs, t)
    ensures GetTx(t, hash) == Some(tx) <==> HasRec(recs, hash, tx)
  {
    if GetTx(t, hash) == Some(tx) {
      FoundIsRecorded(c, recs, t, hash, tx);
    }
    if HasRec(recs, hash, tx) {
      RecordedIsFound(c, recs, t, hash, tx);
    }
  }

  lemma FoundIsRecorded(c: Crypto, recs: seq<TxRec>, t: TxTables, hash: Hash, tx: Transaction)
    requires TxsIndexed(c, recs, t) && GetTx(t, hash) == Some(tx)
    ensures HasRec(recs, hash, tx)
  {
    var i := Find(RecHashes(recs), hash);
    assert recs[i].hash == hash && recs[i].tx == tx;
  }

  lemma RecordedIsFound(c: Crypto, recs: seq<TxRec>, t: TxTables, hash: Hash, tx: Transaction)
    requires TxsIndexed(c, recs, t) && HasRec(recs, hash, tx)
    ensures GetTx(t, hash) == Some(tx)
  {
    var hashes := RecHashes(recs);
    var i :| 0 <= i < |recs| && recs[i].hash == hash && recs[i].tx == tx;
    assert hashes[i] == hash && hashes[i] in hashes;
    FindInverts(hashes, i);
  }

  // -------------------------------------------------------- consequences

  lemma {:induction false} TotalOfTable<V>(xs: seq<V>, weight: V -> int)
    ensures Total(Table(xs), weight) == Sum(weight, xs)
  {
    if xs == [] {
      assert Table(xs).Keys == {};
    } else {
      var n: nat := |xs| - 1;
      TotalOfTable(xs[..n], weight);
      assert xs[..n] + [xs[n]] == xs;
      TableGrows(xs[..n], xs[n]);
      assert Table(xs) == Table(xs[..n])[n := xs[n]];
      TotalGrows(Table(xs[..n]), weight, n, xs[n]);
    }
  }

  /** As many outputs are stored as the transactions of the reported chain have, misfiled ones included. */
  lemma ChainOutputsConserved(c: Crypto, ops: seq<Op>)
    requires SupportedOps(ops)
    ensures var s, txs := RunTables(c, EMPTY, ops).0, RecTxs(Recs(c, CurrentChain(c, ops)));
            |s.outs.txs| == EntrySum(s.outs) == Sum(OutputsOfTx(), txs) && |s.txs.txs| == |txs|
  {
    var txs := RecTxs(Recs(c, CurrentChain(c, ops)));
    TxsAreReported(c, ops);
    OutputsConserved(c, ops);
    TotalOfTable(txs, OutputsOfTx());
    TableSize(txs);
  }

  /** Block and transaction tables never have gaps, whatever happens to the output tables. */
  lemma BlockTablesDense(c: Crypto, ops: seq<Op>)
    ensures var s := RunTables(c, EMPTY, ops).0;
            && Dense(s.blocks.blocks) && Dense(s.blocks.info) && |s.blocks.blocks| == |s.blocks.info|
            && (SupportedOps(ops) ==> Dense(s.txs.txs) && Dense(s.txs.outputs) && |s.txs.txs| == |s.txs.outputs|)
  {
    var s, chain := RunTables(c, EMPTY, ops).0, CurrentChain(c, ops);
    BlocksAreReported(c, ops);
    TableDense(Blocks(chain));
    TableDense(Infos(c, chain));
    TableSize(Blocks(chain));
    TableSize(Infos(c, chain));
    if SupportedOps(ops) {
      TxsAreReported(c, ops);
      TableDense(RecTxs(Recs(c, chain)));
      assert |s.txs.outputs| == |s.txs.outputs.Keys| && |s.txs.txs| == |s.txs.txs.Keys|;
    }
  }

  /** Where only reversible blocks are popped, the reported chain is the list of `Runs`, and so are the reports. */
  lemma {:induction false} ReportedIsList(c: Crypto, ops: seq<Op>)
    requires SupportedOps(ops) && PopsReversible(c, [], ops)
    ensures CurrentChain(c, ops) == RunChain(c, [], ops).0
    ensures RunTables(c, EMPTY, ops).1 == RunChain(c, [], ops).1
  {
    EmptyIndex(c);
    RunRefines(c, [], ops);
    if ops != [] {
      var n := |ops| - 1;
      PopsReversibleFront(c, [], ops);
      ReportedIsList(c, ops[..n]);
      CurrentChainStep(c, ops);
      RunRefines(c, [], ops[..n]);
      SameLast(RunTables(c, EMPTY, ops[..n]).1,
               StepTables(c, RunTables(c, EMPTY, ops[..n]).0, ops[n]).1,
               StepChain(c, RunChain(c, [], ops[..n]).0, ops[n]).1);
    }
  }
}
