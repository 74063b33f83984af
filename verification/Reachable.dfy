/**
  What holds of the tables after every run from an empty store whose completed pops each
  took off a reversible block. Such a run leaves the tables of a replay of the surviving
  blocks, and no other run does so at every call.
 */
module Reachable {
  import opened CryptonoteTypes
  import opened Outcomes
  import opened Store
  import opened Reversal
  import opened ReversalLimits
  import opened Ledger
  import opened Positions
  import opened Runs
  import opened LoggedRuns
  import opened Correspondence

  // -------------------------------------------------------------- replays

  /** Every pop that completes takes a reversible block off the reported chain. */
  predicate TakesReversible(c: Crypto, ops: seq<Op>) {
    forall i | 0 <= i < |ops| && ops[i].Pop? && Completes(c, RunTables(c, EMPTY, ops[..i]).0, Pop) ::
      TopReversible(CurrentChain(c, ops[..i]))
  }

  /** The tables are those of a fresh store given the blocks of the reported chain in order. */
  predicate IsReplay(c: Crypto, ops: seq<Op>) {
    Replay(c, EMPTY, CurrentChain(c, ops)) == Done(RunTables(c, EMPTY, ops).0, ())
  }

  lemma ReplayStep(c: Crypto, s: Tables, chain: seq<SizedEntry>, e: SizedEntry)
    requires Replay(c, EMPTY, chain) == Done(s, ())
    ensures AddBlock(c, s, e).Done? ==> Replay(c, EMPTY, chain + [e]) == Done(AddBlock(c, s, e).state, ())
    ensures Replay(c, EMPTY, chain + [e]).Done? ==> AddBlock(c, s, e).Done?
  {
    assert (chain + [e])[..|chain|] == chain;
  }

  lemma AddReplays(c: Crypto, s: Tables, chain: seq<SizedEntry>, e: Entry)
    requires Replay(c, EMPTY, chain) == Done(s, ())
    ensures var (s', report) := StepTables(c, s, Add(e));
            Replay(c, EMPTY, LoggedStep(chain, Add(e), !report.Refused?)) == Done(s', ())
  {
    if AddBlock(c, s, e).Done? {
      ReplayStep(c, s, chain, e);
    }
  }

  lemma PopStepBackIff(c: Crypto, below: Tables, top: SizedEntry, s: Tables)
    requires AddBlock(c, below, top).Done? && AddBlock(c, below, top).state == s && Completes(c, s, Pop)
    ensures StepTables(c, s, Pop).0 == below <==> ReversibleEntry(top)
  {
    PopUndoesAddIff(c, below, top, []);
  }

  lemma ReplayBelow(c: Crypto, s: Tables, chain: seq<SizedEntry>) returns (below: Tables)
    requires Replay(c, EMPTY, chain) == Done(s, ()) && chain != []
    ensures Replay(c, EMPTY, chain[..|chain| - 1]) == Done(below, ())
    ensures AddBlock(c, below, chain[|chain| - 1]).Done? && AddBlock(c, below, chain[|chain| - 1]).state == s
  {
    below := Replay(c, EMPTY, chain[..|chain| - 1]).state;
    assert Replay(c, EMPTY, chain[..|chain| - 1]).value == ();
  }

  /** A completed pop of a replayed chain leaves a replay exactly when the top block is reversible. */
  lemma PopReplaysIff(c: Crypto, s: Tables, chain: seq<SizedEntry>)
    requires Replay(c, EMPTY, chain) == Done(s, ()) && Completes(c, s, Pop)
    ensures Replay(c, EMPTY, LoggedStep(chain, Pop, true)) == Done(StepTables(c, s, Pop).0, ()) <==>
            TopReversible(chain)
  {
    if chain != [] {
      var below := ReplayBelow(c, s, chain);
      PopStepBackIff(c, below, chain[|chain| - 1], s);
    }
  }

  lemma TakesReversibleFront(c: Crypto, ops: seq<Op>)
    requires ops != []
    ensures var front, last := ops[..|ops| - 1], ops[|ops| - 1];
            var s := RunTables(c, EMPTY, front).0;
            TakesReversible(c, ops) <==>
            && TakesReversible(c, front)
            && (last.Pop? && Completes(c, s, Pop) ==> TopReversible(CurrentChain(c, front)))
  {
    PopsFront(ops, before =>
      Completes(c, RunTables(c, EMPTY, before).0, Pop) ==> TopReversible(CurrentChain(c, before)));
  }

  lemma StepReplaysIff(c: Crypto, ops: seq<Op>)
    requires ops != [] && IsReplay(c, ops[..|ops| - 1])
    ensures var front, last := ops[..|ops| - 1], ops[|ops| - 1];
            IsReplay(c, ops) <==>
            (last.Pop? && Completes(c, RunTables(c, EMPTY, front).0, Pop) ==> TopReversible(CurrentChain(c, front)))
  {
    var front, last := ops[..|ops| - 1], ops[|ops| - 1];
    var s, chain := RunTables(c, EMPTY, front).0, CurrentChain(c, front);
    CurrentChainStep(c, ops);
    match last
    case Add(e) => AddReplays(c, s, chain, e);
    case Pop => if Completes(c, s, Pop) { PopReplaysIff(c, s, chain); }
  }

  /** After such a run the tables are those of a fresh store given the surviving blocks in order. */
  lemma {:induction false} RunIsReplay(c: Crypto, ops: seq<Op>)
    requires TakesReversible(c, ops)
    ensures Replay(c, EMPTY, CurrentChain(c, ops)) == Done(RunTables(c, EMPTY, ops).0, ())
  {
    if ops != [] {
      TakesReversibleFront(c, ops);
      RunIsReplay(c, ops[..|ops| - 1]);
      StepReplaysIff(c, ops);
    }
  }

  lemma TakesReversiblePrefix(c: Crypto, ops: seq<Op>, k: nat)
    requires k <= |ops| && TakesReversible(c, ops)
    ensures TakesReversible(c, ops[..k])
  {
    var front := ops[..k];
    assert forall i | 0 <= i < k :: front[i] == ops[i] && front[..i] == ops[..i];
  }

  /** And this is so at every call of a run exactly when the run is of this kind. */
  lemma RunIsReplayIff(c: Crypto, ops: seq<Op>)
    ensures (forall k | 0 <= k <= |ops| :: IsReplay(c, ops[..k])) <==> TakesReversible(c, ops)
  {
    if TakesReversible(c, ops) {
      forall k | 0 <= k <= |ops| ensures IsReplay(c, ops[..k]) {
        TakesReversiblePrefix(c, ops, k);
        RunIsReplay(c, ops[..k]);
      }
    } else {
      var i :| 0 <= i < |ops| && ops[i].Pop? && Completes(c, RunTables(c, EMPTY, ops[..i]).0, Pop)
               && !TopReversible(CurrentChain(c, ops[..i]));
      if IsReplay(c, ops[..i]) {
        var front := ops[..i + 1];
        assert front[..i] == ops[..i] && front[i] == ops[i];
        StepReplaysIff(c, front);
      }
    }
  }

  /** In particular the runs along which the tables stay in step with the list of blocks are of this kind. */
  lemma ListRunsSuffice(c: Crypto, ops: seq<Op>)
    requires SupportedOps(ops) && PopsReversible(c, [], ops)
    ensures TakesReversible(c, ops)
  {
    forall i | 0 <= i < |ops| && ops[i].Pop? ensures TopReversible(CurrentChain(c, ops[..i])) {
      var front := ops[..i];
      assert forall j | 0 <= j < i :: front[j] == ops[j] && front[..j] == ops[..j];
      ReportedIsList(c, front);
    }
  }

  lemma {:induction false} ReplayKeeps(c: Crypto, s: Tables, chain: seq<SizedEntry>, inv: Tables -> bool)
    requires forall t, e: SizedEntry | inv(t) && AddBlock(c, t, e).Done? :: inv(AddBlock(c, t, e).state)
    requires inv(s) && Replay(c, s, chain).Done?
    ensures inv(Replay(c, s, chain).state)
  {
    if chain != [] {
      ReplayKeeps(c, s, chain[..|chain| - 1], inv);
    }
  }

  // -------------------------------------------------------------- density

  lemma PutDense<V>(table: map<nat, V>, v: V)
    requires Dense(table)
    ensures Dense(table[|table| := v]) && |table[|table| := v]| == |table| + 1
  {
    PutGrows(table, |table|, v);
  }

  ghost predicate OutsDense(o: OutputTables) {
    Dense(o.txs) && forall amount | amount in o.amounts :: Dense(o.amounts[amount])
  }

  ghost predicate TxsDense(t: TxTables) {
    Dense(t.txs) && Dense(t.outputs) && |t.txs| == |t.outputs|
  }

  lemma AddOutputDense(t: OutputTables, o: NewOut)
    requires OutsDense(t) && AddOutput(t, o).Done?
    ensures OutsDense(AddOutput(t, o).state)
  {
    var table, t' := TableOf(t, o.out.amount), AddOutput(t, o).state;
    PutDense(t.txs, OutTx(o.hash, o.local));
    PutDense(table, t'.amounts[o.out.amount][|table|]);
  }

  lemma AddOneDense(c: Crypto, s: Tables, item: Listed)
    requires TxsDense(s.txs) && OutsDense(s.outs) && AddOne(c, s, item).Done?
    ensures var s' := AddOne(c, s, item).state;
            TxsDense(s'.txs) && OutsDense(s'.outs)
  {
    RecordedIffSupported(c, s, item.tx, item.hash);
    if Supported(item.tx) {
      var filed := FileOutputs(c, s.outs, item.tx, item.hash, Height(s)).state;
      RecordedTables(c, s, item.tx, item.hash);
      PutDense(s.txs.txs, item.tx);
      PutDense(s.txs.outputs, filed.issued);
      FileOutputsDense(c, s.outs, item.tx, item.hash, Height(s));
    }
  }

  lemma FileOutputsDense(c: Crypto, t: OutputTables, tx: Transaction, hash: Hash, height: nat)
    requires OutsDense(t) && FileOutputs(c, t, tx, hash, height).Done?
    ensures OutsDense(FileOutputs(c, t, tx, hash, height).state.tables)
  {
    var dense := (f: Filing) => OutsDense(f.tables);
    forall f, o | dense(f) && FileOne(f, o).Done? ensures dense(FileOne(f, o).state) {
      AddOutputDense(f.tables, o.value);
    }
    ForwardKeeps(FileOne, Filing(t, []), NewOuts(c, tx, hash, height), dense);
  }

  /** Every table is filled from key 0 on without a gap, so no append is ever refused. */
  lemma TablesDense(c: Crypto, ops: seq<Op>)
    requires TakesReversible(c, ops)
    ensures var s := RunTables(c, EMPTY, ops).0;
            && Dense(s.blocks.blocks) && Dense(s.blocks.info)
            && Dense(s.txs.txs) && Dense(s.txs.outputs) && |s.txs.txs| == |s.txs.outputs|
            && Dense(s.outs.txs) && forall amount | amount in s.outs.amounts :: Dense(s.outs.amounts[amount])
  {
    BlockTablesDense(c, ops);
    RunIsReplay(c, ops);
    var dense := (t: Tables) => TxsDense(t.txs) && OutsDense(t.outs);
    forall t, e: SizedEntry | dense(t) && AddBlock(c, t, e).Done? ensures dense(AddBlock(c, t, e).state) {
      forall t, item | dense(t) && AddOne(c, t, item).Done? ensures dense(AddOne(c, t, item).state) {
        AddOneDense(c, t, item);
      }
      AddBlockKeeps(c, t, e, dense);
    }
    ReplayKeeps(c, EMPTY, CurrentChain(c, ops), dense);
  }

  // ------------------------------------------------------------ stability

  lemma {:induction false} ReplayConcat(c: Crypto, s: Tables, chain: seq<SizedEntry>, more: seq<SizedEntry>)
    requires Replay(c, s, chain).Done?
    ensures Replay(c, s, chain + more) == Replay(c, Replay(c, s, chain).state, more)
    decreases |more|
  {
    if more == [] {
      assert chain + more == chain;
      assert Replay(c, s, chain).value == ();
    } else {
      ReplayConcat(c, s, chain, more[..|more| - 1]);
      FrontOfConcat(chain, more);
    }
  }

  lemma AddOneWithin(c: Crypto, base: Tables, s: Tables, item: Listed)
    requires TablesWithin(base, s) && AddOne(c, s, item).Done?
    ensures TablesWithin(base, AddOne(c, s, item).state)
  {
    RecordedIffSupported(c, s, item.tx, item.hash);
    if Supported(item.tx) {
      AddRecords(c, s, item);
      WithinTwice(base.outs, s.outs, AddOne(c, s, item).state.outs);
    }
  }

  lemma AddBlockWithin(c: Crypto, base: Tables, s: Tables, e: SizedEntry)
    requires TablesWithin(base, s) && AddBlock(c, s, e).Done?
    ensures TablesWithin(base, AddBlock(c, s, e).state)
  {
    var within := (t: Tables) => TablesWithin(base, t);
    forall t, item | within(t) && AddOne(c, t, item).Done? ensures within(AddOne(c, t, item).state) {
      AddOneWithin(c, base, t, item);
    }
    AddBlockKeeps(c, s, e, within);
  }

  /**
    Whatever blocks go on top, from any tables, the transactions below keep their ids, the
    amount indices issued to them and the entries those indices lead to.
   */
  lemma IndicesNeverChange(c: Crypto, s: Tables, more: seq<SizedEntry>)
    requires Replay(c, s, more).Done?
    ensures TablesWithin(s, Replay(c, s, more).state)
  {
    var within := (t: Tables) => TablesWithin(s, t);
    forall t, e: SizedEntry | within(t) && AddBlock(c, t, e).Done? ensures within(AddBlock(c, t, e).state) {
      AddBlockWithin(c, s, t, e);
    }
    ReplayKeeps(c, s, more, within);
  }

  /** The same along a run: what it leads to stays as it is while its blocks stay. */
  lemma IndicesStayAlongRuns(c: Crypto, ops: seq<Op>, more: seq<Op>)
    requires TakesReversible(c, ops + more)
    requires CurrentChain(c, ops) <= CurrentChain(c, ops + more)
    ensures TablesWithin(RunTables(c, EMPTY, ops).0, RunTables(c, EMPTY, ops + more).0)
  {
    var all, chain, chain' := ops + more, CurrentChain(c, ops), CurrentChain(c, ops + more);
    assert all[..|ops|] == ops;
    TakesReversiblePrefix(c, all, |ops|);
    RunIsReplay(c, ops);
    RunIsReplay(c, all);
    assert chain + chain'[|chain|..] == chain';
    ReplayConcat(c, EMPTY, chain, chain'[|chain|..]);
    IndicesNeverChange(c, RunTables(c, EMPTY, ops).0, chain'[|chain|..]);
  }
}
