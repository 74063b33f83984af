/**
  What no call can change, whatever the tables it starts from and whatever it is
  offered: unsupported inputs, misfiled outputs and failing calls included.
 */
module Conservation {
  import opened CryptonoteTypes
  import opened Outcomes
  import opened Store
  import opened Reversal
  import opened ReversalLimits
  import opened Aborts
  import opened Runs

  // -------------------------------------------------------------- height

  function CompletedAdds(ops: seq<Op>, log: seq<Report>): nat
    requires |ops| == |log|
  {
    if ops == [] then 0
    else
      var n := |ops| - 1;
      CompletedAdds(ops[..n], log[..n]) + if log[n].AddedUpTo? then 1 else 0
  }

  function CompletedPops(ops: seq<Op>, log: seq<Report>): nat
    requires |ops| == |log|
  {
    if ops == [] then 0
    else
      var n := |ops| - 1;
      CompletedPops(ops[..n], log[..n]) + if log[n].TakenOff? then 1 else 0
  }

  lemma AddTxsKeepsBlocks(c: Crypto, s: Tables, e: Entry)
    requires |e.block.txHashes| == |e.txs| && AddBlockTxs(c, s, e).Done?
    ensures AddBlockTxs(c, s, e).state.blocks == s.blocks
  {
    AddOneFiles(c, s, MinerOf(c, e));
    AddListedKeepsBlocks(c, AddOne(c, s, MinerOf(c, e)).state, ListedOf(e));
  }

  lemma PopTxsKeepsBlocks(c: Crypto, p: Popping, block: Block)
    requires PopBlockTxs(c, p, block).Done?
    ensures PopBlockTxs(c, p, block).state.tables.blocks == p.tables.blocks
  {
    var kept := (q: Popping) => q.tables.blocks == p.tables.blocks;
    BackwardKeeps(PopOne, p, block.txHashes, kept);
  }

  lemma AddRaises(c: Crypto, s: Tables, e: Entry)
    requires AddBlock(c, s, e).Done?
    ensures Height(AddBlock(c, s, e).state) == Height(s) + 1
  {
    AddTxsKeepsBlocks(c, s, e);
    PutGrows(s.blocks.blocks, Height(s), e.block);
  }

  /** From any tables: the class answers with the height before the call, and the backend with the one after it. */
  lemma AnswersHeight(c: Crypto, s: Tables, e: Entry)
    ensures AddBlock(c, s, e).Done? ==>
              AddBlock(c, s, e).value == Height(s) && Height(AddBlock(c, s, e).state) == Height(s) + 1
    ensures AddBlockAtomic(c, s, e).Done? ==>
              AddBlockAtomic(c, s, e).value == Height(AddBlockAtomic(c, s, e).state)
  {
    if AddBlock(c, s, e).Done? {
      AddRaises(c, s, e);
    }
  }

  lemma PopLowers(c: Crypto, p: Popping)
    requires PopBlock(c, p).Done?
    ensures Height(PopBlock(c, p).state.tables) == Height(p.tables) - 1
  {
    var b := RemoveBlockRecord(p.tables.blocks).state;
    DeleteShrinks(p.tables.blocks.blocks, Height(p.tables) - 1);
    PopTxsKeepsBlocks(c, p.(tables := p.tables.(blocks := b)), GetTopBlock(p.tables.blocks).value);
  }

  /** From any tables, the height grows by the completed adds less the completed pops. */
  lemma {:induction false} HeightConserved(c: Crypto, s: Tables, ops: seq<Op>)
    ensures |RunTables(c, s, ops).1| == |ops|
    ensures var (s', log) := RunTables(c, s, ops);
            Height(s') == Height(s) + CompletedAdds(ops, log) - CompletedPops(ops, log)
  {
    LogLength(c, s, ops);
    if ops != [] {
      var front, last := ops[..|ops| - 1], ops[|ops| - 1];
      HeightConserved(c, s, front);
      var (now, log) := RunTables(c, s, front);
      var (s', log') := RunTables(c, s, ops);
      assert log'[..|front|] == log;
      match last
      case Add(e) => if AddBlock(c, now, e).Done? { AddRaises(c, now, e); }
      case Pop => if PopBlock(c, Popping(now, [])).Done? { PopLowers(c, Popping(now, [])); }
    }
  }

  // ------------------------------------------------------------- outputs

  /** The sum of the weights of the values of a map. */
  ghost function Total<K, V>(m: map<K, V>, weight: V -> int): int
    decreases m.Keys
  {
    if m.Keys == {} then 0
    else
      var k :| k in m;
      weight(m[k]) + Total(m - {k}, weight)
  }

  lemma {:induction false} TotalWithout<K, V>(m: map<K, V>, weight: V -> int, k: K)
    requires k in m
    ensures Total(m, weight) == weight(m[k]) + Total(m - {k}, weight)
    decreases m.Keys
  {
    var first :| first in m && Total(m, weight) == weight(m[first]) + Total(m - {first}, weight);
    if first != k {
      TotalWithout(m - {first}, weight, k);
      TotalWithout(m - {k}, weight, first);
      assert m - {first} - {k} == m - {k} - {first};
    }
  }

  lemma TotalGrows<K, V>(m: map<K, V>, weight: V -> int, k: K, v: V)
    requires k !in m
    ensures Total(m[k := v], weight) == Total(m, weight) + weight(v)
  {
    TotalWithout(m[k := v], weight, k);
    PutThenDelete(m, k, v);
  }

  function OutputsOfTx(): Transaction -> int {
    (tx: Transaction) => |tx.vout|
  }

  function EntriesOfTable(): AmountTable -> int {
    (table: AmountTable) => |table|
  }

  /** The number of outputs of all recorded transactions. */
  ghost function OutputSum(txs: map<nat, Transaction>): int {
    Total(txs, OutputsOfTx())
  }

  /** The number of entries in the tables of all amounts. */
  ghost function EntrySum(t: OutputTables): int {
    Total(t.amounts, EntriesOfTable())
  }

  lemma EntrySumWithout(t: OutputTables, amount: nat)
    ensures EntrySum(t) == |TableOf(t, amount)| + Total(t.amounts - {amount}, EntriesOfTable())
  {
    if amount in t.amounts {
      TotalWithout(t.amounts, EntriesOfTable(), amount);
    } else {
      assert t.amounts - {amount} == t.amounts;
    }
  }

  lemma EntrySumOne(t: OutputTables, t': OutputTables, amount: nat)
    requires t.amounts - {amount} == t'.amounts - {amount}
    ensures EntrySum(t') - EntrySum(t) == |TableOf(t', amount)| - |TableOf(t, amount)|
  {
    EntrySumWithout(t, amount);
    EntrySumWithout(t', amount);
  }

  /** One more stored output is one more entry. */
  lemma AddOutputCounts(t: OutputTables, o: NewOut)
    requires AddOutput(t, o).Done?
    ensures var t' := AddOutput(t, o).state;
            |t'.txs| == |t.txs| + 1 && EntrySum(t') == EntrySum(t) + 1
  {
    var t', amount := AddOutput(t, o).state, o.out.amount;
    assert |t'.txs| == |t.txs| + 1 by {
      PutGrows(t.txs, |t.txs|, OutTx(o.hash, o.local));
    }
    assert |TableOf(t', amount)| == |TableOf(t, amount)| + 1 by {
      PutGrows(TableOf(t, amount), |TableOf(t, amount)|, TableOf(t', amount)[|TableOf(t, amount)|]);
    }
    assert t.amounts - {amount} == t'.amounts - {amount};
    EntrySumOne(t, t', amount);
  }

  lemma RemoveOutputCounts(t: OutputTables, amount: nat, index: nat)
    requires RemoveOutput(t, amount, index).Done?
    ensures var t' := RemoveOutput(t, amount, index).state;
            |t'.txs| == |t.txs| - 1 && EntrySum(t') == EntrySum(t) - 1
  {
    var t', table := RemoveOutput(t, amount, index).state, TableOf(t, amount);
    DeleteShrinks(t.txs, table[index].outputId);
    DeleteShrinks(table, index);
    assert TableOf(t', amount) == table - {index};
    assert t.amounts - {amount} == t'.amounts - {amount};
    EntrySumOne(t, t', amount);
  }

  /** Stored outputs, and their surplus over the entries of the amount tables. */
  ghost function Stored(t: OutputTables): int {
    |t.txs|
  }

  ghost function Unmatched(t: OutputTables): int {
    |t.txs| - EntrySum(t)
  }

  lemma FileOutputsCount(c: Crypto, t: OutputTables, tx: Transaction, hash: Hash, height: nat)
    requires FileOutputs(c, t, tx, hash, height).Done?
    ensures var t' := FileOutputs(c, t, tx, hash, height).state.tables;
            Stored(t') == Stored(t) + |tx.vout| && Unmatched(t') == Unmatched(t)
  {
    var news, one := NewOuts(c, tx, hash, height), (o: Option<NewOut>) => 1;
    var stored, kept := (f: Filing) => Stored(f.tables), (f: Filing) => Unmatched(f.tables) == Unmatched(t);
    forall f, o | FileOne(f, o).Done?
      ensures stored(FileOne(f, o).state) == stored(f) + one(o) && (kept(f) ==> kept(FileOne(f, o).state))
    {
      AddOutputCounts(f.tables, o.value);
    }
    ForwardCounts(FileOne, Filing(t, []), news, stored, one);
    SumOfSame(one, news, 1);
    ForwardKeeps(FileOne, Filing(t, []), news, kept);
  }

  lemma ClearSlotsCount(t: OutputTables, slots: seq<Slot>)
    requires Backward(ClearSlot, t, slots).Done?
    ensures var t' := Backward(ClearSlot, t, slots).state;
            Stored(t') == Stored(t) - |slots| && Unmatched(t') == Unmatched(t)
  {
    var stored, minusOne := (t: OutputTables) => Stored(t), (slot: Slot) => -1;
    var kept := (t': OutputTables) => Unmatched(t') == Unmatched(t);
    forall t, slot | ClearSlot(t, slot).Done?
      ensures stored(ClearSlot(t, slot).state) == stored(t) + minusOne(slot)
      ensures kept(t) ==> kept(ClearSlot(t, slot).state)
    {
      RemoveOutputCounts(t, slot.amount, slot.index.value);
    }
    BackwardCounts(ClearSlot, t, slots, stored, minusOne);
    SumOfSame(minusOne, slots, -1);
    BackwardKeeps(ClearSlot, t, slots, kept);
  }

  /** Stored outputs less outputs of recorded transactions. */
  ghost function Surplus(s: Tables): int {
    Stored(s.outs) - OutputSum(s.txs.txs)
  }

  /** What is recorded and what is filed, either way. */
  lemma RecordedOutputs(c: Crypto, s: Tables, item: Listed)
    requires AddOne(c, s, item).Done?
    ensures var s' := AddOne(c, s, item).state;
            && Unmatched(s'.outs) == Unmatched(s.outs)
            && if Supported(item.tx) then
                 && |s.txs.txs| !in s.txs.txs && s'.txs.txs == s.txs.txs[|s.txs.txs| := item.tx]
                 && Stored(s'.outs) == Stored(s.outs) + |item.tx.vout|
               else
                 s'.txs.txs == s.txs.txs && s'.outs == s.outs
  {
    RecordedIffSupported(c, s, item.tx, item.hash);
    if Supported(item.tx) {
      RecordedTables(c, s, item.tx, item.hash);
      FileOutputsCount(c, s.outs, item.tx, item.hash, Height(s));
    }
  }

  lemma SurplusAfter(s: Tables, s': Tables, id: nat, tx: Transaction)
    requires id !in s.txs.txs && s'.txs.txs == s.txs.txs[id := tx] && Stored(s'.outs) == Stored(s.outs) + |tx.vout|
    ensures Surplus(s') == Surplus(s)
  {
    TotalGrows(s.txs.txs, OutputsOfTx(), id, tx);
  }

  lemma AddKeepsSurplus(c: Crypto, s: Tables, item: Listed)
    requires AddOne(c, s, item).Done?
    ensures Surplus(AddOne(c, s, item).state) == Surplus(s)
  {
    RecordedOutputs(c, s, item);
    if Supported(item.tx) {
      SurplusAfter(s, AddOne(c, s, item).state, |s.txs.txs|, item.tx);
    }
  }

  lemma RemovedOutputs(s: Tables, hash: Hash)
    requires RemoveTransaction(s, hash).Done?
    ensures hash in s.txs.indices && s.txs.indices[hash].id in s.txs.txs
    ensures var s', id := RemoveTransaction(s, hash).state, s.txs.indices[hash].id;
            && s'.txs.txs == s.txs.txs - {id}
            && Stored(s'.outs) == Stored(s.outs) - |s.txs.txs[id].vout|
            && Unmatched(s'.outs) == Unmatched(s.outs)
  {
    var id := s.txs.indices[hash].id;
    ClearSlotsCount(s.outs, Slots(s.txs.txs[id], s.txs.outputs[id]));
  }

  lemma RemoveKeepsSurplus(s: Tables, hash: Hash)
    requires RemoveTransaction(s, hash).Done?
    ensures Surplus(RemoveTransaction(s, hash).state) == Surplus(s)
  {
    RemovedOutputs(s, hash);
    TotalWithout(s.txs.txs, OutputsOfTx(), s.txs.indices[hash].id);
  }

  // ------------------------------------------- from transactions to runs

  /** A quantity that neither adding nor removing a transaction changes, and that block records do not enter into. */
  ghost predicate Conserved(c: Crypto, measure: Tables -> int) {
    && (forall s, item | AddOne(c, s, item).Done? :: measure(AddOne(c, s, item).state) == measure(s))
    && (forall s, hash | RemoveTransaction(s, hash).Done? :: measure(RemoveTransaction(s, hash).state) == measure(s))
    && (forall s: Tables, b :: measure(s.(blocks := b)) == measure(s))
  }

  lemma AddBlockConserves(c: Crypto, s: Tables, e: Entry, measure: Tables -> int)
    requires Conserved(c, measure) && AddBlock(c, s, e).Done?
    ensures measure(AddBlock(c, s, e).state) == measure(s)
  {
    AddBlockKeeps(c, s, e, (t: Tables) => measure(t) == measure(s));
  }

  lemma PopBlockConserves(c: Crypto, p: Popping, measure: Tables -> int)
    requires Conserved(c, measure) && PopBlock(c, p).Done?
    ensures measure(PopBlock(c, p).state.tables) == measure(p.tables)
  {
    PopBlockKeeps(c, p, GetTopBlock(p.tables.blocks).value, (t: Tables) => measure(t) == measure(p.tables));
  }

  lemma RunConserves(c: Crypto, s: Tables, ops: seq<Op>, measure: Tables -> int)
    requires Conserved(c, measure)
    ensures measure(RunTables(c, s, ops).0) == measure(s)
  {
    var kept := (t: Tables) => measure(t) == measure(s);
    forall t, op | kept(t) ensures kept(StepTables(c, t, op).0) {
      match op
      case Add(e) => if AddBlock(c, t, e).Done? { AddBlockConserves(c, t, e, measure); }
      case Pop => if PopBlock(c, Popping(t, [])).Done? { PopBlockConserves(c, Popping(t, []), measure); }
    }
    RunKeeps(c, s, ops, kept);
  }

  /** From any tables, every run changes stored outputs, entries and recorded outputs by the same number. */
  lemma SurplusConserved(c: Crypto, s: Tables, ops: seq<Op>)
    ensures Surplus(RunTables(c, s, ops).0) == Surplus(s)
    ensures Unmatched(RunTables(c, s, ops).0.outs) == Unmatched(s.outs)
  {
    var surplus, unmatched := (t: Tables) => Surplus(t), (t: Tables) => Unmatched(t.outs);
    forall t, item | AddOne(c, t, item).Done?
      ensures surplus(AddOne(c, t, item).state) == surplus(t) && unmatched(AddOne(c, t, item).state) == unmatched(t)
    {
      AddKeepsSurplus(c, t, item);
      RecordedOutputs(c, t, item);
    }
    forall t, hash | RemoveTransaction(t, hash).Done?
      ensures surplus(RemoveTransaction(t, hash).state) == surplus(t)
      ensures unmatched(RemoveTransaction(t, hash).state) == unmatched(t)
    {
      RemoveKeepsSurplus(t, hash);
      RemovedOutputs(t, hash);
    }
    RunConserves(c, s, ops, surplus);
    RunConserves(c, s, ops, unmatched);
  }

  /** After every run from empty, as many outputs and as many entries are stored as the recorded transactions have. */
  lemma OutputsConserved(c: Crypto, ops: seq<Op>)
    ensures var s := RunTables(c, EMPTY, ops).0;
            |s.outs.txs| == EntrySum(s.outs) == OutputSum(s.txs.txs)
  {
    SurplusConserved(c, EMPTY, ops);
  }
}
