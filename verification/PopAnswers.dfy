/**
  What `pop_block` answers after any run. Whatever the run was, three exceptions are
  possible. As long as no misfiled transaction is involved there are only two, and the
  hashes of the top block decide between them, the vector and a completed pop.
 */
module PopAnswers {
  import opened CryptonoteTypes
  import opened Outcomes
  import opened Store
  import opened Reversal
  import opened Ledger
  import opened Refinement
  import opened Runs
  import opened LoggedRuns
  import opened HandedBack
  import opened Correspondence
  import opened CorrespondingRuns

  // --------------------------------------------- what no run can break

  /** Every entry has an output id of its own. */
  ghost predicate Matched(t: OutputTables) {
    && (forall amount, k | k in TableOf(t, amount) :: TableOf(t, amount)[k].outputId in t.txs)
    && (forall amount, k, amount', k' |
          && k in TableOf(t, amount) && k' in TableOf(t, amount')
          && TableOf(t, amount)[k].outputId == TableOf(t, amount')[k'].outputId :: amount == amount' && k == k')
  }

  lemma AddOutputMatched(t: OutputTables, o: NewOut)
    requires Matched(t) && AddOutput(t, o).Done?
    ensures Matched(AddOutput(t, o).state)
  {
    AddOutputFiles(t, o);
  }

  lemma ClearMatched(t: OutputTables, slot: Slot)
    requires Matched(t) && ClearSlot(t, slot).Done?
    ensures Matched(ClearSlot(t, slot).state)
  {
    ClearSlotClears(t, slot);
  }

  lemma FileOutputsMatched(c: Crypto, t: OutputTables, tx: Transaction, hash: Hash, height: nat)
    requires Matched(t) && FileOutputs(c, t, tx, hash, height).Done?
    ensures Matched(FileOutputs(c, t, tx, hash, height).state.tables)
  {
    var matched := (f: Filing) => Matched(f.tables);
    forall f, o | matched(f) && FileOne(f, o).Done? ensures matched(FileOne(f, o).state) {
      AddOutputMatched(f.tables, o.value);
    }
    ForwardKeeps(FileOne, Filing(t, []), NewOuts(c, tx, hash, height), matched);
  }

  lemma ClearSlotsMatched(t: OutputTables, slots: seq<Slot>)
    requires Matched(t) && Backward(ClearSlot, t, slots).Done?
    ensures Matched(Backward(ClearSlot, t, slots).state)
  {
    var matched := (t: OutputTables) => Matched(t);
    forall t, slot | matched(t) && ClearSlot(t, slot).Done? ensures matched(ClearSlot(t, slot).state) {
      ClearMatched(t, slot);
    }
    BackwardKeeps(ClearSlot, t, slots, matched);
  }

  /** Every hash leads to a transaction of its own with one index per output, and every entry has an id of its own. */
  ghost predicate Sane(s: Tables) {
    Orderly(s.txs) && IndicesFit(s.txs) && Matched(s.outs)
  }

  lemma AddOneSane(c: Crypto, s: Tables, item: Listed)
    requires Sane(s) && AddOne(c, s, item).Done?
    ensures Sane(AddOne(c, s, item).state)
  {
    AddOneComesIn(c, s, item);
    RecordedIffSupported(c, s, item.tx, item.hash);
    if Supported(item.tx) {
      var issued := FileOutputs(c, s.outs, item.tx, item.hash, Height(s)).state.issued;
      RecordedTables(c, s, item.tx, item.hash);
      FileOneIssuesOne();
      OneIndexPerOutput(FileOne, Filing(s.outs, []), NewOuts(c, item.tx, item.hash, Height(s)));
      FitWith(s.txs, |s.txs.txs|, TxRec(item.hash, item.tx, Height(s)), issued);
      FileOutputsMatched(c, s.outs, item.tx, item.hash, Height(s));
    }
  }

  lemma RemoveSane(s: Tables, hash: Hash)
    requires Sane(s) && RemoveTransaction(s, hash).Done?
    ensures Sane(RemoveTransaction(s, hash).state)
  {
    var id := s.txs.indices[hash].id;
    RemoveGoesOut(s, hash);
    RemovedTx(s, hash);
    ClearSlotsMatched(s.outs, Slots(s.txs.txs[id], s.txs.outputs[id]));
  }

  lemma StepSane(c: Crypto, s: Tables, op: Op)
    requires Sane(s)
    ensures Sane(StepTables(c, s, op).0)
  {
    var sane := (t: Tables) => Sane(t);
    forall t, item | sane(t) && AddOne(c, t, item).Done? ensures sane(AddOne(c, t, item).state) {
      AddOneSane(c, t, item);
    }
    forall t, hash | sane(t) && RemoveTransaction(t, hash).Done? ensures sane(RemoveTransaction(t, hash).state) {
      RemoveSane(t, hash);
    }
    match op
    case Add(e) =>
      if AddBlock(c, s, e).Done? {
        AddBlockKeeps(c, s, e, sane);
      }
    case Pop =>
      if PopBlock(c, Popping(s, [])).Done? {
        PopBlockKeeps(c, Popping(s, []), GetTopBlock(s.blocks).value, sane);
      }
  }

  lemma RunSane(c: Crypto, ops: seq<Op>)
    ensures Sane(RunTables(c, EMPTY, ops).0)
  {
    var sane := (t: Tables) => Sane(t);
    forall t, op | sane(t) ensures sane(StepTables(c, t, op).0) {
      StepSane(c, t, op);
    }
    RunKeeps(c, EMPTY, ops, sane);
  }

  // ------------------------------------------------- the three exceptions

  /** In sane tables an output is missing or comes off. */
  lemma ClearThrows(t: OutputTables, slots: seq<Slot>)
    requires Matched(t) && Backward(ClearSlot, t, slots).Threw? && forall slot | slot in slots :: slot.index.Some?
    ensures Backward(ClearSlot, t, slots).error == OutputDne
  {
    var matched := (t: OutputTables) => Matched(t);
    forall t, slot | matched(t) && ClearSlot(t, slot).Done? ensures matched(ClearSlot(t, slot).state) {
      ClearMatched(t, slot);
    }
    BackwardThrows(ClearSlot, t, slots, matched, error => error == OutputDne);
  }

  lemma RemoveThrows(s: Tables, hash: Hash)
    requires Sane(s) && RemoveTransaction(s, hash).Threw?
    ensures RemoveTransaction(s, hash).error == if hash in s.txs.indices then OutputDne else TxDne
  {
    if hash in s.txs.indices {
      var id := s.txs.indices[hash].id;
      ClearThrows(s.outs, Slots(s.txs.txs[id], s.txs.outputs[id]));
    }
  }

  lemma PopTxsThrow(c: Crypto, p: Popping, block: Block)
    requires Sane(p.tables) && PopBlockTxs(c, p, block).Threw?
    ensures PopBlockTxs(c, p, block).error in {TxDne, OutputDne}
  {
    var sane := (q: Popping) => Sane(q.tables);
    var may := (error: Error) => error in {TxDne, OutputDne};
    forall q, hash | sane(q) && PopOne(q, hash).Done? ensures sane(PopOne(q, hash).state) {
      RemoveSane(q.tables, hash);
    }
    forall q, hash | sane(q) && PopOne(q, hash).Threw? ensures may(PopOne(q, hash).error) {
      if hash in q.tables.txs.indices {
        RemoveThrows(q.tables, hash);
      }
    }
    var listed := Backward(PopOne, p, block.txHashes);
    if listed.Threw? {
      BackwardThrows(PopOne, p, block.txHashes, sane, may);
    } else {
      BackwardKeeps(PopOne, p, block.txHashes, sane);
      RemoveThrows(listed.state.tables, c.txHash(block.minerTx));
    }
  }

  lemma NothingToPop(c: Crypto, s: Tables, out: seq<Transaction>)
    requires BlocksIndexed(c, [], s)
    ensures GetTopBlock(s.blocks) == Done(s.blocks, NULL_BLOCK)
    ensures PopBlock(c, Popping(s, out)) == Threw(Popping(s, out), BlockDne)
  {
    TableSize(Blocks([]));
  }

  /**
    After any run whatever: a pop of an empty chain ends with `BLOCK_DNE` and changes
    nothing, and a pop of any other completes or ends with `TX_DNE` or `OUTPUT_DNE`.
   */
  lemma PopExceptions(c: Crypto, ops: seq<Op>, out: seq<Transaction>)
    ensures var s, chain := RunTables(c, EMPTY, ops).0, CurrentChain(c, ops);
            var popped := PopBlock(c, Popping(s, out));
            && (chain == [] ==> popped == Threw(Popping(s, out), BlockDne))
            && (chain != [] && popped.Threw? ==> popped.error in {TxDne, OutputDne})
  {
    var s, chain := RunTables(c, EMPTY, ops).0, CurrentChain(c, ops);
    RunIsTraced(c, ops);
    RunSane(c, ops);
    if chain == [] {
      NothingToPop(c, s, out);
    } else if PopBlock(c, Popping(s, out)).Threw? {
      PopBlockOf(c, chain, s, out);
      var b := IndexBlocks(c, chain[..|chain| - 1]);
      PopTxsThrow(c, Popping(s.(blocks := b), out), chain[|chain| - 1].block);
    }
  }

  // ----------------------------------- without misfiled transactions

  /** All slots are filled, with different entries. */
  ghost predicate AllHeld(t: OutputTables, slots: seq<Slot>) {
    && NoDup(slots)
    && forall i | 0 <= i < |slots| :: slots[i].index.Some? && slots[i].index.value in TableOf(t, slots[i].amount)
  }

  lemma {:induction false} HeldClear(t: OutputTables, slots: seq<Slot>)
    requires Matched(t) && AllHeld(t, slots)
    ensures Backward(ClearSlot, t, slots).Done?
    decreases |slots|
  {
    if slots != [] {
      var front, last := slots[..|slots| - 1], slots[|slots| - 1];
      var t' := ClearSlot(t, last).state;
      assert TableOf(t, last.amount)[last.index.value].outputId in t.txs;
      ClearMatched(t, last);
      ClearSlotClears(t, last);
      forall i | 0 <= i < |front| ensures front[i].index.value in TableOf(t', front[i].amount) {
        assert front[i] == slots[i] && slots[i] != last;
        assert Slot(front[i].amount, Some(front[i].index.value)) == front[i];
      }
      HeldClear(t', front);
    }
  }

  lemma SlotsHeld(c: Crypto, t: TxTables, o: OutputTables, hash: Hash, tx: Transaction, issued: seq<nat>)
    requires OutputsStored(c, t, o) && Has(t, hash, tx, issued) && Coherent(tx) && |issued| == |tx.vout|
    ensures AllHeld(o, Slots(tx, issued))
  {
    var slots := Slots(tx, issued);
    CoherentAmounts(tx);
    forall i | 0 <= i < |slots|
      ensures slots[i].index.Some? && Leads(c, t, o, hash, i, slots[i].amount, slots[i].index.value)
    {
      IssuedLead(c, t, o, hash, tx, issued, i);
    }
    LeadsUnique(c, t, o);
  }

  /** A known transaction comes off if its outputs are looked for where they were filed. */
  lemma RemoveCompletes(c: Crypto, s: Tables, hash: Hash)
    requires Sane(s) && OutputsStored(c, s.txs, s.outs)
    requires hash in s.txs.indices && Coherent(s.txs.txs[s.txs.indices[hash].id])
    ensures RemoveTransaction(s, hash).Done?
  {
    var id := s.txs.indices[hash].id;
    SlotsHeld(c, s.txs, s.outs, hash, s.txs.txs[id], s.txs.outputs[id]);
    HeldClear(s.outs, Slots(s.txs.txs[id], s.txs.outputs[id]));
  }

  /** The hash at `j` leads somewhere, and still does when those after it have been popped. */
  predicate FoundAt(t: TxTables, hashes: seq<Hash>, j: nat)
    requires j < |hashes|
  {
    hashes[j] in t.indices && hashes[j] !in hashes[j + 1..]
  }

  /** Popping from the end comes down to here: all hashes from this one on are found, and the one before it is not. */
  function ComesDownTo(t: TxTables, hashes: seq<Hash>, from: nat): (n: nat)
    requires from <= |hashes|
    ensures n <= from && forall j | n <= j < from :: FoundAt(t, hashes, j)
    ensures n > 0 ==> !FoundAt(t, hashes, n - 1)
  {
    if from == 0 || !FoundAt(t, hashes, from - 1) then from else ComesDownTo(t, hashes, from - 1)
  }

  /** What the hashes lead to. */
  function Finds(t: TxTables, hashes: seq<Hash>): seq<Transaction> {
    seq(|hashes|, i requires 0 <= i < |hashes| =>
      match GetTx(t, hashes[i]) case None => NULL_TX case Some(tx) => tx)
  }

  /** Every round pops what it finds and says so otherwise; what else the tables are is left open. */
  ghost predicate PopsFound(pop: Step<Popping, Hash>, hashes: set<Hash>, inv: Tables -> bool) {
    forall p: Popping, hash | hash in hashes && inv(p.tables) :: PopsOrNot(p, hash, pop(p, hash), inv)
  }

  ghost predicate PopsOrNot(p: Popping, hash: Hash, popped: Outcome<Popping, ()>, inv: Tables -> bool) {
    var t := p.tables.txs;
    if hash in t.indices then
      && GetTx(t, hash).Some? && popped.Done? && inv(popped.state.tables)
      && WentOut(t, popped.state.tables.txs, {hash})
      && popped.state.txs == p.txs + [GetTx(t, hash).value]
    else
      popped == Threw(p, TxDne)
  }

  lemma FoundBelow(t: TxTables, t': TxTables, hashes: seq<Hash>, j: nat)
    requires j < |hashes| - 1 && WentOut(t, t', {hashes[|hashes| - 1]})
    ensures FoundAt(t', hashes[..|hashes| - 1], j) <==> FoundAt(t, hashes, j)
  {
    var n := |hashes| - 1;
    assert hashes[j + 1..] == hashes[..n][j + 1..] + [hashes[n]];
  }

  lemma {:induction false} ComesDownBelow(t: TxTables, t': TxTables, hashes: seq<Hash>, from: nat)
    requires from < |hashes| && WentOut(t, t', {hashes[|hashes| - 1]})
    ensures ComesDownTo(t', hashes[..|hashes| - 1], from) == ComesDownTo(t, hashes, from)
  {
    if from > 0 {
      FoundBelow(t, t', hashes, from - 1);
      if FoundAt(t, hashes, from - 1) {
        ComesDownBelow(t, t', hashes, from - 1);
      }
    }
  }

  lemma FindsSame(t: TxTables, t': TxTables, hashes: seq<Hash>, n: nat)
    requires n < |hashes| && WentOut(t, t', {hashes[|hashes| - 1]})
    requires forall j | n <= j < |hashes| :: FoundAt(t, hashes, j)
    ensures Finds(t', hashes[n..|hashes| - 1]) == Finds(t, hashes[n..|hashes| - 1])
  {
    var m := |hashes| - 1;
    var some := hashes[n..m];
    forall i | 0 <= i < |some| ensures GetTx(t', some[i]) == GetTx(t, some[i]) {
      FoundBelow(t, t', hashes, n + i);
      assert FoundAt(t, hashes, n + i) && some[i] == hashes[n + i];
    }
  }

  lemma FindsLast(t: TxTables, hashes: seq<Hash>, n: nat)
    requires n < |hashes| && GetTx(t, hashes[|hashes| - 1]).Some?
    ensures Finds(t, hashes[n..])
         == Finds(t, hashes[n..|hashes| - 1]) + [GetTx(t, hashes[|hashes| - 1]).value]
  {
  }

  lemma FindsBelow(t: TxTables, t': TxTables, hashes: seq<Hash>, n: nat, out: seq<Transaction>)
    requires n < |hashes| && WentOut(t, t', {hashes[|hashes| - 1]})
    requires forall j | n <= j < |hashes| :: FoundAt(t, hashes, j)
    requires GetTx(t, hashes[|hashes| - 1]).Some?
    ensures var m := |hashes| - 1;
            (out + [GetTx(t, hashes[m]).value]) + Reversed(Finds(t', hashes[..m][n..]))
            == out + Reversed(Finds(t, hashes[n..]))
  {
    var m := |hashes| - 1;
    var tx := GetTx(t, hashes[m]).value;
    assert hashes[..m][n..] == hashes[n..m];
    FindsSame(t, t', hashes, n);
    FindsLast(t, hashes, n);
    VectorJoins(out, Finds(t, hashes[n..m]), [tx]);
    assert Reversed([tx]) == [tx];
  }

  /** What a loop over the hashes hands out and where it stops. */
  ghost predicate LoopAnswers(p: Popping, hashes: seq<Hash>, popped: Outcome<Popping, ()>, inv: Tables -> bool) {
    var t := p.tables.txs;
    var n := ComesDownTo(t, hashes, |hashes|);
    && popped.state.txs == p.txs + Reversed(Finds(t, hashes[n..]))
    && if n == 0 then
         popped.Done? && inv(popped.state.tables) && WentOut(t, popped.state.tables.txs, HashSet(hashes))
       else
         popped.Threw? && popped.error == TxDne
  }

  lemma StopsAtOnce(p: Popping, hashes: seq<Hash>, popped: Outcome<Popping, ()>, inv: Tables -> bool)
    requires ComesDownTo(p.tables.txs, hashes, |hashes|) == |hashes|
    requires if hashes == [] then popped == Done(p, ()) && inv(p.tables) else popped == Threw(p, TxDne)
    ensures LoopAnswers(p, hashes, popped, inv)
  {
    assert hashes[|hashes|..] == [] && p.txs + Reversed(Finds(p.tables.txs, [])) == p.txs;
  }

  lemma GoesOn(
      p: Popping, hashes: seq<Hash>, front: seq<Hash>, last: Hash, p': Popping, popped: Outcome<Popping, ()>,
      inv: Tables -> bool)
    requires hashes == front + [last] && last in p.tables.txs.indices
    requires GetTx(p.tables.txs, last).Some? && WentOut(p.tables.txs, p'.tables.txs, {last})
    requires p'.txs == p.txs + [GetTx(p.tables.txs, last).value]
    requires LoopAnswers(p', front, popped, inv)
    ensures LoopAnswers(p, hashes, popped, inv)
  {
    var t, t', m := p.tables.txs, p'.tables.txs, |front|;
    assert hashes[..m] == front && hashes[m + 1..] == [];
    var n := ComesDownTo(t', front, m);
    assert ComesDownTo(t, hashes, |hashes|) == n by {
      assert FoundAt(t, hashes, m);
      ComesDownBelow(t, t', hashes, m);
    }
    assert popped.state.txs == p.txs + Reversed(Finds(t, hashes[n..])) by {
      FindsBelow(t, t', hashes, n, p.txs);
    }
    if n == 0 {
      WentOutTwice(t, t', popped.state.tables.txs, {last}, HashSet(front));
      assert {last} + HashSet(front) == HashSet(hashes);
    }
  }

  /** The loop hands out what it finds and stops where it finds nothing. */
  lemma {:induction false} ListedAnswers(
      pop: Step<Popping, Hash>, all: set<Hash>, inv: Tables -> bool, p: Popping, hashes: seq<Hash>)
    requires PopsFound(pop, all, inv) && inv(p.tables) && forall hash | hash in hashes :: hash in all
    ensures LoopAnswers(p, hashes, Backward(pop, p, hashes), inv)
    decreases |hashes|
  {
    var m := |hashes| - 1;
    if hashes == [] {
      StopsAtOnce(p, hashes, Done(p, ()), inv);
    } else {
      assert hashes[m] in hashes && hashes[m + 1..] == [];
      assert PopsOrNot(p, hashes[m], pop(p, hashes[m]), inv);
      if hashes[m] in p.tables.txs.indices {
        var p' := pop(p, hashes[m]).state;
        ListedAnswers(pop, all, inv, p', hashes[..m]);
        SplitLast(hashes);
        GoesOn(p, hashes, hashes[..m], hashes[m], p', Backward(pop, p, hashes), inv);
      } else {
        StopsAtOnce(p, hashes, Backward(pop, p, hashes), inv);
      }
    }
  }

  /** Outputs correspond, and whatever these hashes lead to is looked for where it was filed. */
  ghost predicate CoherentAt(c: Crypto, hashes: set<Hash>, s: Tables) {
    && Sane(s) && Onto(c, s.txs, s.outs)
    && forall hash | hash in hashes :: LeadsToCoherent(s.txs, hash)
  }

  lemma RemovesFound(c: Crypto, hashes: set<Hash>, s: Tables, hash: Hash)
    requires CoherentAt(c, hashes, s) && hash in hashes && hash in s.txs.indices
    ensures var removed := RemoveTransaction(s, hash);
            && removed.Done? && CoherentAt(c, hashes, removed.state) && WentOut(s.txs, removed.state.txs, {hash})
            && GetTx(s.txs, hash).Some?
  {
    assert LeadsToCoherent(s.txs, hash);
    RemoveCompletes(c, s, hash);
    RemoveSane(s, hash);
    RemoveKeepsOntoIff(c, s, hash);
    RemoveGoesOut(s, hash);
  }

  lemma PopOneFinds(c: Crypto, hashes: set<Hash>, p: Popping, hash: Hash, inv: Tables -> bool)
    requires forall s :: inv(s) == CoherentAt(c, hashes, s)
    requires CoherentAt(c, hashes, p.tables) && hash in hashes
    ensures PopsOrNot(p, hash, PopOne(p, hash), inv)
  {
    if hash in p.tables.txs.indices {
      RemovesFound(c, hashes, p.tables, hash);
    }
  }

  /** The hashes of a block in the order in which their transactions were added. */
  function BlockHashList(c: Crypto, block: Block): seq<Hash> {
    [c.txHash(block.minerTx)] + block.txHashes
  }

  lemma FoundListed(t: TxTables, first: Hash, hashes: seq<Hash>, j: nat)
    requires j < |hashes|
    ensures FoundAt(t, [first] + hashes, j + 1) <==> FoundAt(t, hashes, j)
  {
    assert ([first] + hashes)[j + 2..] == hashes[j + 1..];
  }

  lemma {:induction false} ComesDownListed(t: TxTables, first: Hash, hashes: seq<Hash>, from: nat)
    requires from <= |hashes|
    ensures var n := ComesDownTo(t, hashes, from);
            ComesDownTo(t, [first] + hashes, from + 1)
            == if n > 0 then n + 1 else if FoundAt(t, [first] + hashes, 0) then 0 else 1
  {
    var all := [first] + hashes;
    if from > 0 {
      FoundListed(t, first, hashes, from - 1);
      ComesDownListed(t, first, hashes, from - 1);
    } else {
      assert FoundAt(t, all, 0) ==> ComesDownTo(t, all, 1) == ComesDownTo(t, all, 0) == 0;
    }
  }

  /** What the pop of a block answers where no misfiled transaction is involved. */
  ghost predicate Answers(c: Crypto, s: Tables, out: seq<Transaction>, block: Block, popped: Outcome<Popping, Block>) {
    var hashes := BlockHashList(c, block);
    var n := ComesDownTo(s.txs, hashes, |hashes|);
    && popped.state.txs == out + Reversed(Finds(s.txs, hashes[if n == 0 then 1 else n..]))
    && if n == 0 then popped.Done? && popped.value == block else popped.Threw? && popped.error == TxDne
  }

  lemma ListedPopAnswers(c: Crypto, p: Popping, block: Block)
    requires CoherentAt(c, BlockHashSet(c, block), p.tables)
    ensures var t, popped := p.tables.txs, Backward(PopOne, p, block.txHashes);
            var n := ComesDownTo(t, block.txHashes, |block.txHashes|);
            && popped.state.txs == p.txs + Reversed(Finds(t, block.txHashes[n..]))
            && if n == 0 then
                 && popped.Done? && CoherentAt(c, BlockHashSet(c, block), popped.state.tables)
                 && WentOut(t, popped.state.tables.txs, HashSet(block.txHashes))
               else
                 popped.Threw? && popped.error == TxDne
  {
    var all := BlockHashSet(c, block);
    var inv := (s: Tables) => CoherentAt(c, all, s);
    forall q: Popping, hash | hash in all && inv(q.tables) ensures PopsOrNot(q, hash, PopOne(q, hash), inv) {
      PopOneFinds(c, all, q, hash, inv);
    }
    ListedAnswers(PopOne, all, inv, p, block.txHashes);
  }

  lemma ListedFinds(c: Crypto, t: TxTables, block: Block, n: nat)
    requires n <= |block.txHashes|
    ensures Finds(t, BlockHashList(c, block)[n + 1..]) == Finds(t, block.txHashes[n..])
  {
    assert BlockHashList(c, block)[n + 1..] == block.txHashes[n..];
  }

  lemma PopTxsAnswer(c: Crypto, p: Popping, block: Block)
    requires CoherentAt(c, BlockHashSet(c, block), p.tables)
    ensures Answers(c, p.tables, p.txs, block, PopBlockTxs(c, p, block))
  {
    var t, hashes := p.tables.txs, block.txHashes;
    var n, listed := ComesDownTo(t, hashes, |hashes|), Backward(PopOne, p, hashes);
    ListedPopAnswers(c, p, block);
    ListedFinds(c, t, block, n);
    ComesDownListed(t, c.txHash(block.minerTx), hashes, |hashes|);
    if n == 0 {
      MinerAnswers(c, p, block, listed.state);
    }
  }

  lemma MinerAnswers(c: Crypto, p: Popping, block: Block, mid: Popping)
    requires Backward(PopOne, p, block.txHashes).Done? && Backward(PopOne, p, block.txHashes).state == mid
    requires CoherentAt(c, BlockHashSet(c, block), mid.tables)
    requires WentOut(p.tables.txs, mid.tables.txs, HashSet(block.txHashes))
    ensures var popped := PopBlockTxs(c, p, block);
            && popped.state.txs == mid.txs
            && if FoundAt(p.tables.txs, BlockHashList(c, block), 0) then popped.Done? && popped.value == block
               else popped.Threw? && popped.error == TxDne
  {
    var miner := c.txHash(block.minerTx);
    assert BlockHashList(c, block)[1..] == block.txHashes;
    if miner in mid.tables.txs.indices {
      RemovesFound(c, BlockHashSet(c, block), mid.tables, miner);
    }
  }

  /**
    After any run in which no misfiled transaction was removed, if the top block does not
    lead to one either: a pop completes exactly when every hash of the block is known and
    none is listed twice, and otherwise ends with `TX_DNE` at the last one that is not. The
    vector holds what the hashes after that one lead to, and the tables are as they were.
   */
  lemma PopAnswersByHashes(c: Crypto, ops: seq<Op>, out: seq<Transaction>)
    requires RemovesCoherent(c, ops) && CoherentTop(c, RunTables(c, EMPTY, ops).0) && CurrentChain(c, ops) != []
    ensures var s, chain := RunTables(c, EMPTY, ops).0, CurrentChain(c, ops);
            var popped := PopBlockAtomic(c, Popping(s, out));
            && Answers(c, s, out, chain[|chain| - 1].block, popped)
            && (popped.Threw? ==> popped.state.tables == s)
  {
    var s, chain := RunTables(c, EMPTY, ops).0, CurrentChain(c, ops);
    var below, top := chain[..|chain| - 1], chain[|chain| - 1];
    RunIsTraced(c, ops);
    RunSane(c, ops);
    RunCorresponds(c, ops);
    PopBlockOf(c, chain, s, out);
    assert GetTopBlock(s.blocks) == Done(s.blocks, top.block) by {
      SplitLast(chain);
      RemoveRecordIndexes(c, below, top);
    }
    PopTxsAnswer(c, Popping(s.(blocks := IndexBlocks(c, below)), out), top.block);
  }
}
