/**
  What `pop_block` hands back, after any run at all. The top block comes back with the
  transactions it came with exactly when none of them was given up: a transaction that
  was given up may go under a hash that another one was recorded under, and then the
  other one is handed back in its place.
 */
module HandedBack {
  import opened CryptonoteTypes
  import opened Outcomes
  import opened Store
  import opened Reversal
  import opened Ledger
  import opened Refinement
  import opened Runs
  import opened Conservation
  import opened LoggedRuns

  // ------------------------------------------------ the transaction tables

  /** Every hash leads to a transaction of its own, and every transaction has supported inputs only. */
  ghost predicate Orderly(t: TxTables) {
    && (forall h | h in t.indices :: t.indices[h].id in t.txs)
    && (forall h, h' | h in t.indices && h' in t.indices && h != h' :: t.indices[h].id != t.indices[h'].id)
    && (forall id | id in t.txs :: Supported(t.txs[id]))
  }

  /** What `t` knows, `t'` knows as well. */
  ghost predicate Keeps(t: TxTables, t': TxTables) {
    forall h | h in t.indices :: h in t'.indices && GetTx(t', h) == GetTx(t, h)
  }

  /** From `t` to `t'`, only these hashes may have come in. */
  ghost predicate CameIn(t: TxTables, t': TxTables, hashes: set<Hash>) {
    Keeps(t, t') && forall h | h in t'.indices :: h in t.indices || h in hashes
  }

  /** From `t` to `t'`, exactly these hashes were known and went out. */
  ghost predicate WentOut(t: TxTables, t': TxTables, hashes: set<Hash>) {
    && Keeps(t', t)
    && (forall h | h in hashes :: h in t.indices && h !in t'.indices)
    && (forall h | h in t.indices :: h in t'.indices || h in hashes)
  }

  lemma OrderlyWith(t: TxTables, id: nat, r: TxRec, issued: seq<nat>)
    requires Orderly(t) && id !in t.txs && r.hash !in t.indices && Supported(r.tx)
    ensures var t' := With(t, id, r, issued);
            Orderly(t') && CameIn(t, t', {r.hash}) && GetTx(t', r.hash) == Some(r.tx)
  {
  }

  lemma OrderlyWithout(t: TxTables, hash: Hash)
    requires Orderly(t) && hash in t.indices
    ensures var t' := Without(t, t.indices[hash].id, hash);
            Orderly(t') && WentOut(t, t', {hash}) && GetTx(t, hash).Some? && Supported(GetTx(t, hash).value)
  {
  }

  // ------------------------------------------------------- adding

  /** A completed round of `add_block`. */
  lemma AddOneComesIn(c: Crypto, s: Tables, item: Listed)
    requires Orderly(s.txs) && AddOne(c, s, item).Done?
    ensures var t' := AddOne(c, s, item).state.txs;
            && Orderly(t') && CameIn(s.txs, t', {item.hash})
            && (Supported(item.tx) ==> GetTx(t', item.hash) == Some(item.tx))
  {
    RecordedIffSupported(c, s, item.tx, item.hash);
    if Supported(item.tx) {
      RecordedTables(c, s, item.tx, item.hash);
      var issued := FileOutputs(c, s.outs, item.tx, item.hash, Height(s)).state.issued;
      OrderlyWith(s.txs, |s.txs.txs|, TxRec(item.hash, item.tx, Height(s)), issued);
    }
  }

  function HashSet(hashes: seq<Hash>): set<Hash> {
    set h | h in hashes
  }

  /** Every round files what it lists; what it does to the tables is left open. */
  ghost predicate Files(add: Step<Tables, Listed>) {
    forall s: Tables, item | Orderly(s.txs) && add(s, item).Done? ::
      var t' := add(s, item).state.txs;
      Orderly(t') && CameIn(s.txs, t', {item.hash}) && (Supported(item.tx) ==> GetTx(t', item.hash) == Some(item.tx))
  }

  /** The supported ones of these are found under their hashes. */
  ghost predicate AllFound(t: TxTables, items: seq<Listed>) {
    forall i | 0 <= i < |items| && Supported(items[i].tx) :: GetTx(t, items[i].hash) == Some(items[i].tx)
  }

  lemma OneMoreFound(t: TxTables, t': TxTables, items: seq<Listed>)
    requires items != [] && AllFound(t, items[..|items| - 1]) && Keeps(t, t')
    requires var last := items[|items| - 1];
             Supported(last.tx) ==> GetTx(t', last.hash) == Some(last.tx)
    ensures AllFound(t', items)
  {
    var front := items[..|items| - 1];
    forall i | 0 <= i < |items| && Supported(items[i].tx) ensures GetTx(t', items[i].hash) == Some(items[i].tx) {
      if i < |front| {
        assert front[i] == items[i] && GetTx(t, front[i].hash) == Some(front[i].tx);
      }
    }
  }

  lemma {:induction false} ListedComeIn(add: Step<Tables, Listed>, s: Tables, items: seq<Listed>)
    requires Files(add) && Orderly(s.txs) && Forward(add, s, items).Done?
    ensures var t' := Forward(add, s, items).state.txs;
            Orderly(t') && CameIn(s.txs, t', HashSet(Hashes(items))) && AllFound(t', items)
  {
    if items != [] {
      var front, last := items[..|items| - 1], items[|items| - 1];
      var mid := Forward(add, s, front).state;
      ListedComeIn(add, s, front);
      var t' := add(mid, last).state.txs;
      assert CameIn(s.txs, t', HashSet(Hashes(items))) by {
        LastHash(items);
        CameInTwice(s.txs, mid.txs, t', HashSet(Hashes(front)), {last.hash});
      }
      OneMoreFound(mid.txs, t', items);
    }
  }

  lemma CameInTwice(t: TxTables, t1: TxTables, t2: TxTables, a: set<Hash>, b: set<Hash>)
    requires CameIn(t, t1, a) && CameIn(t1, t2, b)
    ensures CameIn(t, t2, a + b)
  {
  }

  lemma LastHash(items: seq<Listed>)
    requires items != []
    ensures var n := |items| - 1;
            && Hashes(items)[..n] == Hashes(items[..n])
            && HashSet(Hashes(items)) == HashSet(Hashes(items[..n])) + {items[n].hash}
  {
    var n := |items| - 1;
    assert Hashes(items) == Hashes(items[..n]) + [items[n].hash];
  }

  /** The hashes under which the transactions of a block go. */
  function BlockHashSet(c: Crypto, block: Block): set<Hash> {
    HashSet(block.txHashes) + {c.txHash(block.minerTx)}
  }

  lemma AddBlockComesIn(c: Crypto, s: Tables, e: SizedEntry)
    requires Orderly(s.txs) && AddBlock(c, s, e).Done?
    ensures var t' := AddBlock(c, s, e).state.txs;
            && Orderly(t') && CameIn(s.txs, t', BlockHashSet(c, e.block))
            && forall hash, tx | Lists(c, e, hash, tx) && Supported(tx) :: GetTx(t', hash) == Some(tx)
  {
    var mid := AddedTxs(c, s, e);
    AddOneComesIn(c, s, MinerOf(c, e));
    forall s: Tables, item | Orderly(s.txs) && Adder(c)(s, item).Done?
      ensures var t' := Adder(c)(s, item).state.txs;
              && Orderly(t') && CameIn(s.txs, t', {item.hash})
              && (Supported(item.tx) ==> GetTx(t', item.hash) == Some(item.tx))
    {
      AddOneComesIn(c, s, item);
    }
    ListedComeIn(Adder(c), mid, ListedOf(e));
    ListedParts(e, 0);
    assert forall i | 0 <= i < |e.txs| :: ListedOf(e)[i] == Listed(e.block.txHashes[i], e.txs[i]);
  }

  // ------------------------------------------------------- popping

  lemma RemoveGoesOut(s: Tables, hash: Hash)
    requires Orderly(s.txs) && RemoveTransaction(s, hash).Done?
    ensures var t' := RemoveTransaction(s, hash).state.txs;
            && Orderly(t') && WentOut(s.txs, t', {hash})
            && GetTx(s.txs, hash).Some? && Supported(GetTx(s.txs, hash).value)
  {
    RemovedTx(s, hash);
    OrderlyWithout(s.txs, hash);
  }

  /** Every round takes one hash out and hands back the transaction it led to. */
  ghost predicate TakesOut(pop: Step<Popping, Hash>) {
    forall p: Popping, hash | Orderly(p.tables.txs) && pop(p, hash).Done? ::
      var t, p' := p.tables.txs, pop(p, hash).state;
      && Orderly(p'.tables.txs) && WentOut(t, p'.tables.txs, {hash})
      && GetTx(t, hash).Some? && Supported(GetTx(t, hash).value) && p'.txs == p.txs + [GetTx(t, hash).value]
  }

  lemma PopOneTakesOut()
    ensures TakesOut(PopOne)
  {
    forall p: Popping, hash | Orderly(p.tables.txs) && PopOne(p, hash).Done?
      ensures var t, p' := p.tables.txs, PopOne(p, hash).state;
              && Orderly(p'.tables.txs) && WentOut(t, p'.tables.txs, {hash})
              && GetTx(t, hash).Some? && Supported(GetTx(t, hash).value) && p'.txs == p.txs + [GetTx(t, hash).value]
    {
      RemoveGoesOut(p.tables, hash);
    }
  }

  /** The vector has grown by `n` transactions, all with supported inputs. */
  predicate GrewSupported(txs: seq<Transaction>, txs': seq<Transaction>, n: nat) {
    && txs <= txs' && |txs'| == |txs| + n
    && forall i | |txs| <= i < |txs'| :: Supported(txs'[i])
  }

  lemma WentOutTwice(t: TxTables, t1: TxTables, t2: TxTables, a: set<Hash>, b: set<Hash>)
    requires WentOut(t, t1, a) && WentOut(t1, t2, b)
    ensures WentOut(t, t2, a + b)
  {
  }

  lemma {:induction false} HashesGoOut(pop: Step<Popping, Hash>, p: Popping, hashes: seq<Hash>)
    requires TakesOut(pop) && Orderly(p.tables.txs) && Backward(pop, p, hashes).Done?
    ensures var p' := Backward(pop, p, hashes).state;
            && Orderly(p'.tables.txs) && WentOut(p.tables.txs, p'.tables.txs, HashSet(hashes))
            && GrewSupported(p.txs, p'.txs, |hashes|)
    decreases |hashes|
  {
    if hashes != [] {
      var front, last := hashes[..|hashes| - 1], hashes[|hashes| - 1];
      var mid := pop(p, last).state;
      HashesGoOut(pop, mid, front);
      var p' := Backward(pop, p, hashes).state;
      WentOutTwice(p.tables.txs, mid.tables.txs, p'.tables.txs, {last}, HashSet(front));
      SplitLast(hashes);
      assert {last} + HashSet(front) == HashSet(hashes);
    }
  }

  /** If each hash leads to its transaction as long as it is known, these transactions are handed back. */
  lemma {:induction false} FoundHandedBack(pop: Step<Popping, Hash>, p: Popping, items: seq<Listed>)
    requires TakesOut(pop) && Orderly(p.tables.txs) && Backward(pop, p, Hashes(items)).Done?
    requires forall i | 0 <= i < |items| :: LeadsTo(p.tables.txs, items[i].hash, items[i].tx)
    ensures Backward(pop, p, Hashes(items)).state.txs == p.txs + Reversed(Txs(items))
    decreases |items|
  {
    if items == [] {
      assert p.txs + Reversed(Txs(items)) == p.txs;
    } else {
      var n := |items| - 1;
      var front, last := items[..n], items[n];
      var mid := pop(p, last.hash).state;
      assert Hashes(items)[..n] == Hashes(front) by {
        LastHash(items);
      }
      assert LeadsTo(p.tables.txs, last.hash, last.tx) && mid.txs == p.txs + [last.tx];
      StillLead(p.tables.txs, mid.tables.txs, items);
      FoundHandedBack(pop, mid, front);
      LastFirst(items, p.txs);
    }
  }

  lemma StillLead(t: TxTables, t': TxTables, items: seq<Listed>)
    requires Keeps(t', t) && items != []
    requires forall i | 0 <= i < |items| :: LeadsTo(t, items[i].hash, items[i].tx)
    ensures var front := items[..|items| - 1];
            forall i | 0 <= i < |front| :: LeadsTo(t', front[i].hash, front[i].tx)
  {
    forall i | 0 <= i < |items| - 1 ensures LeadsTo(t', items[i].hash, items[i].tx) {
      assert LeadsTo(t, items[i].hash, items[i].tx);
    }
  }

  lemma LastFirst(items: seq<Listed>, out: seq<Transaction>)
    requires items != []
    ensures var n := |items| - 1;
            (out + [items[n].tx]) + Reversed(Txs(items[..n])) == out + Reversed(Txs(items))
  {
    ReversedLast(items, 0, out);
    assert items[0..] == items && items[..|items| - 1][0..] == items[..|items| - 1];
  }

  predicate LeadsTo(t: TxTables, hash: Hash, tx: Transaction) {
    hash in t.indices ==> GetTx(t, hash) == Some(tx)
  }

  lemma PopTxsGoOut(c: Crypto, p: Popping, block: Block)
    requires Orderly(p.tables.txs) && PopBlockTxs(c, p, block).Done?
    ensures var p' := PopBlockTxs(c, p, block).state;
            && Orderly(p'.tables.txs) && WentOut(p.tables.txs, p'.tables.txs, BlockHashSet(c, block))
            && GrewSupported(p.txs, p'.txs, |block.txHashes|)
            && p'.txs == Backward(PopOne, p, block.txHashes).state.txs
  {
    PopOneTakesOut();
    HashesGoOut(PopOne, p, block.txHashes);
    var mid := Backward(PopOne, p, block.txHashes).state;
    RemoveGoesOut(mid.tables, c.txHash(block.minerTx));
    WentOutTwice(
      p.tables.txs, mid.tables.txs, PopBlockTxs(c, p, block).state.tables.txs,
      HashSet(block.txHashes), {c.txHash(block.minerTx)});
  }

  predicate ListedSupported(e: Entry) {
    forall i | 0 <= i < |e.txs| :: Supported(e.txs[i])
  }

  lemma HandedBackSupported(txs: seq<Transaction>, txs': seq<Transaction>, handed: seq<Transaction>)
    requires GrewSupported(txs, txs', |handed|) && txs' == txs + Reversed(handed)
    ensures forall i | 0 <= i < |handed| :: Supported(handed[i])
  {
    forall i | 0 <= i < |handed| ensures Supported(handed[i]) {
      HandedAt(txs, handed, i);
    }
  }

  lemma HandedAt(txs: seq<Transaction>, handed: seq<Transaction>, i: nat)
    requires i < |handed|
    ensures (txs + Reversed(handed))[|txs| + (|handed| - 1 - i)] == handed[i]
  {
  }

  lemma ListedHandedBack(p: Popping, e: SizedEntry)
    requires Orderly(p.tables.txs) && Backward(PopOne, p, e.block.txHashes).Done?
    requires forall i | 0 <= i < |e.txs| :: LeadsTo(p.tables.txs, e.block.txHashes[i], e.txs[i])
    ensures Backward(PopOne, p, e.block.txHashes).state.txs == p.txs + Reversed(e.txs)
  {
    PopOneTakesOut();
    ListedParts(e, 0);
    assert Txs(ListedOf(e)) == e.txs;
    FoundHandedBack(PopOne, p, ListedOf(e));
  }

  /** A completed pop hands back the transactions that were listed exactly when all of these are supported. */
  lemma HandsBackIff(c: Crypto, p: Popping, e: SizedEntry)
    requires Orderly(p.tables.txs) && PopBlockTxs(c, p, e.block).Done?
    requires forall i | 0 <= i < |e.txs| && Supported(e.txs[i]) ::
               LeadsTo(p.tables.txs, e.block.txHashes[i], e.txs[i])
    ensures PopBlockTxs(c, p, e.block).state.txs == p.txs + Reversed(e.txs) <==> ListedSupported(e)
  {
    PopTxsGoOut(c, p, e.block);
    if ListedSupported(e) {
      ListedHandedBack(p, e);
    } else if PopBlockTxs(c, p, e.block).state.txs == p.txs + Reversed(e.txs) {
      HandedBackSupported(p.txs, PopBlockTxs(c, p, e.block).state.txs, e.txs);
    }
  }

  // ---------------------------------------------------------- all runs

  ghost predicate ListedAbove(c: Crypto, chain: seq<SizedEntry>, b: nat, hash: Hash) {
    exists d | b < d < |chain| :: hash in BlockHashSet(c, chain[d].block)
  }

  /** A supported transaction is found under its hash, if anything is, until the hash is listed again above it. */
  ghost predicate Traceable(c: Crypto, chain: seq<SizedEntry>, t: TxTables) {
    forall b: nat, hash, tx | b < |chain| && Lists(c, chain[b], hash, tx) && Supported(tx) ::
      ListedAbove(c, chain, b, hash) || LeadsTo(t, hash, tx)
  }

  lemma TraceableAfterAdd(c: Crypto, chain: seq<SizedEntry>, e: SizedEntry, t: TxTables, t': TxTables)
    requires Traceable(c, chain, t) && CameIn(t, t', BlockHashSet(c, e.block))
    requires forall hash, tx | Lists(c, e, hash, tx) && Supported(tx) :: GetTx(t', hash) == Some(tx)
    ensures Traceable(c, chain + [e], t')
  {
    var chain' := chain + [e];
    forall b: nat, hash, tx | b < |chain'| && Lists(c, chain'[b], hash, tx) && Supported(tx)
      ensures ListedAbove(c, chain', b, hash) || LeadsTo(t', hash, tx)
    {
      if b < |chain| && !ListedAbove(c, chain', b, hash) {
        assert chain'[|chain|] == e && hash !in BlockHashSet(c, e.block);
        assert !ListedAbove(c, chain, b, hash) by {
          assert forall d | b < d < |chain| :: chain'[d] == chain[d];
        }
        assert LeadsTo(t, hash, tx);
      }
    }
  }

  lemma TraceableAfterPop(c: Crypto, below: seq<SizedEntry>, top: SizedEntry, t: TxTables, t': TxTables)
    requires Traceable(c, below + [top], t) && WentOut(t, t', BlockHashSet(c, top.block))
    ensures Traceable(c, below, t')
  {
    var chain := below + [top];
    forall b: nat, hash, tx | b < |below| && Lists(c, below[b], hash, tx) && Supported(tx)
      ensures ListedAbove(c, below, b, hash) || LeadsTo(t', hash, tx)
    {
      if hash in t'.indices && !ListedAbove(c, below, b, hash) {
        assert chain[b] == below[b] && chain[|below|] == top && hash !in BlockHashSet(c, top.block);
        assert !ListedAbove(c, chain, b, hash) by {
          assert forall d | b < d < |below| :: chain[d] == below[d];
        }
        assert LeadsTo(t, hash, tx);
      }
    }
  }

  ghost predicate Traced(c: Crypto, chain: seq<SizedEntry>, s: Tables) {
    BlocksIndexed(c, chain, s) && Orderly(s.txs) && Traceable(c, chain, s.txs)
  }

  lemma TracedAdd(c: Crypto, chain: seq<SizedEntry>, s: Tables, e: SizedEntry)
    requires Traced(c, chain, s) && AddBlock(c, s, e).Done?
    ensures Traced(c, chain + [e], AddBlock(c, s, e).state)
  {
    AddBlockRecords(c, chain, s, e);
    AddBlockComesIn(c, s, e);
    TraceableAfterAdd(c, chain, e, s.txs, AddBlock(c, s, e).state.txs);
  }

  /** What a completed pop does on traced tables: all that is said about it below follows from this. */
  lemma TracedPop(
      c: Crypto, chain: seq<SizedEntry>, s: Tables, out: seq<Transaction>, popped: Outcome<Popping, Block>)
    requires Traced(c, chain, s) && popped == PopBlock(c, Popping(s, out)) && popped.Done?
    ensures chain != []
    ensures var below, top := chain[..|chain| - 1], chain[|chain| - 1];
            && Traced(c, below, popped.state.tables)
            && popped.value == top.block
            && WentOut(s.txs, popped.state.tables.txs, BlockHashSet(c, top.block))
            && GrewSupported(out, popped.state.txs, |top.txs|)
            && (popped.state.txs == out + Reversed(top.txs) <==> ListedSupported(top))
  {
    PopNeedsBlock(c, chain, s, out);
    PopBlockOf(c, chain, s, out);
    SplitLast(chain);
    TracedPopTxs(c, chain[..|chain| - 1], chain[|chain| - 1], s, out, popped);
  }

  lemma TracedPopTxs(
      c: Crypto, below: seq<SizedEntry>, top: SizedEntry, s: Tables, out: seq<Transaction>,
      popped: Outcome<Popping, Block>)
    requires Traced(c, below + [top], s) && ValidLinks(c, below)
    requires popped == PopBlockTxs(c, Popping(s.(blocks := IndexBlocks(c, below)), out), top.block) && popped.Done?
    ensures Traced(c, below, popped.state.tables) && popped.value == top.block
    ensures WentOut(s.txs, popped.state.tables.txs, BlockHashSet(c, top.block))
    ensures GrewSupported(out, popped.state.txs, |top.txs|)
    ensures popped.state.txs == out + Reversed(top.txs) <==> ListedSupported(top)
  {
    var p := Popping(s.(blocks := IndexBlocks(c, below)), out);
    PopTxsKeepsBlocks(c, p, top.block);
    PopTxsGoOut(c, p, top.block);
    TraceableAfterPop(c, below, top, s.txs, popped.state.tables.txs);
    TopTraceable(c, below, top, s.txs);
    HandsBackIff(c, p, top);
  }

  lemma TopTraceable(c: Crypto, below: seq<SizedEntry>, top: SizedEntry, t: TxTables)
    requires Traceable(c, below + [top], t)
    ensures forall i | 0 <= i < |top.txs| && Supported(top.txs[i]) :: LeadsTo(t, top.block.txHashes[i], top.txs[i])
  {
    var chain := below + [top];
    forall i | 0 <= i < |top.txs| && Supported(top.txs[i]) ensures LeadsTo(t, top.block.txHashes[i], top.txs[i]) {
      assert chain[|below|] == top && Lists(c, top, top.block.txHashes[i], top.txs[i]);
      assert !ListedAbove(c, chain, |below|, top.block.txHashes[i]);
    }
  }

  lemma TracedStep(c: Crypto, chain: seq<SizedEntry>, s: Tables, op: Op)
    requires Traced(c, chain, s)
    ensures Traced(c, LoggedStep(chain, op, Completes(c, s, op)), StepTables(c, s, op).0)
  {
    match op
    case Add(e) =>
      if AddBlock(c, s, e).Done? {
        TracedAdd(c, chain, s, e);
      }
    case Pop =>
      if PopBlock(c, Popping(s, [])).Done? {
        TracedPop(c, chain, s, [], PopBlock(c, Popping(s, [])));
      }
  }

  lemma RunIsTraced(c: Crypto, ops: seq<Op>)
    ensures Traced(c, CurrentChain(c, ops), RunTables(c, EMPTY, ops).0)
  {
    var inv := (chain: seq<SizedEntry>, s: Tables) => Traced(c, chain, s);
    EmptyIndex(c);
    forall chain, s, op | inv(chain, s)
      ensures inv(LoggedStep(chain, op, Completes(c, s, op)), StepTables(c, s, op).0)
    {
      TracedStep(c, chain, s, op);
    }
    ReportedKeeps(c, ops, inv);
  }

  /**
    After any run whatever, a completed pop returns the top block and one transaction per
    listed hash, and these are the listed ones if and only if none of them was given up.
   */
  lemma PopHandsBackIff(c: Crypto, ops: seq<Op>, out: seq<Transaction>)
    requires PopBlock(c, Popping(RunTables(c, EMPTY, ops).0, out)).Done?
    ensures CurrentChain(c, ops) != []
    ensures var popped, chain := PopBlock(c, Popping(RunTables(c, EMPTY, ops).0, out)), CurrentChain(c, ops);
            var top := chain[|chain| - 1];
            && popped.value == top.block
            && out <= popped.state.txs && |popped.state.txs| == |out| + |top.txs|
            && (popped.state.txs == out + Reversed(top.txs) <==> ListedSupported(top))
  {
    var s := RunTables(c, EMPTY, ops).0;
    RunIsTraced(c, ops);
    TracedPop(c, CurrentChain(c, ops), s, out, PopBlock(c, Popping(s, out)));
  }

  lemma {:induction false} LogAtBy(
      run: seq<Op> -> (Tables, seq<Report>), step: (Tables, Op) -> (Tables, Report), ops: seq<Op>, i: nat)
    requires run([]).1 == []
    requires forall ops | ops != [] ::
               var (now, log) := run(ops[..|ops| - 1]);
               run(ops).1 == log + [step(now, ops[|ops| - 1]).1]
    requires i < |ops|
    ensures |run(ops).1| == |ops| && run(ops).1[i] == step(run(ops[..i]).0, ops[i]).1
  {
    var n := |ops| - 1;
    if i < n {
      LogAtBy(run, step, ops[..n], i);
      FrontOfFront(ops, i);
    } else if n > 0 {
      LogAtBy(run, step, ops[..n], n - 1);
    } else {
      assert ops[..n] == [];
    }
  }

  /** What a run logs for a call is what the call answers. */
  lemma LogAt(c: Crypto, s: Tables, ops: seq<Op>, i: nat)
    requires i < |ops|
    ensures |RunTables(c, s, ops).1| == |ops|
    ensures RunTables(c, s, ops).1[i] == StepTables(c, RunTables(c, s, ops[..i]).0, ops[i]).1
  {
    LogAtBy(ops => RunTables(c, s, ops), (now, op) => StepTables(c, now, op), ops, i);
  }

  /**
    What the calls of any run answer: an added block, the height of the chain with it; a
    block taken off, the block that was on top, with one transaction per listed hash.
   */
  lemma AnswersMatchChain(c: Crypto, ops: seq<Op>, i: nat)
    requires i < |ops|
    ensures |RunTables(c, EMPTY, ops).1| == |ops|
    ensures var report, chain := RunTables(c, EMPTY, ops).1[i], CurrentChain(c, ops[..i]);
            match report
            case AddedUpTo(height) =>
              ops[i].Add? && CurrentChain(c, ops[..i + 1]) == chain + [ops[i].entry] && height == |chain| + 1
            case TakenOff(block, txs) =>
              && ops[i].Pop? && chain != [] && CurrentChain(c, ops[..i + 1]) == chain[..|chain| - 1]
              && block == chain[|chain| - 1].block && |txs| == |chain[|chain| - 1].txs|
              && (txs == Reversed(chain[|chain| - 1].txs) <==> ListedSupported(chain[|chain| - 1]))
            case Refused(error) =>
              CurrentChain(c, ops[..i + 1]) == chain
  {
    var s, chain := RunTables(c, EMPTY, ops[..i]).0, CurrentChain(c, ops[..i]);
    LogAt(c, EMPTY, ops, i);
    assert ops[..i + 1][..i] == ops[..i];
    CurrentChainStep(c, ops[..i + 1]);
    RunIsTraced(c, ops[..i]);
    match ops[i]
    case Add(e) => AddTells(c, chain, s, e);
    case Pop => PopTells(c, chain, s);
  }

  lemma PopTells(c: Crypto, chain: seq<SizedEntry>, s: Tables)
    requires Traced(c, chain, s)
    ensures PopBlockAtomic(c, Popping(s, [])).Done? ==>
              && chain != []
              && var popped, top := PopBlockAtomic(c, Popping(s, [])), chain[|chain| - 1];
              && popped.value == top.block && |popped.state.txs| == |top.txs|
              && (popped.state.txs == Reversed(top.txs) <==> ListedSupported(top))
  {
    if PopBlock(c, Popping(s, [])).Done? {
      TracedPop(c, chain, s, [], PopBlock(c, Popping(s, [])));
      assert [] + Reversed(chain[|chain| - 1].txs) == Reversed(chain[|chain| - 1].txs);
    }
  }

  lemma AddTells(c: Crypto, chain: seq<SizedEntry>, s: Tables, e: Entry)
    requires BlocksIndexed(c, chain, s)
    ensures AddBlockAtomic(c, s, e).Done? ==>
              |e.block.txHashes| == |e.txs| && AddBlockAtomic(c, s, e).value == |chain| + 1
  {
    TableSize(Blocks(chain));
  }

  // ------------------------------------------------------- many pops

  /** The topmost `k` blocks of a chain. */
  function TopOf(chain: seq<SizedEntry>, k: nat): seq<SizedEntry>
    requires k <= |chain|
  {
    chain[|chain| - k..]
  }

  ghost predicate AllListedSupported(entries: seq<SizedEntry>) {
    forall i | 0 <= i < |entries| :: ListedSupported(entries[i])
  }

  lemma TopOfStep(chain: seq<SizedEntry>, k: nat)
    requires 0 < k <= |chain|
    ensures var below, top := chain[..|chain| - 1], chain[|chain| - 1];
            TopOf(chain, k) == TopOf(below, k - 1) + [top]
  {
  }

  lemma ReceivedStep(entries: seq<Entry>, e: Entry)
    ensures Received(entries + [e]) == Received(entries) + e.txs
    ensures BlocksOf(entries + [e]) == BlocksOf(entries) + [e.block]
  {
    assert (entries + [e])[..|entries|] == entries;
  }

  lemma {:induction false} ReceivedSupported(entries: seq<SizedEntry>)
    ensures AllListedSupported(entries) <==> forall i | 0 <= i < |Received(entries)| :: Supported(Received(entries)[i])
  {
    if entries != [] {
      var n := |entries| - 1;
      var front, last := entries[..n], entries[n];
      ReceivedSupported(front);
      SplitLast(entries);
      ReceivedStep(front, last);
      assert AllListedSupported(entries) <==> AllListedSupported(front) && ListedSupported(last);
      var txs := Received(front) + last.txs;
      assert forall i | 0 <= i < |last.txs| :: txs[|Received(front)| + i] == last.txs[i];
      assert forall i | 0 <= i < |Received(front)| :: txs[i] == Received(front)[i];
    }
  }

  /** What one completed pop does, with the tables left open. */
  ghost predicate PopsTop(pop: Popping -> Outcome<Popping, Block>, inv: (seq<SizedEntry>, Tables) -> bool) {
    forall chain, p: Popping | inv(chain, p.tables) && pop(p).Done? :: TopPopped(chain, p, pop(p), inv)
  }

  ghost predicate TopPopped(
      chain: seq<SizedEntry>, p: Popping, popped: Outcome<Popping, Block>, inv: (seq<SizedEntry>, Tables) -> bool)
    requires popped.Done?
  {
    && chain != []
    && var below, top := chain[..|chain| - 1], chain[|chain| - 1];
    && inv(below, popped.state.tables)
    && popped.value == top.block
    && GrewSupported(p.txs, popped.state.txs, |top.txs|)
    && (ListedSupported(top) ==> popped.state.txs == p.txs + Reversed(top.txs))
  }

  lemma GrewTwice(a: seq<Transaction>, b: seq<Transaction>, d: seq<Transaction>, m: nat, n: nat)
    requires GrewSupported(a, b, m) && GrewSupported(b, d, n)
    ensures GrewSupported(a, d, m + n)
  {
    forall i | |a| <= i < |d| ensures Supported(d[i]) {
      if i < |b| {
        assert d[i] == b[i];
      }
    }
  }

  lemma {:induction false} PopAllPops(
      pop: Popping -> Outcome<Popping, Block>, inv: (seq<SizedEntry>, Tables) -> bool,
      chain: seq<SizedEntry>, p: Popping, k: nat)
    requires PopsTop(pop, inv) && inv(chain, p.tables) && PopAll(pop, p, k).Done?
    ensures k <= |chain|
    ensures var popped, top := PopAll(pop, p, k), TopOf(chain, k);
            && popped.value == Reversed(BlocksOf(top))
            && GrewSupported(p.txs, popped.state.txs, |Received(top)|)
            && (AllListedSupported(top) ==> popped.state.txs == p.txs + Reversed(Received(top)))
    decreases k
  {
    if k == 0 {
      assert TopOf(chain, 0) == [];
      assert p.txs + Reversed(Received(TopOf(chain, 0))) == p.txs;
    } else {
      var first := pop(p);
      assert TopPopped(chain, p, first, inv);
      var below, top := chain[..|chain| - 1], chain[|chain| - 1];
      PopAllPops(pop, inv, below, first.state, k - 1);
      PopAllJoins(pop, chain, p, k, first, TopOf(below, k - 1), top);
    }
  }

  /** From one pop and the remaining ones to all of them. */
  lemma PopAllJoins(
      pop: Popping -> Outcome<Popping, Block>, chain: seq<SizedEntry>, p: Popping, k: nat,
      first: Outcome<Popping, Block>, rest: seq<SizedEntry>, top: SizedEntry)
    requires 0 < k <= |chain| && first == pop(p) && first.Done?
    requires top == chain[|chain| - 1] && rest == TopOf(chain[..|chain| - 1], k - 1)
    requires first.value == top.block && GrewSupported(p.txs, first.state.txs, |top.txs|)
    requires ListedSupported(top) ==> first.state.txs == p.txs + Reversed(top.txs)
    requires PopAll(pop, first.state, k - 1).Done?
    requires var others := PopAll(pop, first.state, k - 1);
             && others.value == Reversed(BlocksOf(rest))
             && GrewSupported(first.state.txs, others.state.txs, |Received(rest)|)
             && (AllListedSupported(rest) ==> others.state.txs == first.state.txs + Reversed(Received(rest)))
    ensures PopAll(pop, p, k).Done?
    ensures var popped, all := PopAll(pop, p, k), TopOf(chain, k);
            && popped.value == Reversed(BlocksOf(all))
            && GrewSupported(p.txs, popped.state.txs, |Received(all)|)
            && (AllListedSupported(all) ==> popped.state.txs == p.txs + Reversed(Received(all)))
  {
    var others := PopAll(pop, first.state, k - 1);
    TopOfStep(chain, k);
    ReceivedStep(rest, top);
    ReversedConcat(BlocksOf(rest), [top.block]);
    GrewTwice(p.txs, first.state.txs, others.state.txs, |top.txs|, |Received(rest)|);
    SupportedParts(rest, top);
    VectorJoins(p.txs, Received(rest), top.txs);
  }

  lemma SupportedParts(rest: seq<SizedEntry>, top: SizedEntry)
    ensures AllListedSupported(rest + [top]) <==> AllListedSupported(rest) && ListedSupported(top)
  {
    var all := rest + [top];
    assert all[|rest|] == top && forall i | 0 <= i < |rest| :: all[i] == rest[i];
  }

  lemma VectorJoins(out: seq<Transaction>, rest: seq<Transaction>, top: seq<Transaction>)
    ensures (out + Reversed(top)) + Reversed(rest) == out + Reversed(rest + top)
  {
    ReversedConcat(rest, top);
  }

  /**
    After any run whatever, if `k` pops into one vector complete there were as many blocks,
    they come back from the top down, and the vector grows by what they came with, in
    reverse, if and only if none of that was given up.
   */
  lemma PopAllHandsBackIff(c: Crypto, ops: seq<Op>, out: seq<Transaction>, k: nat)
    requires PopAll(BlockPopper(c), Popping(RunTables(c, EMPTY, ops).0, out), k).Done?
    ensures k <= |CurrentChain(c, ops)|
    ensures var popped := PopAll(BlockPopper(c), Popping(RunTables(c, EMPTY, ops).0, out), k);
            var top := TopOf(CurrentChain(c, ops), k);
            && popped.value == Reversed(BlocksOf(top))
            && out <= popped.state.txs && |popped.state.txs| == |out| + |Received(top)|
            && (popped.state.txs == out + Reversed(Received(top)) <==> AllListedSupported(top))
  {
    var s, chain := RunTables(c, EMPTY, ops).0, CurrentChain(c, ops);
    var inv := (chain: seq<SizedEntry>, s: Tables) => Traced(c, chain, s);
    forall chain, p: Popping | inv(chain, p.tables) && BlockPopper(c)(p).Done?
      ensures TopPopped(chain, p, BlockPopper(c)(p), inv)
    {
      TracedPop(c, chain, p.tables, p.txs, PopBlock(c, p));
    }
    RunIsTraced(c, ops);
    PopAllPops(BlockPopper(c), inv, chain, Popping(s, out), k);
    var popped, top := PopAll(BlockPopper(c), Popping(s, out), k), TopOf(chain, k);
    ReceivedSupported(top);
    if popped.state.txs == out + Reversed(Received(top)) {
      HandedBackSupported(out, popped.state.txs, Received(top));
    }
  }
}
