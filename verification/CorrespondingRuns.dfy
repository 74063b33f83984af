/**
  The correspondence of outputs along runs. After a run from empty it holds if and only if
  no misfiled transaction was ever removed, whatever else was offered, given up or left on
  the chain. Once it is lost it never comes back: each removal of a misfiled transaction
  leaves an entry too many under amount 0, and no call makes up for that.
 */
module CorrespondingRuns {
  import opened CryptonoteTypes
  import opened Outcomes
  import opened Store
  import opened Reversal
  import opened ReversalLimits
  import opened Ledger
  import opened Refinement
  import opened Runs
  import opened Conservation
  import opened LoggedRuns
  import opened HandedBack
  import opened Correspondence
  import opened Reachable

  // ------------------------------------------------------- the condition

  /** Whatever the hashes of the top block lead to is looked for where it was filed. */
  predicate CoherentTop(c: Crypto, s: Tables) {
    GetTopBlock(s.blocks).Done? ==>
    forall hash | hash in BlockHashSet(c, GetTopBlock(s.blocks).value) :: LeadsToCoherent(s.txs, hash)
  }

  predicate LeadsToCoherent(t: TxTables, hash: Hash) {
    GetTx(t, hash).Some? ==> Coherent(GetTx(t, hash).value)
  }

  /** No pop that completes removes a misfiled transaction. */
  predicate RemovesCoherent(c: Crypto, ops: seq<Op>) {
    forall i | 0 <= i < |ops| && ops[i].Pop? && Completes(c, RunTables(c, EMPTY, ops[..i]).0, Pop) ::
      CoherentTop(c, RunTables(c, EMPTY, ops[..i]).0)
  }

  lemma RemovesCoherentFront(c: Crypto, ops: seq<Op>)
    requires ops != []
    ensures var front, last := ops[..|ops| - 1], ops[|ops| - 1];
            var s := RunTables(c, EMPTY, front).0;
            RemovesCoherent(c, ops) <==>
            RemovesCoherent(c, front) && (last.Pop? && Completes(c, s, Pop) ==> CoherentTop(c, s))
  {
    PopsFront(ops, before =>
      Completes(c, RunTables(c, EMPTY, before).0, Pop) ==> CoherentTop(c, RunTables(c, EMPTY, before).0));
  }

  // ------------------------------------------------- as long as it holds

  ghost predicate Corresponds(c: Crypto, s: Tables) {
    Orderly(s.txs) && Onto(c, s.txs, s.outs)
  }

  lemma AddBlockCorresponds(c: Crypto, s: Tables, e: SizedEntry)
    requires Corresponds(c, s) && AddBlock(c, s, e).Done?
    ensures Corresponds(c, AddBlock(c, s, e).state)
  {
    var inv := (t: Tables) => Corresponds(c, t);
    forall t, item | inv(t) && AddOne(c, t, item).Done? ensures inv(AddOne(c, t, item).state) {
      AddKeepsOnto(c, t, item);
      AddOneComesIn(c, t, item);
    }
    AddBlockKeeps(c, s, e, inv);
  }

  lemma PopBlockCorresponds(c: Crypto, p: Popping)
    requires Corresponds(c, p.tables) && CoherentTop(c, p.tables) && PopBlock(c, p).Done?
    ensures Corresponds(c, PopBlock(c, p).state.tables)
  {
    var block := GetTopBlock(p.tables.blocks).value;
    var hashes := BlockHashSet(c, block);
    var inv := (t: Tables) => Corresponds(c, t) && forall hash | hash in hashes :: LeadsToCoherent(t.txs, hash);
    forall t, hash | hash in hashes && inv(t) && RemoveTransaction(t, hash).Done?
      ensures inv(RemoveTransaction(t, hash).state)
    {
      RemoveKeepsOntoIff(c, t, hash);
      RemoveGoesOut(t, hash);
    }
    PopBlockKeeps(c, p, block, inv);
  }

  lemma {:induction false} RunCorresponds(c: Crypto, ops: seq<Op>)
    requires RemovesCoherent(c, ops)
    ensures Corresponds(c, RunTables(c, EMPTY, ops).0)
  {
    if ops != [] {
      var front, last := ops[..|ops| - 1], ops[|ops| - 1];
      RemovesCoherentFront(c, ops);
      RunCorresponds(c, front);
      var s := RunTables(c, EMPTY, front).0;
      match last
      case Add(e) => if AddBlock(c, s, e).Done? { AddBlockCorresponds(c, s, e); }
      case Pop => if PopBlock(c, Popping(s, [])).Done? { PopBlockCorresponds(c, Popping(s, [])); }
    }
  }

  // ------------------------------------------------- once it is lost

  function ZeroOutputs(): Transaction -> int {
    (tx: Transaction) => StoredZeros(tx, |tx.vout|)
  }

  /** The entries under amount 0 beyond those that the recorded transactions have there. */
  ghost function Stray(s: Tables): int {
    Zeros(s.outs) - Total(s.txs.txs, ZeroOutputs())
  }

  lemma AddKeepsStray(c: Crypto, s: Tables, item: Listed)
    requires AddOne(c, s, item).Done?
    ensures Stray(AddOne(c, s, item).state) == Stray(s)
  {
    RecordedOutputs(c, s, item);
    if Supported(item.tx) {
      AddCounts(c, s, item.tx, item.hash);
      StrayAfter(s, AddOne(c, s, item).state, |s.txs.txs|, item.tx);
    }
  }

  lemma StrayAfter(s: Tables, s': Tables, id: nat, tx: Transaction)
    requires id !in s.txs.txs && s'.txs.txs == s.txs.txs[id := tx]
    requires Zeros(s'.outs) == Zeros(s.outs) + StoredZeros(tx, |tx.vout|)
    ensures Stray(s') == Stray(s)
  {
    TotalGrows(s.txs.txs, ZeroOutputs(), id, tx);
  }

  /** Removing a transaction never lowers the number of stray entries, and raises it if the transaction is misfiled. */
  lemma RemoveStrays(s: Tables, hash: Hash)
    requires RemoveTransaction(s, hash).Done?
    ensures GetTx(s.txs, hash).Some?
    ensures Stray(s) <= Stray(RemoveTransaction(s, hash).state)
    ensures !Coherent(GetTx(s.txs, hash).value) ==> Stray(s) < Stray(RemoveTransaction(s, hash).state)
  {
    RemovedOutputs(s, hash);
    RemoveCounts(s, hash);
    var tx := GetTx(s.txs, hash).value;
    TotalWithout(s.txs.txs, ZeroOutputs(), s.txs.indices[hash].id);
    FewerZerosRemoved(tx, |tx.vout|);
    CoherentAmounts(tx);
  }

  lemma AddBlockStrays(c: Crypto, s: Tables, e: SizedEntry)
    requires AddBlock(c, s, e).Done?
    ensures Stray(AddBlock(c, s, e).state) == Stray(s)
  {
    var inv := (t: Tables) => Stray(t) == Stray(s);
    forall t, item | inv(t) && AddOne(c, t, item).Done? ensures inv(AddOne(c, t, item).state) {
      AddKeepsStray(c, t, item);
    }
    AddBlockKeeps(c, s, e, inv);
  }

  lemma PopBlockStrays(c: Crypto, p: Popping)
    requires PopBlock(c, p).Done?
    ensures Stray(p.tables) <= Stray(PopBlock(c, p).state.tables)
  {
    var inv := (t: Tables) => Stray(p.tables) <= Stray(t);
    forall t, hash | inv(t) && RemoveTransaction(t, hash).Done? ensures inv(RemoveTransaction(t, hash).state) {
      RemoveStrays(t, hash);
    }
    PopBlockKeeps(c, p, GetTopBlock(p.tables.blocks).value, inv);
  }

  /** The misfiled transaction is still there, or there are more stray entries than `before`. */
  ghost predicate LeftOrStray(before: int, hash: Hash, tx: Transaction, s: Tables) {
    && Orderly(s.txs) && LeadsTo(s.txs, hash, tx)
    && before <= Stray(s) && (hash !in s.txs.indices ==> before < Stray(s))
  }

  lemma RemoveLeavesStray(before: int, hash: Hash, tx: Transaction, s: Tables, other: Hash)
    requires LeftOrStray(before, hash, tx, s) && !Coherent(tx) && RemoveTransaction(s, other).Done?
    ensures LeftOrStray(before, hash, tx, RemoveTransaction(s, other).state)
  {
    RemoveStrays(s, other);
    RemoveGoesOut(s, other);
  }

  lemma MisfiledPopStrays(c: Crypto, p: Popping, hash: Hash)
    requires Orderly(p.tables.txs) && PopBlock(c, p).Done?
    requires hash in BlockHashSet(c, GetTopBlock(p.tables.blocks).value) && !LeadsToCoherent(p.tables.txs, hash)
    ensures Stray(p.tables) < Stray(PopBlock(c, p).state.tables)
  {
    var block, tx := GetTopBlock(p.tables.blocks).value, GetTx(p.tables.txs, hash).value;
    var inv := (t: Tables) => LeftOrStray(Stray(p.tables), hash, tx, t);
    forall t, other | inv(t) && RemoveTransaction(t, other).Done? ensures inv(RemoveTransaction(t, other).state) {
      RemoveLeavesStray(Stray(p.tables), hash, tx, t, other);
    }
    PopBlockKeeps(c, p, block, inv);
    var b := RemoveBlockRecord(p.tables.blocks).state;
    PopTxsGoOut(c, p.(tables := p.tables.(blocks := b)), block);
  }

  lemma StepStrays(c: Crypto, s: Tables, op: Op)
    ensures Stray(s) <= Stray(StepTables(c, s, op).0)
  {
    match op
    case Add(e) => if AddBlock(c, s, e).Done? { AddBlockStrays(c, s, e); }
    case Pop => if PopBlock(c, Popping(s, [])).Done? { PopBlockStrays(c, Popping(s, [])); }
  }

  lemma MisfiledStepStrays(c: Crypto, s: Tables)
    requires Orderly(s.txs) && Completes(c, s, Pop) && !CoherentTop(c, s)
    ensures Stray(s) < Stray(StepTables(c, s, Pop).0)
  {
    var hash :| hash in BlockHashSet(c, GetTopBlock(s.blocks).value) && !LeadsToCoherent(s.txs, hash);
    MisfiledPopStrays(c, Popping(s, []), hash);
  }

  /** From any tables, no run lowers the number of stray entries. */
  lemma StrayNeverFalls(c: Crypto, s: Tables, ops: seq<Op>)
    ensures Stray(s) <= Stray(RunTables(c, s, ops).0)
  {
    var inv := (t: Tables) => Stray(s) <= Stray(t);
    forall t, op | inv(t) ensures inv(StepTables(c, t, op).0) {
      StepStrays(c, t, op);
    }
    RunKeeps(c, s, ops, inv);
  }

  /** Where a misfiled transaction was removed there are stray entries for good. */
  lemma {:induction false} RunStrays(c: Crypto, ops: seq<Op>)
    requires !RemovesCoherent(c, ops)
    ensures 0 < Stray(RunTables(c, EMPTY, ops).0)
  {
    var front, last := ops[..|ops| - 1], ops[|ops| - 1];
    var s := RunTables(c, EMPTY, front).0;
    RemovesCoherentFront(c, ops);
    StepStrays(c, s, last);
    if RemovesCoherent(c, front) {
      StrayNeverFalls(c, EMPTY, front);
      RunIsTraced(c, front);
      MisfiledStepStrays(c, s);
    } else {
      RunStrays(c, front);
    }
  }

  // ------------------------------------------- no stray entry where it holds

  /** The keys stand for different outputs, named by transaction id and position. */
  ghost predicate Apart(keys: set<nat>, ids: nat -> nat, at: nat -> nat) {
    forall k, k' | k in keys && k' in keys && ids(k) == ids(k') && at(k) == at(k') :: k == k'
  }

  predicate ZeroAt(tx: Transaction, j: nat) {
    j < |tx.vout| && StoredAmount(tx, j) == 0
  }

  lemma {:induction false} TxHasRoom(
      keys: set<nat>, ids: nat -> nat, at: nat -> nat, id: nat, tx: Transaction, n: nat)
    requires n <= |tx.vout| && Apart(keys, ids, at)
    requires forall k | k in keys :: ids(k) == id && at(k) < n && ZeroAt(tx, at(k))
    ensures |keys| <= StoredZeros(tx, n)
  {
    if n == 0 {
      assert keys == {};
    } else if k :| k in keys && at(k) == n - 1 {
      assert ids(k) == id && ZeroAt(tx, n - 1);
      assert forall k' | k' in keys - {k} :: ids(k') == id && at(k') != n - 1;
      TxHasRoom(keys - {k}, ids, at, id, tx, n - 1);
    } else {
      TxHasRoom(keys, ids, at, id, tx, n - 1);
    }
  }

  lemma {:induction false} TxsHaveRoom(
      keys: set<nat>, ids: nat -> nat, at: nat -> nat, txs: map<nat, Transaction>)
    requires Apart(keys, ids, at)
    requires forall k | k in keys :: ids(k) in txs && ZeroAt(txs[ids(k)], at(k))
    ensures |keys| <= Total(txs, ZeroOutputs())
    decreases txs.Keys
  {
    if txs.Keys == {} {
      assert keys == {};
    } else {
      var id :| id in txs;
      var here := set k | k in keys && ids(k) == id;
      TotalWithout(txs, ZeroOutputs(), id);
      TxHasRoom(here, ids, at, id, txs[id], |txs[id].vout|);
      TxsHaveRoom(keys - here, ids, at, txs - {id});
    }
  }

  /** The output that entry `k` of table 0 leads back to. */
  function OutOf(o: OutputTables, k: nat): OutTx {
    if k in TableOf(o, 0) && TableOf(o, 0)[k].outputId in o.txs then o.txs[TableOf(o, 0)[k].outputId]
    else OutTx(Hash(0), 0)
  }

  function IdOf(t: TxTables, o: OutputTables): nat -> nat {
    (k: nat) => if OutOf(o, k).hash in t.indices then t.indices[OutOf(o, k).hash].id else 0
  }

  function LocalOf(o: OutputTables): nat -> nat {
    (k: nat) => OutOf(o, k).local
  }

  lemma OwnerOf(c: Crypto, t: TxTables, o: OutputTables, k: nat) returns (hash: Hash, j: nat)
    requires EntriesOwned(c, t, o) && k in TableOf(o, 0)
    ensures Leads(c, t, o, hash, j, 0, k) && IdOf(t, o)(k) == t.indices[hash].id && LocalOf(o)(k) == j
    ensures ZeroAt(t.txs[t.indices[hash].id], j)
  {
    hash, j :| Leads(c, t, o, hash, j, 0, k);
    CoinbaseHasGen(GetTx(t, hash).value);
  }

  lemma OwnersApart(c: Crypto, t: TxTables, o: OutputTables)
    requires Orderly(t) && EntriesOwned(c, t, o)
    ensures Apart(TableOf(o, 0).Keys, IdOf(t, o), LocalOf(o))
  {
    var keys, ids, at := TableOf(o, 0).Keys, IdOf(t, o), LocalOf(o);
    forall k, k' | k in keys && k' in keys && ids(k) == ids(k') && at(k) == at(k') ensures k == k' {
      var hash, j := OwnerOf(c, t, o, k);
      var hash', j' := OwnerOf(c, t, o, k');
    }
  }

  lemma OwnedHasNoStray(c: Crypto, s: Tables)
    requires Orderly(s.txs) && EntriesOwned(c, s.txs, s.outs)
    ensures Stray(s) <= 0
  {
    var keys, ids, at := TableOf(s.outs, 0).Keys, IdOf(s.txs, s.outs), LocalOf(s.outs);
    forall k | k in keys ensures ids(k) in s.txs.txs && ZeroAt(s.txs.txs[ids(k)], at(k)) {
      var hash, j := OwnerOf(c, s.txs, s.outs, k);
    }
    OwnersApart(c, s.txs, s.outs);
    TxsHaveRoom(keys, ids, at, s.txs.txs);
  }

  // ---------------------------------------------------------- all runs

  /**
    After any run from empty, recorded outputs, stored entries and output ids correspond one
    to one if and only if no misfiled transaction was removed, and the number of entries
    under amount 0 tells. Blocks with unsupported inputs and misfiled ones that stay on the
    chain do not matter.
   */
  lemma OutputsCorrespondIff(c: Crypto, ops: seq<Op>)
    ensures var s := RunTables(c, EMPTY, ops).0;
            && (Onto(c, s.txs, s.outs) <==> RemovesCoherent(c, ops))
            && (Stray(s) == 0 <==> RemovesCoherent(c, ops))
    ensures var s := RunTables(c, EMPTY, ops).0;
            && (forall hash, j, amount, k, hash', j' |
                  Leads(c, s.txs, s.outs, hash, j, amount, k) && Leads(c, s.txs, s.outs, hash', j', amount, k) ::
                  hash == hash' && j == j')
            && (forall hash, j, amount, k, amount', k' |
                  Leads(c, s.txs, s.outs, hash, j, amount, k) && Leads(c, s.txs, s.outs, hash, j, amount', k') ::
                  amount == amount' && k == k')
  {
    var s := RunTables(c, EMPTY, ops).0;
    LeadsUnique(c, s.txs, s.outs);
    OntoIff(c, ops);
  }

  lemma OntoIff(c: Crypto, ops: seq<Op>)
    ensures var s := RunTables(c, EMPTY, ops).0;
            && (Onto(c, s.txs, s.outs) <==> RemovesCoherent(c, ops))
            && (Stray(s) == 0 <==> RemovesCoherent(c, ops))
  {
    var s := RunTables(c, EMPTY, ops).0;
    RunIsTraced(c, ops);
    StrayNeverFalls(c, EMPTY, ops);
    if RemovesCoherent(c, ops) {
      RunCorresponds(c, ops);
      OwnedHasNoStray(c, s);
    } else {
      RunStrays(c, ops);
      if EntriesOwned(c, s.txs, s.outs) {
        OwnedHasNoStray(c, s);
      }
    }
  }

  // ------------------------------------------------- when it is met

  ghost predicate AllRecordedCoherent(t: TxTables) {
    forall id | id in t.txs :: Coherent(t.txs[id])
  }

  /** Each supported transaction that is offered is coherent; of the others nothing is asked. */
  predicate OffersCoherent(ops: seq<Op>) {
    forall i | 0 <= i < |ops| && ops[i].Add? :: CoherentIfSupported(ops[i].entry)
  }

  predicate CoherentIfSupported(e: Entry) {
    && (Supported(e.block.minerTx) ==> Coherent(e.block.minerTx))
    && forall i | 0 <= i < |e.txs| && Supported(e.txs[i]) :: Coherent(e.txs[i])
  }

  lemma AddBlockCoherent(c: Crypto, s: Tables, e: SizedEntry)
    requires AllRecordedCoherent(s.txs) && CoherentIfSupported(e) && AddBlock(c, s, e).Done?
    ensures AllRecordedCoherent(AddBlock(c, s, e).state.txs)
  {
    var inv := (t: Tables) => AllRecordedCoherent(t.txs);
    forall t, item | (item == MinerOf(c, e) || item in ListedOf(e)) && inv(t) && AddOne(c, t, item).Done?
      ensures inv(AddOne(c, t, item).state)
    {
      RecordedOutputs(c, t, item);
    }
    AddBlockKeeps(c, s, e, inv);
  }

  lemma PopBlockCoherent(c: Crypto, p: Popping)
    requires AllRecordedCoherent(p.tables.txs) && PopBlock(c, p).Done?
    ensures AllRecordedCoherent(PopBlock(c, p).state.tables.txs)
  {
    var inv := (t: Tables) => AllRecordedCoherent(t.txs);
    PopBlockKeeps(c, p, GetTopBlock(p.tables.blocks).value, inv);
  }

  /** It is enough that every supported transaction offered is coherent. */
  lemma CoherentOffersSuffice(c: Crypto, ops: seq<Op>)
    requires OffersCoherent(ops)
    ensures RemovesCoherent(c, ops)
  {
    var inv := (t: Tables) => AllRecordedCoherent(t.txs);
    forall t, op | op in ops && inv(t) ensures inv(StepTables(c, t, op).0) {
      match op
      case Add(e) => if AddBlock(c, t, e).Done? { AddBlockCoherent(c, t, e); }
      case Pop => if PopBlock(c, Popping(t, [])).Done? { PopBlockCoherent(c, Popping(t, [])); }
    }
    forall i | 0 <= i < |ops| ensures CoherentTop(c, RunTables(c, EMPTY, ops[..i]).0) {
      RunKeeps(c, EMPTY, ops[..i], inv);
    }
  }

  /** And it is enough that every block that comes off is reversible, whatever was offered. */
  lemma ReversiblePopsSuffice(c: Crypto, ops: seq<Op>)
    requires TakesReversible(c, ops)
    ensures RemovesCoherent(c, ops)
  {
    forall i | 0 <= i < |ops| && ops[i].Pop? && Completes(c, RunTables(c, EMPTY, ops[..i]).0, Pop)
      ensures CoherentTop(c, RunTables(c, EMPTY, ops[..i]).0)
    {
      var front := ops[..i];
      RunIsTraced(c, front);
      PopNeedsBlock(c, CurrentChain(c, front), RunTables(c, EMPTY, front).0, []);
      ReversibleTopIsCoherent(c, CurrentChain(c, front), RunTables(c, EMPTY, front).0);
    }
  }

  lemma ReversibleTopIsCoherent(c: Crypto, chain: seq<SizedEntry>, s: Tables)
    requires chain != [] && TopReversible(chain) && Traced(c, chain, s)
    ensures CoherentTop(c, s)
  {
    var below, top := chain[..|chain| - 1], chain[|chain| - 1];
    SplitLast(chain);
    RemoveRecordIndexes(c, below, top);
    forall hash | hash in BlockHashSet(c, top.block) ensures LeadsToCoherent(s.txs, hash) {
      TopLeads(c, below, top, s.txs, hash);
    }
  }

  lemma TopLeads(c: Crypto, below: seq<SizedEntry>, top: SizedEntry, t: TxTables, hash: Hash)
    requires Traceable(c, below + [top], t) && ReversibleEntry(top) && hash in BlockHashSet(c, top.block)
    ensures LeadsToCoherent(t, hash)
  {
    var chain := below + [top];
    assert chain[|below|] == top && !ListedAbove(c, chain, |below|, hash);
    if hash == c.txHash(top.block.minerTx) {
      assert Lists(c, top, hash, top.block.minerTx);
    } else {
      var i :| 0 <= i < |top.block.txHashes| && top.block.txHashes[i] == hash;
      assert Lists(c, top, hash, top.txs[i]);
    }
  }
}
