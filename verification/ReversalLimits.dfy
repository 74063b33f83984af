/**
  The converse of `Reversal.PopUndoesAdd`: a block that holds an irreversible
  transaction cannot be popped back to where it was added, whatever the tables.
  Two quantities show it: the number of recorded transactions, and the number of
  outputs filed under amount 0.
 */
module ReversalLimits {
  import opened CryptonoteTypes
  import opened Outcomes
  import opened Store
  import opened Reversal

  // ------------------------------------- outputs filed under amount 0

  function Zeros(t: OutputTables): nat {
    |TableOf(t, 0)|
  }

  function StoredZeros(tx: Transaction, n: nat): nat
    requires n <= |tx.vout|
  {
    if n == 0 then 0 else StoredZeros(tx, n - 1) + if StoredAmount(tx, n - 1) == 0 then 1 else 0
  }

  function RemovedZeros(tx: Transaction, n: nat): nat
    requires n <= |tx.vout|
  {
    if n == 0 then 0 else RemovedZeros(tx, n - 1) + if RemovalAmount(tx, n - 1) == 0 then 1 else 0
  }

  lemma {:induction false} FewerZerosRemoved(tx: Transaction, n: nat)
    requires n <= |tx.vout|
    ensures RemovedZeros(tx, n) <= StoredZeros(tx, n)
    ensures RemovedZeros(tx, n) == StoredZeros(tx, n) ==>
              forall i | 0 <= i < n :: StoredAmount(tx, i) == RemovalAmount(tx, i)
  {
    if n > 0 {
      FewerZerosRemoved(tx, n - 1);
      assert RemovalAmount(tx, n - 1) == 0 ==> StoredAmount(tx, n - 1) == 0;
    }
  }

  lemma DeleteShrinks<K, V>(m: map<K, V>, k: K)
    requires k in m
    ensures |m - {k}| == |m| - 1
  {
    assert (m - {k}).Keys == m.Keys - {k};
  }

  lemma AddOutputZeros(t: OutputTables, o: NewOut)
    requires AddOutput(t, o).Done?
    ensures Zeros(AddOutput(t, o).state) == Zeros(t) + if o.out.amount == 0 then 1 else 0
  {
  }

  lemma RemoveOutputZeros(t: OutputTables, amount: nat, index: nat)
    requires RemoveOutput(t, amount, index).Done?
    ensures Zeros(RemoveOutput(t, amount, index).state) == Zeros(t) - if amount == 0 then 1 else 0
  {
    if amount == 0 {
      DeleteShrinks(TableOf(t, 0), index);
    }
  }

  lemma FileOneZeros(f: Filing, o: Option<NewOut>)
    requires FileOne(f, o).Done?
    ensures o.Some?
    ensures Zeros(FileOne(f, o).state.tables) == Zeros(f.tables) + if o.value.out.amount == 0 then 1 else 0
  {
    AddOutputZeros(f.tables, o.value);
  }

  lemma {:induction false} FileZeros(start: Filing, news: seq<Option<NewOut>>, tx: Transaction, n: nat)
    requires n <= |tx.vout| == |news| && Forward(FileOne, start, news[..n]).Done?
    requires forall i | 0 <= i < |news| && news[i].Some? :: news[i].value.out.amount == StoredAmount(tx, i)
    ensures Zeros(Forward(FileOne, start, news[..n]).state.tables) == Zeros(start.tables) + StoredZeros(tx, n)
  {
    if n > 0 {
      assert news[..n][..n - 1] == news[..n - 1];
      ForwardPrefix(FileOne, start, news[..n], n - 1);
      var f := Forward(FileOne, start, news[..n - 1]).state;
      FileZeros(start, news, tx, n - 1);
      ForwardNext(FileOne, start, news, n - 1, f);
      FileOneZeros(f, news[n - 1]);
    }
  }

  lemma FileOutputsZeros(c: Crypto, t: OutputTables, tx: Transaction, hash: Hash, height: nat)
    requires FileOutputs(c, t, tx, hash, height).Done?
    ensures Zeros(FileOutputs(c, t, tx, hash, height).state.tables) == Zeros(t) + StoredZeros(tx, |tx.vout|)
  {
    var news := NewOuts(c, tx, hash, height);
    assert news[..|news|] == news;
    FileZeros(Filing(t, []), news, tx, |tx.vout|);
  }

  lemma {:induction false} ClearSlotsZeros(t: OutputTables, tx: Transaction, amountIndices: seq<nat>, n: nat)
    requires n <= |tx.vout|
    requires Backward(ClearSlot, t, Slots(tx, amountIndices)[..n]).Done?
    ensures Zeros(Backward(ClearSlot, t, Slots(tx, amountIndices)[..n]).state) == Zeros(t) - RemovedZeros(tx, n)
    decreases n
  {
    if n > 0 {
      var slots := Slots(tx, amountIndices);
      assert slots[..n][..n - 1] == slots[..n - 1];
      RemoveOutputZeros(t, slots[n - 1].amount, slots[n - 1].index.value);
      ClearSlotsZeros(ClearSlot(t, slots[n - 1]).state, tx, amountIndices, n - 1);
    }
  }

  // ---------------------------------------------------- one transaction

  lemma AddCounts(c: Crypto, s: Tables, tx: Transaction, hash: Hash)
    requires AddTransaction(c, s, tx, hash).Done?
    ensures var s' := AddTransaction(c, s, tx, hash).state;
            && |s'.txs.indices| == |s.txs.indices| + (if Supported(tx) then 1 else 0)
            && (Supported(tx) ==> Zeros(s'.outs) == Zeros(s.outs) + StoredZeros(tx, |tx.vout|))
  {
    RecordedIffSupported(c, s, tx, hash);
    if Supported(tx) {
      RecordedTables(c, s, tx, hash);
      FileOutputsZeros(c, s.outs, tx, hash, Height(s));
    }
  }

  lemma RemoveCounts(s: Tables, hash: Hash)
    requires RemoveTransaction(s, hash).Done?
    ensures GetTx(s.txs, hash).Some?
    ensures var s' := RemoveTransaction(s, hash).state;
            var tx := GetTx(s.txs, hash).value;
            && |s'.txs.indices| == |s.txs.indices| - 1
            && Zeros(s'.outs) == Zeros(s.outs) - RemovedZeros(tx, |tx.vout|)
  {
    var tx := GetTx(s.txs, hash).value;
    var id := s.txs.indices[hash].id;
    DeleteShrinks(s.txs.indices, hash);
    var slots := Slots(tx, s.txs.outputs[id]);
    assert slots[..|slots|] == slots;
    ClearSlotsZeros(s.outs, tx, s.txs.outputs[id], |tx.vout|);
  }

  /** The transaction tables come back exactly, even where the output tables do not. */
  lemma TxTablesComeBack(c: Crypto, s: Tables, tx: Transaction, hash: Hash, now: Tables)
    requires AddTransaction(c, s, tx, hash).Done? && Supported(tx)
    requires now.txs == AddTransaction(c, s, tx, hash).state.txs
    ensures GetTx(now.txs, hash) == Some(tx)
    ensures RemoveTransaction(now, hash).Done? ==> RemoveTransaction(now, hash).state.txs == s.txs
  {
    RecordedTables(c, s, tx, hash);
    var id := |s.txs.txs|;
    PutThenDelete(s.txs.txs, id, tx);
    PutThenDelete(s.txs.indices, hash, now.txs.indices[hash]);
    PutThenDelete(s.txs.outputs, id, now.txs.outputs[id]);
  }

  // ------------------------------------------------- the two counts, item by item

  function TxCount(): Tables -> int {
    (s: Tables) => |s.txs.indices|
  }

  function PoppingTxCount(): Popping -> int {
    (p: Popping) => |p.tables.txs.indices|
  }

  function ZeroCount(): Tables -> int {
    (s: Tables) => Zeros(s.outs)
  }

  function Recorded(): Listed -> int {
    (item: Listed) => if Supported(item.tx) then 1 else 0
  }

  function ItemStoredZeros(): Listed -> int {
    (item: Listed) => StoredZeros(item.tx, |item.tx.vout|)
  }

  function ItemRemovedZeros(): Listed -> int {
    (item: Listed) => RemovedZeros(item.tx, |item.tx.vout|)
  }

  lemma {:induction false} SumOfSame<I>(weight: I -> int, items: seq<I>, w: int)
    requires forall item | item in items :: weight(item) == w
    ensures Sum(weight, items) == w * |items|
  {
    if items != [] {
      SumOfSame(weight, items[..|items| - 1], w);
    }
  }

  /** The listed transactions that are recorded are those with supported inputs. */
  lemma AddListedTxCount(c: Crypto, s: Tables, items: seq<Listed>)
    requires Forward(Adder(c), s, items).Done?
    ensures |Forward(Adder(c), s, items).state.txs.indices| == |s.txs.indices| + Sum(Recorded(), items)
  {
    forall s, item | Adder(c)(s, item).Done?
      ensures TxCount()(Adder(c)(s, item).state) == TxCount()(s) + Recorded()(item)
    {
      AddCounts(c, s, item.tx, item.hash);
    }
    ForwardCounts(Adder(c), s, items, TxCount(), Recorded());
  }

  lemma AddListedZeroCount(c: Crypto, s: Tables, items: seq<Listed>)
    requires forall item | item in items :: Supported(item.tx)
    requires Forward(Adder(c), s, items).Done?
    ensures Zeros(Forward(Adder(c), s, items).state.outs) == Zeros(s.outs) + Sum(ItemStoredZeros(), items)
  {
    forall s, item | item in items && Adder(c)(s, item).Done?
      ensures ZeroCount()(Adder(c)(s, item).state) == ZeroCount()(s) + ItemStoredZeros()(item)
    {
      AddCounts(c, s, item.tx, item.hash);
    }
    ForwardCounts(Adder(c), s, items, ZeroCount(), ItemStoredZeros());
  }

  /** Every round of a pop takes off one transaction. */
  lemma PopListedTxCount(p: Popping, hashes: seq<Hash>)
    requires Backward(PopOne, p, hashes).Done?
    ensures |Backward(PopOne, p, hashes).state.tables.txs.indices| == |p.tables.txs.indices| - |hashes|
  {
    var minusOne := (hash: Hash) => -1;
    forall p, hash | PopOne(p, hash).Done?
      ensures PoppingTxCount()(PopOne(p, hash).state) == PoppingTxCount()(p) + minusOne(hash)
    {
      RemoveCounts(p.tables, hash);
    }
    BackwardCounts(PopOne, p, hashes, PoppingTxCount(), minusOne);
    SumOfSame(minusOne, hashes, -1);
  }

  /** A pop that meets the transaction tables as `add` left them, whatever the output tables are by now. */
  predicate Follows(add: Step<Tables, Listed>, s: Tables, item: Listed, p: Popping) {
    add(s, item).Done? && p.tables.txs == add(s, item).state.txs
  }

  lemma {:induction false} PopsFollow(
      add: Step<Tables, Listed>, pop: Step<Popping, Hash>, s: Tables, items: seq<Listed>, p: Popping)
    requires forall s, item, p | item in items && Follows(add, s, item, p) && pop(p, item.hash).Done? ::
               && pop(p, item.hash).state.tables.txs == s.txs
               && Zeros(pop(p, item.hash).state.tables.outs) == Zeros(p.tables.outs) - ItemRemovedZeros()(item)
    requires Forward(add, s, items).Done? && p.tables.txs == Forward(add, s, items).state.txs
    requires Backward(pop, p, Hashes(items)).Done?
    ensures Backward(pop, p, Hashes(items)).state.tables.txs == s.txs
    ensures Zeros(Backward(pop, p, Hashes(items)).state.tables.outs)
         == Zeros(p.tables.outs) - Sum(ItemRemovedZeros(), items)
    decreases |items|
  {
    if items != [] {
      var front, last := items[..|items| - 1], items[|items| - 1];
      assert Hashes(items)[..|items| - 1] == Hashes(front);
      assert Follows(add, Forward(add, s, front).state, last, p);
      PopsFollow(add, pop, s, front, pop(p, last.hash).state);
    }
  }

  lemma PopListedZeroCount(c: Crypto, s: Tables, items: seq<Listed>, p: Popping)
    requires forall item | item in items :: Supported(item.tx)
    requires Forward(Adder(c), s, items).Done? && p.tables.txs == Forward(Adder(c), s, items).state.txs
    requires Backward(PopOne, p, Hashes(items)).Done?
    ensures Backward(PopOne, p, Hashes(items)).state.tables.txs == s.txs
    ensures Zeros(Backward(PopOne, p, Hashes(items)).state.tables.outs)
         == Zeros(p.tables.outs) - Sum(ItemRemovedZeros(), items)
  {
    forall s, item, p | item in items && Follows(Adder(c), s, item, p) && PopOne(p, item.hash).Done?
      ensures PopOne(p, item.hash).state.tables.txs == s.txs
      ensures Zeros(PopOne(p, item.hash).state.tables.outs) == Zeros(p.tables.outs) - ItemRemovedZeros()(item)
    {
      TxTablesComeBack(c, s, item.tx, item.hash, p.tables);
      RemoveCounts(p.tables, item.hash);
    }
    PopsFollow(Adder(c), PopOne, s, items, p);
  }

  // --------------------------------------------------------- whole blocks

  /** Adding a block and popping it: recorded transactions come in, listed ones go out. */
  lemma BlockTxCount(c: Crypto, s: Tables, e: Entry, out: seq<Transaction>)
    requires |e.block.txHashes| == |e.txs| && AddBlockTxs(c, s, e).Done?
    requires PopBlockTxs(c, Popping(AddBlockTxs(c, s, e).state, out), e.block).Done?
    ensures var popped := PopBlockTxs(c, Popping(AddBlockTxs(c, s, e).state, out), e.block);
            |popped.state.tables.txs.indices|
            == |s.txs.indices| + Recorded()(MinerOf(c, e)) + Sum(Recorded(), ListedOf(e)) - 1 - |e.txs|
  {
    var p := Popping(AddBlockTxs(c, s, e).state, out);
    AddCounts(c, s, e.block.minerTx, c.txHash(e.block.minerTx));
    AddListedTxCount(c, AddOne(c, s, MinerOf(c, e)).state, ListedOf(e));
    PopListedTxCount(p, e.block.txHashes);
    RemoveCounts(Backward(PopOne, p, e.block.txHashes).state.tables, c.txHash(e.block.minerTx));
  }

  lemma AllRecorded(items: seq<Listed>)
    ensures Sum(Recorded(), items) <= |items|
    ensures Sum(Recorded(), items) == |items| ==> forall item | item in items :: Supported(item.tx)
  {
    var one := (item: Listed) => 1;
    SumOfSame(one, items, 1);
    SumsCompare(Recorded(), one, items);
    if Sum(Recorded(), items) == |items| {
      forall item | item in items ensures Supported(item.tx) {
        assert Recorded()(item) == one(item);
      }
    }
  }

  /** The same for the outputs filed under amount 0, when every transaction is recorded. */
  lemma BlockZeroCount(c: Crypto, s: Tables, e: Entry, out: seq<Transaction>)
    requires |e.block.txHashes| == |e.txs| && AddBlockTxs(c, s, e).Done?
    requires Supported(e.block.minerTx) && forall item | item in ListedOf(e) :: Supported(item.tx)
    requires PopBlockTxs(c, Popping(AddBlockTxs(c, s, e).state, out), e.block).Done?
    ensures var popped := PopBlockTxs(c, Popping(AddBlockTxs(c, s, e).state, out), e.block);
            Zeros(popped.state.tables.outs)
            == Zeros(s.outs)
               + ItemStoredZeros()(MinerOf(c, e)) + Sum(ItemStoredZeros(), ListedOf(e))
               - ItemRemovedZeros()(MinerOf(c, e)) - Sum(ItemRemovedZeros(), ListedOf(e))
  {
    var items, miner := ListedOf(e), e.block.minerTx;
    var p := Popping(AddBlockTxs(c, s, e).state, out);
    var p' := Backward(PopOne, p, e.block.txHashes).state;
    assert Hashes(items) == e.block.txHashes;
    AddCounts(c, s, miner, c.txHash(miner));
    AddListedZeroCount(c, AddOne(c, s, MinerOf(c, e)).state, items);
    PopListedZeroCount(c, AddOne(c, s, MinerOf(c, e)).state, items, p);
    TxTablesComeBack(c, s, miner, c.txHash(miner), p'.tables);
    RemoveCounts(p'.tables, c.txHash(miner));
  }

  lemma EqualZerosAreCoherent(items: seq<Listed>)
    ensures Sum(ItemRemovedZeros(), items) <= Sum(ItemStoredZeros(), items)
    ensures Sum(ItemRemovedZeros(), items) == Sum(ItemStoredZeros(), items) ==>
              forall item | item in items :: Coherent(item.tx)
  {
    forall item: Listed
      ensures ItemRemovedZeros()(item) <= ItemStoredZeros()(item)
      ensures ItemRemovedZeros()(item) == ItemStoredZeros()(item) ==> Coherent(item.tx)
    {
      FewerZerosRemoved(item.tx, |item.tx.vout|);
      CoherentAmounts(item.tx);
    }
    SumsCompare(ItemRemovedZeros(), ItemStoredZeros(), items);
  }

  /** A pop that takes the transactions of a block back exactly had only reversible ones to take back. */
  lemma RestoredMeansReversible(c: Crypto, s: Tables, e: Entry, out: seq<Transaction>)
    requires |e.block.txHashes| == |e.txs| && AddBlockTxs(c, s, e).Done?
    requires var popped := PopBlockTxs(c, Popping(AddBlockTxs(c, s, e).state, out), e.block);
             popped.Done? && popped.state.tables == s
    ensures ReversibleEntry(e)
  {
    var items, miner := ListedOf(e), e.block.minerTx;
    BlockTxCount(c, s, e, out);
    AllRecorded(items);
    BlockZeroCount(c, s, e, out);
    EqualZerosAreCoherent(items);
    FewerZerosRemoved(miner, |miner.vout|);
    CoherentAmounts(miner);
    forall i | 0 <= i < |e.txs| ensures Reversible(e.txs[i]) {
      assert items[i] in items;
    }
  }

  /** `pop_block` takes the tables back to where `add_block` found them exactly when every transaction is reversible. */
  lemma PopUndoesAddIff(c: Crypto, s: Tables, e: Entry, out: seq<Transaction>)
    requires AddBlock(c, s, e).Done?
    ensures var popped := PopBlock(c, Popping(AddBlock(c, s, e).state, out));
            (popped.Done? && popped.state.tables == s) <==> ReversibleEntry(e)
  {
    if ReversibleEntry(e) {
      PopUndoesAdd(c, s, e, out);
    } else {
      PopStartsAtTxs(c, s, e, out);
      var popped := PopBlockTxs(c, Popping(AddBlockTxs(c, s, e).state, out), e.block);
      if popped.Done? && popped.state.tables == s {
        RestoredMeansReversible(c, s, e, out);
        assert false;
      }
    }
  }
}
