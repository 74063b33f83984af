/**
  When `pop_block` undoes `add_block`. Nothing is asked of the tables: the
  results hold for every value of them.
 */
module Reversal {
  import opened CryptonoteTypes
  import opened Outcomes
  import opened Store

  /**
    The amount under which the outputs of `tx` were filed is the one under which the
    backend looks for them: filing asks whether some input is `txin_gen`, removal
    whether the only input is.
   */
  predicate Coherent(tx: Transaction) {
    !HasGen(tx.vin) || |tx.vin| == 1 || forall i | 0 <= i < |tx.vout| :: tx.vout[i].amount == 0
  }

  predicate Reversible(tx: Transaction) {
    Supported(tx) && Coherent(tx)
  }

  predicate ReversibleEntry(e: Entry) {
    Reversible(e.block.minerTx) && forall i | 0 <= i < |e.txs| :: Reversible(e.txs[i])
  }

  lemma CoherentAmounts(tx: Transaction)
    ensures Coherent(tx) <==> forall i | 0 <= i < |tx.vout| :: StoredAmount(tx, i) == RemovalAmount(tx, i)
  {
    if HasGen(tx.vin) && |tx.vin| != 1 {
      assert forall i | 0 <= i < |tx.vout| :: StoredAmount(tx, i) == 0 && RemovalAmount(tx, i) == tx.vout[i].amount;
    }
  }

  // ---------------------------------------------------------------- outputs

  lemma PutThenDelete<K, V>(m: map<K, V>, k: K, v: V)
    requires k !in m
    ensures m[k := v] - {k} == m
  {
  }

  lemma PutGrows<K, V>(m: map<K, V>, k: K, v: V)
    requires k !in m
    ensures |m[k := v]| == |m| + 1
  {
    assert m[k := v].Keys == m.Keys + {k};
  }

  lemma DropUndoesPut(amounts: map<nat, AmountTable>, t: OutputTables, amount: nat, entry: OutKey)
    requires amounts == t.amounts
    requires |TableOf(t, amount)| !in TableOf(t, amount)
    ensures var table := TableOf(t, amount);
            DropEntry(amounts[amount := table[|table| := entry]], amount, |table|) == amounts
  {
    var table := TableOf(t, amount);
    PutThenDelete(table, |table|, entry);
  }

  lemma RemoveOutputUndoesAdd(t: OutputTables, o: NewOut)
    requires AddOutput(t, o).Done?
    ensures RemoveOutput(AddOutput(t, o).state, o.out.amount, AddOutput(t, o).value) == Done(t, ())
  {
    var id := |t.txs|;
    PutThenDelete(t.txs, id, OutTx(o.hash, o.local));
    DropUndoesPut(t.amounts, t, o.out.amount, OutKey(id, o.out.target.key, o.unlockTime, o.height, o.commitment));
  }

  /** Every round of an output loop issues one amount index. */
  ghost predicate IssuesOne(file: Step<Filing, Option<NewOut>>) {
    forall f, o | file(f, o).Done? ::
      exists index :: file(f, o).state.issued == f.issued + [index]
  }

  lemma {:induction false} OneIndexPerOutput(file: Step<Filing, Option<NewOut>>, f: Filing, news: seq<Option<NewOut>>)
    requires IssuesOne(file)
    requires Forward(file, f, news).Done?
    ensures |Forward(file, f, news).state.issued| == |f.issued| + |news|
  {
    if news != [] {
      OneIndexPerOutput(file, f, news[..|news| - 1]);
    }
  }

  /** The slots where the outputs `news` were put, given the amount indices they were issued. */
  predicate Occupy(slots: seq<Slot>, news: seq<Option<NewOut>>, issued: seq<nat>) {
    && |slots| == |news| == |issued|
    && forall i | 0 <= i < |news| && news[i].Some? :: slots[i] == Slot(news[i].value.out.amount, Some(issued[i]))
  }

  /** One round of `clear` on the slot just filled undoes the round of `file`. */
  ghost predicate Undoes(clear: Step<OutputTables, Slot>, file: Step<Filing, Option<NewOut>>) {
    && IssuesOne(file)
    && (forall f, o | file(f, o).Done? :: o.Some?)
    && forall f: Filing, o: Option<NewOut>, index: nat |
         o.Some? && file(f, o).Done? && file(f, o).state.issued == f.issued + [index] ::
         clear(file(f, o).state.tables, Slot(o.value.out.amount, Some(index))) == Done(f.tables, ())
  }

  /**
    Clearing the slots from the last one down goes back through the tables that the
    output loop went through, as far as those after the first `k` outputs.
   */
  lemma {:induction false} ClearsBackTo(
      file: Step<Filing, Option<NewOut>>, clear: Step<OutputTables, Slot>,
      t: OutputTables, news: seq<Option<NewOut>>, slots: seq<Slot>, k: nat)
    requires k <= |news| && Undoes(clear, file)
    requires Forward(file, Filing(t, []), news).Done?
    requires Occupy(slots, news, Forward(file, Filing(t, []), news).state.issued)
    ensures Forward(file, Filing(t, []), news[..k]).Done?
    ensures Occupy(slots[..k], news[..k], Forward(file, Filing(t, []), news[..k]).state.issued)
    ensures Backward(clear, Forward(file, Filing(t, []), news).state.tables, slots)
         == Backward(clear, Forward(file, Filing(t, []), news[..k]).state.tables, slots[..k])
    decreases |news|
  {
    var n := |news|;
    if k == n {
      assert news[..k] == news && slots[..k] == slots;
    } else {
      var front, last := news[..n - 1], news[n - 1];
      var f, f' := Forward(file, Filing(t, []), front).state, Forward(file, Filing(t, []), news).state;
      var index :| f'.issued == f.issued + [index];
      OneIndexPerOutput(file, Filing(t, []), front);
      assert clear(f'.tables, Slot(last.value.out.amount, Some(index))) == Done(f.tables, ());
      FrontOfFront(news, k);
      FrontOfFront(slots, k);
      ClearsBackTo(file, clear, t, front, slots[..n - 1], k);
    }
  }

  lemma ClearSlotUndoesFileOne(f: Filing, o: NewOut, index: nat)
    requires FileOne(f, Some(o)).Done?
    requires FileOne(f, Some(o)).state.issued == f.issued + [index]
    ensures ClearSlot(FileOne(f, Some(o)).state.tables, Slot(o.out.amount, Some(index))) == Done(f.tables, ())
  {
    RemoveOutputUndoesAdd(f.tables, o);
    var issued := FileOne(f, Some(o)).state.issued;
    assert issued[|f.issued|] == index;
  }

  lemma FileOneIssuesOne()
    ensures IssuesOne(FileOne)
  {
    forall f, o | FileOne(f, o).Done?
      ensures exists index :: FileOne(f, o).state.issued == f.issued + [index]
    {
      assert FileOne(f, o).state.issued == f.issued + [AddOutput(f.tables, o.value).value];
    }
  }

  lemma ClearSlotUndoes()
    ensures Undoes(ClearSlot, FileOne)
  {
    FileOneIssuesOne();
    forall f: Filing, o: Option<NewOut>, index: nat |
      o.Some? && FileOne(f, o).Done? && FileOne(f, o).state.issued == f.issued + [index]
      ensures ClearSlot(FileOne(f, o).state.tables, Slot(o.value.out.amount, Some(index))) == Done(f.tables, ())
    {
      ClearSlotUndoesFileOne(f, o.value, index);
    }
  }

  lemma SlotsOccupied(c: Crypto, t: OutputTables, tx: Transaction, hash: Hash, height: nat)
    requires Coherent(tx) && FileOutputs(c, t, tx, hash, height).Done?
    ensures var issued := FileOutputs(c, t, tx, hash, height).state.issued;
            |issued| == |tx.vout| && Occupy(Slots(tx, issued), NewOuts(c, tx, hash, height), issued)
  {
    FileOneIssuesOne();
    OneIndexPerOutput(FileOne, Filing(t, []), NewOuts(c, tx, hash, height));
    CoherentAmounts(tx);
  }

  /** The backend's output loop takes back what the output loop of `add_transaction` filed. */
  lemma ClearSlotsUndoesFileOutputs(c: Crypto, t: OutputTables, tx: Transaction, hash: Hash, height: nat)
    requires Coherent(tx)
    requires FileOutputs(c, t, tx, hash, height).Done?
    ensures |FileOutputs(c, t, tx, hash, height).state.issued| == |tx.vout|
    ensures var f := FileOutputs(c, t, tx, hash, height).state;
            Backward(ClearSlot, f.tables, Slots(tx, f.issued)) == Done(t, ())
  {
    var news, f := NewOuts(c, tx, hash, height), FileOutputs(c, t, tx, hash, height).state;
    ClearSlotUndoes();
    SlotsOccupied(c, t, tx, hash, height);
    ClearsBackTo(FileOne, ClearSlot, t, news, Slots(tx, f.issued), 0);
  }

  // ----------------------------------------------- last in, first out

  predicate Greatest<V>(table: map<nat, V>, key: nat) {
    key in table && forall k | k in table :: k <= key
  }

  /** The slot holds the newest output of its amount, and this is the newest output of all. */
  predicate AtEnd(t: OutputTables, slot: Slot) {
    && slot.index.Some?
    && Greatest(TableOf(t, slot.amount), slot.index.value)
    && Greatest(t.txs, TableOf(t, slot.amount)[slot.index.value].outputId)
  }

  lemma FiledAtEnd(f: Filing, o: Option<NewOut>)
    requires FileOne(f, o).Done?
    ensures var f' := FileOne(f, o).state;
            |f'.issued| == |f.issued| + 1 && AtEnd(f'.tables, Slot(o.value.out.amount, Some(f'.issued[|f.issued|])))
  {
    var f' := FileOne(f, o).state;
    assert f'.issued[|f.issued|] == |TableOf(f.tables, o.value.out.amount)|;
  }

  /** The tables in which the backend's loop comes to remove output `i`. */
  function TablesAt(c: Crypto, t: OutputTables, tx: Transaction, hash: Hash, height: nat, i: nat): OutputTables
    requires i < |tx.vout|
  {
    Forward(FileOne, Filing(t, []), NewOuts(c, tx, hash, height)[..i + 1]).state.tables
  }

  /** Every output that the backend's loop removes is at that moment the newest of its amount, and of all. */
  lemma RemovesNewest(c: Crypto, t: OutputTables, tx: Transaction, hash: Hash, height: nat, i: nat)
    requires Coherent(tx) && i < |tx.vout|
    requires FileOutputs(c, t, tx, hash, height).Done?
    ensures var f := FileOutputs(c, t, tx, hash, height).state;
            var slots, now := Slots(tx, f.issued), TablesAt(c, t, tx, hash, height, i);
            && Backward(ClearSlot, f.tables, slots) == Backward(ClearSlot, now, slots[..i + 1])
            && AtEnd(now, slots[i])
  {
    SlotsOccupied(c, t, tx, hash, height);
    var issued := FileOutputs(c, t, tx, hash, height).state.issued;
    ReachesNewest(t, NewOuts(c, tx, hash, height), Slots(tx, issued), i);
  }

  lemma ReachesNewest(t: OutputTables, news: seq<Option<NewOut>>, slots: seq<Slot>, i: nat)
    requires i < |news| && Forward(FileOne, Filing(t, []), news).Done?
    requires Occupy(slots, news, Forward(FileOne, Filing(t, []), news).state.issued)
    ensures var now := Forward(FileOne, Filing(t, []), news[..i + 1]).state.tables;
            && Backward(ClearSlot, Forward(FileOne, Filing(t, []), news).state.tables, slots)
               == Backward(ClearSlot, now, slots[..i + 1])
            && AtEnd(now, slots[i])
  {
    ClearSlotUndoes();
    ClearsBackTo(FileOne, ClearSlot, t, news, slots, i + 1);
    LastFiledAtEnd(Filing(t, []), news[..i + 1], slots[..i + 1]);
  }

  lemma LastFiledAtEnd(start: Filing, news: seq<Option<NewOut>>, slots: seq<Slot>)
    requires news != [] && start.issued == []
    requires Forward(FileOne, start, news).Done?
    requires Occupy(slots, news, Forward(FileOne, start, news).state.issued)
    ensures AtEnd(Forward(FileOne, start, news).state.tables, slots[|slots| - 1])
  {
    var front, last := news[..|news| - 1], news[|news| - 1];
    FileOneIssuesOne();
    OneIndexPerOutput(FileOne, start, front);
    FiledAtEnd(Forward(FileOne, start, front).state, last);
  }

  // ----------------------------------------------------------- transactions

  /** An input loop that runs to its end spends exactly the transaction's images, none of them spent before. */
  lemma {:induction false} ScanSpends(spent: set<KeyImage>, vin: seq<TxIn>, i: nat)
    requires i <= |vin|
    requires ScanInputs(spent, vin, i).Done? && ScanInputs(spent, vin, i).value
    ensures forall k | i <= k < |vin| :: SupportedInput(vin[k])
    ensures forall k | i <= k < |vin| && vin[k].TxInToKey? :: vin[k].image !in spent
    ensures ScanInputs(spent, vin, i).state == spent + set k | i <= k < |vin| && vin[k].TxInToKey? :: vin[k].image
    decreases |vin| - i
  {
    if i < |vin| {
      var next := if vin[i].TxInToKey? then spent + {vin[i].image} else spent;
      ScanSpends(next, vin, i + 1);
    }
  }

  lemma {:induction false} ImagesAreInputs(vin: seq<TxIn>)
    ensures Images(vin) == set k | 0 <= k < |vin| && vin[k].TxInToKey? :: vin[k].image
  {
    if vin != [] {
      var last := |vin| - 1;
      var front := vin[..last];
      ImagesAreInputs(front);
      assert forall k | 0 <= k < last :: front[k] == vin[k];
      assert Images(vin) == Images(front) + if vin[last].TxInToKey? then {vin[last].image} else {};
      assert (set k | 0 <= k < last && vin[k].TxInToKey? :: vin[k].image)
          == set k | 0 <= k < last && front[k].TxInToKey? :: front[k].image;
    }
  }

  lemma SpentRestored(spent: set<KeyImage>, vin: seq<TxIn>)
    requires ScanInputs(spent, vin, 0).Done? && ScanInputs(spent, vin, 0).value
    ensures Images(vin) !! spent
    ensures ScanInputs(spent, vin, 0).state == spent + Images(vin)
    ensures ScanInputs(spent, vin, 0).state - Images(vin) == spent
  {
    ScanSpends(spent, vin, 0);
    ImagesAreInputs(vin);
  }

  /** A transaction is recorded only when every input is of a supported kind. */
  lemma RecordedIffSupported(c: Crypto, s: Tables, tx: Transaction, hash: Hash)
    requires AddTransaction(c, s, tx, hash).Done?
    ensures AddTransaction(c, s, tx, hash).value <==> Supported(tx)
  {
    if ScanInputs(s.spent, tx.vin, 0).value {
      ScanSpends(s.spent, tx.vin, 0);
    } else {
      ScanStops(s.spent, tx.vin, 0);
    }
  }

  lemma {:induction false} ScanStops(spent: set<KeyImage>, vin: seq<TxIn>, i: nat)
    requires i <= |vin|
    requires ScanInputs(spent, vin, i).Done? && !ScanInputs(spent, vin, i).value
    ensures exists k | i <= k < |vin| :: !SupportedInput(vin[k])
    decreases |vin| - i
  {
    if SupportedInput(vin[i]) {
      ScanStops(if vin[i].TxInToKey? then spent + {vin[i].image} else spent, vin, i + 1);
    }
  }

  /** The transaction tables after a transaction was recorded: three fresh entries. */
  lemma RecordedTables(c: Crypto, s: Tables, tx: Transaction, hash: Hash)
    requires AddTransaction(c, s, tx, hash).Done?
    requires Supported(tx)
    ensures var s' := AddTransaction(c, s, tx, hash).state;
            var id := |s.txs.txs|;
            var filed := FileOutputs(c, s.outs, tx, hash, Height(s));
            && filed.Done?
            && id !in s.txs.txs && hash !in s.txs.indices && id !in s.txs.outputs
            && s' == Tables(
                       s.blocks,
                       TxTables(
                         s.txs.txs[id := tx],
                         s.txs.indices[hash := TxData(id, tx.unlockTime, Height(s))],
                         s.txs.outputs[id := filed.state.issued]),
                       filed.state.tables,
                       s.spent + Images(tx.vin))
            && GetTx(s'.txs, hash) == Some(tx)
  {
    RecordedIffSupported(c, s, tx, hash);
    SpentRestored(s.spent, tx.vin);
  }

  lemma RemoveTransactionUndoesAdd(c: Crypto, s: Tables, tx: Transaction, hash: Hash)
    requires AddTransaction(c, s, tx, hash).Done?
    requires Reversible(tx)
    ensures GetTx(AddTransaction(c, s, tx, hash).state.txs, hash) == Some(tx)
    ensures RemoveTransaction(AddTransaction(c, s, tx, hash).state, hash) == Done(s, ())
  {
    var s' := AddTransaction(c, s, tx, hash).state;
    var filed := FileOutputs(c, s.outs, tx, hash, Height(s)).state;
    var id := |s.txs.txs|;
    RecordedTables(c, s, tx, hash);
    RecordedIffSupported(c, s, tx, hash);
    SpentRestored(s.spent, tx.vin);
    ClearSlotsUndoesFileOutputs(c, s.outs, tx, hash, Height(s));
    PutThenDelete(s.txs.txs, id, tx);
    PutThenDelete(s.txs.indices, hash, s'.txs.indices[hash]);
    PutThenDelete(s.txs.outputs, id, filed.issued);
  }

  // ---------------------------------------------------------- whole blocks

  function Reversed<T>(xs: seq<T>): (r: seq<T>)
    ensures |r| == |xs|
    ensures forall i | 0 <= i < |xs| :: r[i] == xs[|xs| - 1 - i]
  {
    if xs == [] then [] else [xs[|xs| - 1]] + Reversed(xs[..|xs| - 1])
  }

  function Hashes(items: seq<Listed>): seq<Hash> {
    seq(|items|, i requires 0 <= i < |items| => items[i].hash)
  }

  function Txs(items: seq<Listed>): seq<Transaction> {
    seq(|items|, i requires 0 <= i < |items| => items[i].tx)
  }

  /**
    If every round of `pop` undoes the round of `add` on the same item, popping from
    the end takes the tables back, item by item, to where they were after `k`.
   */
  lemma {:induction false} PopsBackTo(
      add: Step<Tables, Listed>, pop: Step<Popping, Hash>, s: Tables, items: seq<Listed>, k: nat, out: seq<Transaction>)
    requires k <= |items|
    requires forall s, out, i | k <= i < |items| && add(s, items[i]).Done? ::
               pop(Popping(add(s, items[i]).state, out), items[i].hash) == Done(Popping(s, out + [items[i].tx]), ())
    requires Forward(add, s, items).Done?
    ensures Forward(add, s, items[..k]).Done?
    ensures Backward(pop, Popping(Forward(add, s, items).state, out), Hashes(items))
         == Backward(pop, Popping(Forward(add, s, items[..k]).state, out + Reversed(Txs(items[k..]))), Hashes(items[..k]))
    decreases |items|
  {
    var n := |items|;
    if k == n {
      assert items[..k] == items;
      assert out + Reversed(Txs(items[k..])) == out;
    } else {
      var front, last := items[..n - 1], items[n - 1];
      assert Hashes(items)[..n - 1] == Hashes(front);
      assert front[..k] == items[..k];
      PopsBackTo(add, pop, s, front, k, out + [last.tx]);
      ReversedLast(items, k, out);
    }
  }

  lemma ReversedLast(items: seq<Listed>, k: nat, out: seq<Transaction>)
    requires k < |items|
    ensures var front, last := items[..|items| - 1], items[|items| - 1];
            (out + [last.tx]) + Reversed(Txs(front[k..])) == out + Reversed(Txs(items[k..]))
  {
    var front := items[..|items| - 1];
    assert Txs(items[k..])[..|items| - 1 - k] == Txs(front[k..]);
  }

  /** One round of `pop_block` undoes the round of `add_block` on the same transaction. */
  lemma PopOneUndoesAddOne(c: Crypto, s: Tables, item: Listed, out: seq<Transaction>)
    requires AddOne(c, s, item).Done?
    requires Reversible(item.tx)
    ensures PopOne(Popping(AddOne(c, s, item).state, out), item.hash) == Done(Popping(s, out + [item.tx]), ())
  {
    RemoveTransactionUndoesAdd(c, s, item.tx, item.hash);
  }

  /** Popping the listed transactions from the last one down to the one at `k`. */
  lemma PopListedBackTo(c: Crypto, s: Tables, items: seq<Listed>, k: nat, out: seq<Transaction>)
    requires k <= |items|
    requires forall i | k <= i < |items| :: Reversible(items[i].tx)
    requires Forward(Adder(c), s, items).Done?
    ensures Forward(Adder(c), s, items[..k]).Done?
    ensures Backward(PopOne, Popping(Forward(Adder(c), s, items).state, out), Hashes(items))
         == Backward(PopOne, Popping(Forward(Adder(c), s, items[..k]).state, out + Reversed(Txs(items[k..]))),
                     Hashes(items[..k]))
  {
    forall s, out, i | k <= i < |items| && Adder(c)(s, items[i]).Done?
      ensures PopOne(Popping(Adder(c)(s, items[i]).state, out), items[i].hash)
           == Done(Popping(s, out + [items[i].tx]), ())
    {
      PopOneUndoesAddOne(c, s, items[i], out);
    }
    PopsBackTo(Adder(c), PopOne, s, items, k, out);
  }

  /**
    In the tables `now`, into which `item` went last, coming from `below`: it is the newest
    transaction recorded, and each of its outputs is the newest stored when the backend's
    loop reaches it.
   */
  ghost predicate Newest(c: Crypto, below: Tables, item: Listed, now: Tables) {
    && GetTx(now.txs, item.hash) == Some(item.tx)
    && var id := now.txs.indices[item.hash].id;
    && Greatest(now.txs.txs, id) && id in now.txs.outputs
    && forall i | 0 <= i < |item.tx.vout| :: NewestOutput(c, below, item, now.outs, now.txs.outputs[id], i)
  }

  ghost predicate NewestOutput(
      c: Crypto, below: Tables, item: Listed, outs: OutputTables, issued: seq<nat>, i: nat)
    requires i < |item.tx.vout|
  {
    var slots, before := Slots(item.tx, issued), TablesAt(c, below.outs, item.tx, item.hash, Height(below), i);
    Backward(ClearSlot, outs, slots) == Backward(ClearSlot, before, slots[..i + 1]) && AtEnd(before, slots[i])
  }

  lemma NewestAdded(c: Crypto, s: Tables, item: Listed)
    requires AddOne(c, s, item).Done? && Reversible(item.tx)
    ensures Newest(c, s, item, AddOne(c, s, item).state)
  {
    var s', issued := AddOne(c, s, item).state, FileOutputs(c, s.outs, item.tx, item.hash, Height(s)).state.issued;
    NewestTx(c, s, item);
    forall i | 0 <= i < |item.tx.vout| ensures NewestOutput(c, s, item, s'.outs, issued, i) {
      RemovesNewest(c, s.outs, item.tx, item.hash, Height(s), i);
    }
  }

  /** When the pop reaches transaction `k`, that transaction and its outputs are the newest. */
  lemma PopsNewest(c: Crypto, s: Tables, items: seq<Listed>, k: nat, out: seq<Transaction>)
    requires k < |items| && forall j | k <= j < |items| :: Reversible(items[j].tx)
    requires Forward(Adder(c), s, items).Done?
    ensures Forward(Adder(c), s, items[..k]).Done? && Forward(Adder(c), s, items[..k + 1]).Done?
    ensures var below, now := Forward(Adder(c), s, items[..k]).state, Forward(Adder(c), s, items[..k + 1]).state;
            && Backward(PopOne, Popping(Forward(Adder(c), s, items).state, out), Hashes(items))
               == Backward(PopOne, Popping(now, out + Reversed(Txs(items[k + 1..]))), Hashes(items[..k + 1]))
            && Newest(c, below, items[k], now)
  {
    PopListedBackTo(c, s, items, k + 1, out);
    ForwardAt(Adder(c), s, items, k);
    NewestAdded(c, Forward(Adder(c), s, items[..k]).state, items[k]);
  }

  lemma NewestTx(c: Crypto, s: Tables, item: Listed)
    requires AddOne(c, s, item).Done? && Supported(item.tx)
    ensures var s', filed := AddOne(c, s, item).state, FileOutputs(c, s.outs, item.tx, item.hash, Height(s));
            && filed.Done? && s'.outs == filed.state.tables
            && GetTx(s'.txs, item.hash) == Some(item.tx)
            && Greatest(s'.txs.txs, s'.txs.indices[item.hash].id)
            && s'.txs.indices[item.hash].id in s'.txs.outputs
            && s'.txs.outputs[s'.txs.indices[item.hash].id] == filed.state.issued
  {
    RecordedTables(c, s, item.tx, item.hash);
    RecordedIffSupported(c, s, item.tx, item.hash);
    assert Appendable(s.txs.txs, |s.txs.txs|);
  }

  /** The block tables with one more block. */
  function WithBlock(t: BlockTables, block: Block, info: BlockInfo): BlockTables {
    var height := |t.blocks|;
    BlockTables(t.blocks[height := block], t.info[height := info], t.heights[info.hash := height])
  }

  lemma RemovesTopRecord(t: BlockTables, block: Block, info: BlockInfo)
    requires |t.blocks| !in t.blocks && |t.blocks| !in t.info && info.hash !in t.heights
    ensures GetTopBlock(WithBlock(t, block, info)) == Done(WithBlock(t, block, info), block)
    ensures RemoveBlockRecord(WithBlock(t, block, info)) == Done(t, ())
  {
    var height := |t.blocks|;
    PutGrows(t.blocks, height, block);
    PutThenDelete(t.blocks, height, block);
    PutThenDelete(t.info, height, info);
    PutThenDelete(t.heights, info.hash, height);
  }

  lemma RemoveBlockRecordUndoesAdd(c: Crypto, t: BlockTables, e: Entry)
    requires AddBlockRecord(c, t, e).Done?
    ensures GetTopBlock(AddBlockRecord(c, t, e).state).Done?
    ensures GetTopBlock(AddBlockRecord(c, t, e).state).value == e.block
    ensures RemoveBlockRecord(AddBlockRecord(c, t, e).state) == Done(t, ())
  {
    assert AddBlockRecord(c, t, e).state == WithBlock(t, e.block, InfoOf(c, e));
    RemovesTopRecord(t, e.block, InfoOf(c, e));
  }

  function MinerOf(c: Crypto, e: Entry): Listed {
    Listed(c.txHash(e.block.minerTx), e.block.minerTx)
  }

  lemma ListedParts(e: Entry, k: nat)
    requires k <= |e.txs| == |e.block.txHashes|
    ensures Hashes(ListedOf(e)) == e.block.txHashes
    ensures Txs(ListedOf(e)[k..]) == e.txs[k..]
    ensures k == 0 ==> e.txs[k..] == e.txs
  {
  }

  /** A pop of the block just added starts by taking the block record back. */
  lemma PopStartsAtTxs(c: Crypto, s: Tables, e: Entry, out: seq<Transaction>)
    requires AddBlock(c, s, e).Done?
    ensures |e.block.txHashes| == |e.txs| && AddBlockTxs(c, s, e).Done?
    ensures PopBlock(c, Popping(AddBlock(c, s, e).state, out))
         == PopBlockTxs(c, Popping(AddBlockTxs(c, s, e).state, out), e.block)
  {
    var s' := AddBlockTxs(c, s, e).state;
    RemoveBlockRecordUndoesAdd(c, s'.blocks, e);
  }

  /** When the pop comes to the miner transaction, that transaction and its outputs are the newest. */
  lemma PopsMinerNewest(c: Crypto, s: Tables, e: Entry, out: seq<Transaction>)
    requires AddBlock(c, s, e).Done? && ReversibleEntry(e)
    ensures |e.block.txHashes| == |e.txs| && AddBlockTxs(c, s, e).Done? && AddOne(c, s, MinerOf(c, e)).Done?
    ensures var now := AddOne(c, s, MinerOf(c, e)).state;
            && Backward(PopOne, Popping(AddBlockTxs(c, s, e).state, out), e.block.txHashes)
               == Done(Popping(now, out + Reversed(e.txs)), ())
            && Newest(c, s, MinerOf(c, e), now)
  {
    PopStartsAtTxs(c, s, e, out);
    PopListedBackTo(c, AddOne(c, s, MinerOf(c, e)).state, ListedOf(e), 0, out);
    ListedParts(e, 0);
    NewestAdded(c, s, MinerOf(c, e));
  }

  /** `pop_block` is the exact inverse of `add_block`, and hands back what `add_block` was given. */
  lemma PopUndoesAdd(c: Crypto, s: Tables, e: Entry, out: seq<Transaction>)
    requires AddBlock(c, s, e).Done?
    requires ReversibleEntry(e)
    ensures PopBlock(c, Popping(AddBlock(c, s, e).state, out))
         == Done(Popping(s, out + Reversed(e.txs)), e.block)
  {
    PopStartsAtTxs(c, s, e, out);
    var items := ListedOf(e);
    PopListedBackTo(c, AddOne(c, s, MinerOf(c, e)).state, items, 0, out);
    ListedParts(e, 0);
    RemoveTransactionUndoesAdd(c, s, e.block.minerTx, c.txHash(e.block.minerTx));
  }
}
