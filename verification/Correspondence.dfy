/**
  Recorded outputs, entries of the amount tables and output ids correspond one to one.
  Adding a transaction always keeps this, and removing one keeps it if and only if its
  outputs are looked for where they were filed.
 */
module Correspondence {
  import opened CryptonoteTypes
  import opened Outcomes
  import opened Store
  import opened Reversal
  import opened Ledger
  import opened Refinement
  import opened Positions
  import opened LoggedRuns
  import opened HandedBack

  // -------------------------------------------------- what is to correspond

  /** The recorded transactions' outputs, named by transaction hash and position. */
  predicate HasOutput(t: TxTables, hash: Hash, j: nat) {
    GetTx(t, hash).Some? && j < |GetTx(t, hash).value.vout|
  }

  /** The index list of the transaction is as long as `vout` and gives `k` for position `j`. */
  predicate ListedAt(t: TxTables, hash: Hash, j: nat, k: nat)
    requires HasOutput(t, hash, j)
  {
    var id := t.indices[hash].id;
    id in t.outputs && |t.outputs[id]| == |t.txs[id].vout| && t.outputs[id][j] == k
  }

  /** Entry `k` under `amount` says what is to be stored for output `j` of `tx` and leads back to it. */
  predicate StoredAt(c: Crypto, o: OutputTables, hash: Hash, tx: Transaction, height: nat, j: nat, amount: nat, k: nat)
    requires j < |tx.vout|
  {
    && k in TableOf(o, amount)
    && var entry := TableOf(o, amount)[k];
    && entry.outputId in o.txs && o.txs[entry.outputId] == OutTx(hash, j)
    && tx.vout[j].target == TxOutToKey(entry.key)
    && entry.unlockTime == tx.unlockTime
    && entry.height == height
    && (Coinbase(tx) ==> amount == 0 && entry.commitment == c.zeroCommit(tx.vout[j].amount))
    && (!Coinbase(tx) ==> amount == tx.vout[j].amount && j < |tx.masks| && entry.commitment == tx.masks[j])
  }

  /** Output `j` of the transaction with this hash is entry `k` of the table of `amount`, and the entry leads back. */
  predicate Leads(c: Crypto, t: TxTables, o: OutputTables, hash: Hash, j: nat, amount: nat, k: nat) {
    && HasOutput(t, hash, j)
    && ListedAt(t, hash, j, k)
    && StoredAt(c, o, hash, GetTx(t, hash).value, t.indices[hash].height, j, amount, k)
  }

  /** The same, by an entry with this output id. */
  predicate LeadsBy(c: Crypto, t: TxTables, o: OutputTables, hash: Hash, j: nat, amount: nat, k: nat, id: nat) {
    Leads(c, t, o, hash, j, amount, k) && TableOf(o, amount)[k].outputId == id
  }

  /** Every recorded output is stored. */
  ghost predicate OutputsStored(c: Crypto, t: TxTables, o: OutputTables) {
    forall hash, j | HasOutput(t, hash, j) :: exists amount, k :: Leads(c, t, o, hash, j, amount, k)
  }

  /** Every entry of an amount's table stands for a recorded output. */
  ghost predicate EntriesOwned(c: Crypto, t: TxTables, o: OutputTables) {
    forall amount, k | k in TableOf(o, amount) :: exists hash, j :: Leads(c, t, o, hash, j, amount, k)
  }

  /** And so does every output id. */
  ghost predicate IdsOwned(c: Crypto, t: TxTables, o: OutputTables) {
    forall id | id in o.txs :: exists hash, j, amount, k :: LeadsBy(c, t, o, hash, j, amount, k, id)
  }

  ghost predicate Onto(c: Crypto, t: TxTables, o: OutputTables) {
    OutputsStored(c, t, o) && EntriesOwned(c, t, o) && IdsOwned(c, t, o)
  }

  /** No two outputs share an entry, and no output has two. */
  lemma LeadsUnique(c: Crypto, t: TxTables, o: OutputTables)
    ensures forall hash, j, amount, k, hash', j' |
              Leads(c, t, o, hash, j, amount, k) && Leads(c, t, o, hash', j', amount, k) :: hash == hash' && j == j'
    ensures forall hash, j, amount, k, amount', k' |
              Leads(c, t, o, hash, j, amount, k) && Leads(c, t, o, hash, j, amount', k') :: amount == amount' && k == k'
  {
  }

  // ---------------------------------------------------------------- filing

  /** The output is entry `k` of its amount, and the entry leads back to it. */
  predicate FiledAt(t: OutputTables, o: NewOut, k: nat) {
    && k in TableOf(t, o.out.amount)
    && var entry := TableOf(t, o.out.amount)[k];
    && entry.outputId in t.txs && t.txs[entry.outputId] == OutTx(o.hash, o.local)
    && o.out.target == TxOutToKey(entry.key)
    && entry.unlockTime == o.unlockTime && entry.height == o.height && entry.commitment == o.commitment
  }

  /** From `t` to `t'` one output was filed, as entry `index`, and nothing else happened. */
  ghost predicate OneFiled(t: OutputTables, t': OutputTables, o: NewOut, index: nat) {
    && OutsWithin(t, t') && FiledAt(t', o, index)
    && (forall amount, k | k in TableOf(t', amount) ::
          k in TableOf(t, amount) || (amount == o.out.amount && k == index))
    && (forall id | id in t'.txs :: id in t.txs || id == TableOf(t', o.out.amount)[index].outputId)
  }

  lemma AddOutputFiles(t: OutputTables, o: NewOut)
    requires AddOutput(t, o).Done?
    ensures OneFiled(t, AddOutput(t, o).state, o, AddOutput(t, o).value)
  {
  }

  /** Output `j` of those filed is entry `k` of `amount`. */
  predicate IsFiled(news: seq<Option<NewOut>>, issued: seq<nat>, j: nat, amount: nat, k: nat) {
    j < |news| && j < |issued| && news[j].Some? && news[j].value.out.amount == amount && issued[j] == k
  }

  /** All outputs are filed, under the indices issued to them. */
  ghost predicate AllAt(t: OutputTables, news: seq<Option<NewOut>>, issued: seq<nat>) {
    && |issued| == |news|
    && forall j | 0 <= j < |news| :: news[j].Some? && FiledAt(t, news[j].value, issued[j])
  }

  ghost predicate EntriesFiled(t: OutputTables, t': OutputTables, news: seq<Option<NewOut>>, issued: seq<nat>) {
    forall amount, k | k in TableOf(t', amount) ::
      k in TableOf(t, amount) || exists j :: IsFiled(news, issued, j, amount, k)
  }

  /** The id belongs to one of the outputs filed. */
  ghost predicate IdFiled(t: OutputTables, news: seq<Option<NewOut>>, issued: seq<nat>, id: nat) {
    exists j, amount, k ::
      IsFiled(news, issued, j, amount, k) && k in TableOf(t, amount) && TableOf(t, amount)[k].outputId == id
  }

  ghost predicate IdsFiled(t: OutputTables, t': OutputTables, news: seq<Option<NewOut>>, issued: seq<nat>) {
    forall id | id in t'.txs :: id in t.txs || IdFiled(t', news, issued, id)
  }

  /** From `t` to `t'` these outputs were filed, under these indices, and nothing else happened. */
  ghost predicate AllFiled(t: OutputTables, t': OutputTables, news: seq<Option<NewOut>>, issued: seq<nat>) {
    && OutsWithin(t, t') && AllAt(t', news, issued)
    && EntriesFiled(t, t', news, issued) && IdsFiled(t, t', news, issued)
  }

  lemma FiledStays(t: OutputTables, t': OutputTables, o: NewOut, k: nat)
    requires FiledAt(t, o, k) && OutsWithin(t, t')
    ensures FiledAt(t', o, k)
  {
  }

  lemma WithinTwice(t: OutputTables, t1: OutputTables, t2: OutputTables)
    requires OutsWithin(t, t1) && OutsWithin(t1, t2)
    ensures OutsWithin(t, t2)
  {
    forall amount ensures Within(TableOf(t, amount), TableOf(t2, amount)) {
      assert Within(TableOf(t, amount), TableOf(t1, amount)) && Within(TableOf(t1, amount), TableOf(t2, amount));
    }
  }

  lemma OneMoreAt(
      t1: OutputTables, t2: OutputTables, news: seq<Option<NewOut>>, issued: seq<nat>, o: NewOut, index: nat)
    requires AllAt(t1, news, issued) && OneFiled(t1, t2, o, index)
    ensures AllAt(t2, news + [Some(o)], issued + [index])
  {
    forall j | 0 <= j < |news| ensures FiledAt(t2, news[j].value, issued[j]) {
      FiledStays(t1, t2, news[j].value, issued[j]);
    }
  }

  lemma StillFiled(news: seq<Option<NewOut>>, issued: seq<nat>, o: NewOut, index: nat)
    requires |news| == |issued|
    ensures forall j, amount, k | IsFiled(news, issued, j, amount, k) ::
              IsFiled(news + [Some(o)], issued + [index], j, amount, k)
    ensures IsFiled(news + [Some(o)], issued + [index], |news|, o.out.amount, index)
  {
  }

  lemma OneMoreEntry(
      t: OutputTables, t1: OutputTables, t2: OutputTables, news: seq<Option<NewOut>>, issued: seq<nat>,
      o: NewOut, index: nat)
    requires |news| == |issued| && EntriesFiled(t, t1, news, issued) && OneFiled(t1, t2, o, index)
    ensures EntriesFiled(t, t2, news + [Some(o)], issued + [index])
  {
    StillFiled(news, issued, o, index);
  }

  lemma OneMoreId(
      t: OutputTables, t1: OutputTables, t2: OutputTables, news: seq<Option<NewOut>>, issued: seq<nat>,
      o: NewOut, index: nat)
    requires |news| == |issued| && IdsFiled(t, t1, news, issued) && OneFiled(t1, t2, o, index)
    ensures IdsFiled(t, t2, news + [Some(o)], issued + [index])
  {
    var news', issued' := news + [Some(o)], issued + [index];
    StillFiled(news, issued, o, index);
    forall id | id in t2.txs && id !in t.txs ensures IdFiled(t2, news', issued', id) {
      if id in t1.txs {
        var j, amount, k :| IsFiled(news, issued, j, amount, k) && k in TableOf(t1, amount)
                            && TableOf(t1, amount)[k].outputId == id;
        assert Within(TableOf(t1, amount), TableOf(t2, amount));
        assert IsFiled(news', issued', j, amount, k);
      } else {
        assert IsFiled(news', issued', |news|, o.out.amount, index);
      }
    }
  }

  /** Every round files one output. */
  ghost predicate FilesOne(file: Step<Filing, Option<NewOut>>) {
    forall f, o | file(f, o).Done? :: o.Some? && FiledNext(f, o.value, file(f, o).state)
  }

  ghost predicate FiledNext(f: Filing, o: NewOut, f': Filing) {
    |f'.issued| == |f.issued| + 1 && f'.issued[..|f.issued|] == f.issued
    && OneFiled(f.tables, f'.tables, o, f'.issued[|f.issued|])
  }

  lemma {:induction false} LoopFiles(file: Step<Filing, Option<NewOut>>, t: OutputTables, news: seq<Option<NewOut>>)
    requires FilesOne(file) && Forward(file, Filing(t, []), news).Done?
    ensures var f := Forward(file, Filing(t, []), news).state;
            AllFiled(t, f.tables, news, f.issued)
  {
    if news != [] {
      var front, last := news[..|news| - 1], news[|news| - 1];
      LoopFiles(file, t, front);
      var f, f' := Forward(file, Filing(t, []), front).state, Forward(file, Filing(t, []), news).state;
      SplitLast(news);
      LoopFilesNext(t, f, f', front, last.value);
    }
  }

  lemma LoopFilesNext(t: OutputTables, f: Filing, f': Filing, news: seq<Option<NewOut>>, o: NewOut)
    requires AllFiled(t, f.tables, news, f.issued) && FiledNext(f, o, f')
    ensures AllFiled(t, f'.tables, news + [Some(o)], f'.issued)
  {
    var index := f'.issued[|f.issued|];
    assert f'.issued == f.issued + [index];
    WithinTwice(t, f.tables, f'.tables);
    OneMoreAt(f.tables, f'.tables, news, f.issued, o, index);
    OneMoreEntry(t, f.tables, f'.tables, news, f.issued, o, index);
    OneMoreId(t, f.tables, f'.tables, news, f.issued, o, index);
  }

  lemma FileOneFiles()
    ensures FilesOne(FileOne)
  {
    forall f, o | FileOne(f, o).Done? ensures o.Some? && FiledNext(f, o.value, FileOne(f, o).state) {
      AddOutputFiles(f.tables, o.value);
    }
  }

  /** The output loop of `add_transaction` files each output and nothing else, whatever the tables. */
  lemma FileOutputsFiles(c: Crypto, t: OutputTables, tx: Transaction, hash: Hash, height: nat)
    requires FileOutputs(c, t, tx, hash, height).Done?
    ensures var f := FileOutputs(c, t, tx, hash, height).state;
            AllFiled(t, f.tables, NewOuts(c, tx, hash, height), f.issued)
  {
    FileOneFiles();
    LoopFiles(FileOne, t, NewOuts(c, tx, hash, height));
  }

  // ---------------------------------------------------------------- adding

  /** Where an output is stored does not change while nothing is taken out of the tables. */
  lemma LeadsStay(c: Crypto, s: Tables, s': Tables, hash: Hash, j: nat, amount: nat, k: nat)
    requires TablesWithin(s, s') && Leads(c, s.txs, s.outs, hash, j, amount, k)
    ensures Leads(c, s'.txs, s'.outs, hash, j, amount, k) && TableOf(s'.outs, amount)[k] == TableOf(s.outs, amount)[k]
  {
    assert Within(TableOf(s.outs, amount), TableOf(s'.outs, amount));
  }

  /** Every output of `r` is stored under the index issued to it. */
  ghost predicate Led(c: Crypto, t: TxTables, o: OutputTables, r: TxRec, issued: seq<nat>) {
    && |issued| == |r.tx.vout|
    && forall j | 0 <= j < |r.tx.vout| :: Leads(c, t, o, r.hash, j, StoredAmount(r.tx, j), issued[j])
  }

  lemma FiledIsLed(c: Crypto, s: Tables, r: TxRec, id: nat, issued: seq<nat>)
    requires r.hash in s.txs.indices && s.txs.indices[r.hash] == TxData(id, r.tx.unlockTime, r.height)
    requires id in s.txs.txs && s.txs.txs[id] == r.tx && id in s.txs.outputs && s.txs.outputs[id] == issued
    requires AllAt(s.outs, NewOuts(c, r.tx, r.hash, r.height), issued)
    ensures Led(c, s.txs, s.outs, r, issued)
  {
    var news := NewOuts(c, r.tx, r.hash, r.height);
    CoinbaseHasGen(r.tx);
    forall j | 0 <= j < |r.tx.vout| ensures Leads(c, s.txs, s.outs, r.hash, j, StoredAmount(r.tx, j), issued[j]) {
      assert news[j].Some? && FiledAt(s.outs, news[j].value, issued[j]);
    }
  }

  /** From `s` to `s'` the transaction `r` was recorded, and nothing else happened to transactions and outputs. */
  ghost predicate Records(c: Crypto, s: Tables, r: TxRec, issued: seq<nat>, s': Tables) {
    && TablesWithin(s, s') && Led(c, s'.txs, s'.outs, r, issued)
    && (forall hash | hash in s'.txs.indices :: hash in s.txs.indices || hash == r.hash)
    && EntriesFiled(s.outs, s'.outs, NewOuts(c, r.tx, r.hash, r.height), issued)
    && IdsFiled(s.outs, s'.outs, NewOuts(c, r.tx, r.hash, r.height), issued)
  }

  lemma AddRecords(c: Crypto, s: Tables, item: Listed)
    requires AddOne(c, s, item).Done? && Supported(item.tx)
    ensures var issued := FileOutputs(c, s.outs, item.tx, item.hash, Height(s)).state.issued;
            Records(c, s, TxRec(item.hash, item.tx, Height(s)), issued, AddOne(c, s, item).state)
  {
    var s', f := AddOne(c, s, item).state, FileOutputs(c, s.outs, item.tx, item.hash, Height(s)).state;
    RecordedTables(c, s, item.tx, item.hash);
    FileOutputsFiles(c, s.outs, item.tx, item.hash, Height(s));
    FiledIsLed(c, s', TxRec(item.hash, item.tx, Height(s)), |s.txs.txs|, f.issued);
  }

  lemma OutputLeads(c: Crypto, s: Tables, r: TxRec, issued: seq<nat>, s': Tables, hash: Hash, j: nat)
    requires Orderly(s.txs) && OutputsStored(c, s.txs, s.outs)
    requires Records(c, s, r, issued, s') && HasOutput(s'.txs, hash, j)
    requires hash != r.hash
    ensures exists amount, k :: Leads(c, s'.txs, s'.outs, hash, j, amount, k)
  {
    assert HasOutput(s.txs, hash, j);
    var amount, k :| Leads(c, s.txs, s.outs, hash, j, amount, k);
    LeadsStay(c, s, s', hash, j, amount, k);
  }

  lemma FiledLeads(c: Crypto, s: Tables, r: TxRec, issued: seq<nat>, j: nat, amount: nat, k: nat)
    requires Led(c, s.txs, s.outs, r, issued) && IsFiled(NewOuts(c, r.tx, r.hash, r.height), issued, j, amount, k)
    ensures Leads(c, s.txs, s.outs, r.hash, j, amount, k)
  {
    assert Leads(c, s.txs, s.outs, r.hash, j, StoredAmount(r.tx, j), issued[j]);
  }

  lemma EntryLeads(c: Crypto, s: Tables, r: TxRec, issued: seq<nat>, s': Tables, amount: nat, k: nat)
    requires EntriesOwned(c, s.txs, s.outs) && Records(c, s, r, issued, s') && k in TableOf(s'.outs, amount)
    ensures exists hash, j :: Leads(c, s'.txs, s'.outs, hash, j, amount, k)
  {
    if k in TableOf(s.outs, amount) {
      var hash, j :| Leads(c, s.txs, s.outs, hash, j, amount, k);
      LeadsStay(c, s, s', hash, j, amount, k);
    } else {
      var j :| IsFiled(NewOuts(c, r.tx, r.hash, r.height), issued, j, amount, k);
      FiledLeads(c, s', r, issued, j, amount, k);
    }
  }

  lemma IdLeads(c: Crypto, s: Tables, r: TxRec, issued: seq<nat>, s': Tables, id: nat)
    requires IdsOwned(c, s.txs, s.outs) && Records(c, s, r, issued, s') && id in s'.outs.txs
    ensures exists hash, j, amount, k :: LeadsBy(c, s'.txs, s'.outs, hash, j, amount, k, id)
  {
    if id in s.outs.txs {
      var hash, j, amount, k :| LeadsBy(c, s.txs, s.outs, hash, j, amount, k, id);
      LeadsStay(c, s, s', hash, j, amount, k);
      assert LeadsBy(c, s'.txs, s'.outs, hash, j, amount, k, id);
    } else {
      FiledIdLeads(c, s', r, issued, id);
    }
  }

  lemma FiledIdLeads(c: Crypto, s: Tables, r: TxRec, issued: seq<nat>, id: nat)
    requires Led(c, s.txs, s.outs, r, issued) && IdFiled(s.outs, NewOuts(c, r.tx, r.hash, r.height), issued, id)
    ensures exists hash, j, amount, k :: LeadsBy(c, s.txs, s.outs, hash, j, amount, k, id)
  {
    var j, amount, k :| IsFiled(NewOuts(c, r.tx, r.hash, r.height), issued, j, amount, k)
                        && k in TableOf(s.outs, amount) && TableOf(s.outs, amount)[k].outputId == id;
    FiledLeads(c, s, r, issued, j, amount, k);
    assert LeadsBy(c, s.txs, s.outs, r.hash, j, amount, k, id);
  }

  lemma RecordsOnto(c: Crypto, s: Tables, r: TxRec, issued: seq<nat>, s': Tables)
    requires Orderly(s.txs) && Onto(c, s.txs, s.outs) && Records(c, s, r, issued, s')
    requires GetTx(s'.txs, r.hash) == Some(r.tx)
    ensures Onto(c, s'.txs, s'.outs)
  {
    forall hash, j: nat | HasOutput(s'.txs, hash, j)
      ensures exists amount, k :: Leads(c, s'.txs, s'.outs, hash, j, amount, k)
    {
      if hash == r.hash {
        assert Leads(c, s'.txs, s'.outs, r.hash, j, StoredAmount(r.tx, j), issued[j]);
      } else {
        OutputLeads(c, s, r, issued, s', hash, j);
      }
    }
    forall amount, k | k in TableOf(s'.outs, amount)
      ensures exists hash, j :: Leads(c, s'.txs, s'.outs, hash, j, amount, k)
    {
      EntryLeads(c, s, r, issued, s', amount, k);
    }
    forall id | id in s'.outs.txs
      ensures exists hash, j, amount, k :: LeadsBy(c, s'.txs, s'.outs, hash, j, amount, k, id)
    {
      IdLeads(c, s, r, issued, s', id);
    }
  }

  /** A completed `add_transaction` keeps the correspondence, misfiled outputs and given-up transactions included. */
  lemma AddKeepsOnto(c: Crypto, s: Tables, item: Listed)
    requires Orderly(s.txs) && Onto(c, s.txs, s.outs) && AddOne(c, s, item).Done?
    ensures var s' := AddOne(c, s, item).state;
            Onto(c, s'.txs, s'.outs)
  {
    var s' := AddOne(c, s, item).state;
    RecordedIffSupported(c, s, item.tx, item.hash);
    if Supported(item.tx) {
      var issued := FileOutputs(c, s.outs, item.tx, item.hash, Height(s)).state.issued;
      AddRecords(c, s, item);
      AddOneComesIn(c, s, item);
      RecordsOnto(c, s, TxRec(item.hash, item.tx, Height(s)), issued, s');
    }
  }

  // -------------------------------------------------------------- clearing

  /** The id belongs to the entry in one of the slots. */
  ghost predicate IdIn(t: OutputTables, slots: seq<Slot>, id: nat) {
    exists slot | slot in slots :: Holds(t, slot, id)
  }

  predicate Holds(t: OutputTables, slot: Slot, id: nat) {
    && slot.index.Some? && slot.index.value in TableOf(t, slot.amount)
    && TableOf(t, slot.amount)[slot.index.value].outputId == id
  }

  /** From `t` to `t'` the entries in the slots and their ids went, and nothing else. */
  ghost predicate Cleared(t: OutputTables, t': OutputTables, slots: seq<Slot>) {
    && OutsWithin(t', t)
    && (forall amount, k | k in TableOf(t, amount) :: k in TableOf(t', amount) <==> Slot(amount, Some(k)) !in slots)
    && (forall id | id in t.txs :: id in t'.txs <==> !IdIn(t, slots, id))
  }

  lemma ClearSlotClears(t: OutputTables, slot: Slot)
    requires ClearSlot(t, slot).Done?
    ensures Cleared(t, ClearSlot(t, slot).state, [slot])
  {
    var t' := ClearSlot(t, slot).state;
    assert forall id :: IdIn(t, [slot], id) <==> Holds(t, slot, id);
  }

  lemma ClearedTwice(t: OutputTables, t1: OutputTables, t2: OutputTables, front: seq<Slot>, slot: Slot)
    requires Cleared(t, t1, [slot]) && Cleared(t1, t2, front)
    ensures Cleared(t, t2, front + [slot])
  {
    WithinTwice(t2, t1, t);
    forall amount, k | k in TableOf(t, amount)
      ensures k in TableOf(t2, amount) <==> Slot(amount, Some(k)) !in front + [slot]
    {
      assert Within(TableOf(t2, amount), TableOf(t1, amount));
    }
    forall id | id in t.txs ensures id in t2.txs <==> !IdIn(t, front + [slot], id) {
      IdsInTwice(t, t1, front, slot, id);
    }
  }

  lemma IdsInTwice(t: OutputTables, t1: OutputTables, front: seq<Slot>, slot: Slot, id: nat)
    requires Cleared(t, t1, [slot])
    ensures IdIn(t, front + [slot], id) <==> IdIn(t, [slot], id) || IdIn(t1, front, id)
  {
    if IdIn(t, front + [slot], id) {
      var other :| other in front + [slot] && Holds(t, other, id);
      if other != slot {
        assert Holds(t1, other, id);
      }
    }
    if IdIn(t1, front, id) {
      var other :| other in front && Holds(t1, other, id);
      assert Within(TableOf(t1, other.amount), TableOf(t, other.amount));
      assert Holds(t, other, id);
    }
    if IdIn(t, [slot], id) {
      assert Holds(t, slot, id);
    }
  }

  lemma {:induction false} LoopClears(clear: Step<OutputTables, Slot>, t: OutputTables, slots: seq<Slot>)
    requires forall t, slot | clear(t, slot).Done? :: Cleared(t, clear(t, slot).state, [slot])
    requires Backward(clear, t, slots).Done?
    ensures Cleared(t, Backward(clear, t, slots).state, slots)
    decreases |slots|
  {
    if slots == [] {
      assert forall id :: !IdIn(t, slots, id);
    } else {
      var front, last := slots[..|slots| - 1], slots[|slots| - 1];
      LoopClears(clear, clear(t, last).state, front);
      SplitLast(slots);
      ClearedTwice(t, clear(t, last).state, Backward(clear, t, slots).state, front, last);
    }
  }

  /** The backend's output loop clears its slots and nothing else, whatever the tables. */
  lemma ClearSlotsClear(t: OutputTables, slots: seq<Slot>)
    requires Backward(ClearSlot, t, slots).Done?
    ensures Cleared(t, Backward(ClearSlot, t, slots).state, slots)
  {
    forall t, slot | ClearSlot(t, slot).Done? ensures Cleared(t, ClearSlot(t, slot).state, [slot]) {
      ClearSlotClears(t, slot);
    }
    LoopClears(ClearSlot, t, slots);
  }

  // -------------------------------------------------------------- removing

  /** Each slot holds an output of the transaction with this hash. */
  ghost predicate Owned(c: Crypto, t: TxTables, o: OutputTables, hash: Hash, slots: seq<Slot>) {
    forall slot | slot in slots ::
      slot.index.Some? && exists j :: Leads(c, t, o, hash, j, slot.amount, slot.index.value)
  }

  /** The tables hold `tx` under this hash, with these indices. */
  predicate Has(t: TxTables, hash: Hash, tx: Transaction, issued: seq<nat>) {
    GetTx(t, hash) == Some(tx) && t.indices[hash].id in t.outputs && t.outputs[t.indices[hash].id] == issued
  }

  /** Every output of a recorded transaction is stored under the index issued to it. */
  lemma IssuedLead(c: Crypto, t: TxTables, o: OutputTables, hash: Hash, tx: Transaction, issued: seq<nat>, j: nat)
    requires OutputsStored(c, t, o) && Has(t, hash, tx, issued) && j < |tx.vout|
    ensures |issued| == |tx.vout| && Leads(c, t, o, hash, j, StoredAmount(tx, j), issued[j])
  {
    assert HasOutput(t, hash, j);
    var amount, k :| Leads(c, t, o, hash, j, amount, k);
    CoinbaseHasGen(tx);
  }

  lemma SlotOf(tx: Transaction, issued: seq<nat>, slot: Slot) returns (j: nat)
    requires slot in Slots(tx, issued) && Coherent(tx)
    ensures j < |tx.vout| && (j < |issued| ==> slot == Slot(StoredAmount(tx, j), Some(issued[j])))
  {
    CoherentAmounts(tx);
    j :| 0 <= j < |tx.vout| && Slots(tx, issued)[j] == slot;
  }

  lemma SlotsOwned(c: Crypto, t: TxTables, o: OutputTables, hash: Hash, tx: Transaction, issued: seq<nat>)
    requires OutputsStored(c, t, o) && Has(t, hash, tx, issued) && Coherent(tx)
    ensures Owned(c, t, o, hash, Slots(tx, issued))
  {
    forall slot | slot in Slots(tx, issued)
      ensures slot.index.Some? && exists j :: Leads(c, t, o, hash, j, slot.amount, slot.index.value)
    {
      var j := SlotOf(tx, issued, slot);
      IssuedLead(c, t, o, hash, tx, issued, j);
    }
  }

  /** What is stored for the transaction is in its slots. */
  lemma OwnInSlots(
      c: Crypto, t: TxTables, o: OutputTables, hash: Hash, tx: Transaction, issued: seq<nat>,
      j: nat, amount: nat, k: nat)
    requires Has(t, hash, tx, issued) && Coherent(tx) && Leads(c, t, o, hash, j, amount, k)
    ensures Slot(amount, Some(k)) in Slots(tx, issued)
    ensures IdIn(o, Slots(tx, issued), TableOf(o, amount)[k].outputId)
  {
    CoherentAmounts(tx);
    CoinbaseHasGen(tx);
    assert Slots(tx, issued)[j] == Slot(amount, Some(k));
    assert Holds(o, Slot(amount, Some(k)), TableOf(o, amount)[k].outputId);
  }

  /** What is stored for another transaction is in none of the slots. */
  lemma OthersKept(
      c: Crypto, t: TxTables, o: OutputTables, hash: Hash, slots: seq<Slot>, other: Hash, i: nat, amount: nat, k: nat)
    requires Owned(c, t, o, hash, slots) && Leads(c, t, o, other, i, amount, k) && other != hash
    ensures Slot(amount, Some(k)) !in slots
    ensures !IdIn(o, slots, TableOf(o, amount)[k].outputId)
  {
  }

  lemma OthersLead(
      c: Crypto, t: TxTables, o: OutputTables, hash: Hash, t': TxTables, o': OutputTables,
      other: Hash, i: nat, amount: nat, k: nat)
    requires Orderly(t) && hash in t.indices && t' == Without(t, t.indices[hash].id, hash)
    requires OutsWithin(o', o) && Leads(c, t, o, other, i, amount, k) && other != hash
    requires k in TableOf(o', amount) && TableOf(o, amount)[k].outputId in o'.txs
    ensures Leads(c, t', o', other, i, amount, k) && TableOf(o', amount)[k] == TableOf(o, amount)[k]
  {
    assert Within(TableOf(o', amount), TableOf(o, amount));
    assert t.indices[other].id != t.indices[hash].id;
  }

  /** From `t` and `o` the transaction with this hash went, and its slots were cleared. */
  ghost predicate Removes(
      t: TxTables, o: OutputTables, hash: Hash, tx: Transaction, issued: seq<nat>, t': TxTables, o': OutputTables) {
    && Has(t, hash, tx, issued)
    && t' == Without(t, t.indices[hash].id, hash)
    && Cleared(o, o', Slots(tx, issued))
  }

  lemma RemoveRemoves(s: Tables, hash: Hash, s': Tables) returns (tx: Transaction, issued: seq<nat>)
    requires RemoveTransaction(s, hash).Done? && s' == RemoveTransaction(s, hash).state
    ensures GetTx(s.txs, hash) == Some(tx) && Removes(s.txs, s.outs, hash, tx, issued, s'.txs, s'.outs)
  {
    tx := GetTx(s.txs, hash).value;
    issued := s.txs.outputs[s.txs.indices[hash].id];
    ClearSlotsClear(s.outs, Slots(tx, issued));
  }

  /** Of the outputs of other transactions nothing changes. */
  lemma OtherStays(
      c: Crypto, t: TxTables, o: OutputTables, hash: Hash, tx: Transaction, issued: seq<nat>,
      t': TxTables, o': OutputTables, other: Hash, i: nat, amount: nat, k: nat)
    requires Orderly(t) && Removes(t, o, hash, tx, issued, t', o') && Owned(c, t, o, hash, Slots(tx, issued))
    requires Leads(c, t, o, other, i, amount, k) && other != hash
    ensures Leads(c, t', o', other, i, amount, k) && TableOf(o', amount)[k] == TableOf(o, amount)[k]
  {
    OthersKept(c, t, o, hash, Slots(tx, issued), other, i, amount, k);
    OthersLead(c, t, o, hash, t', o', other, i, amount, k);
  }

  lemma OutputStays(
      c: Crypto, t: TxTables, o: OutputTables, hash: Hash, tx: Transaction, issued: seq<nat>,
      t': TxTables, o': OutputTables, other: Hash, i: nat)
    requires Orderly(t) && OutputsStored(c, t, o) && Removes(t, o, hash, tx, issued, t', o')
    requires Owned(c, t, o, hash, Slots(tx, issued)) && HasOutput(t', other, i)
    ensures exists amount, k :: Leads(c, t', o', other, i, amount, k)
  {
    assert HasOutput(t, other, i);
    var amount, k :| Leads(c, t, o, other, i, amount, k);
    OtherStays(c, t, o, hash, tx, issued, t', o', other, i, amount, k);
  }

  lemma EntryStays(
      c: Crypto, t: TxTables, o: OutputTables, hash: Hash, tx: Transaction, issued: seq<nat>,
      t': TxTables, o': OutputTables, amount: nat, k: nat)
    requires Orderly(t) && EntriesOwned(c, t, o) && Removes(t, o, hash, tx, issued, t', o')
    requires Coherent(tx) && Owned(c, t, o, hash, Slots(tx, issued)) && k in TableOf(o', amount)
    ensures exists other, i :: Leads(c, t', o', other, i, amount, k)
  {
    assert Within(TableOf(o', amount), TableOf(o, amount));
    var other, i :| Leads(c, t, o, other, i, amount, k);
    if other == hash {
      OwnInSlots(c, t, o, hash, tx, issued, i, amount, k);
    }
    OtherStays(c, t, o, hash, tx, issued, t', o', other, i, amount, k);
  }

  lemma IdStays(
      c: Crypto, t: TxTables, o: OutputTables, hash: Hash, tx: Transaction, issued: seq<nat>,
      t': TxTables, o': OutputTables, id: nat)
    requires Orderly(t) && IdsOwned(c, t, o) && Removes(t, o, hash, tx, issued, t', o')
    requires Coherent(tx) && Owned(c, t, o, hash, Slots(tx, issued)) && id in o'.txs
    ensures exists other, i, amount, k :: LeadsBy(c, t', o', other, i, amount, k, id)
  {
    var other, i, amount, k :| LeadsBy(c, t, o, other, i, amount, k, id);
    if other == hash {
      OwnInSlots(c, t, o, hash, tx, issued, i, amount, k);
    }
    OtherStays(c, t, o, hash, tx, issued, t', o', other, i, amount, k);
    assert LeadsBy(c, t', o', other, i, amount, k, id);
  }

  lemma RemovedIsOnto(
      c: Crypto, t: TxTables, o: OutputTables, hash: Hash, tx: Transaction, issued: seq<nat>,
      t': TxTables, o': OutputTables)
    requires Orderly(t) && Onto(c, t, o) && Removes(t, o, hash, tx, issued, t', o') && Coherent(tx)
    ensures Onto(c, t', o')
  {
    SlotsOwned(c, t, o, hash, tx, issued);
    forall other, i | HasOutput(t', other, i) ensures exists amount, k :: Leads(c, t', o', other, i, amount, k) {
      OutputStays(c, t, o, hash, tx, issued, t', o', other, i);
    }
    forall amount, k | k in TableOf(o', amount) ensures exists other, i :: Leads(c, t', o', other, i, amount, k) {
      EntryStays(c, t, o, hash, tx, issued, t', o', amount, k);
    }
    forall id | id in o'.txs ensures exists other, i, amount, k :: LeadsBy(c, t', o', other, i, amount, k, id) {
      IdStays(c, t, o, hash, tx, issued, t', o', id);
    }
  }

  lemma MisfiledAt(tx: Transaction) returns (j: nat)
    requires !Coherent(tx)
    ensures j < |tx.vout| && RemovalAmount(tx, j) != 0 && forall i | 0 <= i < |tx.vout| :: StoredAmount(tx, i) == 0
  {
    j :| 0 <= j < |tx.vout| && tx.vout[j].amount != 0;
  }

  /** An output of a misfiled transaction that is not in any of its slots. */
  lemma MissedOutput(c: Crypto, t: TxTables, o: OutputTables, hash: Hash, tx: Transaction, issued: seq<nat>)
    returns (j: nat)
    requires OutputsStored(c, t, o) && Has(t, hash, tx, issued) && !Coherent(tx)
    ensures j < |tx.vout| == |issued| && Leads(c, t, o, hash, j, 0, issued[j])
    ensures Slot(0, Some(issued[j])) !in Slots(tx, issued)
  {
    j := MisfiledAt(tx);
    IssuedLead(c, t, o, hash, tx, issued, j);
    if Slot(0, Some(issued[j])) in Slots(tx, issued) {
      var i :| 0 <= i < |tx.vout| && Slots(tx, issued)[i] == Slot(0, Some(issued[j]));
      IssuedLead(c, t, o, hash, tx, issued, i);
    }
  }

  /** Removing a misfiled transaction leaves an entry behind that belongs to no recorded one. */
  lemma MisfiledStays(
      c: Crypto, t: TxTables, o: OutputTables, hash: Hash, tx: Transaction, issued: seq<nat>,
      t': TxTables, o': OutputTables)
    requires OutputsStored(c, t, o) && Removes(t, o, hash, tx, issued, t', o') && !Coherent(tx)
    ensures !EntriesOwned(c, t', o')
  {
    var j := MissedOutput(c, t, o, hash, tx, issued);
    OrphanAt(c, t, o, hash, j, issued[j], t', o');
  }

  lemma OrphanAt(
      c: Crypto, t: TxTables, o: OutputTables, hash: Hash, j: nat, k: nat, t': TxTables, o': OutputTables)
    requires Leads(c, t, o, hash, j, 0, k) && OutsWithin(o', o) && k in TableOf(o', 0) && hash !in t'.indices
    ensures !EntriesOwned(c, t', o')
  {
    assert Within(TableOf(o', 0), TableOf(o, 0));
    forall other, i ensures !Leads(c, t', o', other, i, 0, k) {
    }
  }

  /**
    A completed `remove_transaction` keeps the correspondence if and only if the outputs of
    the transaction are looked for where they were filed.
   */
  lemma RemoveKeepsOntoIff(c: Crypto, s: Tables, hash: Hash)
    requires Orderly(s.txs) && Onto(c, s.txs, s.outs) && RemoveTransaction(s, hash).Done?
    ensures GetTx(s.txs, hash).Some?
    ensures var s' := RemoveTransaction(s, hash).state;
            Onto(c, s'.txs, s'.outs) <==> Coherent(GetTx(s.txs, hash).value)
  {
    var s' := RemoveTransaction(s, hash).state;
    var tx, issued := RemoveRemoves(s, hash, s');
    if Coherent(tx) {
      RemovedIsOnto(c, s.txs, s.outs, hash, tx, issued, s'.txs, s'.outs);
    } else {
      MisfiledStays(c, s.txs, s.outs, hash, tx, issued, s'.txs, s'.outs);
    }
  }
}
