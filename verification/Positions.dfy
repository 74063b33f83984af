/**
  Where things stand in the tables: tables without gaps, the entry of an output and the
  output of an entry in the tables of a chain, and tables that are part of others.
 */
module Positions {
  import opened CryptonoteTypes
  import opened Store
  import opened Ledger
  import opened Refinement

  // ------------------------------------------------------------- density

  ghost predicate Dense<V>(table: map<nat, V>) {
    forall k: nat :: k in table <==> k < |table|
  }

  lemma {:induction false} BelowSize(keys: set<nat>, n: nat)
    requires forall k | k in keys :: k < n
    ensures |keys| <= n && (|keys| == n ==> forall k: nat | k < n :: k in keys)
  {
    if n > 0 {
      BelowSize(keys - {n - 1}, n - 1);
    } else {
      assert keys == {};
    }
  }

  /** The next append is accepted exactly when the table has no gap. */
  lemma DenseIffAppendable<V>(table: map<nat, V>)
    ensures Dense(table) <==> Appendable(table, |table|)
  {
    if Appendable(table, |table|) {
      BelowSize(table.Keys, |table|);
      assert |table.Keys| == |table|;
    }
  }

  lemma TableDense<V>(xs: seq<V>)
    ensures Dense(Table(xs))
  {
    TableSize(xs);
  }

  // ------------------------------------------------------------- outputs

  /** Where an output stands in the table of its amount. */
  lemma {:induction false} EntryAt(outs: seq<OutRec>, g: nat)
    requires g < |outs|
    ensures var o := outs[g];
            var k := |Entries(outs[..g], o.amount)|;
            && k < |Entries(outs, o.amount)|
            && Entries(outs, o.amount)[k] == OutKey(g, o.key, o.unlockTime, o.height, o.commitment)
  {
    var n := |outs| - 1;
    if g < n {
      assert outs[..n][..g] == outs[..g];
      EntryAt(outs[..n], g);
    }
  }

  /** Which output an entry of an amount's table stands for. */
  lemma {:induction false} EntrySource(outs: seq<OutRec>, amount: nat, k: nat)
    requires k < |Entries(outs, amount)|
    ensures var g := Entries(outs, amount)[k].outputId;
            g < |outs| && outs[g].amount == amount && |Entries(outs[..g], amount)| == k
  {
    var n := |outs| - 1;
    if k < |Entries(outs[..n], amount)| {
      EntrySource(outs[..n], amount, k);
      var g := Entries(outs, amount)[k].outputId;
      assert outs[..n][..g] == outs[..g];
    }
  }

  lemma FindInverts<T>(xs: seq<T>, i: nat)
    requires NoDup(xs) && i < |xs|
    ensures Find(xs, xs[i]) == i
  {
  }

  /** Transaction `i` under its hash. */
  lemma RecIndexed(c: Crypto, recs: seq<TxRec>, i: nat)
    requires ValidRecs(recs) && i < |recs|
    ensures var t := IndexTxs(c, recs);
            && recs[i].hash in t.indices
            && t.indices[recs[i].hash] == TxData(i, recs[i].tx.unlockTime, recs[i].height)
            && i in t.txs && t.txs[i] == recs[i].tx
            && i in t.outputs && t.outputs[i] == Ranks(AllOuts(c, recs[..i]), OutRecs(c, recs[i]))
  {
    var hashes := RecHashes(recs);
    assert hashes[i] == recs[i].hash && hashes[i] in hashes;
    FindInverts(hashes, i);
  }

  /** The table entry and the back reference of the output at position `g`. */
  lemma EntryStored(outs: seq<OutRec>, g: nat)
    requires g < |outs|
    ensures var o, t := outs[g], IndexOuts(outs);
            var k := |Entries(outs[..g], o.amount)|;
            && k in TableOf(t, o.amount)
            && TableOf(t, o.amount)[k] == OutKey(g, o.key, o.unlockTime, o.height, o.commitment)
            && g in t.txs && t.txs[g] == OutTx(o.hash, o.local)
  {
    EntryAt(outs, g);
    TableOfIndex(outs, outs[g].amount);
  }

  // ------------------------------------------------------------ stability

  /** `small` is part of `large`. */
  ghost predicate Within<K(!new), V>(small: map<K, V>, large: map<K, V>) {
    forall k | k in small :: k in large && large[k] == small[k]
  }

  /** The outputs of `o` are all in `o'`, under the same ids and indices. */
  ghost predicate OutsWithin(o: OutputTables, o': OutputTables) {
    Within(o.txs, o'.txs) && forall amount :: Within(TableOf(o, amount), TableOf(o', amount))
  }

  /** Transactions, amount indices and outputs of `s` are all in `s'`, under the same ids and indices. */
  ghost predicate TablesWithin(s: Tables, s': Tables) {
    && Within(s.txs.txs, s'.txs.txs)
    && Within(s.txs.indices, s'.txs.indices)
    && Within(s.txs.outputs, s'.txs.outputs)
    && OutsWithin(s.outs, s'.outs)
  }
}
