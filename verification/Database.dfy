/**
  `BlockchainDB` over the LMDB tables, as an object whose methods update the
  tables in place. Each method is proved to do what its namesake in `Store` says,
  on every path, the exceptional ones included.
 */
module Database {
  import opened CryptonoteTypes
  import opened Outcomes
  import S = Store

  /** How a call ended: normally, or with an exception. */
  datatype Status = Ok | Thrown(error: Error)

  /** The outcome of a specification function, seen as a state and a status. */
  ghost predicate Ends<T, R>(outcome: Outcome<T, R>, state: T, status: Status) {
    outcome.state == state && status == StatusOf(outcome)
  }

  function StatusOf<T, R>(outcome: Outcome<T, R>): Status {
    if outcome.Done? then Ok else Thrown(outcome.error)
  }

  class BlockchainDB {
    const crypto: Crypto
    var blocks: S.BlockTables
    var txs: S.TxTables
    var outs: S.OutputTables
    var spent: set<KeyImage>

    function Tables(): S.Tables
      reads this
    {
      S.Tables(blocks, txs, outs, spent)
    }

    constructor (crypto: Crypto)
      ensures this.crypto == crypto && Tables() == S.EMPTY
    {
      this.crypto := crypto;
      blocks, txs, outs, spent := S.EMPTY.blocks, S.EMPTY.txs, S.EMPTY.outs, S.EMPTY.spent;
    }

    method AddSpentKey(image: KeyImage) returns (status: Status)
      modifies this`spent
      ensures status.Ok? <==> image !in old(spent)
      ensures spent == old(spent) + {image}
      ensures status.Thrown? ==> status.error == KeyImageExists
    {
      if image in spent {
        return Thrown(KeyImageExists);
      }
      spent := spent + {image};
      return Ok;
    }

    method RemoveSpentKey(image: KeyImage)
      modifies this`spent
      ensures spent == old(spent) - {image}
    {
      spent := spent - {image};
    }

    /** The loop over `vin` that takes every `txin_to_key` image out of the spent set. */
    method RemoveSpentKeys(vin: seq<TxIn>)
      modifies this`spent
      ensures spent == old(spent) - Images(vin)
    {
      for i := 0 to |vin|
        invariant spent == old(spent) - Images(vin[..i])
      {
        assert vin[..i + 1][..i] == vin[..i];
        if vin[i].TxInToKey? {
          RemoveSpentKey(vin[i].image);
        }
      }
      assert vin[..|vin|] == vin;
    }

    /** One round of the loop over `vout`. */
    method AddOutput(tx: Transaction, hash: Hash, minerTx: bool, i: nat, issued: seq<nat>)
      returns (status: Status, issued': seq<nat>)
      requires i < |tx.vout| && (minerTx <==> HasGen(tx.vin))
      modifies this`outs
      ensures Ends(
                S.FileOne(S.Filing(old(outs), issued), S.NewOutOf(crypto, tx, hash, S.Height(Tables()), i)),
                S.Filing(outs, issued'), status)
    {
      if !minerTx && i >= |tx.masks| {
        return Thrown(Undefined), issued;
      }
      var out, commitment := tx.vout[i], crypto.zeroCommit(tx.vout[i].amount);
      if minerTx {
        out := out.(amount := 0);
      } else {
        commitment := tx.masks[i];
      }
      var r := S.AddOutput(outs, S.NewOut(hash, out, i, tx.unlockTime, S.Height(Tables()), commitment));
      outs := r.state;
      return StatusOf(r), if r.Done? then issued + [r.value] else issued;
    }

    /** The loop over `vout`, which collects the amount indices. */
    method AddOutputs(tx: Transaction, hash: Hash, minerTx: bool) returns (status: Status, issued: seq<nat>)
      requires minerTx <==> HasGen(tx.vin)
      modifies this`outs
      ensures Ends(S.FileOutputs(crypto, old(outs), tx, hash, S.Height(Tables())), S.Filing(outs, issued), status)
    {
      issued := [];
      ghost var start, news := S.Filing(outs, []), S.NewOuts(crypto, tx, hash, S.Height(Tables()));
      for i := 0 to |tx.vout|
        invariant Forward(S.FileOne, start, news[..i]) == Done(S.Filing(outs, issued), ())
      {
        ForwardNext(S.FileOne, start, news, i, S.Filing(outs, issued));
        status, issued := AddOutput(tx, hash, minerTx, i, issued);
        if status.Thrown? {
          return;
        }
      }
      assert news[..|news|] == news;
      status := Ok;
    }

    method AddTransaction(tx: Transaction, txHash: Option<Hash>) returns (status: Status, recorded: bool)
      modifies this`txs, this`outs, this`spent
      ensures var hash := if txHash.Some? then txHash.value else crypto.txHash(tx);
              && Ends(S.AddTransaction(crypto, old(Tables()), tx, hash), Tables(), status)
              && (status.Ok? ==> recorded == S.AddTransaction(crypto, old(Tables()), tx, hash).value)
    {
      var minerTx := false;
      var hash := match txHash case None => crypto.txHash(tx) case Some(h) => h;
      recorded := false;
      for i := 0 to |tx.vin|
        invariant txs == old(txs) && outs == old(outs)
        invariant S.ScanInputs(old(spent), tx.vin, 0) == S.ScanInputs(spent, tx.vin, i)
        invariant minerTx <==> exists k | 0 <= k < i :: tx.vin[k].TxInGen?
      {
        match tx.vin[i] {
          case TxInToKey(_, _, image) =>
            status := AddSpentKey(image);
            if status.Thrown? {
              return;
            }
          case TxInGen(_) =>
            minerTx := true;
          case _ =>
            RemoveSpentKeys(tx.vin);
            return Ok, false;
        }
      }
      status := RecordTransaction(tx, hash, minerTx);
      recorded := true;
    }

    /** The rest of `add_transaction`, after the input loop. */
    method RecordTransaction(tx: Transaction, hash: Hash, minerTx: bool) returns (status: Status)
      requires minerTx <==> HasGen(tx.vin)
      modifies this`txs, this`outs
      ensures Ends(S.RecordTransaction(crypto, old(Tables()), tx, hash), Tables(), status)
    {
      var data := S.AddTransactionData(txs, S.Height(Tables()), tx, hash);
      txs := data.state;
      if data.Threw? {
        return Thrown(data.error);
      }
      var issued;
      status, issued := AddOutputs(tx, hash, minerTx);
      if status.Thrown? {
        return;
      }
      var indexed := S.AddOutputIndices(txs, data.value, issued);
      txs := indexed.state;
      status := StatusOf(indexed);
    }

    /** The backend's loop over `vout`, last output first. */
    method RemoveTxOutputs(id: nat, tx: Transaction) returns (status: Status)
      modifies this`outs
      ensures Ends(S.RemoveTxOutputs(txs, old(outs), id, tx), outs, status)
    {
      if id !in txs.outputs {
        return Thrown(Undefined);
      }
      var amountIndices := txs.outputs[id];
      if amountIndices == [] && tx.vout != [] {
        return Thrown(DbError);
      }
      var isPseudoRct := |tx.vin| == 1 && tx.vin[0].TxInGen?;
      ghost var slots := S.Slots(tx, amountIndices);
      assert slots[..|slots|] == slots;
      for i := |tx.vout| downto 0
        invariant Backward(S.ClearSlot, old(outs), slots) == Backward(S.ClearSlot, outs, slots[..i])
      {
        BackwardNext(S.ClearSlot, outs, slots, i);
        if i >= |amountIndices| {
          return Thrown(Undefined);
        }
        var amount := if isPseudoRct then 0 else tx.vout[i].amount;
        var removed := S.RemoveOutput(outs, amount, amountIndices[i]);
        outs := removed.state;
        if removed.Threw? {
          return Thrown(removed.error);
        }
      }
      status := Ok;
    }

    method RemoveTransactionData(hash: Hash, tx: Transaction) returns (status: Status)
      modifies this`txs, this`outs
      ensures Ends(S.RemoveTransactionData(old(Tables()), hash, tx), Tables(), status)
    {
      if hash !in txs.indices {
        return Thrown(TxDne);
      }
      var id := txs.indices[hash].id;
      if id !in txs.txs {
        return Thrown(DbError);
      }
      txs := txs.(txs := txs.txs - {id});
      status := RemoveTxOutputs(id, tx);
      if status.Thrown? {
        return;
      }
      txs := txs.(outputs := txs.outputs - {id}, indices := txs.indices - {hash});
    }

    method RemoveTransaction(hash: Hash) returns (status: Status)
      modifies this`txs, this`outs, this`spent
      ensures Ends(S.RemoveTransaction(old(Tables()), hash), Tables(), status)
    {
      var tx := S.GetTx(txs, hash);
      if tx.None? {
        return Thrown(TxDne);
      }
      RemoveSpentKeys(tx.value.vin);
      status := RemoveTransactionData(hash, tx.value);
    }

    /** The loop of `add_block` over the listed transactions and their hashes. */
    method AddListed(items: seq<S.Listed>) returns (status: Status)
      modifies this`txs, this`outs, this`spent
      ensures Ends(Forward(S.Adder(crypto), old(Tables()), items), Tables(), status)
    {
      for i := 0 to |items|
        invariant Forward(S.Adder(crypto), old(Tables()), items[..i]) == Done(Tables(), ())
      {
        ForwardNext(S.Adder(crypto), old(Tables()), items, i, Tables());
        var recorded;
        status, recorded := AddTransaction(items[i].tx, Some(items[i].hash));
        if status.Thrown? {
          return;
        }
      }
      assert items[..|items|] == items;
      status := Ok;
    }

    /** `BlockchainDB::add_block`. */
    method AddBlock(e: S.Entry) returns (status: Status, prevHeight: nat)
      modifies this
      ensures Ends(S.AddBlock(crypto, old(Tables()), e), Tables(), status)
      ensures status.Ok? ==> prevHeight == S.AddBlock(crypto, old(Tables()), e).value
    {
      if |e.block.txHashes| != |e.txs| {
        return Thrown(SizeMismatch), 0;
      }
      prevHeight := S.Height(Tables());
      var recorded;
      status, recorded := AddTransaction(e.block.minerTx, None);
      if status.Thrown? {
        return;
      }
      status := AddListed(S.ListedOf(e));
      if status.Thrown? {
        return;
      }
      var stored := S.AddBlockRecord(crypto, blocks, e);
      blocks := stored.state;
      status := StatusOf(stored);
    }

    /** One round of the loop of `pop_block`. */
    method PopOne(hash: Hash, into: seq<Transaction>) returns (status: Status, popped: seq<Transaction>)
      modifies this`txs, this`outs, this`spent
      ensures Ends(S.PopOne(S.Popping(old(Tables()), into), hash), S.Popping(Tables(), popped), status)
    {
      popped := into;
      var tx := S.GetTx(txs, hash);
      if tx.None? {
        return Thrown(TxDne), popped;
      }
      popped := popped + [tx.value];
      status := RemoveTransaction(hash);
    }

    /** The loop of `pop_block`, last hash first. */
    method PopListed(hashes: seq<Hash>, into: seq<Transaction>) returns (status: Status, popped: seq<Transaction>)
      modifies this`txs, this`outs, this`spent
      ensures Ends(Backward(S.PopOne, S.Popping(old(Tables()), into), hashes), S.Popping(Tables(), popped), status)
    {
      popped := into;
      assert hashes[..|hashes|] == hashes;
      for i := |hashes| downto 0
        invariant Backward(S.PopOne, S.Popping(old(Tables()), into), hashes)
               == Backward(S.PopOne, S.Popping(Tables(), popped), hashes[..i])
      {
        BackwardNext(S.PopOne, S.Popping(Tables(), popped), hashes, i);
        status, popped := PopOne(hashes[i], popped);
        if status.Thrown? {
          return;
        }
      }
      status := Ok;
    }

    /** `BlockchainDB::pop_block`; `popped` is the caller's vector, passed in and handed back longer. */
    method PopBlock(into: seq<Transaction>) returns (status: Status, block: Block, popped: seq<Transaction>)
      modifies this
      ensures Ends(S.PopBlock(crypto, S.Popping(old(Tables()), into)), S.Popping(Tables(), popped), status)
      ensures status.Ok? ==> block == S.PopBlock(crypto, S.Popping(old(Tables()), into)).value
    {
      popped := into;
      var top := S.GetTopBlock(blocks);
      if top.Threw? {
        return Thrown(top.error), NULL_BLOCK, popped;
      }
      block := top.value;
      var removed := S.RemoveBlockRecord(blocks);
      blocks := removed.state;
      if removed.Threw? {
        return Thrown(removed.error), block, popped;
      }
      status, popped := PopListed(block.txHashes, popped);
      if status.Thrown? {
        return;
      }
      status := RemoveTransaction(crypto.txHash(block.minerTx));
    }

    /** `BlockchainLMDB::add_block`: the database transaction around `AddBlock`. */
    method AddBlockAtomic(e: S.Entry) returns (status: Status, height: nat)
      modifies this
      ensures Ends(S.AddBlockAtomic(crypto, old(Tables()), e), Tables(), status)
      ensures status.Ok? ==> height == S.AddBlockAtomic(crypto, old(Tables()), e).value
      ensures status.Thrown? ==> Tables() == old(Tables())
    {
      var before := Tables();
      status, height := AddBlock(e);
      if status.Thrown? {
        blocks, txs, outs, spent := before.blocks, before.txs, before.outs, before.spent;
      }
      height := S.Height(before) + 1;
    }

    /** `BlockchainLMDB::pop_block`: the database transaction around `PopBlock`. */
    method PopBlockAtomic(into: seq<Transaction>) returns (status: Status, block: Block, popped: seq<Transaction>)
      modifies this
      ensures Ends(S.PopBlockAtomic(crypto, S.Popping(old(Tables()), into)), S.Popping(Tables(), popped), status)
      ensures status.Ok? ==> block == S.PopBlockAtomic(crypto, S.Popping(old(Tables()), into)).value
      ensures status.Thrown? ==> Tables() == old(Tables())
    {
      var before := Tables();
      status, block, popped := PopBlock(into);
      if status.Thrown? {
        blocks, txs, outs, spent := before.blocks, before.txs, before.outs, before.spent;
      }
    }
  }
}
