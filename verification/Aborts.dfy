/**
  Transactions with an input of an unsupported kind. `add_transaction` gives such a
  transaction up without an exception, so `add_block` completes, and the block that
  lists it can no longer be popped.
 */
module Aborts {
  import opened CryptonoteTypes
  import opened Outcomes
  import opened Store
  import opened Reversal
  import opened ReversalLimits

  // ------------------------------------------------------------ the input loop

  /** The images of inputs `i` up to `k`. */
  function ImagesIn(vin: seq<TxIn>, i: nat, k: nat): set<KeyImage>
    requires i <= k <= |vin|
  {
    set a | i <= a < k && vin[a].TxInToKey? :: vin[a].image
  }

  /** Inputs `i` up to `k` spend images that are neither spent already nor spent twice among them. */
  predicate FreshInputs(spent: set<KeyImage>, vin: seq<TxIn>, i: nat, k: nat)
    requires i <= k <= |vin|
  {
    forall a | i <= a < k && vin[a].TxInToKey? ::
      vin[a].image !in spent && forall b | i <= b < a && vin[b].TxInToKey? :: vin[b].image != vin[a].image
  }

  /** On inputs of supported kinds the loop passes exactly when their images are fresh. */
  lemma {:induction false} ScanReaches(spent: set<KeyImage>, vin: seq<TxIn>, i: nat, k: nat)
    requires i <= k <= |vin|
    requires forall a | i <= a < k :: SupportedInput(vin[a])
    ensures FreshInputs(spent, vin, i, k) ==>
              ScanInputs(spent, vin, i) == ScanInputs(spent + ImagesIn(vin, i, k), vin, k)
    ensures !FreshInputs(spent, vin, i, k) ==>
              ScanInputs(spent, vin, i).Threw? && ScanInputs(spent, vin, i).error == KeyImageExists
    decreases k - i
  {
    if i == k {
      assert spent + ImagesIn(vin, i, k) == spent;
    } else {
      var next := if vin[i].TxInToKey? then spent + {vin[i].image} else spent;
      ScanReaches(next, vin, i + 1, k);
      assert next + ImagesIn(vin, i + 1, k) == spent + ImagesIn(vin, i, k);
      if vin[i].TxInToKey? && vin[i].image in spent {
        assert !FreshInputs(spent, vin, i, k);
      } else {
        assert FreshInputs(next, vin, i + 1, k) <==> FreshInputs(spent, vin, i, k);
      }
    }
  }

  /**
    An unsupported input at `bad`, after inputs that were accepted: every image of the
    transaction leaves the spent set, wherever the bad input sits, and nothing else
    changes. The old set is restored exactly when no later image was spent already.
   */
  lemma AbortClearsImages(c: Crypto, s: Tables, tx: Transaction, hash: Hash, bad: nat)
    requires bad < |tx.vin| && !SupportedInput(tx.vin[bad])
    requires forall a | 0 <= a < bad :: SupportedInput(tx.vin[a])
    ensures FreshInputs(s.spent, tx.vin, 0, bad) ==>
              AddTransaction(c, s, tx, hash) == Done(s.(spent := s.spent - Images(tx.vin)), false)
    ensures FreshInputs(s.spent, tx.vin, 0, bad) ==>
              (AddTransaction(c, s, tx, hash).state == s <==> ImagesIn(tx.vin, bad + 1, |tx.vin|) !! s.spent)
    ensures !FreshInputs(s.spent, tx.vin, 0, bad) ==>
              AddTransaction(c, s, tx, hash).Threw? && AddTransaction(c, s, tx, hash).error == KeyImageExists
  {
    var vin, n := tx.vin, |tx.vin|;
    ScanReaches(s.spent, vin, 0, bad);
    if FreshInputs(s.spent, vin, 0, bad) {
      ImagesAreInputs(vin);
      var early, late := ImagesIn(vin, 0, bad), ImagesIn(vin, bad + 1, n);
      assert Images(vin) == early + late;
      assert early !! s.spent;
      assert (s.spent + early) - Images(vin) == s.spent - Images(vin);
      assert s.spent - Images(vin) == s.spent <==> late !! s.spent;
    }
  }

  // -------------------------------------------------- popping such a block

  /** The hashes under which a block's transactions go are new and differ from each other. */
  predicate NewHashes(c: Crypto, s: Tables, e: Entry) {
    var hashes := [c.txHash(e.block.minerTx)] + e.block.txHashes;
    forall i | 0 <= i < |hashes| ::
      hashes[i] !in s.txs.indices && forall j | 0 <= j < i :: hashes[j] != hashes[i]
  }

  /** Adding a transaction leaves the block tables alone and files at most its own hash. */
  lemma AddOneFiles(c: Crypto, s: Tables, item: Listed)
    requires AddOne(c, s, item).Done?
    ensures var s' := AddOne(c, s, item).state;
            && s'.blocks == s.blocks
            && s'.txs.indices.Keys == s.txs.indices.Keys + if Supported(item.tx) then {item.hash} else {}
  {
    RecordedIffSupported(c, s, item.tx, item.hash);
    if Supported(item.tx) {
      RecordedTables(c, s, item.tx, item.hash);
    }
  }

  lemma {:induction false} AddListedKeepsBlocks(c: Crypto, s: Tables, items: seq<Listed>)
    requires Forward(Adder(c), s, items).Done?
    ensures Forward(Adder(c), s, items).state.blocks == s.blocks
  {
    if items != [] {
      var front, last := items[..|items| - 1], items[|items| - 1];
      AddListedKeepsBlocks(c, s, front);
      AddOneFiles(c, Forward(Adder(c), s, front).state, last);
    }
  }

  /** A hash stays unknown while the transactions listed under it are given up. */
  lemma {:induction false} StaysUnknown(c: Crypto, s: Tables, items: seq<Listed>, hash: Hash)
    requires Forward(Adder(c), s, items).Done?
    requires hash !in s.txs.indices
    requires forall i | 0 <= i < |items| :: items[i].hash == hash ==> !Supported(items[i].tx)
    ensures hash !in Forward(Adder(c), s, items).state.txs.indices
  {
    if items != [] {
      var front, last := items[..|items| - 1], items[|items| - 1];
      StaysUnknown(c, s, front, hash);
      AddOneFiles(c, Forward(Adder(c), s, front).state, last);
    }
  }

  /** A given-up transaction is nowhere to be found when its turn to be popped comes. */
  lemma AbortedIsMissing(c: Crypto, s: Tables, items: seq<Listed>, j: nat)
    requires j < |items| && !Supported(items[j].tx)
    requires Forward(Adder(c), s, items[..j + 1]).Done?
    requires items[j].hash !in s.txs.indices
    requires forall i | 0 <= i < j :: items[i].hash != items[j].hash
    ensures GetTx(Forward(Adder(c), s, items[..j + 1]).state.txs, items[j].hash) == None
  {
    StaysUnknown(c, s, items[..j + 1], items[j].hash);
  }

  lemma PopListedStops(c: Crypto, s: Tables, items: seq<Listed>, j: nat, out: seq<Transaction>)
    requires j < |items| && !Supported(items[j].tx)
    requires forall i | j < i < |items| :: Reversible(items[i].tx)
    requires Forward(Adder(c), s, items).Done?
    requires items[j].hash !in s.txs.indices
    requires forall i | 0 <= i < j :: items[i].hash != items[j].hash
    ensures Forward(Adder(c), s, items[..j + 1]).Done?
    ensures Backward(PopOne, Popping(Forward(Adder(c), s, items).state, out), Hashes(items))
         == Threw(Popping(Forward(Adder(c), s, items[..j + 1]).state, out + Reversed(Txs(items[j + 1..]))), TxDne)
  {
    PopListedBackTo(c, s, items, j + 1, out);
    AbortedIsMissing(c, s, items, j);
    var hashes := Hashes(items[..j + 1]);
    assert hashes[|hashes| - 1] == items[j].hash;
  }

  /**
    The last listed transaction that was given up stops the pop with `TX_DNE`. By then
    the block record is gone and so is exactly what was listed after that transaction.
   */
  lemma PopStopsAtAborted(c: Crypto, s: Tables, e: Entry, j: nat, out: seq<Transaction>)
    requires AddBlock(c, s, e).Done? && NewHashes(c, s, e)
    requires j < |e.txs| && !Supported(e.txs[j])
    requires forall i | j < i < |e.txs| :: Reversible(e.txs[i])
    ensures |e.block.txHashes| == |e.txs| && AddOne(c, s, MinerOf(c, e)).Done?
    ensures var left := Forward(Adder(c), AddOne(c, s, MinerOf(c, e)).state, ListedOf(e)[..j + 1]);
            && left.Done? && left.state.blocks == s.blocks
            && PopBlock(c, Popping(AddBlock(c, s, e).state, out))
               == Threw(Popping(left.state, out + Reversed(e.txs[j + 1..])), TxDne)
  {
    PopStartsAtTxs(c, s, e, out);
    var items, miner := ListedOf(e), AddOne(c, s, MinerOf(c, e)).state;
    AddOneFiles(c, s, MinerOf(c, e));
    NewHashesListed(c, s, e, j);
    PopListedStops(c, miner, items, j, out);
    ListedParts(e, j + 1);
    AddListedKeepsBlocks(c, miner, items[..j + 1]);
  }

  lemma NewHashesListed(c: Crypto, s: Tables, e: Entry, j: nat)
    requires NewHashes(c, s, e)
    requires j < |e.txs| == |e.block.txHashes|
    ensures var h := ListedOf(e)[j].hash;
            && h !in s.txs.indices && h != MinerOf(c, e).hash
            && forall i | 0 <= i < j :: ListedOf(e)[i].hash != h
  {
    var hashes := [c.txHash(e.block.minerTx)] + e.block.txHashes;
    assert hashes[j + 1] == ListedOf(e)[j].hash && hashes[0] == MinerOf(c, e).hash;
    assert forall i | 0 <= i < j :: hashes[i + 1] == ListedOf(e)[i].hash;
  }

  /** A miner transaction that was given up stops the pop at its very end. */
  lemma PopStopsAtMiner(c: Crypto, s: Tables, e: Entry, out: seq<Transaction>)
    requires AddBlock(c, s, e).Done? && NewHashes(c, s, e)
    requires !Supported(e.block.minerTx) && forall i | 0 <= i < |e.txs| :: Reversible(e.txs[i])
    ensures AddOne(c, s, MinerOf(c, e)).Done?
    ensures PopBlock(c, Popping(AddBlock(c, s, e).state, out))
         == Threw(Popping(AddOne(c, s, MinerOf(c, e)).state, out + Reversed(e.txs)), TxDne)
  {
    PopStartsAtTxs(c, s, e, out);
    var items, miner := ListedOf(e), AddOne(c, s, MinerOf(c, e)).state;
    PopListedBackTo(c, miner, items, 0, out);
    ListedParts(e, 0);
    AddOneFiles(c, s, MinerOf(c, e));
    var hashes := [c.txHash(e.block.minerTx)] + e.block.txHashes;
    assert hashes[0] == MinerOf(c, e).hash;
  }

  /**
    The backend then takes the tables back to where they were, but the caller's vector keeps
    what was popped before the exception: all that was listed after the given-up transaction.
   */
  lemma VectorKeepsPopped(c: Crypto, s: Tables, e: Entry, j: nat, out: seq<Transaction>)
    requires AddBlock(c, s, e).Done? && NewHashes(c, s, e)
    requires j < |e.txs| && !Supported(e.txs[j])
    requires forall i | j < i < |e.txs| :: Reversible(e.txs[i])
    ensures var s' := AddBlock(c, s, e).state;
            PopBlockAtomic(c, Popping(s', out)) == Threw(Popping(s', out + Reversed(e.txs[j + 1..])), TxDne)
  {
    PopStopsAtAborted(c, s, e, j, out);
  }

  /** And if it was the miner transaction that was given up, all listed ones. */
  lemma VectorKeepsListed(c: Crypto, s: Tables, e: Entry, out: seq<Transaction>)
    requires AddBlock(c, s, e).Done? && NewHashes(c, s, e)
    requires !Supported(e.block.minerTx) && forall i | 0 <= i < |e.txs| :: Reversible(e.txs[i])
    ensures var s' := AddBlock(c, s, e).state;
            PopBlockAtomic(c, Popping(s', out)) == Threw(Popping(s', out + Reversed(e.txs)), TxDne)
  {
    PopStopsAtMiner(c, s, e, out);
  }

  predicate AllSupported(e: Entry) {
    Supported(e.block.minerTx) && forall i | 0 <= i < |e.txs| :: Supported(e.txs[i])
  }

  predicate AllCoherent(e: Entry) {
    Coherent(e.block.minerTx) && forall i | 0 <= i < |e.txs| :: Coherent(e.txs[i])
  }

  lemma LastUnsupported(txs: seq<Transaction>) returns (j: nat)
    requires exists i | 0 <= i < |txs| :: !Supported(txs[i])
    ensures j < |txs| && !Supported(txs[j]) && forall i | j < i < |txs| :: Supported(txs[i])
  {
    j := |txs| - 1;
    while Supported(txs[j])
      invariant j < |txs| && forall i | j < i < |txs| :: Supported(txs[i])
      decreases j
    {
      j := j - 1;
    }
  }

  // ------------------------------------- whatever the output tables are

  /** Popping as far as the item at `k`, seen through the transaction tables alone. */
  lemma {:induction false} PopsFollowTo(
      add: Step<Tables, Listed>, pop: Step<Popping, Hash>, s: Tables, items: seq<Listed>, k: nat, p: Popping)
    returns (p': Popping)
    requires k <= |items|
    requires forall s, i, p | k <= i < |items| && Follows(add, s, items[i], p) && pop(p, items[i].hash).Done? ::
               pop(p, items[i].hash).state.tables.txs == s.txs
    requires Forward(add, s, items).Done? && p.tables.txs == Forward(add, s, items).state.txs
    requires Backward(pop, p, Hashes(items)).Done?
    ensures Forward(add, s, items[..k]).Done? && p'.tables.txs == Forward(add, s, items[..k]).state.txs
    ensures Backward(pop, p, Hashes(items)) == Backward(pop, p', Hashes(items[..k]))
    decreases |items|
  {
    if k == |items| {
      assert items[..k] == items;
      p' := p;
    } else {
      var n := |items| - 1;
      var front, last := items[..n], items[n];
      assert Hashes(items)[..n] == Hashes(front) && front[..k] == items[..k];
      assert Follows(add, Forward(add, s, front).state, last, p);
      p' := PopsFollowTo(add, pop, s, front, k, pop(p, last.hash).state);
    }
  }

  lemma PopListedFollowsTo(c: Crypto, s: Tables, items: seq<Listed>, k: nat, p: Popping) returns (p': Popping)
    requires k <= |items| && forall i | k <= i < |items| :: Supported(items[i].tx)
    requires Forward(Adder(c), s, items).Done? && p.tables.txs == Forward(Adder(c), s, items).state.txs
    requires Backward(PopOne, p, Hashes(items)).Done?
    ensures Forward(Adder(c), s, items[..k]).Done? && p'.tables.txs == Forward(Adder(c), s, items[..k]).state.txs
    ensures Backward(PopOne, p, Hashes(items)) == Backward(PopOne, p', Hashes(items[..k]))
  {
    forall s, i, p | k <= i < |items| && Follows(Adder(c), s, items[i], p) && PopOne(p, items[i].hash).Done?
      ensures PopOne(p, items[i].hash).state.tables.txs == s.txs
    {
      TxTablesComeBack(c, s, items[i].tx, items[i].hash, p.tables);
    }
    p' := PopsFollowTo(Adder(c), PopOne, s, items, k, p);
  }

  lemma PopListedFails(c: Crypto, s: Tables, items: seq<Listed>, j: nat, p: Popping)
    requires j < |items| && !Supported(items[j].tx) && forall i | j < i < |items| :: Supported(items[i].tx)
    requires Forward(Adder(c), s, items).Done? && p.tables.txs == Forward(Adder(c), s, items).state.txs
    requires items[j].hash !in s.txs.indices && forall i | 0 <= i < j :: items[i].hash != items[j].hash
    ensures Backward(PopOne, p, Hashes(items)).Threw?
  {
    if Backward(PopOne, p, Hashes(items)).Done? {
      var p' := PopListedFollowsTo(c, s, items, j + 1, p);
      AbortedIsMissing(c, s, items, j);
      assert false;
    }
  }

  lemma PopFailsAtAborted(c: Crypto, s: Tables, e: Entry, out: seq<Transaction>)
    requires AddBlock(c, s, e).Done? && NewHashes(c, s, e)
    requires exists i | 0 <= i < |e.txs| :: !Supported(e.txs[i])
    ensures PopBlock(c, Popping(AddBlock(c, s, e).state, out)).Threw?
  {
    var j := LastUnsupported(e.txs);
    PopStartsAtTxs(c, s, e, out);
    var items, miner := ListedOf(e), AddOne(c, s, MinerOf(c, e)).state;
    AddOneFiles(c, s, MinerOf(c, e));
    NewHashesListed(c, s, e, j);
    PopListedFails(c, miner, items, j, Popping(AddBlockTxs(c, s, e).state, out));
    ListedParts(e, 0);
  }

  lemma PopFailsAtMiner(c: Crypto, s: Tables, e: Entry, out: seq<Transaction>)
    requires AddBlock(c, s, e).Done? && NewHashes(c, s, e)
    requires !Supported(e.block.minerTx) && forall i | 0 <= i < |e.txs| :: Supported(e.txs[i])
    ensures PopBlock(c, Popping(AddBlock(c, s, e).state, out)).Threw?
  {
    PopStartsAtTxs(c, s, e, out);
    var items, miner := ListedOf(e), AddOne(c, s, MinerOf(c, e)).state;
    var p := Popping(AddBlockTxs(c, s, e).state, out);
    AddOneFiles(c, s, MinerOf(c, e));
    ListedParts(e, 0);
    var hashes := [c.txHash(e.block.minerTx)] + e.block.txHashes;
    assert hashes[0] == MinerOf(c, e).hash;
    if Backward(PopOne, p, Hashes(items)).Done? {
      var p' := PopListedFollowsTo(c, miner, items, 0, p);
      assert items[..0] == [];
    }
  }

  /**
    A pop of the block just added completes only if no transaction was given up, and
    then does so unless an output was misfiled. A pop that fails is rolled back by the
    backend, so the block stays on top, and the next attempt ends in the same way.
   */
  lemma PopCompletesIffRecorded(c: Crypto, s: Tables, e: Entry, out: seq<Transaction>)
    requires AddBlock(c, s, e).Done? && NewHashes(c, s, e)
    ensures var s' := AddBlock(c, s, e).state;
            var popped, stuck := PopBlock(c, Popping(s', out)), PopBlockAtomic(c, Popping(s', out));
            && (popped.Done? ==> AllSupported(e))
            && (AllCoherent(e) ==> (popped.Done? <==> AllSupported(e)))
            && (!AllSupported(e) ==> stuck.Threw? && stuck.state.tables == s')
            && (!AllSupported(e) && AllCoherent(e) ==> stuck.error == TxDne)
  {
    if AllSupported(e) {
      if AllCoherent(e) {
        PopUndoesAdd(c, s, e, out);
      }
    } else if exists i | 0 <= i < |e.txs| :: !Supported(e.txs[i]) {
      PopFailsAtAborted(c, s, e, out);
      if AllCoherent(e) {
        var j := LastUnsupported(e.txs);
        PopStopsAtAborted(c, s, e, j, out);
      }
    } else {
      PopFailsAtMiner(c, s, e, out);
      if AllCoherent(e) {
        PopStopsAtMiner(c, s, e, out);
      }
    }
  }
}
