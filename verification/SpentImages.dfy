/**
  The spent set along runs: it is the disjoint union of the key images of the recorded
  transactions, as long as giving a transaction up does not clear an image spent before.
 */
module SpentImages {
  import opened CryptonoteTypes
  import opened Store
  import opened Reversal
  import opened Aborts
  import opened Ledger
  import opened Refinement
  import opened Runs

  /** Some recorded transaction spends `image`. */
  ghost predicate SpentIn(txs: map<nat, Transaction>, image: KeyImage) {
    exists id | id in txs :: image in Images(txs[id].vin)
  }

  /** No image is spent by two recorded transactions, or twice by one. */
  ghost predicate SpentOnce(txs: map<nat, Transaction>) {
    && (forall id, id' | id in txs && id' in txs && id != id' :: Images(txs[id].vin) !! Images(txs[id'].vin))
    && (forall id | id in txs :: NoDup(ImageList(txs[id].vin)))
  }

  ghost predicate SpentExactly(s: Tables) {
    SpentOnce(s.txs.txs) && forall image :: image in s.spent <==> SpentIn(s.txs.txs, image)
  }

  // ------------------------------------------------------ one transaction

  lemma PutSpends(txs: map<nat, Transaction>, id: nat, tx: Transaction, image: KeyImage)
    requires id !in txs
    ensures SpentIn(txs[id := tx], image) <==> SpentIn(txs, image) || image in Images(tx.vin)
  {
    var txs' := txs[id := tx];
    if SpentIn(txs, image) {
      var id' :| id' in txs && image in Images(txs[id'].vin);
      assert id' in txs' && txs'[id'] == txs[id'];
    }
    if image in Images(tx.vin) {
      assert id in txs' && txs'[id] == tx;
    }
  }

  /** An input loop that runs to its end met no image twice. */
  lemma ScannedOnce(spent: set<KeyImage>, vin: seq<TxIn>)
    requires ScanInputs(spent, vin, 0).Done? && ScanInputs(spent, vin, 0).value
    ensures NoDup(ImageList(vin))
  {
    ScanSpends(spent, vin, 0);
    ScanReaches(spent, vin, 0, |vin|);
    FreshIffNoDup([], vin);
    assert FreshInputs({}, vin, 0, |vin|);
    assert (set image: KeyImage | image in []) == {};
    assert [] + ImageList(vin) == ImageList(vin);
  }

  lemma RecordingSpends(c: Crypto, s: Tables, item: Listed)
    requires AddOne(c, s, item).Done? && Supported(item.tx) && SpentExactly(s)
    ensures SpentExactly(AddOne(c, s, item).state)
  {
    var s', id := AddOne(c, s, item).state, |s.txs.txs|;
    RecordedIffSupported(c, s, item.tx, item.hash);
    RecordedTables(c, s, item.tx, item.hash);
    SpentRestored(s.spent, item.tx.vin);
    ScannedOnce(s.spent, item.tx.vin);
    PutKeepsOnce(s, id, item.tx, s');
  }

  lemma PutKeepsOnce(s: Tables, id: nat, tx: Transaction, s': Tables)
    requires SpentExactly(s) && id !in s.txs.txs && Images(tx.vin) !! s.spent && NoDup(ImageList(tx.vin))
    requires s'.txs.txs == s.txs.txs[id := tx] && s'.spent == s.spent + Images(tx.vin)
    ensures SpentExactly(s')
  {
    forall image ensures image in s'.spent <==> SpentIn(s'.txs.txs, image) {
      PutSpends(s.txs.txs, id, tx, image);
    }
    forall id' | id' in s.txs.txs ensures Images(s.txs.txs[id'].vin) !! Images(tx.vin) {
      forall image | image in Images(s.txs.txs[id'].vin) ensures image !in Images(tx.vin) {
        assert SpentIn(s.txs.txs, image);
      }
    }
  }

  /** The first input of an unsupported kind is at `bad`. */
  predicate StopsAt(vin: seq<TxIn>, bad: nat) {
    bad < |vin| && !SupportedInput(vin[bad]) && forall i | 0 <= i < bad :: SupportedInput(vin[i])
  }

  lemma FirstUnsupported(vin: seq<TxIn>) returns (bad: nat)
    requires exists i | 0 <= i < |vin| :: !SupportedInput(vin[i])
    ensures StopsAt(vin, bad)
  {
    bad := 0;
    while SupportedInput(vin[bad])
      invariant bad < |vin| && forall i | 0 <= i < bad :: SupportedInput(vin[i])
      invariant exists i | bad <= i < |vin| :: !SupportedInput(vin[i])
      decreases |vin| - bad
    {
      bad := bad + 1;
    }
  }

  /** A completed call keeps the spent set exact if and only if it recorded the transaction or cleared nothing. */
  lemma AddKeepsSpentIff(c: Crypto, s: Tables, item: Listed)
    requires AddOne(c, s, item).Done? && SpentExactly(s)
    ensures SpentExactly(AddOne(c, s, item).state) <==> Supported(item.tx) || Images(item.tx.vin) !! s.spent
  {
    if Supported(item.tx) {
      RecordingSpends(c, s, item);
    } else {
      var bad := FirstUnsupported(item.tx.vin);
      AbortClearsImages(c, s, item.tx, item.hash, bad);
      var s' := AddOne(c, s, item).state;
      assert s'.spent == s.spent - Images(item.tx.vin) && s'.txs == s.txs;
      if SpentExactly(s') {
        assert forall image :: image in s'.spent <==> image in s.spent;
      }
    }
  }

  /** Removing a transaction keeps the spent set exact, whatever becomes of its outputs. */
  lemma RemoveKeepsSpent(s: Tables, hash: Hash)
    requires RemoveTransaction(s, hash).Done? && SpentExactly(s)
    ensures SpentExactly(RemoveTransaction(s, hash).state)
  {
    var s', id := RemoveTransaction(s, hash).state, s.txs.indices[hash].id;
    DeleteKeepsOnce(s, id, s');
  }

  lemma DeleteKeepsOnce(s: Tables, id: nat, s': Tables)
    requires SpentExactly(s) && id in s.txs.txs
    requires s'.txs.txs == s.txs.txs - {id} && s'.spent == s.spent - Images(s.txs.txs[id].vin)
    ensures SpentExactly(s')
  {
    var txs, txs' := s.txs.txs, s'.txs.txs;
    forall image ensures image in s'.spent <==> SpentIn(txs', image) {
      if SpentIn(txs, image) && image !in Images(txs[id].vin) {
        var id' :| id' in txs && image in Images(txs[id'].vin);
        assert id' in txs' && txs'[id'] == txs[id'];
      }
      if SpentIn(txs', image) {
        var id' :| id' in txs' && image in Images(txs'[id'].vin);
        assert id' in txs && txs[id'] == txs'[id'] && Images(txs[id'].vin) !! Images(txs[id].vin);
      }
    }
  }

  // ------------------------------------------------------------- all runs

  /**
    Either the inputs are all supported, or the input loop cannot reach the first one
    that is not, or it has by then met every image that the roll-back is to remove.
   */
  predicate Harmless(tx: Transaction) {
    forall bad | 0 <= bad < |tx.vin| && StopsAt(tx.vin, bad) && FreshInputs({}, tx.vin, 0, bad) ::
      ImagesIn(tx.vin, bad + 1, |tx.vin|) <= ImagesIn(tx.vin, 0, bad)
  }

  predicate HarmlessEntry(e: Entry) {
    Harmless(e.block.minerTx) && forall i | 0 <= i < |e.txs| :: Harmless(e.txs[i])
  }

  lemma HarmlessKeepsSpent(c: Crypto, s: Tables, item: Listed)
    requires AddOne(c, s, item).Done? && SpentExactly(s) && Harmless(item.tx)
    ensures SpentExactly(AddOne(c, s, item).state)
  {
    AddKeepsSpentIff(c, s, item);
    if !Supported(item.tx) {
      var vin := item.tx.vin;
      var bad := FirstUnsupported(vin);
      AbortClearsImages(c, s, item.tx, item.hash, bad);
      ImagesAreInputs(vin);
      assert FreshInputs(s.spent, vin, 0, bad) && FreshInputs({}, vin, 0, bad);
      assert Images(vin) == ImagesIn(vin, 0, bad) + ImagesIn(vin, bad + 1, |vin|);
      assert ImagesIn(vin, 0, bad) !! s.spent;
    }
  }

  /** Tables in which one recorded transaction spends one image. */
  function OneSpent(image: KeyImage): Tables {
    var tx := Transaction(2, 0, [TxInToKey(0, [], image)], [], []);
    EMPTY.(txs := EMPTY.txs.(txs := map[0 := tx]), spent := {image})
  }

  lemma OneSpentExactly(image: KeyImage)
    ensures SpentExactly(OneSpent(image))
  {
    var s := OneSpent(image);
    var vin := s.txs.txs[0].vin;
    assert ImageList(vin) == [image];
    assert forall other :: other in Images(vin) <==> other == image;
    assert forall other :: SpentIn(s.txs.txs, other) <==> other in Images(vin);
  }

  lemma HarmfulBreaksSpent(c: Crypto, tx: Transaction, hash: Hash) returns (s: Tables)
    requires !Harmless(tx)
    ensures SpentExactly(s) && AddOne(c, s, Listed(hash, tx)).Done?
    ensures !SpentExactly(AddOne(c, s, Listed(hash, tx)).state)
  {
    var vin := tx.vin;
    var bad :| 0 <= bad < |vin| && StopsAt(vin, bad) && FreshInputs({}, vin, 0, bad)
               && !(ImagesIn(vin, bad + 1, |vin|) <= ImagesIn(vin, 0, bad));
    var image :| image in ImagesIn(vin, bad + 1, |vin|) && image !in ImagesIn(vin, 0, bad);
    s := OneSpent(image);
    OneSpentExactly(image);
    assert FreshInputs(s.spent, vin, 0, bad);
    AbortClearsImages(c, s, tx, hash, bad);
    ImagesAreInputs(vin);
    assert image in Images(vin);
    AddKeepsSpentIff(c, s, Listed(hash, tx));
  }

  /** The harmless transactions are exactly those that no tables let break the spent set. */
  lemma HarmlessIff(c: Crypto, tx: Transaction, hash: Hash)
    ensures Harmless(tx) <==>
            forall s | SpentExactly(s) && AddOne(c, s, Listed(hash, tx)).Done? ::
              SpentExactly(AddOne(c, s, Listed(hash, tx)).state)
  {
    if Harmless(tx) {
      forall s | SpentExactly(s) && AddOne(c, s, Listed(hash, tx)).Done?
        ensures SpentExactly(AddOne(c, s, Listed(hash, tx)).state)
      {
        HarmlessKeepsSpent(c, s, Listed(hash, tx));
      }
    } else {
      var s := HarmfulBreaksSpent(c, tx, hash);
    }
  }

  lemma AddBlockKeepsSpent(c: Crypto, s: Tables, e: Entry)
    requires AddBlock(c, s, e).Done? && SpentExactly(s) && HarmlessEntry(e)
    ensures SpentExactly(AddBlock(c, s, e).state)
  {
    var exact := (t: Tables) => SpentExactly(t);
    forall t, item | (item == MinerOf(c, e) || item in ListedOf(e)) && exact(t) && AddOne(c, t, item).Done?
      ensures exact(AddOne(c, t, item).state)
    {
      HarmlessKeepsSpent(c, t, item);
    }
    AddBlockKeeps(c, s, e, exact);
  }

  lemma PopBlockKeepsSpent(c: Crypto, p: Popping)
    requires PopBlock(c, p).Done? && SpentExactly(p.tables)
    ensures SpentExactly(PopBlock(c, p).state.tables)
  {
    var exact := (t: Tables) => SpentExactly(t);
    forall t, hash | exact(t) && RemoveTransaction(t, hash).Done? ensures exact(RemoveTransaction(t, hash).state) {
      RemoveKeepsSpent(t, hash);
    }
    PopBlockKeeps(c, p, GetTopBlock(p.tables.blocks).value, exact);
  }

  predicate HarmlessOps(ops: seq<Op>) {
    forall i | 0 <= i < |ops| && ops[i].Add? :: HarmlessEntry(ops[i].entry)
  }

  /** In particular a run of blocks whose transactions have only supported inputs. */
  lemma SupportedIsHarmless(ops: seq<Op>)
    requires SupportedOps(ops)
    ensures HarmlessOps(ops)
  {
  }

  /**
    Every run keeps the spent set the disjoint union of the images of the recorded
    transactions, failed calls and pops of irreversible blocks included.
   */
  lemma SpentStaysExact(c: Crypto, s: Tables, ops: seq<Op>)
    requires SpentExactly(s) && HarmlessOps(ops)
    ensures SpentExactly(RunTables(c, s, ops).0)
  {
    var exact := (t: Tables) => SpentExactly(t);
    forall t, op | op in ops && exact(t) ensures exact(StepTables(c, t, op).0) {
      match op
      case Add(e) => if AddBlock(c, t, e).Done? { AddBlockKeepsSpent(c, t, e); }
      case Pop => if PopBlock(c, Popping(t, [])).Done? { PopBlockKeepsSpent(c, Popping(t, [])); }
    }
    RunKeeps(c, s, ops, exact);
  }

  /** After any such run from empty nothing is spent twice, and the spent set holds what is spent. */
  lemma SpentDisjointUnion(c: Crypto, ops: seq<Op>)
    requires HarmlessOps(ops)
    ensures var s := RunTables(c, EMPTY, ops).0;
            && (forall image :: image in s.spent <==> exists id | id in s.txs.txs :: image in Images(s.txs.txs[id].vin))
            && (forall id, id' | id in s.txs.txs && id' in s.txs.txs && id != id' ::
                  Images(s.txs.txs[id].vin) !! Images(s.txs.txs[id'].vin))
            && (forall id | id in s.txs.txs :: NoDup(ImageList(s.txs.txs[id].vin)))
  {
    assert SpentExactly(EMPTY);
    SpentStaysExact(c, EMPTY, ops);
    var s := RunTables(c, EMPTY, ops).0;
    forall image
      ensures image in s.spent <==> exists id | id in s.txs.txs :: image in Images(s.txs.txs[id].vin)
    {
      assert image in s.spent <==> SpentIn(s.txs.txs, image);
    }
  }
}
