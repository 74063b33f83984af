/**
  Callers of the database object: the theorems about the tables, seen through its methods.
 */
module Client {
  import opened CryptonoteTypes
  import opened Store
  import opened Reversal
  import opened ReversalLimits
  import opened Database
  import opened Runs
  import opened Conservation

  /** One call of a run, made on the object. */
  method Call(db: BlockchainDB, op: Op) returns (report: Report)
    modifies db
    ensures (db.Tables(), report) == StepTables(db.crypto, old(db.Tables()), op)
  {
    match op
    case Add(e) =>
      var status, height := db.AddBlockAtomic(e);
      report := if status.Ok? then AddedUpTo(height) else Refused(status.error);
    case Pop =>
      var status, block, popped := db.PopBlockAtomic([]);
      report := if status.Ok? then TakenOff(block, popped) else Refused(status.error);
  }

  /** A run made on the object: what holds of runs holds of the object after it. */
  method Run(db: BlockchainDB, ops: seq<Op>) returns (log: seq<Report>)
    modifies db
    ensures (db.Tables(), log) == RunTables(db.crypto, old(db.Tables()), ops)
  {
    log := [];
    for i := 0 to |ops|
      invariant (db.Tables(), log) == RunTables(db.crypto, old(db.Tables()), ops[..i])
    {
      assert ops[..i + 1][..i] == ops[..i];
      var report := Call(db, ops[i]);
      log := log + [report];
    }
    assert ops[..|ops|] == ops;
  }

  /**
    Adding a block and taking it off again. The object is back where it was if the block
    is refused, and otherwise if and only if every transaction of the block is reversible;
    the caller then has the block and its transactions back.
   */
  method AddThenPop(db: BlockchainDB, e: Entry, into: seq<Transaction>)
    returns (added: Status, height: nat, removed: Status, block: Block, popped: seq<Transaction>)
    modifies db
    ensures added.Ok? ==> height == Height(old(db.Tables())) + 1
    ensures added.Thrown? ==> db.Tables() == old(db.Tables()) && popped == into
    ensures added.Ok? ==> (removed.Ok? && db.Tables() == old(db.Tables()) <==> ReversibleEntry(e))
    ensures added.Ok? && ReversibleEntry(e) ==> block == e.block && popped == into + Reversed(e.txs)
  {
    ghost var s := db.Tables();
    added, height := db.AddBlockAtomic(e);
    if added.Thrown? {
      return added, height, added, NULL_BLOCK, into;
    }
    AnswersHeight(db.crypto, s, e);
    AddRaises(db.crypto, s, e);
    removed, block, popped := db.PopBlockAtomic(into);
    PopUndoesAddIff(db.crypto, s, e, into);
    if ReversibleEntry(e) {
      PopUndoesAdd(db.crypto, s, e, into);
    }
  }
}
