/**
  Whole runs of `add_block` and `pop_block` from an empty store, failed calls
  included. The reference is a machine whose only state is the list of blocks.
 */
module Runs {
  import opened CryptonoteTypes
  import opened Outcomes
  import opened Store
  import opened Reversal
  import opened ReversalLimits
  import opened Aborts
  import opened Ledger
  import opened Refinement
  import opened Refusals

  datatype Op = Add(entry: Entry) | Pop

  /** What a call answers: the exception, the new height, or the block with its transactions. */
  datatype Report =
    | Refused(error: Error)
    | AddedUpTo(height: nat)
    | TakenOff(block: Block, txs: seq<Transaction>)

  /** A call on the tables, and its answer. */
  function StepTables(c: Crypto, s: Tables, op: Op): (Tables, Report) {
    match op
    case Add(e) =>
      var r := AddBlockAtomic(c, s, e);
      (r.state, if r.Done? then AddedUpTo(r.value) else Refused(r.error))
    case Pop =>
      var r := PopBlockAtomic(c, Popping(s, []));
      (r.state.tables, if r.Done? then TakenOff(r.value, r.state.txs) else Refused(r.error))
  }

  predicate Completes(c: Crypto, s: Tables, op: Op) {
    !StepTables(c, s, op).1.Refused?
  }

  /** The same call on the list: a block goes on unless the list refuses it, and the top block comes off. */
  function StepChain(c: Crypto, chain: seq<SizedEntry>, op: Op): (seq<SizedEntry>, Report) {
    match op
    case Add(e) =>
      if BlockError(c, chain, e).Some? then (chain, Refused(BlockError(c, chain, e).value))
      else (chain + [e], AddedUpTo(|chain| + 1))
    case Pop =>
      if chain == [] then (chain, Refused(BlockDne))
      else
        var top := chain[|chain| - 1];
        (chain[..|chain| - 1], TakenOff(top.block, Reversed(top.txs)))
  }

  function RunTables(c: Crypto, s: Tables, ops: seq<Op>): (Tables, seq<Report>) {
    if ops == [] then (s, [])
    else
      var (s', log) := RunTables(c, s, ops[..|ops| - 1]);
      var (s'', report) := StepTables(c, s', ops[|ops| - 1]);
      (s'', log + [report])
  }

  function RunChain(c: Crypto, chain: seq<SizedEntry>, ops: seq<Op>): (seq<SizedEntry>, seq<Report>) {
    if ops == [] then (chain, [])
    else
      var (chain', log) := RunChain(c, chain, ops[..|ops| - 1]);
      var (chain'', report) := StepChain(c, chain', ops[|ops| - 1]);
      (chain'', log + [report])
  }

  /** No transaction with unsupported inputs is ever offered. */
  predicate SupportedOps(ops: seq<Op>) {
    forall i | 0 <= i < |ops| && ops[i].Add? :: AllSupported(ops[i].entry)
  }

  /** Whenever the list's top block is to come off, all its transactions are reversible. */
  predicate PopsReversible(c: Crypto, chain: seq<SizedEntry>, ops: seq<Op>) {
    forall i | 0 <= i < |ops| && ops[i].Pop? :: TopReversible(RunChain(c, chain, ops[..i]).0)
  }

  predicate TopReversible(chain: seq<SizedEntry>) {
    chain != [] ==> ReversibleEntry(chain[|chain| - 1])
  }

  predicate SoundChain(c: Crypto, chain: seq<SizedEntry>) {
    ValidChain(c, chain) && forall i | 0 <= i < |chain| :: AllSupported(chain[i])
  }

  lemma ValidChainPrefix(c: Crypto, chain: seq<SizedEntry>, e: SizedEntry)
    requires ValidChain(c, chain + [e])
    ensures ValidChain(c, chain)
  {
    RecsGrow(c, chain, e);
    ValidRecsPrefix(c, Recs(c, chain), EntryRecs(c, e, |chain|));
    ValidLinksGrow(c, chain, e);
  }

  /** `pop_block` on tables that index a valid chain takes them to the chain without its top block. */
  lemma PopIndexes(c: Crypto, chain: seq<SizedEntry>, e: SizedEntry, out: seq<Transaction>)
    requires ValidChain(c, chain + [e]) && ReversibleEntry(e)
    ensures ValidChain(c, chain)
    ensures PopBlock(c, Popping(Index(c, chain + [e]), out))
         == Done(Popping(Index(c, chain), out + Reversed(e.txs)), e.block)
  {
    ValidChainPrefix(c, chain, e);
    AddBlockIndexes(c, chain, e);
    PopUndoesAdd(c, Index(c, chain), e, out);
  }

  lemma AddStepRefines(c: Crypto, chain: seq<SizedEntry>, e: Entry)
    requires SoundChain(c, chain) && AllSupported(e)
    ensures StepTables(c, Index(c, chain), Add(e)).0 == Index(c, StepChain(c, chain, Add(e)).0)
    ensures StepTables(c, Index(c, chain), Add(e)).1 == StepChain(c, chain, Add(e)).1
  {
    AddBlockAnswers(c, chain, e);
    TableSize(Blocks(chain));
  }

  lemma SoundBelow(c: Crypto, chain: seq<SizedEntry>, e: SizedEntry)
    requires SoundChain(c, chain + [e])
    ensures SoundChain(c, chain) && AllSupported(e)
  {
    ValidChainPrefix(c, chain, e);
    var chain' := chain + [e];
    assert chain'[|chain|] == e;
    assert forall i | 0 <= i < |chain| :: chain'[i] == chain[i];
  }

  lemma StepSound(c: Crypto, chain: seq<SizedEntry>, op: Op)
    requires SoundChain(c, chain) && (op.Add? ==> AllSupported(op.entry))
    ensures SoundChain(c, StepChain(c, chain, op).0)
  {
    if op.Add? {
      BlockErrorIff(c, chain, op.entry);
    } else if chain != [] {
      var below, top := chain[..|chain| - 1], chain[|chain| - 1];
      SplitLast(chain);
      SoundBelow(c, below, top);
    }
  }

  /** Popping the top block takes the tables to those of the shorter list exactly when the block is reversible. */
  lemma PopStepIff(c: Crypto, below: seq<SizedEntry>, top: SizedEntry)
    requires SoundChain(c, below + [top])
    ensures var popped := (Index(c, below), TakenOff(top.block, Reversed(top.txs)));
            StepTables(c, Index(c, below + [top]), Pop) == popped <==> ReversibleEntry(top)
  {
    SoundBelow(c, below, top);
    AddBlockIndexes(c, below, top);
    PopReportIff(c, Index(c, below), top, Index(c, below + [top]));
  }

  /** From any tables: the pop of the block just added answers with it and restores the tables, or does not. */
  lemma PopReportIff(c: Crypto, s: Tables, e: SizedEntry, s': Tables)
    requires AddBlock(c, s, e).Done? && AddBlock(c, s, e).state == s'
    ensures StepTables(c, s', Pop) == (s, TakenOff(e.block, Reversed(e.txs))) <==> ReversibleEntry(e)
  {
    PopUndoesAddIff(c, s, e, []);
    if ReversibleEntry(e) {
      PopUndoesAdd(c, s, e, []);
      assert [] + Reversed(e.txs) == Reversed(e.txs);
    }
  }

  lemma PopStepRefinesIff(c: Crypto, chain: seq<SizedEntry>)
    requires SoundChain(c, chain)
    ensures StepTables(c, Index(c, chain), Pop) == (Index(c, StepChain(c, chain, Pop).0), StepChain(c, chain, Pop).1)
            <==> TopReversible(chain)
  {
    if chain == [] {
      PopFromEmpty(c);
    } else {
      var below, top := chain[..|chain| - 1], chain[|chain| - 1];
      SplitLast(chain);
      PopStepIff(c, below, top);
    }
  }

  /** On an empty chain `pop_block` throws, since there is no block record to remove. */
  lemma PopFromEmpty(c: Crypto)
    ensures StepTables(c, Index(c, []), Pop) == (Index(c, []), Refused(BlockDne))
  {
    TableSize(Blocks([]));
  }

  /** What holds at each pop of a run holds at each pop of all but the last call, and at that one. */
  lemma PopsFront(ops: seq<Op>, at: seq<Op> -> bool)
    requires ops != []
    ensures var front, last := ops[..|ops| - 1], ops[|ops| - 1];
            (forall i | 0 <= i < |ops| && ops[i].Pop? :: at(ops[..i])) <==>
            (forall i | 0 <= i < |front| && front[i].Pop? :: at(front[..i])) && (last.Pop? ==> at(front))
  {
    var n := |ops| - 1;
    var front := ops[..n];
    assert forall i | 0 <= i < n :: front[i] == ops[i] && front[..i] == ops[..i];
    if (forall i | 0 <= i < |front| && front[i].Pop? :: at(front[..i])) && (ops[n].Pop? ==> at(front)) {
      forall i | 0 <= i < |ops| && ops[i].Pop? ensures at(ops[..i]) {
        if i < n {
          assert front[i].Pop?;
        }
      }
    }
  }

  lemma PopsReversibleFront(c: Crypto, chain: seq<SizedEntry>, ops: seq<Op>)
    requires ops != []
    ensures var front, last := ops[..|ops| - 1], ops[|ops| - 1];
            PopsReversible(c, chain, ops) <==>
            && PopsReversible(c, chain, front)
            && (last.Pop? ==> TopReversible(RunChain(c, chain, front).0))
  {
    PopsFront(ops, before => TopReversible(RunChain(c, chain, before).0));
  }

  lemma {:induction false} RunSound(c: Crypto, chain: seq<SizedEntry>, ops: seq<Op>)
    requires SoundChain(c, chain) && SupportedOps(ops)
    ensures SoundChain(c, RunChain(c, chain, ops).0)
  {
    if ops != [] {
      var front, last := ops[..|ops| - 1], ops[|ops| - 1];
      RunSound(c, chain, front);
      StepSound(c, RunChain(c, chain, front).0, last);
    }
  }

  /** The tables are those of the list, and every call so far answered as the list does. */
  ghost predicate InStep(c: Crypto, chain: seq<SizedEntry>, ops: seq<Op>) {
    RunTables(c, Index(c, chain), ops) == (Index(c, RunChain(c, chain, ops).0), RunChain(c, chain, ops).1)
  }

  lemma StepInStep(c: Crypto, chain: seq<SizedEntry>, ops: seq<Op>)
    requires SoundChain(c, chain) && SupportedOps(ops) && ops != []
    requires InStep(c, chain, ops[..|ops| - 1])
    ensures InStep(c, chain, ops) <==>
            (ops[|ops| - 1].Pop? ==> TopReversible(RunChain(c, chain, ops[..|ops| - 1]).0))
  {
    var front, last := ops[..|ops| - 1], ops[|ops| - 1];
    RunSound(c, chain, front);
    var now, log := RunChain(c, chain, front).0, RunChain(c, chain, front).1;
    match last
    case Add(e) =>
      AddStepRefines(c, now, e);
    case Pop =>
      PopStepRefinesIff(c, now);
      SameLast(log, StepTables(c, Index(c, now), Pop).1, StepChain(c, now, Pop).1);
  }

  lemma SameLast<T>(xs: seq<T>, x: T, y: T)
    ensures xs + [x] == xs + [y] <==> x == y
  {
    assert (xs + [x])[|xs|] == x && (xs + [y])[|xs|] == y;
  }

  /** The tables and the list stay in step along every run in which only reversible blocks are popped. */
  lemma {:induction false} RunRefines(c: Crypto, chain: seq<SizedEntry>, ops: seq<Op>)
    requires SoundChain(c, chain) && SupportedOps(ops) && PopsReversible(c, chain, ops)
    ensures RunTables(c, Index(c, chain), ops).0 == Index(c, RunChain(c, chain, ops).0)
    ensures RunTables(c, Index(c, chain), ops).1 == RunChain(c, chain, ops).1
    ensures SoundChain(c, RunChain(c, chain, ops).0)
  {
    RunSound(c, chain, ops);
    if ops != [] {
      PopsReversibleFront(c, chain, ops);
      RunRefines(c, chain, ops[..|ops| - 1]);
      StepInStep(c, chain, ops);
    }
  }

  lemma PrefixRefines(c: Crypto, chain: seq<SizedEntry>, ops: seq<Op>, k: nat)
    requires k <= |ops| && SoundChain(c, chain) && SupportedOps(ops) && PopsReversible(c, chain, ops)
    ensures InStep(c, chain, ops[..k])
  {
    var front := ops[..k];
    assert forall i | 0 <= i < k :: front[i] == ops[i] && front[..i] == ops[..i];
    RunRefines(c, chain, front);
  }

  lemma PoppedInStep(c: Crypto, chain: seq<SizedEntry>, ops: seq<Op>, i: nat)
    requires i < |ops| && ops[i].Pop? && SoundChain(c, chain) && SupportedOps(ops)
    requires InStep(c, chain, ops[..i]) && InStep(c, chain, ops[..i + 1])
    ensures TopReversible(RunChain(c, chain, ops[..i]).0)
  {
    var front := ops[..i + 1];
    assert front[..i] == ops[..i] && front[i] == ops[i] && |front| - 1 == i;
    assert SupportedOps(front);
    StepInStep(c, chain, front);
  }

  /** And along no other run of supported blocks. */
  lemma RunRefinesIff(c: Crypto, chain: seq<SizedEntry>, ops: seq<Op>)
    requires SoundChain(c, chain) && SupportedOps(ops)
    ensures (forall k | 0 <= k <= |ops| :: InStep(c, chain, ops[..k])) <==> PopsReversible(c, chain, ops)
  {
    if PopsReversible(c, chain, ops) {
      forall k | 0 <= k <= |ops| ensures InStep(c, chain, ops[..k]) {
        PrefixRefines(c, chain, ops, k);
      }
    } else {
      var i :| 0 <= i < |ops| && ops[i].Pop? && !TopReversible(RunChain(c, chain, ops[..i]).0);
      if InStep(c, chain, ops[..i]) && InStep(c, chain, ops[..i + 1]) {
        PoppedInStep(c, chain, ops, i);
        assert false;
      }
    }
  }

  /** It is enough that every block ever offered is reversible. */
  lemma {:induction false} ReversibleOpsSuffice(c: Crypto, ops: seq<Op>)
    requires forall i | 0 <= i < |ops| && ops[i].Add? :: ReversibleEntry(ops[i].entry)
    ensures SupportedOps(ops) && PopsReversible(c, [], ops)
    ensures forall i | 0 <= i < |RunChain(c, [], ops).0| :: ReversibleEntry(RunChain(c, [], ops).0[i])
  {
    if ops != [] {
      ReversibleOpsSuffice(c, ops[..|ops| - 1]);
      PopsReversibleFront(c, [], ops);
    }
  }

  lemma EmptyIndex(c: Crypto)
    ensures Index(c, []) == EMPTY && SoundChain(c, [])
  {
    var chain: seq<SizedEntry> := [];
    assert Table(Blocks(chain)) == map[] && Table(Infos(c, chain)) == map[];
    assert Recs(c, chain) == [] && AllOuts(c, []) == [];
    assert Table(RecTxs([])) == map[] && Table(RecRanks(c, [])) == map[] && Table(OutTxs([])) == map[];
  }

  /** Replaying `add_block` over a list of blocks. */
  function Replay(c: Crypto, s: Tables, chain: seq<SizedEntry>): Outcome<Tables, ()> {
    if chain == [] then Done(s, ())
    else
      var below := Replay(c, s, chain[..|chain| - 1]);
      if below.Threw? then below
      else
        match AddBlock(c, below.state, chain[|chain| - 1])
        case Threw(s', e) => Threw(s', e)
        case Done(s', _) => Done(s', ())
  }

  // -------------------------------------------------- what a run keeps

  /** What every transaction that goes in keeps, and block records do not enter into, a completed `add_block` keeps. */
  lemma AddBlockKeeps(c: Crypto, s: Tables, e: SizedEntry, inv: Tables -> bool)
    requires forall t, item | (item == MinerOf(c, e) || item in ListedOf(e)) && inv(t) && AddOne(c, t, item).Done? ::
               inv(AddOne(c, t, item).state)
    requires forall t: Tables, b | inv(t) :: inv(t.(blocks := b))
    requires inv(s) && AddBlock(c, s, e).Done?
    ensures inv(AddBlock(c, s, e).state)
  {
    ForwardKeeps(Adder(c), AddOne(c, s, MinerOf(c, e)).state, ListedOf(e), inv);
  }

  /** What every transaction that goes out keeps, a completed `pop_block` keeps. */
  lemma PopBlockKeeps(c: Crypto, p: Popping, block: Block, inv: Tables -> bool)
    requires PopBlock(c, p).Done? && GetTopBlock(p.tables.blocks).value == block
    requires forall t, hash | (hash in block.txHashes || hash == c.txHash(block.minerTx)) && inv(t)
               && RemoveTransaction(t, hash).Done? :: inv(RemoveTransaction(t, hash).state)
    requires forall t: Tables, b | inv(t) :: inv(t.(blocks := b))
    requires inv(p.tables)
    ensures inv(PopBlock(c, p).state.tables)
  {
    var p' := p.(tables := p.tables.(blocks := RemoveBlockRecord(p.tables.blocks).state));
    BackwardKeeps(PopOne, p', block.txHashes, (q: Popping) => inv(q.tables));
  }

  /** What every call keeps, whether it completes or not, every run keeps. */
  lemma {:induction false} RunKeeps(c: Crypto, s: Tables, ops: seq<Op>, inv: Tables -> bool)
    requires forall s, op | op in ops && inv(s) :: inv(StepTables(c, s, op).0)
    requires inv(s)
    ensures inv(RunTables(c, s, ops).0)
  {
    if ops != [] {
      RunKeeps(c, s, ops[..|ops| - 1], inv);
    }
  }

  lemma {:induction false} LogLength(c: Crypto, s: Tables, ops: seq<Op>)
    ensures |RunTables(c, s, ops).1| == |ops|
  {
    if ops != [] {
      LogLength(c, s, ops[..|ops| - 1]);
    }
  }

  // -------------------------------------------------- adds, then as many pops

  function BlockAdder(c: Crypto): Step<Tables, Entry> {
    (s, e) => Added(c, s, e)
  }

  function Added(c: Crypto, s: Tables, e: Entry): Outcome<Tables, ()> {
    match AddBlock(c, s, e)
    case Threw(s', err) => Threw(s', err)
    case Done(s', _) => Done(s', ())
  }

  function BlockPopper(c: Crypto): Popping -> Outcome<Popping, Block> {
    p => PopBlock(c, p)
  }

  /** Popping `k` times into one vector; the value is the list of blocks popped. */
  function PopAll(pop: Popping -> Outcome<Popping, Block>, p: Popping, k: nat): Outcome<Popping, seq<Block>>
    decreases k
  {
    if k == 0 then Done(p, [])
    else
      match pop(p)
      case Threw(p', e) => Threw(p', e)
      case Done(p', block) =>
        match PopAll(pop, p', k - 1)
        case Threw(p'', e) => Threw(p'', e)
        case Done(p'', blocks) => Done(p'', [block] + blocks)
  }

  /** The listed transactions in the order in which `add_block` received them. */
  function Received(entries: seq<Entry>): seq<Transaction> {
    if entries == [] then [] else Received(entries[..|entries| - 1]) + entries[|entries| - 1].txs
  }

  function BlocksOf(entries: seq<Entry>): seq<Block> {
    if entries == [] then [] else BlocksOf(entries[..|entries| - 1]) + [entries[|entries| - 1].block]
  }

  lemma ReversedConcat<T>(xs: seq<T>, ys: seq<T>)
    ensures Reversed(xs + ys) == Reversed(ys) + Reversed(xs)
  {
  }

  lemma {:induction false} PopsAllBack(
      add: Step<Tables, Entry>, pop: Popping -> Outcome<Popping, Block>,
      s: Tables, entries: seq<Entry>, out: seq<Transaction>)
    requires forall s, out, e | e in entries && add(s, e).Done? ::
               pop(Popping(add(s, e).state, out)) == Done(Popping(s, out + Reversed(e.txs)), e.block)
    requires Forward(add, s, entries).Done?
    ensures PopAll(pop, Popping(Forward(add, s, entries).state, out), |entries|)
         == Done(Popping(s, out + Reversed(Received(entries))), Reversed(BlocksOf(entries)))
    decreases |entries|
  {
    if entries == [] {
      assert out + Reversed(Received(entries)) == out;
    } else {
      var n := |entries| - 1;
      var front, last := entries[..n], entries[n];
      PopsAllBack(add, pop, s, front, out + Reversed(last.txs));
      ReversedConcat(Received(front), last.txs);
      ReversedConcat(BlocksOf(front), [last.block]);
      assert (out + Reversed(last.txs)) + Reversed(Received(front)) == out + Reversed(Received(entries));
    }
  }

  /**
    As many pops as adds restore the tables, from any tables. The vector grows by what
    `add_block` received, in reverse, and the blocks come back in reverse.
   */
  lemma PopAllUndoesAddAll(c: Crypto, s: Tables, entries: seq<Entry>, out: seq<Transaction>)
    requires Forward(BlockAdder(c), s, entries).Done?
    requires forall e | e in entries :: ReversibleEntry(e)
    ensures PopAll(BlockPopper(c), Popping(Forward(BlockAdder(c), s, entries).state, out), |entries|)
         == Done(Popping(s, out + Reversed(Received(entries))), Reversed(BlocksOf(entries)))
  {
    forall s, out, e | e in entries && BlockAdder(c)(s, e).Done?
      ensures BlockPopper(c)(Popping(BlockAdder(c)(s, e).state, out))
           == Done(Popping(s, out + Reversed(e.txs)), e.block)
    {
      PopUndoesAdd(c, s, e, out);
    }
    PopsAllBack(BlockAdder(c), BlockPopper(c), s, entries, out);
  }
}
