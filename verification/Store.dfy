/**
  The tables of the LMDB backend and the effect of every operation on them, as
  functions from the tables before a call to the tables after it. A call that
  throws also leaves tables behind: the ones written before the exception.

  An LMDB table is a map. `mdb_stat(...).ms_entries` is the map's size, and a
  put with `MDB_APPEND` or `MDB_APPENDDUP` fails unless the new key is greater
  than every key in the table.
 */
module Store {
  import opened CryptonoteTypes
  import opened Outcomes

  predicate Appendable<V>(table: map<nat, V>, key: nat) {
    forall k | k in table :: k < key
  }

  // ---------------------------------------------------------------- outputs

  datatype OutTx = OutTx(hash: Hash, local: nat)

  datatype OutKey = OutKey(outputId: nat, key: Key, unlockTime: nat, height: nat, commitment: Key)

  /** The duplicates stored under one amount, by amount index. LMDB keeps no key without data. */
  type AmountTable = m: map<nat, OutKey> | m.Keys != {}
    witness var m := map[0 := OutKey(0, Key(0), 0, 0, Key(0))]; assert 0 in m; m

  datatype OutputTables = OutputTables(txs: map<nat, OutTx>, amounts: map<nat, AmountTable>)

  function TableOf(t: OutputTables, amount: nat): map<nat, OutKey> {
    if amount in t.amounts then t.amounts[amount] else map[]
  }

  /** An output as `add_output` receives it. */
  datatype NewOut = NewOut(hash: Hash, out: TxOut, local: nat, unlockTime: nat, height: nat, commitment: Key)

  function AddOutput(t: OutputTables, o: NewOut): Outcome<OutputTables, nat> {
    var id := |t.txs|;
    var table := TableOf(t, o.out.amount);
    var index := |table|;
    if !o.out.target.TxOutToKey? then Threw(t, DbError)
    else if !Appendable(t.txs, id) then Threw(t, DbError)
    else
      var txs := t.txs[id := OutTx(o.hash, o.local)];
      if !Appendable(table, index) then Threw(OutputTables(txs, t.amounts), DbError)
      else
        var entry := OutKey(id, o.out.target.key, o.unlockTime, o.height, o.commitment);
        Done(OutputTables(txs, t.amounts[o.out.amount := table[index := entry]]), index)
  }

  function DropEntry(amounts: map<nat, AmountTable>, amount: nat, index: nat): map<nat, AmountTable>
    requires amount in amounts
  {
    var table: map<nat, OutKey> := amounts[amount];
    var rest := table - {index};
    if rest.Keys == {} then amounts - {amount} else amounts[amount := rest]
  }

  function RemoveOutput(t: OutputTables, amount: nat, index: nat): Outcome<OutputTables, ()> {
    if index !in TableOf(t, amount) then Threw(t, OutputDne)
    else
      var id := t.amounts[amount][index].outputId;
      if id !in t.txs then Threw(t, DbError)
      else Done(OutputTables(t.txs - {id}, DropEntry(t.amounts, amount, index)), ())
  }

  // ----------------------------------------------------------- transactions

  datatype TxData = TxData(id: nat, unlockTime: nat, height: nat)

  datatype TxTables = TxTables(
    txs: map<nat, Transaction>,
    indices: map<Hash, TxData>,
    outputs: map<nat, seq<nat>>)

  function GetTx(t: TxTables, hash: Hash): Option<Transaction> {
    if hash in t.indices && t.indices[hash].id in t.txs
    then Some(t.txs[t.indices[hash].id])
    else None
  }

  function AddTransactionData(t: TxTables, height: nat, tx: Transaction, hash: Hash): Outcome<TxTables, nat> {
    var id := |t.txs|;
    if hash in t.indices then Threw(t, TxExists)
    else
      var indexed := t.(indices := t.indices[hash := TxData(id, tx.unlockTime, height)]);
      if !Appendable(t.txs, id) then Threw(indexed, DbError)
      else Done(indexed.(txs := t.txs[id := tx]), id)
  }

  function AddOutputIndices(t: TxTables, id: nat, amountIndices: seq<nat>): Outcome<TxTables, ()> {
    if !Appendable(t.outputs, id) then Threw(t, DbError)
    else Done(t.(outputs := t.outputs[id := amountIndices]), ())
  }

  // ----------------------------------------------------------------- blocks

  datatype BlockInfo = BlockInfo(timestamp: nat, coins: nat, size: nat, difficulty: nat, hash: Hash)

  datatype BlockTables = BlockTables(
    blocks: map<nat, Block>,
    info: map<nat, BlockInfo>,
    heights: map<Hash, nat>)

  /** A block with the arguments that `add_block` takes beside it. */
  datatype Entry = Entry(block: Block, size: nat, difficulty: nat, coins: nat, txs: seq<Transaction>)

  function InfoOf(c: Crypto, e: Entry): BlockInfo {
    BlockInfo(e.block.timestamp, e.coins, e.size, e.difficulty, c.blockHash(e.block))
  }

  function AddBlockRecord(c: Crypto, t: BlockTables, e: Entry): Outcome<BlockTables, ()> {
    var height := |t.blocks|;
    var hash := c.blockHash(e.block);
    if hash in t.heights then Threw(t, BlockExists)
    else if height > 0 && e.block.prevId !in t.heights then Threw(t, DbError)
    else if height > 0 && t.heights[e.block.prevId] != height - 1 then Threw(t, BlockParentDne)
    else if !Appendable(t.blocks, height) then Threw(t, DbError)
    else
      var stored := t.(blocks := t.blocks[height := e.block]);
      if !Appendable(t.info, height) then Threw(stored, DbError)
      else Done(stored.(info := t.info[height := InfoOf(c, e)], heights := t.heights[hash := height]), ())
  }

  function RemoveBlockRecord(t: BlockTables): Outcome<BlockTables, ()> {
    var height := |t.blocks|;
    if height == 0 || height - 1 !in t.info then Threw(t, BlockDne)
    else
      var hash := t.info[height - 1].hash;
      if hash !in t.heights then Threw(t, DbError)
      else
        var unlisted := t.(heights := t.heights - {hash});
        if height - 1 !in t.blocks then Threw(unlisted, DbError)
        else Done(unlisted.(blocks := t.blocks - {height - 1}, info := t.info - {height - 1}), ())
  }

  function GetTopBlock(t: BlockTables): Outcome<BlockTables, Block> {
    var height := |t.blocks|;
    if height == 0 then Done(t, NULL_BLOCK)
    else if height - 1 !in t.blocks then Threw(t, BlockDne)
    else Done(t, t.blocks[height - 1])
  }

  // ---------------------------------------------- composed table operations

  datatype Tables = Tables(blocks: BlockTables, txs: TxTables, outs: OutputTables, spent: set<KeyImage>)

  const EMPTY := Tables(BlockTables(map[], map[], map[]), TxTables(map[], map[], map[]), OutputTables(map[], map[]), {})

  function Height(s: Tables): nat {
    |s.blocks.blocks|
  }

  /**
    The input loop of `add_transaction` from input `i` on: `true` when it runs to
    the end, `false` when it meets an input of an unsupported kind.
   */
  function ScanInputs(spent: set<KeyImage>, vin: seq<TxIn>, i: nat): Outcome<set<KeyImage>, bool>
    requires i <= |vin|
    decreases |vin| - i
  {
    if i == |vin| then Done(spent, true)
    else
      match vin[i]
      case TxInToKey(_, _, image) =>
        if image in spent then Threw(spent, KeyImageExists) else ScanInputs(spent + {image}, vin, i + 1)
      case TxInGen(_) => ScanInputs(spent, vin, i + 1)
      case _ => Done(spent, false)
  }

  /** The amount under which output `i` of `tx` is filed. */
  function StoredAmount(tx: Transaction, i: nat): nat
    requires i < |tx.vout|
  {
    if HasGen(tx.vin) then 0 else tx.vout[i].amount
  }

  /** The call of `add_output` for output `i`; `None` when its mask lies past the end of `outPk`. */
  function NewOutOf(c: Crypto, tx: Transaction, hash: Hash, height: nat, i: nat): Option<NewOut>
    requires i < |tx.vout|
  {
    var out := TxOut(StoredAmount(tx, i), tx.vout[i].target);
    if HasGen(tx.vin) then Some(NewOut(hash, out, i, tx.unlockTime, height, c.zeroCommit(tx.vout[i].amount)))
    else if i < |tx.masks| then Some(NewOut(hash, out, i, tx.unlockTime, height, tx.masks[i]))
    else None
  }

  function NewOuts(c: Crypto, tx: Transaction, hash: Hash, height: nat): seq<Option<NewOut>> {
    seq(|tx.vout|, i requires 0 <= i < |tx.vout| => NewOutOf(c, tx, hash, height, i))
  }

  /** The output tables together with the vector of amount indices issued so far. */
  datatype Filing = Filing(tables: OutputTables, issued: seq<nat>)

  /** One round of the output loop of `add_transaction`. */
  function FileOne(f: Filing, o: Option<NewOut>): Outcome<Filing, ()> {
    if o.None? then Threw(f, Undefined)
    else
      match AddOutput(f.tables, o.value)
      case Threw(t, e) => Threw(Filing(t, f.issued), e)
      case Done(t, index) => Done(Filing(t, f.issued + [index]), ())
  }

  function FileOutputs(c: Crypto, t: OutputTables, tx: Transaction, hash: Hash, height: nat): Outcome<Filing, ()> {
    Forward(FileOne, Filing(t, []), NewOuts(c, tx, hash, height))
  }

  /** What `add_transaction` does once every input has been accepted. */
  function RecordTransaction(c: Crypto, s: Tables, tx: Transaction, hash: Hash): Outcome<Tables, bool> {
    match AddTransactionData(s.txs, Height(s), tx, hash)
    case Threw(t, e) => Threw(s.(txs := t), e)
    case Done(t, id) =>
      match FileOutputs(c, s.outs, tx, hash, Height(s))
      case Threw(f, e) => Threw(s.(txs := t, outs := f.tables), e)
      case Done(f, _) =>
        match AddOutputIndices(t, id, f.issued)
        case Threw(t', e) => Threw(s.(txs := t', outs := f.tables), e)
        case Done(t', _) => Done(s.(txs := t', outs := f.tables), true)
  }

  /** The value says whether the transaction was recorded; `false` is the aborted case. */
  function AddTransaction(c: Crypto, s: Tables, tx: Transaction, hash: Hash): Outcome<Tables, bool> {
    match ScanInputs(s.spent, tx.vin, 0)
    case Threw(spent, e) => Threw(s.(spent := spent), e)
    case Done(spent, accepted) =>
      if accepted then RecordTransaction(c, s.(spent := spent), tx, hash)
      else Done(s.(spent := spent - Images(tx.vin)), false)
  }

  /** The amount under which the backend looks for output `i` when it removes `tx`. */
  function RemovalAmount(tx: Transaction, i: nat): nat
    requires i < |tx.vout|
  {
    if |tx.vin| == 1 && tx.vin[0].TxInGen? then 0 else tx.vout[i].amount
  }

  /** Where the backend looks for an output; no index when the list of them is too short. */
  datatype Slot = Slot(amount: nat, index: Option<nat>)

  function Slots(tx: Transaction, amountIndices: seq<nat>): seq<Slot> {
    seq(|tx.vout|, i requires 0 <= i < |tx.vout| =>
      Slot(RemovalAmount(tx, i), if i < |amountIndices| then Some(amountIndices[i]) else None))
  }

  /** One round of the backend's output loop. */
  function ClearSlot(t: OutputTables, slot: Slot): Outcome<OutputTables, ()> {
    if slot.index.None? then Threw(t, Undefined) else RemoveOutput(t, slot.amount, slot.index.value)
  }

  function RemoveTxOutputs(t: TxTables, o: OutputTables, id: nat, tx: Transaction): Outcome<OutputTables, ()> {
    if id !in t.outputs then Threw(o, Undefined)
    else if t.outputs[id] == [] && tx.vout != [] then Threw(o, DbError)
    else Backward(ClearSlot, o, Slots(tx, t.outputs[id]))
  }

  function RemoveTransactionData(s: Tables, hash: Hash, tx: Transaction): Outcome<Tables, ()> {
    if hash !in s.txs.indices then Threw(s, TxDne)
    else
      var id := s.txs.indices[hash].id;
      if id !in s.txs.txs then Threw(s, DbError)
      else
        var t := s.txs.(txs := s.txs.txs - {id});
        match RemoveTxOutputs(t, s.outs, id, tx)
        case Threw(o, e) => Threw(s.(txs := t, outs := o), e)
        case Done(o, _) =>
          Done(s.(txs := t.(outputs := t.outputs - {id}, indices := t.indices - {hash}), outs := o), ())
  }

  function RemoveTransaction(s: Tables, hash: Hash): Outcome<Tables, ()> {
    match GetTx(s.txs, hash)
    case None => Threw(s, TxDne)
    case Some(tx) => RemoveTransactionData(s.(spent := s.spent - Images(tx.vin)), hash, tx)
  }

  // --------------------------------------------------------- whole blocks

  /** A listed transaction with the hash the block gives for it. */
  datatype Listed = Listed(hash: Hash, tx: Transaction)

  function ListedOf(e: Entry): seq<Listed>
    requires |e.block.txHashes| == |e.txs|
  {
    seq(|e.txs|, i requires 0 <= i < |e.txs| => Listed(e.block.txHashes[i], e.txs[i]))
  }

  /** One round of the loop of `add_block`. */
  function AddOne(c: Crypto, s: Tables, item: Listed): Outcome<Tables, ()> {
    match AddTransaction(c, s, item.tx, item.hash)
    case Threw(s', e) => Threw(s', e)
    case Done(s', _) => Done(s', ())
  }

  function Adder(c: Crypto): Step<Tables, Listed> {
    (s, item) => AddOne(c, s, item)
  }

  /** The transactions of a block, miner transaction first. */
  function AddBlockTxs(c: Crypto, s: Tables, e: Entry): Outcome<Tables, ()>
    requires |e.block.txHashes| == |e.txs|
  {
    match AddOne(c, s, Listed(c.txHash(e.block.minerTx), e.block.minerTx))
    case Threw(s', err) => Threw(s', err)
    case Done(s', _) => Forward(Adder(c), s', ListedOf(e))
  }

  /** `BlockchainDB::add_block`; the value is the height before the call. */
  function AddBlock(c: Crypto, s: Tables, e: Entry): Outcome<Tables, nat> {
    if |e.block.txHashes| != |e.txs| then Threw(s, SizeMismatch)
    else
      match AddBlockTxs(c, s, e)
      case Threw(s', err) => Threw(s', err)
      case Done(s', _) =>
        match AddBlockRecord(c, s'.blocks, e)
        case Threw(b, err) => Threw(s'.(blocks := b), err)
        case Done(b, _) => Done(s'.(blocks := b), Height(s))
  }

  /** The tables together with the caller's vector that `pop_block` appends to. */
  datatype Popping = Popping(tables: Tables, txs: seq<Transaction>)

  /** One round of the loop of `pop_block`: the transaction goes to the vector, then off the tables. */
  function PopOne(p: Popping, hash: Hash): Outcome<Popping, ()> {
    match GetTx(p.tables.txs, hash)
    case None => Threw(p, TxDne)
    case Some(tx) =>
      var popped := RemoveTransaction(p.tables, hash);
      var p' := Popping(popped.state, p.txs + [tx]);
      if popped.Threw? then Threw(p', popped.error) else Done(p', ())
  }

  /** `BlockchainDB::pop_block`; the value is the popped block. */
  function PopBlock(c: Crypto, p: Popping): Outcome<Popping, Block> {
    match GetTopBlock(p.tables.blocks)
    case Threw(_, e) => Threw(p, e)
    case Done(_, block) =>
      match RemoveBlockRecord(p.tables.blocks)
      case Threw(b, e) => Threw(p.(tables := p.tables.(blocks := b)), e)
      case Done(b, _) => PopBlockTxs(c, p.(tables := p.tables.(blocks := b)), block)
  }

  function PopBlockTxs(c: Crypto, p: Popping, block: Block): Outcome<Popping, Block> {
    match Backward(PopOne, p, block.txHashes)
    case Threw(p', e) => Threw(p', e)
    case Done(p', _) =>
      match RemoveTransaction(p'.tables, c.txHash(block.minerTx))
      case Threw(s, e) => Threw(p'.(tables := s), e)
      case Done(s, _) => Done(p'.(tables := s), block)
  }

  // ------------------------------------- the backend's database transactions

  /** `BlockchainLMDB::add_block`: an exception rolls the tables back; the value is the new height. */
  function AddBlockAtomic(c: Crypto, s: Tables, e: Entry): Outcome<Tables, nat> {
    match AddBlock(c, s, e)
    case Threw(_, err) => Threw(s, err)
    case Done(s', _) => Done(s', Height(s) + 1)
  }

  /** `BlockchainLMDB::pop_block`: an exception rolls back the tables but not the caller's vector. */
  function PopBlockAtomic(c: Crypto, p: Popping): Outcome<Popping, Block> {
    match PopBlock(c, p)
    case Threw(p', e) => Threw(Popping(p.tables, p'.txs), e)
    case Done(p', block) => Done(p', block)
  }
}
