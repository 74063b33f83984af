# Verified model of the block store and the translation embedder

This project models two parts of the repository and proves what they do.

**The block store.** `BlockchainDB` (`src/blockchain_db/blockchain_db.cpp`) over the LMDB
backend (`src/blockchain_db/lmdb/db_lmdb.cpp`) keeps several tables in step: blocks by
height, block information, heights by block hash, transactions by id, transaction data by
hash, amount indices by transaction id, outputs by global id, outputs by amount, and the
set of spent key images. `add_block` fills them and `pop_block` takes the top block out
again.

- `CryptonoteTypes` holds transactions and blocks. Hashing and `zeroCommit` are a parameter
  of type `Crypto`; every result holds for all such functions, injective or not.
- `Outcomes` holds calls that may throw and the two kinds of loop made of them. A call that
  throws still leaves a state behind.
- `Store` gives the effect of each operation on the tables, with the writes in the order of
  the source, so that the tables left by an exception are the ones the source leaves. An
  LMDB table is a map, and a put with `MDB_APPEND` or `MDB_APPENDDUP` fails unless its key is
  greater than all others. Nothing about the tables is assumed anywhere in `Store`,
  `Reversal`, `ReversalLimits`, `Aborts` and `Conservation`: their results hold for every
  value of them.
- `Database` is the class with the source's loops. Each method is proved to do what its
  counterpart in `Store` says, on the normal and on the exceptional paths. `Client` calls it.
- `Reversal` proves that popping undoes adding, last in first out, and `ReversalLimits` that
  it does so for no other blocks. `Aborts` treats transactions with unsupported inputs.
- `Ledger` says what the tables hold as a function of the plain list of blocks, and what a
  valid list is. `Refinement` proves that `add_block` completes exactly when the longer list
  is valid, and then yields the tables of the longer list. `Refusals` proves which exception
  it throws otherwise and which tables that leaves. `Runs` carries this over to whole runs,
  with every answer of every call, and says for which runs it holds.
- `Conservation`, `LoggedRuns` and `SpentImages` are about runs in general. The first asks
  nothing of a run or of the tables it starts from. The second follows the chain that the
  calls report, through pops that spoil the output tables. The third follows key images.
- `HandedBack` says which transactions pops hand back, and `StuckBlocks` which blocks never
  come off again, both after any run at all.
- `PopAnswers` says which exceptions a pop can end with after any run, and what the caller's
  vector then holds. `KnownBlocks` is about blocks that are offered again.
- `Reachable` says which runs leave the tables of a replay, and what holds then. `Gaps` says
  which runs leave a gap among the transaction ids. `Correspondence` and `CorrespondingRuns`
  say after which runs recorded outputs, entries and output ids correspond. Nothing is asked
  of the blocks that such a run offers. `Positions` holds what these share.
- `MixedCoinbase`, `MisfiledPops`, `AbortedBlocks` and `WrongHandedBack` show, in general and
  at inputs, what happens where the conditions are not met.

**The embedder.** `translations/generate_translations_header.c` writes files as C++ string
literals into a header, with a table of them and a lookup function.

- `Generator` is the program: the text it writes, and the loops that write it.
- `CxxReader` reads string literals by the rules of ISO/IEC 14882:2011: hexadecimal escapes
  take as many digits as there are (section 2.14.3), escapes are replaced before adjacent
  literals are joined (section 2.2, phases 5 and 6, and section 2.14.5). `HeaderReader`
  reads the include guard, the definitions, the struct declaration and the table of a header;
  the order of the struct's fields decides which pointer of a row is the name.
- `LookupReader` reads the lookup function into a syntax tree and says what a call of it does.
  The readers have tokens of their own and share no text with the program.
- `ListReading`, `EmbeddedData`, `EmbeddedNames`, `EmbeddedLookup`, `EmbeddedFrame` and
  `EmbeddedFiles` prove that the reader gets back what the program was given, and that the
  function it reads finds it. `ReaderSuffix` and `EmbeddedLimits` prove that it gets this back
  only for plain names and files that are not empty.

## Findings

- `pop_block` is not always the inverse of `add_block`. `add_transaction` files outputs under
  amount 0 when *some* input is `txin_gen`; the backend looks for them under amount 0 only
  when `txin_gen` is the *only* input. For a supported transaction with `txin_gen` beside
  other inputs and an output of nonzero amount, removal either throws `OUTPUT_DNE` or deletes
  an output of another transaction. `PopUndoesAddIff` gives the exact condition for a block,
  `RunRefinesIff` for a run, and `MisfiledOutputHitsAnother` the effect. Outputs, entries and
  ids correspond after a run if and only if no such transaction was removed in it
  (`OutputsCorrespondIff`), and no later call can repair this (`StrayNeverFalls`).
  `MixedBlockIsNotUndone` is an input at which the removal throws, and `MixedPopHitsAnother`
  one at which it completes.
- A pop that throws is rolled back, but the caller's vector is not: it keeps the transactions
  popped so far, and the misfiled one that stopped the pop as well (`VectorKeepsPopped`,
  `PopStopsAtMisfiled`; `FailedPopHandsOut` and `MisfiledHandedOut` at inputs).
- A transaction with an unsupported input is given up silently, and `add_block` completes.
  If the hashes of the block were new, the block then never comes off again, whatever calls
  follow (`StuckForever`): each pop of it throws, and the backend rolls back
  (`PopCompletesIffRecorded`, and `StuckBlock` at an input).
- A transaction that is given up is not checked for its hash, so it may go under a hash that
  a block below uses. The pop of such a block can complete. It then hands back the other
  block's transaction and takes that one out of the tables (`OtherHandedBack`, at an input).
  `PopHandsBackIff` gives the exact condition, after any run: a completed pop hands back what
  the block came with if and only if none of its listed transactions was given up. The
  transaction that went may leave a gap among the ids, and then nothing supported goes in any
  more (`GapRefusesBlocks`, and `StoreIsJammed` at an input). `RunLeavesNoGapIff` says which
  runs leave none.
- Giving a transaction up removes *all* its key images from the spent set, also the ones that
  were spent before; `AbortClearsImages` says exactly when the old set is restored,
  `HarmlessIff` which transactions can never do this damage, and `ImageSpentTwice` gives a
  block after which two recorded transactions spend the same image.
- For an empty file the embedder writes a single quote that nothing closes on its line, and
  names go into the header unescaped. `HeaderRoundTripIff` says that the header reads back as
  the files exactly when every name is plain and no file is empty; `DataReadsBackIff` and
  `NameReadsBackIff` say the same of a single definition.
- The interface documents the result of `add_block` as the height after the addition.
  `BlockchainDB::add_block` returns the height before it, and `BlockchainLMDB::add_block`
  the height after it. The model follows the code.

## Model

| member | source | states |
|---|---|---|
| Database.BlockchainDB.AddSpentKey | src/blockchain_db/lmdb/db_lmdb.cpp:832-847 | An image goes into the spent set; it throws `KEY_IMAGE_EXISTS` exactly when the image was there |
| Database.BlockchainDB.RemoveSpentKey | src/blockchain_db/lmdb/db_lmdb.cpp:849-867 | An image leaves the spent set, and an absent one makes no difference |
| Database.BlockchainDB.RemoveSpentKeys | src/blockchain_db/blockchain_db.cpp:152-158 | The loop over `vin` removes exactly the `txin_to_key` images |
| Database.BlockchainDB.AddOutput | src/blockchain_db/blockchain_db.cpp:173-184 | One output is filed with amount and commitment as the `miner_tx` flag demands, or throws |
| Database.BlockchainDB.AddOutputs | src/blockchain_db/blockchain_db.cpp:169-185 | The loop over `vout` files the outputs in order and collects their amount indices, or stops at the first exception |
| Database.BlockchainDB.RecordTransaction | src/blockchain_db/blockchain_db.cpp:163-186 | Transaction data, outputs and index list are written in this order, with the state of an exception at each step |
| Database.BlockchainDB.AddTransaction | src/blockchain_db/blockchain_db.cpp:123-187 | The three loops, the roll-back on an unsupported input, and every exception leave the specified tables |
| Database.BlockchainDB.RemoveTxOutputs | src/blockchain_db/lmdb/db_lmdb.cpp:772-792 | Outputs are removed last first, under amount 0 only if `txin_gen` is the only input |
| Database.BlockchainDB.RemoveTransactionData | src/blockchain_db/lmdb/db_lmdb.cpp:622-664 | The three transaction tables and the outputs lose the transaction, in the source's order |
| Database.BlockchainDB.RemoveTransaction | src/blockchain_db/blockchain_db.cpp:263-277 | Spent images and data of the transaction found under the hash are removed, or `TX_DNE` is thrown |
| Database.BlockchainDB.AddListed | src/blockchain_db/blockchain_db.cpp:213-220 | The listed transactions are added in order under their listed hashes, up to the first exception |
| Database.BlockchainDB.AddBlock | src/blockchain_db/blockchain_db.cpp:189-237 | Size check, miner transaction, listed transactions, block record; the result is the height before |
| Database.BlockchainDB.PopOne | src/blockchain_db/blockchain_db.cpp:252-253 | The transaction goes to the caller's vector and then off the tables |
| Database.BlockchainDB.PopListed | src/blockchain_db/blockchain_db.cpp:250-254 | The listed transactions are popped from the last one down, up to the first exception |
| Database.BlockchainDB.PopBlock | src/blockchain_db/blockchain_db.cpp:244-256 | Top block, block record, listed transactions, miner transaction; vector and tables also when it throws |
| Database.BlockchainDB.AddBlockAtomic | src/blockchain_db/lmdb/db_lmdb.cpp:2790-2812 | As `add_block`, but an exception leaves the tables as they were; the result is the height after |
| Database.BlockchainDB.PopBlockAtomic | src/blockchain_db/lmdb/db_lmdb.cpp:2814-2831 | As `pop_block`, but an exception leaves the tables, not the vector, as they were |
| Client.Call | src/blockchain_db/lmdb/db_lmdb.cpp:2790-2831 | One call on the object is one step of a run on its tables, with the same answer |
| Client.Run | src/blockchain_db/lmdb/db_lmdb.cpp:2790-2831 | Calls on the object, one after the other, are a run on its tables, with the same log of heights, blocks, transactions and exceptions |
| Client.AddThenPop | src/blockchain_db/lmdb/db_lmdb.cpp:2790-2831 | The height that comes back is one more than before the call, and an object that adds a block and pops it is back where it was if and only if the block is reversible, and hands the block and its transactions back |
| Reversal.CoherentAmounts | src/blockchain_db/lmdb/db_lmdb.cpp:785-790 | A condition on inputs and amounts that holds exactly when filing and removal use the same amount for every output |
| Reversal.RemoveOutputUndoesAdd | src/blockchain_db/lmdb/db_lmdb.cpp:794-830 | Removing an output under the index it was just issued restores both output tables |
| Reversal.ClearSlotsUndoesFileOutputs | src/blockchain_db/lmdb/db_lmdb.cpp:772-792 | The backend's reversed loop restores the output tables and takes one index per output |
| Reversal.RemovesNewest | src/blockchain_db/lmdb/db_lmdb.cpp:772-792 | When the reversed loop comes to an output, that output is the newest of its amount and of all |
| Reversal.SpentRestored | src/blockchain_db/blockchain_db.cpp:138-161 | An input loop that runs to its end spends the images, all new, and removing them restores the set |
| Reversal.RecordedIffSupported | src/blockchain_db/blockchain_db.cpp:138-161 | A completed `add_transaction` recorded the transaction exactly when every input is of a supported kind |
| Reversal.RecordedTables | src/blockchain_db/blockchain_db.cpp:163-186 | The tables after a recorded transaction: one fresh entry each in the transaction tables, its outputs, its images |
| Reversal.RemoveTransactionUndoesAdd | src/blockchain_db/blockchain_db.cpp:263-277 | `remove_transaction` restores the tables `add_transaction` found, and finds the same transaction |
| Reversal.RemoveBlockRecordUndoesAdd | src/blockchain_db/lmdb/db_lmdb.cpp:537-574 | `remove_block` restores the three block tables, and the top block is the one added |
| Reversal.PopListedBackTo | src/blockchain_db/blockchain_db.cpp:250-254 | Popping from the end goes back through the very states that adding went through |
| Reversal.PopsNewest | src/blockchain_db/blockchain_db.cpp:250-254 | When the pop comes to a listed transaction it is the newest recorded, and each of its outputs the newest stored when its turn comes |
| Reversal.PopsMinerNewest | src/blockchain_db/blockchain_db.cpp:250-255 | The same of the miner transaction, which the pop comes to last |
| Reversal.PopUndoesAdd | src/blockchain_db/blockchain_db.cpp:244-256 | `pop_block` after `add_block` restores all tables, returns the block, and appends its transactions reversed |
| ReversalLimits.TxTablesComeBack | src/blockchain_db/lmdb/db_lmdb.cpp:622-664 | The transaction tables are restored even when the output tables are not |
| ReversalLimits.RestoredMeansReversible | src/blockchain_db/blockchain_db.cpp:250-255 | If popping restores the tables, every transaction of the block was supported and coherent |
| ReversalLimits.PopUndoesAddIff | src/blockchain_db/blockchain_db.cpp:189-256 | For all tables and blocks: popping restores the tables if and only if every transaction is reversible |
| Aborts.ScanReaches | src/blockchain_db/blockchain_db.cpp:138-148 | Supported inputs pass exactly when their images are unspent and distinct; otherwise `KEY_IMAGE_EXISTS` |
| Aborts.AbortClearsImages | src/blockchain_db/blockchain_db.cpp:149-160 | An unsupported input removes all the transaction's images and changes nothing else; the old set is back exactly when no later image was spent |
| Aborts.PopStopsAtAborted | src/blockchain_db/blockchain_db.cpp:250-254 | The last given-up transaction stops the pop with `TX_DNE`, the block record and exactly what was listed after it being gone |
| Aborts.PopStopsAtMiner | src/blockchain_db/blockchain_db.cpp:255-255 | A given-up miner transaction stops the pop after all listed transactions |
| Aborts.VectorKeepsPopped | src/blockchain_db/lmdb/db_lmdb.cpp:2814-2831 | After such a pop the backend's tables are as they were, and the vector has grown by what was listed after that transaction, reversed |
| Aborts.VectorKeepsListed | src/blockchain_db/lmdb/db_lmdb.cpp:2814-2831 | The same for a given-up miner transaction, with all listed transactions in the vector |
| Aborts.PopCompletesIffRecorded | src/blockchain_db/blockchain_db.cpp:244-256 | With new distinct hashes, a pop that completes means no transaction was given up, and otherwise the block stays on top; without misfiled outputs this is an equivalence and the error is `TX_DNE` |
| StuckBlocks.StuckForever | src/blockchain_db/blockchain_db.cpp:244-277 | For all runs before and after: a block with a given-up transaction and new hashes keeps its place, and the height stays above it |
| AbortedBlocks.StuckBlock | src/blockchain_db/blockchain_db.cpp:149-160 | A concrete block that goes into an empty store and whose pop always ends with `TX_DNE` |
| AbortedBlocks.FailedPopHandsOut | src/blockchain_db/blockchain_db.cpp:250-254 | A concrete block whose pop ends with `TX_DNE`, tables unchanged, after one transaction went into the vector |
| AbortedBlocks.ClearIsHarmful | src/blockchain_db/blockchain_db.cpp:149-160 | Of that block's transactions, the one that is given up is the only one that is not harmless |
| AbortedBlocks.ImageSpentTwice | src/blockchain_db/blockchain_db.cpp:149-160 | A concrete block after which two recorded transactions spend the same image |
| Refinement.AddOutputIndexes | src/blockchain_db/lmdb/db_lmdb.cpp:689-747 | On indexed tables the new output gets the next global id and the next index of its amount |
| Refinement.FileOutputsIndexes | src/blockchain_db/blockchain_db.cpp:169-186 | The index list is, for each output, the number of outputs of the same amount before it |
| Refinement.FiledMeansStorable | src/blockchain_db/lmdb/db_lmdb.cpp:708-711 | The output loop completes only if every output pays to a key and has a mask unless coinbase |
| Refinement.AddOneIndexes | src/blockchain_db/blockchain_db.cpp:123-187 | `add_transaction` on indexed tables completes exactly when hash and images are new and the outputs storable |
| Refinement.AddBlockRecordIndexes | src/blockchain_db/lmdb/db_lmdb.cpp:474-535 | The block record goes in exactly when its hash is new and its parent is the top block |
| Refinement.AddBlockIndexes | src/blockchain_db/blockchain_db.cpp:189-237 | `add_block` completes exactly when the longer chain is valid, yields its tables, and returns the block's position |
| Refusals.StaleImageRefused | src/blockchain_db/lmdb/db_lmdb.cpp:832-847 | From any tables: the first input whose image is spent, before or in the transaction, ends `add_transaction` with `KEY_IMAGE_EXISTS`; exactly the images before it stay spent |
| Refusals.KnownHashRefused | src/blockchain_db/lmdb/db_lmdb.cpp:590-597 | From any tables: a known hash ends it with `TX_EXISTS` once the inputs have passed, and their images stay spent |
| Refusals.GapRefused | src/blockchain_db/lmdb/db_lmdb.cpp:598-616 | From any tables with a gap among the ids: `DB_ERROR`, with the hash entered already |
| Refusals.AddOutputIff | src/blockchain_db/lmdb/db_lmdb.cpp:708-745 | From any tables: an output is stored exactly when it pays to a key and neither its amount's table nor the ids have a gap, and otherwise `DB_ERROR`; only a gap in the amount's table leaves an id behind |
| Refusals.UnstorableRefused | src/blockchain_db/blockchain_db.cpp:163-186 | The first output that cannot be stored ends the call; transaction and hash stay in, the outputs before it stay filed, and no index list is written |
| Refusals.AddOneRefused | src/blockchain_db/blockchain_db.cpp:123-187 | On the tables of a valid list, the list decides which exception a supported transaction meets and which tables it leaves |
| Refusals.RecordRefused | src/blockchain_db/lmdb/db_lmdb.cpp:483-502 | On the tables of a chain: `BLOCK_EXISTS` for a known hash, `DB_ERROR` for an unknown parent, `BLOCK_PARENT_DNE` for one that is not on top, and nothing changes |
| Refusals.BlockErrorIff | src/blockchain_db/blockchain_db.cpp:189-237 | The list refuses a block exactly when it has the wrong number of transactions or makes the chain invalid |
| Refusals.AddBlockAnswers | src/blockchain_db/blockchain_db.cpp:189-237 | For every valid chain and supported block, the list alone gives the answer of `add_block`: position and tables of the longer chain, or the exception of the first transaction refused, or of the link, with the tables left behind |
| KnownBlocks.AddedTwice | src/blockchain_db/lmdb/db_lmdb.cpp:590-597 | From any tables: a supported block that has just been added is refused with `TX_EXISTS`, or `KEY_IMAGE_EXISTS` if its miner transaction spends something, and nothing changes |
| KnownBlocks.KnownBlockRefused | src/blockchain_db/lmdb/db_lmdb.cpp:590-597 | After every run of supported blocks, each block of the chain is refused in this way |
| Runs.PopIndexes | src/blockchain_db/blockchain_db.cpp:244-256 | `pop_block` on the tables of a valid chain yields the tables of the chain below the top block |
| Runs.RunRefines | src/blockchain_db/lmdb/db_lmdb.cpp:2790-2831 | Along every run of supported blocks that pops only reversible ones, the tables are those of the list of blocks, and every call answers as the list says: the new height, the block with its transactions reversed, or the exception |
| Runs.RunRefinesIff | src/blockchain_db/lmdb/db_lmdb.cpp:2790-2831 | Tables and list stay in step at every call if and only if every block that is popped is reversible |
| Runs.ReversibleOpsSuffice | src/blockchain_db/lmdb/db_lmdb.cpp:2790-2831 | It is enough for this that every block offered is reversible |
| Conservation.AnswersHeight | src/blockchain_db/lmdb/db_lmdb.cpp:2790-2812 | From any tables: a completed `add_block` answers the height before the call in the base class and the height after it in the backend |
| Conservation.HeightConserved | src/blockchain_db/lmdb/db_lmdb.cpp:1833-1845 | For all tables and all runs: the height changes by the completed adds less the completed pops |
| Conservation.SurplusConserved | src/blockchain_db/lmdb/db_lmdb.cpp:689-830 | For all tables and all runs: stored outputs, entries of the amount tables and outputs of recorded transactions change by the same number |
| Conservation.OutputsConserved | src/blockchain_db/lmdb/db_lmdb.cpp:1847-1859 | After every run from empty as many outputs and entries are stored as the recorded transactions have |
| LoggedRuns.BlocksAreReported | src/blockchain_db/lmdb/db_lmdb.cpp:474-574 | After every run from empty the block tables are exactly those of the chain the calls reported, correctly linked |
| LoggedRuns.TxsAreReported | src/blockchain_db/lmdb/db_lmdb.cpp:576-664 | After every run of supported blocks transactions and hashes are exactly those of the reported chain, even where the output tables are spoiled |
| LoggedRuns.ReportedIsList | src/blockchain_db/lmdb/db_lmdb.cpp:2790-2831 | Where only reversible blocks are popped, the reported chain is the list of blocks, and every call reports what the list says |
| HandedBack.HandsBackIff | src/blockchain_db/blockchain_db.cpp:244-256 | From any tables where each listed hash leads to its transaction or nowhere, a completed pop hands back the listed transactions if and only if all are supported |
| HandedBack.PopHandsBackIff | src/blockchain_db/blockchain_db.cpp:244-256 | After every run: a completed pop returns the top block and one transaction per listed hash, and these are the listed ones, reversed, if and only if none was given up |
| HandedBack.AnswersMatchChain | src/blockchain_db/lmdb/db_lmdb.cpp:2790-2831 | For every call of every run: an added block answers the height of the reported chain with it, a popped one is the top block with one transaction per listed hash, and a refused call leaves the chain alone |
| HandedBack.PopAllHandsBackIff | src/blockchain_db/blockchain_db.cpp:244-256 | The same of k pops into one vector: as many blocks were there, they come back from the top, and the vector grows by what they came with if and only if none of it was given up |
| WrongHandedBack.OtherHandedBack | src/blockchain_db/blockchain_db.cpp:149-160 | Two concrete blocks: the pop of the second hands back the transaction of the first and removes it |
| WrongHandedBack.StoreIsJammed | src/blockchain_db/lmdb/db_lmdb.cpp:576-620 | After that pop the transaction ids are 0 and 2, every supported transaction is refused, and the first block cannot be popped |
| PopAnswers.PopExceptions | src/blockchain_db/blockchain_db.cpp:244-277 | After every run: a pop of an empty chain ends with `BLOCK_DNE` and changes nothing, and any other completes or ends with `TX_DNE` or `OUTPUT_DNE` |
| PopAnswers.PopAnswersByHashes | src/blockchain_db/lmdb/db_lmdb.cpp:2814-2831 | After every run without misfiled removals: a pop completes exactly when each hash of the top block is known and listed once; otherwise it ends with `TX_DNE`, tables as before, and the vector holds what the hashes after the last bad one lead to |
| Gaps.GapRefusesBlocks | src/blockchain_db/lmdb/db_lmdb.cpp:576-620 | From any tables with a gap among the transaction ids, only blocks go in of which every transaction is given up |
| Gaps.PopLeavesNoGapIff | src/blockchain_db/lmdb/db_lmdb.cpp:622-664 | A completed pop of tables without a gap leaves none if and only if its hashes lead to the newest transactions |
| Gaps.RunLeavesNoGapIff | src/blockchain_db/lmdb/db_lmdb.cpp:576-664 | A run from empty has no gap after any call if and only if every pop that completes takes the newest transactions |
| Runs.PopAllUndoesAddAll | src/blockchain_db/blockchain_db.cpp:244-256 | k adds of reversible blocks and k pops into one vector restore any tables; the vector grows by what was received, reversed |
| Reachable.RunIsReplay | src/blockchain_db/blockchain_db.cpp:189-256 | After every run from empty whose completed pops each took off a reversible block, whatever was offered, the tables equal those of `add_block` replayed over the reported chain |
| Reachable.RunIsReplayIff | src/blockchain_db/blockchain_db.cpp:189-256 | For every run from empty: this holds after each call if and only if every pop that completes takes off a reversible block |
| Reachable.ListRunsSuffice | src/blockchain_db/lmdb/db_lmdb.cpp:2790-2831 | The runs along which tables and list of blocks stay in step are of this kind |
| Reachable.TablesDense | src/blockchain_db/lmdb/db_lmdb.cpp:689-747 | In every state reached by popping reversible blocks only, whatever was offered, each table's keys are 0 to size - 1, every amount's table included |
| LoggedRuns.BlockTablesDense | src/blockchain_db/lmdb/db_lmdb.cpp:474-660 | Block tables have no gaps after any run, and transaction tables none after any run of supported blocks |
| SpentImages.AddKeepsSpentIff | src/blockchain_db/blockchain_db.cpp:138-161 | A completed `add_transaction` keeps the spent set the disjoint union of the recorded images if and only if it recorded the transaction or cleared nothing |
| SpentImages.RemoveKeepsSpent | src/blockchain_db/blockchain_db.cpp:263-277 | A completed `remove_transaction` always keeps it |
| SpentImages.HarmlessIff | src/blockchain_db/blockchain_db.cpp:149-160 | A condition on the inputs alone that holds exactly of the transactions that keep it from all tables |
| SpentImages.SpentDisjointUnion | src/blockchain_db/blockchain_db.cpp:138-161 | After every run of such blocks, supported or not, reversible or not, the spent set is the disjoint union of the recorded transactions' images |
| Correspondence.FileOutputsFiles | src/blockchain_db/blockchain_db.cpp:165-186 | From any tables, a completed output loop files each output with amount, key and commitment as prescribed, and changes and adds nothing else |
| Correspondence.ClearSlotsClear | src/blockchain_db/lmdb/db_lmdb.cpp:772-830 | From any tables, a completed removal loop takes out exactly the entries it looks for and their output ids |
| Correspondence.AddKeepsOnto | src/blockchain_db/blockchain_db.cpp:123-187 | A completed `add_transaction` keeps recorded outputs, entries of the amount tables and output ids in correspondence, also when it misfiles outputs or gives the transaction up |
| Correspondence.RemoveKeepsOntoIff | src/blockchain_db/lmdb/db_lmdb.cpp:622-792 | A completed `remove_transaction` keeps this if and only if filing and removal use the same amounts for the transaction |
| CorrespondingRuns.OutputsCorrespondIff | src/blockchain_db/blockchain_db.cpp:123-277 | After every run from empty, recorded outputs, entries and output ids correspond one to one if and only if no completed pop removed a misfiled transaction, and exactly then the number of entries under amount 0 is right |
| CorrespondingRuns.StrayNeverFalls | src/blockchain_db/lmdb/db_lmdb.cpp:689-830 | For all tables and all runs: the entries under amount 0 in excess of what the recorded transactions filed there never become fewer |
| CorrespondingRuns.CoherentOffersSuffice | src/blockchain_db/lmdb/db_lmdb.cpp:785-790 | No misfiled transaction is removed if every supported transaction offered is coherent, unsupported ones being free |
| CorrespondingRuns.ReversiblePopsSuffice | src/blockchain_db/blockchain_db.cpp:244-277 | Nor if every block that comes off is reversible, whatever was offered |
| LoggedRuns.RecordedIffListed | src/blockchain_db/blockchain_db.cpp:197-220 | After every run of supported blocks a hash leads to a transaction exactly when a block of the reported chain lists the two at the same place, or as miner transaction |
| Reachable.IndicesNeverChange | src/blockchain_db/blockchain_db.cpp:169-186 | From any tables, ids, amount indices and entries of what is there are the same whatever blocks go on top |
| Reachable.IndicesStayAlongRuns | src/blockchain_db/blockchain_db.cpp:169-186 | Along a run that pops reversible blocks only, whatever it offers, the tables of a chain lie within those of every longer chain the run goes on to |
| LoggedRuns.ChainOutputsConserved | src/blockchain_db/lmdb/db_lmdb.cpp:1847-1859 | After every run of supported blocks as many outputs are stored as the transactions of the reported chain have |
| MixedCoinbase.MixedBlockIsNotUndone | src/blockchain_db/lmdb/db_lmdb.cpp:785-790 | A concrete block that goes into an empty store and whose pop ends with `OUTPUT_DNE` |
| MixedCoinbase.PopsMisfiled | src/blockchain_db/lmdb/db_lmdb.cpp:772-830 | Popping a block of one misfiled output from the top of a valid chain completes and deletes an earlier output, or ends with `OUTPUT_DNE` |
| MixedCoinbase.MixedPopHitsAnother | src/blockchain_db/lmdb/db_lmdb.cpp:785-790 | Two concrete blocks: the pop of the second completes, deletes the output of the first and leaves its own |
| MisfiledPops.PopStopsAtMisfiled | src/blockchain_db/blockchain_db.cpp:250-254 | On every valid chain: when the last misfiled transaction of the top block is looked for in vain the pop ends with `OUTPUT_DNE`, with the exact tables, and that transaction and all after it are in the vector; the backend restores the tables only |
| MisfiledPops.PopStopsAtMisfiledMiner | src/blockchain_db/blockchain_db.cpp:250-255 | The same for a misfiled miner transaction |
| MisfiledPops.MisfiledHandedOut | src/blockchain_db/blockchain_db.cpp:252-253 | A concrete block whose pop ends with `OUTPUT_DNE` and still hands the misfiled transaction out |
| MixedCoinbase.LastNonzero | src/blockchain_db/lmdb/db_lmdb.cpp:785-790 | Every misfiled transaction has a last output of nonzero amount |
| MixedCoinbase.LaterOutputsComeOff | src/blockchain_db/lmdb/db_lmdb.cpp:772-792 | Of any misfiled transaction, the outputs after the last one of nonzero amount come off as they should |
| MixedCoinbase.MisfiledOutputHitsAnother | src/blockchain_db/lmdb/db_lmdb.cpp:772-830 | Removing that one throws `OUTPUT_DNE` or deletes an entry and an output of an earlier transaction, and the output itself stays |
| Generator.PrintBytes | translations/generate_translations_header.c:55-63 | The byte loop with its counter writes the specified text |
| Generator.PrintFile | translations/generate_translations_header.c:53-64 | The two definitions of a file, with its number and its length |
| Generator.PrintDefs | translations/generate_translations_header.c:49-67 | The definitions of all files, numbered from 1 |
| Generator.PrintRows | translations/generate_translations_header.c:74-76 | One row per file number |
| Generator.Print | translations/generate_translations_header.c:37-86 | The whole header |
| EmbeddedData.BytesTextIsLines | translations/generate_translations_header.c:55-63 | The text is a row of literals with 16 two-digit escapes each, the last with 1 to 16 |
| EmbeddedData.QuotesPaired | translations/generate_translations_header.c:55-64 | Two quotes per 16 bytes begun, and one unpaired quote for an empty file |
| EmbeddedData.EscapeReads | translations/generate_translations_header.c:62-62 | An escape followed by a backslash or quote reads as its byte under maximal munch |
| EmbeddedData.DecimalInjective | translations/generate_translations_header.c:53-54 | Different numbers have different decimal texts |
| EmbeddedData.DataReadsBackIff | translations/generate_translations_header.c:54-64 | The initializer reads back as the bytes, zeros included, if and only if there are some |
| EmbeddedData.DataTextInjective | translations/generate_translations_header.c:54-64 | Different files are written differently |
| EmbeddedNames.NameReadsBackIff | translations/generate_translations_header.c:53-53 | A name reads back if and only if it holds no quote, backslash, newline or null |
| HeaderReader.IdentsDistinct | translations/generate_translations_header.c:53-54 | All identifiers of a header are different |
| ListReading.ListReads | translations/generate_translations_header.c:74-77 | A list of entries reads as their values in order, unless one of them cannot be read |
| EmbeddedFiles.StructReads | translations/generate_translations_header.c:69-72 | The struct declares the name first and the data second, as the rows expect |
| EmbeddedFrame.StartReads | translations/generate_translations_header.c:45-47 | The include guard and the include read as what they are |
| EmbeddedLookup.LookupReads | translations/generate_translations_header.c:25-35 | The emitted function reads as one syntax tree: start, test and step of the loop, comparison, assignment and both results |
| EmbeddedLookup.LookupRuns | translations/generate_translations_header.c:25-35 | Called on any table that ends with a null row, that function is defined, finds the first row of the name and hands out its data, or leaves `data` alone |
| EmbeddedFrame.EndReads | translations/generate_translations_header.c:77-81 | What follows the rows reads as the end of the table, this function and the end of the guard, with nothing left over |
| EmbeddedFiles.HeaderReadsBackIff | translations/generate_translations_header.c:45-81 | With plain names the header reads back as the table of the files and the lookup function if no file is empty, and otherwise not at all |
| EmbeddedFiles.EmbeddedFileFound | translations/generate_translations_header.c:25-81 | With plain names and no empty file: the function read from the header, called on the table read from it, finds the first file of the name, or nothing |
| EmbeddedLimits.NameMisreads | translations/generate_translations_header.c:53-53 | A name that is not plain reads as something else, whatever follows its line |
| EmbeddedLimits.TableIsGenerated | translations/generate_translations_header.c:69-81 | However the definitions were read, what is read as the table is the generated one |
| EmbeddedLimits.HeaderRoundTripIff | translations/generate_translations_header.c:45-81 | For all files: the header reads back as their table, and then with the lookup function, if and only if every name is plain and no file is empty |
| EmbeddedFiles.Compile | translations/generate_translations_header.c:25-81 | Of the generated header: row i holds name i and data i, the null row is last and the only one, and the function finds every file in it |
| EmbeddedFiles.FindEmbeddedFile | translations/generate_translations_header.c:26-35 | The walk ends at the null row, finds the first row of that name, leaves `data` alone otherwise, and answers as the function read from the header |
| EmbeddedFiles.EmbedAndFind | translations/generate_translations_header.c:25-81 | End to end: print, read, and call what was read; the call yields the first file of that name, or nothing |

## Left out

- LMDB itself: cursors, memory map, resizing, disk errors and the thread-local read transactions; only the effect of puts, gets and deletes on the tables is modelled.
- Batch mode (`m_batch_active`), in which a failed call is not rolled back on its own: `AddBlock` and `PopBlock` give the tables it leaves, but no run theorem covers it.
- Blob serialisation and parsing: a stored transaction or block is taken to parse back to itself.
- 64-bit wrap-around of heights, ids and amounts: these numbers are unbounded here.
- Reads past the end of `outPk` or of an index list are undefined in C++: the model ends the call with the outcome `Undefined` and claims nothing else about it.
- `m_hardfork->add`, timers, statistics and logging: not part of the tables, and `pop_block` does not touch them.
- The argument-free `pop_block`, `get_block`, `get_block_from_height`, option descriptors and `new_db`: they would only add easy members.
- Transaction pool, alternative indices for foreign transactions, migration and the remaining queries of the backend.
- File opening and write errors of the embedder: files are byte sequences and the output is a text.
- Trigraphs, universal character names and source character sets: every other character of a literal stands for itself.
- Other C++ than the header is written in: the reader knows one shape of include guard and of lookup function, and one comment, the one after `#endif`; what a name that opens a comment does to a real compiler is not captured.
