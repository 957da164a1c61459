# DarkSilk: a verified model of the ledger, the block tree and the peer machinery

DarkSilk is a proof-of-work and proof-of-stake node descended from Bitcoin and PPCoin. This project
models the parts of it that hold state in several places at once, or that must be able to take back
what they did, and proves what they keep. It is written for Dafny 4.11; `dafny verify dfyconfig.toml`
covers all of it.

The components, and the files they are in:

| component | files |
|---|---|
| coin records, undo data and the write-back cache stack | `Coins`, `CoinUndo`, `CoinsCache`, `CoinDisconnect` |
| transaction index, block connection and money supply | `TxIndex`, `TxLedger`, `BlockLedger`, `LedgerRules`, `ChainLedger`, `MisplacedStake` |
| block tree, retargeting, reorganisation, lookups and locators | `Compact`, `BlockIndex`, `ChainState`, `ChainRuns`, `PostponedFailure`, `Locator` |
| address manager and its file format | `AddrTables`, `AddrManSpec`, `AddrEffects`, `AddrMan`, `AddrCodec`, `AddrManIO` |
| wire framing, both ends of a connection | `Framing` |
| block-download bookkeeping | `BlockQueue` |
| stake-modifier selection | `StakeModifier` |
| block-template assembly | `BlockTemplate` |
| stored coin records, amounts and scripts; Base58 | `OutputCodec`, `CoinsCodec`, `DocumentedRecords`, `Base58`, `Base58Codec` |
| shared definitions | `Primitives`, `Numerals`, `BitStrings`, `Collections` |

Code that updates state step by step is imperative here too: classes with the source's fields, loops
with invariants, each method proved against a specification function or a stated property. The
specification functions are then the subject of the lemmas.

## Main results

- **Coin caches are invisible.** Any run of reads, edits and flushes on top of any stack of caches
  answers like a plain map, and a flush hands exactly the top's contents to the layer below
  (`CoinsCacheStack.Run`, `FlushAll`).
- **A block's coins are taken back exactly**, and cleanly, if and only if no transaction's outputs were
  added over unspent outputs with the same id (`CoinUndo.UndoneExactlyWhenFresh`); DisconnectBlock on any
  stack of caches does the same (`CoinDisconnect.UndoConnectedBlock`). The transaction index comes back
  exactly if and only if no id of the block was indexed before (`TxIndexModel.UndoneExactlyWhenFresh`).
  Both come with an input that fails (`OverwrittenCoins`, `OverwrittenEntry`), and so does the law for a
  single record (`CoinsModel.SpendThenUndo`, `HeightZeroNotUndone`).
- **One best branch, everywhere.** After any run of arriving blocks the forward links, the transaction
  index, the spent marks and the recorded supply all describe the path of the best block
  (`ChainRuns.Run`). When each block enters, becomes the best one, and takes everything below it along is
  stated exactly, from the blocks and the outcomes of reads and commits (`ChainStates.ChainState.AcceptBlock`,
  `SetBestChain`). A switch that fails changes nothing. A switch whose postponed blocks do not all connect
  leaves an ancestor of the best block outside the main chain; `PostponedFailure.BrokenLinks` is such a run.
  As long as no heavier block is refused, nothing is ever postponed and the best block has the most trust.
- **Conservation.** The supply recorded at the tip is the sum of all unspent outputs (`ChainLedger.Run`).
  A block raises it by exactly what its coinbase pays and its coinstakes gain, less the fees
  (`SupplyRise`, `ChainDb.ConnectBlock`). For a proof-of-stake block that is never more than the reward.
  A proof-of-work block stays within the subsidy if and only if coinbase and coinstake gains together do not
  exceed subsidy and fees (`SupplyGrowth`); the code checks that for the coinbase alone, and
  `MisplacedStake.RisesBeyondSubsidy` is an accepted block that goes beyond. Over any run without such
  blocks the supply stays below one coin per block and four million per block on genesis (`ChainLedger.Run`).
- **The index decides what the chain would.** ConnectBlock, which reads only its index and the block files,
  accepts exactly the blocks that fit the transactions of the chain: every input an unspent output of an
  earlier transaction, no transaction paying out more than it takes in (`LedgerRules.BlockOkIff`).
- **Trust and targets.** Trust is 2^256 over the target, so a harder target never earns less; the target
  stays when blocks come on time and grows with the time they take (`Compact.HarderEarnsMore`,
  `BlockTree.NextFollowsPace`).
- **The address manager stays consistent** under every run of its operations, and writing it to disk and
  reading it back loses nothing but order, ids and unsaved statistics (`AddrManager.Run`,
  `AddrManIO.Reload`). An announcement makes it forget an entry only if that entry is terrible
  (`AddrEffects.AddForgets`).
- **Messages arrive as sent**, command and payload, under any interleaving of partial writes and arriving
  chunks, each one complete exactly when its last byte has arrived (`Framing.Run`).
- **The block template is the greedy one.** Turn by turn the best ready transaction is considered and
  taken exactly if it passes the tests, until every eligible transaction whose unconfirmed parents are all
  in the block has had its turn (`BlockTemplate.CreateNewBlock`).
- **The download maps are the exact union of the peers' lists** under every run, and every operation acts
  on them as on one plain map from blocks to places (`BlockQueue.Run`).
- **Codecs are inverse.** Base58 in both directions with buffers that always suffice, compressed amounts
  on all naturals, compact targets up to truncation, coin records up to the one field they leave out,
  with the exact condition for getting the same record back.

## Modelling choices

- Hashes, signatures, scripts and public-key arithmetic are uninterpreted functions. Databases are maps.
  Random draws are arbitrary choices or parameters, as is how many bytes a socket takes. Which disk reads succeed and which database
  transactions begin and commit is given per block (`World`); one call handles each block at most once.
- Integers are unbounded; widths are written out where they matter (compact targets, frame sizes,
  variable-length integers, the compressed amount).
- Neither connect path rejects a transaction id that is already indexed. `UndoneExactlyWhenFresh` says
  what that costs. The runs keep a ghost flag `good` that turns false when a block that would be connected
  (`ChainLedger.Run`) or would enter the tree (`ChainRuns.Run`) repeats an id of its own branch; what they
  promise is promised while it is true.
- `CheckBlock` looks for misplaced coinstakes in proof-of-stake blocks only (src/chain.cpp:702-714). The
  model does the same, and `SupplyGrowth` gives the exact condition for the supply.
- `SetBestChain` makes the new block the best one even when a postponed connect fails
  (src/main.cpp:4673-4701). The model does the same; `CompleteOk` is the exact condition for that not to happen.
- A flush with a null best-block hash overwrites the parent's best block with null (src/coins.cpp:185).
  `Flush` states the exact outcome in both cases.
- `CChain::SetTip` is not called when blocks are accepted, so the vector is treated on its own
  (`BlockTree.SetTips`).
- A failed or aborted database transaction leaves the stored index as it was when it began.
- `CAddrMan::Clear` does not empty `mapInfo` and `mapAddr`, so `Unserialize` is stated for a new manager.
- `nRounds` of an output is not serialised with a coin record, although it takes part in equality of
  outputs. `CoinsCodec.SurvivesIff` gives the exact condition and `RoundsAreLost` an example. The node
  writes rounds other than -10 only into the wallet's own `mDenomWtxes` (src/wallet/wallet.cpp:1408-1487),
  and every record that blocks of outputs with -10 rounds leave behind survives (`ChainRecordSurvives`).
- A list iterator stored in the download maps is identified with the list entry of that hash. A
  `COrphan` of the block assembler is identified with its transaction id.

## Model

| member | source | states |
|---|---|---|
| CoinsModel.Cleanup | src/coins.h:144-149 | removing trailing spent outputs leaves no spent output at the end, changes the availability of no output, and is the identity on cleaned records |
| CoinsModel.CleanupLoop | src/coins.h:144-149 | the in-place loop computes exactly that |
| CoinsModel.ClearUnspendableLoop | src/coins.h:151-157 | the loop nulls exactly the unspendable outputs and cleans up |
| CoinsModel.Spend | src/coins.cpp:34-48 | fails exactly for unavailable outputs; otherwise the output and nothing else becomes unavailable |
| CoinsModel.SpentRecord | src/coins.cpp:34-48 | what the spent record and the undo entry hold: the output itself, and the record's metadata exactly when it was the last unspent one |
| CoinsModel.SpendThenUndo | src/main.cpp:4382-4406 | applying the undo record gives the old record back if and only if its height is not zero or another output is unspent |
| CoinsModel.HeightZeroNotUndone | src/main.cpp:4382-4406 | an input that is not undone: the only output of a record of height 0 |
| CoinUndo.RestoreUndoesSpend | src/main.cpp:4451-4462 | restoring a transaction's inputs in reverse gives back the map before they were spent, also when several empty one record |
| CoinUndo.DisconnectUndoesConnect | src/main.cpp:4408-4474 | if no outputs are added over unspent ones, disconnecting is the exact inverse of connecting, in-block spends included, and reports clean |
| CoinUndo.FreshBlockAdds | src/main.cpp:4408-4474 | a block none of whose ids is in the map, and none of which repeats, meets that condition |
| CoinUndo.ConnectCounts | src/main.cpp:4408-4474 | connecting changes the number of unspent outputs by created minus spent exactly when nothing is overwritten, and falls short otherwise |
| CoinUndo.DisconnectCounts | src/main.cpp:4427-4463 | a clean disconnection never leaves more unspent outputs than the block's balance allows, whatever the undo data |
| CoinUndo.UndoneExactlyWhenFresh | src/main.cpp:4408-4474 | for every block over good records at non-zero height: disconnecting restores the map and reports clean if and only if no outputs were added over unspent ones |
| CoinUndo.OverwrittenCoins | src/main.cpp:4408-4474 | an input that is not restored although the verdict is clean: a second coinbase with the id of an unspent one |
| CoinDisconnect.ApplyTxInUndo | src/main.cpp:4382-4406 | on the cache stack, one undo entry has the verdict of the pure step, the same map if clean, and the same outputs in every case |
| CoinDisconnect.RestoreTxInputs | src/main.cpp:4451-4462 | the reverse loop over one transaction's inputs agrees with the pure restoration: verdict, map if clean, outputs in every case |
| CoinDisconnect.DisconnectNeedsFit | src/main.cpp:4424-4462 | the pure disconnection is defined exactly when the undo data has one entry per input |
| CoinDisconnect.DisconnectOuts | src/main.cpp:4427-4463 | the outputs a disconnection leaves depend only on the outputs there were, not on the metadata of the records |
| CoinDisconnect.RemoveOutputs | src/main.cpp:4432-4449 | the transaction leaves the view, and clean tells whether its outputs were as the block says |
| CoinUndo.ChangedNoLongerMatches | src/main.cpp:4432-4449 | a record that has lost an output or stands at another height does not match its transaction, so the verdict is not clean |
| CoinDisconnect.DisconnectAll | src/main.cpp:4427-4463 | the loop over the block, last transaction first, reports an error exactly for misfitting undo data and otherwise agrees with the pure disconnection: verdict, map if clean, outputs in every case |
| CoinDisconnect.DisconnectBlock | src/main.cpp:4408-4474 | for the view's best block: which undo data is refused, the verdict, the resulting coin map if clean, its outputs in every case, and the new best block |
| CoinDisconnect.UndoConnectedBlock | src/main.cpp:4408-4474 | a view that shows a connected block always gets its previous best block back, and its previous map, cleanly, if and only if no outputs had been added over unspent ones |
| CoinsCacheStack.CoinsDb.BatchWrite | src/txdb.cpp:16-25 | the database ends with its own map overlaid by the dirty entries, pruned ones erased |
| CoinsCacheStack.FlushedView | src/coins.cpp:153-187 | for consistently flagged entries, writing only the dirty ones gives the same map as overlaying all |
| CoinsCacheStack.CoinsCache.FetchCoins | src/coins.cpp:81-96 | finds a record exactly when the represented map or the cache has one, and changes no layer's represented map |
| CoinsCacheStack.CoinsCache.GetCoins | src/coins.cpp:98-105 | the record found is the represented one; no layer's map changes |
| CoinsCacheStack.CoinsCache.HaveCoins | src/coins.cpp:134-141 | true exactly when the represented map has the id |
| CoinsCacheStack.CoinsCache.BeginModify | src/coins.cpp:107-123 | hands out the represented record, marks the entry dirty, and marks it fresh only if the layer below has nothing unspent |
| CoinsCacheStack.CoinsCache.EndModify | src/coins.cpp:254-262 | the represented map is updated with the cleaned edit, pruned meaning absent |
| CoinsCacheStack.CoinsCache.GetBestBlock | src/coins.cpp:143-147 | the best block of the nearest layer that has one |
| CoinsCacheStack.CoinsCache.WriteEntry | src/coins.cpp:155-182 | one child entry: the assertion about fresh entries holds, and the map is overlaid by the entry |
| CoinsCacheStack.CoinsCache.BatchWrite | src/coins.cpp:153-187 | the parent's represented map becomes its old one overlaid by the dirty child entries |
| CoinsCacheStack.CoinsCache.Flush | src/coins.cpp:189-193 | the layer below represents exactly what this cache did, the cache is empty, and the best block below is as stated for null and non-null hashes |
| CoinsCacheStack.Step | src/coins.cpp:81-193 | each operation on the top answers and acts like the plain map |
| CoinsCacheStack.Run | src/coins.cpp:81-193 | every run on top of any stack gives the answers and the map of the same run on a plain map |
| CoinsCacheStack.FlushAll | src/coins.cpp:189-193 | flushing all the way down leaves the database equal to what the top represented, with the top's own best block if it has one and the database's otherwise |
| TxIndexModel.SpendInputsMarks | src/main.cpp:4045-4098 | spending marks exactly the named outputs, once each, and changes nothing else |
| TxIndexModel.UnspendInputsClears | src/main.cpp:3867-3888 | clearing the marks needs the outputs to exist and clears exactly them |
| TxIndexModel.DisconnectTxUndoes | src/main.cpp:3867-3899 | taking one freshly connected transaction back restores the index |
| TxIndexModel.DisconnectUndoesConnect | src/chain.cpp:191-197 | disconnecting a whole connected block with fresh ids gives back the same index |
| TxIndexModel.DisconnectAllKeys | src/chain.cpp:191-197 | disconnecting leaves no transaction of the block indexed, whoever put it there |
| TxIndexModel.UndoneExactlyWhenFresh | src/chain.cpp:191-197 | for a connected block without repeated ids: disconnecting gives back the same index if and only if none of its ids was indexed before |
| TxIndexModel.OverwrittenEntry | src/chain.cpp:191-197 | an input that is not given back: an id that was indexed already |
| TxLedger.ConnectTxRecords | src/main.cpp:4045-4098 | one more transaction keeps the index listing the ledger and marking exactly its spenders |
| TxLedger.ReplayRecords | src/main.cpp:3867-4126 | replaying any ledger from the empty index: an output is marked exactly when an input spends it, with that spender's position, and no output is spent twice |
| TxLedger.UnspentAfterTx | src/main.cpp:3987-3999 | connecting a transaction adds the value it creates to the unspent total and takes away what it spends |
| BlockLedger.FetchInputs | src/main.cpp:3902-3972 | a coinbase needs nothing; otherwise succeeds exactly when every previous transaction is indexed, stored and long enough, with queued changes winning over the index, and returns those entries |
| BlockLedger.GetValueIn | src/main.cpp:3987-3999 | the sum of the referenced outputs |
| BlockLedger.CheckInputs | src/main.cpp:4012-4041 | the first loop passes exactly when every input exists, is mature, not later than the transaction, spendable and in range, and totals their value |
| BlockLedger.MarkInputs | src/main.cpp:4045-4098 | the second loop passes exactly when no input is spent already and every signature holds, and queues exactly the marks |
| BlockLedger.ConnectInputs | src/main.cpp:4001-4126 | accepts exactly the transactions whose inputs are in order and, unless a coinstake, create no more than they spend (what that means on the chain is ConnectOkIff); the queued index has exactly the new marks |
| BlockLedger.ConnectOne | src/chain.cpp:331-386 | one turn of the block loop: verdict, running totals and queued changes |
| LedgerRules.UnmarkedIsUnspent | src/main.cpp:4045-4098 | an output is unmarked in the index exactly when no transaction of the chain spends it |
| LedgerRules.ConnectOkIff | src/main.cpp:4001-4126 | ConnectInputs accepts a transaction exactly when it fits the chain: every input names an unspent, spendable, mature output of an earlier transaction that is not newer, no input twice, signatures valid, and unless a coinstake it creates no more than it spends |
| LedgerRules.AcceptsIff | src/chain.cpp:331-386 | the loop of ConnectBlock passes exactly the blocks whose transactions all fit the chain before them and keep the signature-operation limit, with the totals of the chain |
| LedgerRules.BlockOkIff | src/chain.cpp:299-403 | ConnectBlock accepts exactly the blocks that fit the chain, said without index and block files |
| LedgerRules.FeesNotNegative | src/main.cpp:4100-4115 | the fees of a block that fits are never negative |
| LedgerRules.TallyNotNegative | src/main.cpp:4100-4115 | the fees that ConnectBlock adds up are never negative, whatever the index |
| LedgerRules.AcceptedBalances | src/main.cpp:4100-4107 | in an accepted block every plain transaction creates no more than it spends, on the index its predecessors leave |
| LedgerRules.CheckedForm | src/chain.cpp:678-773 | the form of every accepted block: one coinbase, in front; no id twice; amounts in range; inputs there, not null and not repeated; in a proof-of-stake block an empty coinbase and the only coinstake second |
| ChainLedger.SupplyGrowth | src/chain.cpp:395-415 | an accepted proof-of-stake block raises the supply by at most the stake reward; an accepted proof-of-work block by at most the subsidy if and only if coinbase and coinstake gains together do not exceed subsidy and fees, which holds without coinstakes |
| ChainLedger.SupplyRise | src/chain.cpp:395-415 | an accepted block raises the supply by exactly what its coinbase pays and its coinstakes gain, less the fees |
| MisplacedStake.RisesBeyondSubsidy | src/chain.cpp:394-403 | an accepted proof-of-work block on a replayed chain that raises the supply by more than the subsidy: a coinstake gains 1000 while the coinbase takes the whole subsidy |
| ChainLedger.MintedParts | src/chain.cpp:395-415 | what a block mints is the coinbase's outputs and the coinstakes' gains |
| ChainLedger.MintIsMinted | src/chain.cpp:413-415 | the recorded mint is the value of coinbase and coinstakes beyond their inputs, fees left out |
| ChainLedger.ChainDb.ConnectBlock | src/chain.cpp:299-490 | accepts exactly the blocks that pass every check, which on a replayed chain are exactly those that fit it; fees are not negative and no plain transaction creates more than it spends; then index, chain and supply are those of the extended chain, the recorded supply rises by the exact amount, and when that is within the limits is stated; otherwise nothing changes |
| ChainLedger.ChainDb.WriteChanges | src/chain.cpp:422-427 | the queued entries override the index, in any order of writing |
| ChainLedger.ChainDb.DisconnectInputs | src/main.cpp:3867-3899 | fails exactly on a missing output; otherwise clears the marks and erases the transaction |
| ChainLedger.ChainDb.DisconnectBlock | src/chain.cpp:191-214 | on a valid state the tip can always be taken back, and the state is that of the chain below it |
| ChainLedger.ChainExtended | src/chain.cpp:331-427 | a connected block extends a replayable chain and its unspent total by value out minus value in |
| ChainLedger.ChainShortened | src/chain.cpp:191-214 | undoing the last block of a replayable chain gives the index of the chain before it |
| ChainLedger.SupplyAppended | src/chain.cpp:413-415 | if every recorded supply is the unspent total of the chain up to its block, the one recorded for the next block is again |
| ChainLedger.Run | src/chain.cpp:191-427 | after any run of connects and disconnects, while every block that was connected had fresh ids: exact spent marks, no double spend, exact supply; without misplaced coinstakes the supply keeps to one coin per block and four million for each block connected on genesis |
| Compact.CompactTruncates | src/bignum.h:322-345 | encoding a positive target gives a positive one not above it, and encoding again gives the same compact form |
| Compact.CompactExact | src/bignum.h:322-345 | a target comes back exactly if and only if all bytes after the third are zero |
| Compact.BlockTrust | src/chain.cpp:615-624 | trust is positive exactly for targets between 1 and 2^256 - 1 |
| Compact.TrustIs | src/chain.cpp:615-624 | trust is 2^256 divided by the target plus one, rounded down |
| Compact.HarderEarnsMore | src/chain.cpp:615-624 | a smaller target never earns less trust, and one less than half as large earns more |
| Compact.CompactMeans | src/bignum.h:322-345 | a compact number without sign bit is its three-byte mantissa shifted by its size in bytes |
| BlockTree.BlockIndex.constructor | src/main.cpp:4756-4767 | height and chain trust of a new entry follow from its parent |
| BlockTree.FindFork | src/chain.cpp:518-531 | terminates with the lowest common ancestor, or with nothing exactly when the roots differ |
| BlockTree.Branch | src/chain.cpp:533-542 | the blocks from a tip down to the fork, in that order |
| BlockTree.GetLastBlockIndex | src/main.cpp:1701-1706 | the highest block of the wanted kind on the path, or the root |
| BlockTree.RetargetBounds | src/main.cpp:1722-1739 | a proof-of-stake target moves by a factor between 9/11 and 29/11, rounded down |
| BlockTree.OnTimeKeeps | src/main.cpp:1722-1739 | blocks exactly on time, or with a negative spacing, leave the target alone |
| BlockTree.SlowerIsEasier | src/main.cpp:1722-1739 | the target never falls when blocks take longer |
| BlockTree.RetargetEnds | src/main.cpp:1722-1739 | the target after blocks at once is 9/11, and after proof-of-stake blocks ten intervals or more apart 29/11, rounded down |
| BlockTree.WorkBounds | src/main.cpp:1722-1739 | a proof-of-work target is the old one times (540 + 2 * seconds) / 660, rounded down, and never below 9/11 |
| BlockTree.NextFollowsPace | src/main.cpp:1708-1746 | a late block makes the next one of its kind no harder; an early one no easier, unless rounding leaves nothing |
| BlockTree.GetNextTargetRequired | src/main.cpp:1708-1746 | the required compact target encodes the clamped moving average; it decodes to a value in (0, limit] worth at least one unit of trust |
| BlockTree.RequiredTarget | src/main.cpp:1741-1745 | whatever the history, the required target is positive, within the limit and not above the computed one |
| BlockTree.Chain.SetTip | src/chain.cpp:627-637 | the vector is the whole ancestor path of the tip, although the loop stops at the first entry that is right |
| BlockTree.SetTips | src/chain.cpp:627-637 | after any sequence of SetTip calls the vector is the ancestor path of the last tip |
| ChainStates.ChainState.MainChainIsPath | src/chain.h:268-271 | a block is in the main chain if and only if it is an ancestor-or-self of the best block, and pnext is the next block of that path |
| ChainStates.ChainState.DisconnectBranch | src/chain.cpp:546-562 | the stored index moves down to the fork, if and only if every block can be read |
| ChainStates.ChainState.ConnectBranch | src/chain.cpp:564-582 | the stored index moves up the new branch, if and only if every block can be read and passes on the index its predecessors leave |
| ChainStates.ChainState.Unlink | src/chain.cpp:590-593 | exactly the links into the disconnected blocks go |
| ChainStates.ChainState.Link | src/chain.cpp:595-598 | exactly the links into the connected blocks appear |
| ChainStates.ChainState.Reorganize | src/chain.cpp:514-613 | succeeds exactly when the old blocks can be read, the new ones read and pass, and the commit succeeds; then index and links are those of the new block's path, otherwise no link has changed |
| ChainStates.ChainState.SetBestChainInner | src/chain.cpp:792-814 | one more block of a path is connected and linked exactly when it passes and the commit succeeds; otherwise nothing changes |
| ChainStates.ChainState.SplitBranch | src/main.cpp:4648-4662 | the first block of the branch that beats the best one: its parent does not, the parents of all blocks above it do, and those blocks are listed |
| ChainStates.ChainState.ConnectLater | src/main.cpp:4672-4690 | every postponed block is connected and linked exactly when each is read, begun, passes and is committed; otherwise an ancestor of the tip is cut off from the main chain |
| ChainStates.ChainState.SetBestChain | src/main.cpp:4626-4704 | exactly when it succeeds and when it takes all postponed blocks along; failure leaves all links, the best block and the stored index unchanged; success keeps every invariant in the second case and cuts off an ancestor otherwise |
| ChainStates.ChainState.AddToBlockIndex | src/main.cpp:4745-4812 | a block enters the tree once, under its parent; the best block changes to it exactly when it has more trust and SetBestChain succeeds |
| ChainStates.ChainState.AcceptBlock | src/chain.cpp:92-189 | exactly the unknown blocks with a known parent and the required target that pass the other rules enter; their target is in (0, limit], their chain trust exceeds the parent's, and the verdict follows from the blocks and the outcomes met |
| ChainStates.ChainState.FindBlockByHeight | src/chain.cpp:23-38 | from any remembered starting point, the best chain's block at that height |
| ChainRuns.OfferBlock | src/chain.cpp:92-189 | one arriving block keeps tree, links and index together and best trust never falls, unless an ancestor is cut off; while nothing heavier than the best block is in the tree that cannot happen, and it stays so if the block is not refused |
| ChainRuns.Run | src/main.cpp:4626-4812 | after any run of arriving blocks and lookups, links, index, spent marks and supply describe the best block's path, until a postponed connect fails; if no heavier block is refused none can fail and the best block has the most trust |
| PostponedFailure.BrokenLinks | src/main.cpp:4648-4704 | a run in which a postponed connect fails: the best block has an ancestor that is not in the main chain |
| BlockLocator.BackShape | src/chain.h:511-526 | the distances of the entries: one by one up to 11, then 9 plus powers of two |
| BlockLocator.Locator.Set | src/chain.h:511-526 | the entries are the path's blocks at those distances and the genesis block; the length is logarithmic in the height |
| BlockLocator.Locator.GetBlockIndex | src/chain.h:549-563 | the first listed block that is in the main chain, else the genesis block |
| BlockLocator.Locator.GetDistanceBack | src/chain.h:528-547 | the distance belonging to that same entry |
| BlockLocator.KnownBelowFork | src/chain.h:549-563 | of another node's branch, a main chain has exactly the blocks up to the fork |
| BlockLocator.ForkExists | src/chain.h:549-563 | two branches with the same genesis hash always have a fork |
| BlockLocator.Negotiate | src/chain.h:511-563 | across two nodes whose branches part D blocks back: the common block at the first listed distance from D on, which is D if D is at most 11 and less than 2D otherwise, or the genesis block; GetDistanceBack reports that distance, so it is exact if and only if the distance does not go beyond the genesis block |
| AddrTables.SwapKeeps | src/addrman.cpp:100-118 | swapping two positions of vRandom keeps every table consistent |
| AddrTables.CreateKeeps | src/addrman.cpp:88-98 | a created entry is consistent except that it is in no table yet |
| AddrTables.RemoveKeeps | src/addrman.cpp:120-132 | erasing an entry that is in no table restores consistency |
| AddrManSpec.DeleteKeeps | src/addrman.cpp:120-132 | deletion succeeds on unreferenced entries, moves others only inside vRandom, and keeps the invariant |
| AddrManSpec.ClearNewKeeps | src/addrman.cpp:134-147 | emptying a new slot keeps the invariant, clears only that slot and touches no other entry |
| AddrManSpec.EvictKeeps | src/addrman.cpp:167-189 | the occupant of a tried slot goes back to its new slot, consistently |
| AddrManSpec.MakeTriedReady | src/addrman.cpp:149-195 | every assertion on the way of MakeTried holds |
| AddrManSpec.MakeTriedKeeps | src/addrman.cpp:149-195 | moving an entry to the tried table restores everything Check_ tests |
| AddrManSpec.GoodKeeps | src/addrman.cpp:197-244 | Good_ keeps everything Check_ tests |
| AddrManSpec.AttemptKeeps | src/addrman.cpp:314-331 | Attempt_ and Connected_ keep everything Check_ tests |
| AddrManSpec.AddKeeps | src/addrman.cpp:246-312 | Add_ keeps everything Check_ tests |
| AddrEffects.GoodIsTried | src/addrman.cpp:197-244 | a known address ends up in its tried slot with fresh statistics, and no other tried slot changes |
| AddrEffects.MakeTriedPlaces | src/addrman.cpp:149-195 | the entry moves with its data, loses its new references and takes exactly its tried slot |
| AddrEffects.AddStores | src/addrman.cpp:246-312 | Add_ reports true exactly for routable unknown addresses; it keeps the entry, with what was announced, exactly when the slot is free, holds a terrible entry, or one with other places; otherwise both tables stay as they were |
| AddrEffects.KnownRefreshed | src/addrman.cpp:254-308 | a known address is refreshed, and gets one more place exactly when the announcement is newer, it is untried with fewer than eight places, the draw allows it and the slot can be had |
| AddrEffects.RefreshedTime | src/addrman.cpp:256-260 | the time of an entry never goes back, and is never behind an announcement by more than an hour or a day and the penalty |
| AddrEffects.AddForgets | src/addrman.cpp:246-312 | whatever is announced, an entry that is forgotten was terrible, untried and had no other place; the tried table does not change |
| AddrEffects.TerribleWhen | src/addrman.cpp:33-52 | never within a minute of an attempt; otherwise exactly for a time in the future, none, or more than 30 days ago, three attempts without any success, or ten and no success for a week |
| AddrEffects.AttemptChanges | src/addrman.cpp:314-331 | Attempt_ and Connected_ change only the named statistics of the one known entry |
| AddrEffects.UnansweredIsTerrible | src/addrman.cpp:33-52 | three attempts on an address that never answered make it terrible a minute after the last |
| AddrEffects.MakeTriedEvicts | src/addrman.cpp:149-195 | only the entry in the tried slot loses that status; it goes back to the new slot of its own source with one place, and only an entry whose single place that was is forgotten |
| AddrManager.AddrMan.Delete | src/addrman.cpp:120-132 | the arrays, maps and vector change exactly as the pure deletion says |
| AddrManager.AddrMan.ClearNew | src/addrman.cpp:134-147 | refines the pure step |
| AddrManager.AddrMan.MakeTried | src/addrman.cpp:149-195 | the loop over buckets, the eviction and the move together refine the pure step |
| AddrManager.AddrMan.Good | src/addrman.cpp:197-244 | refines Good and keeps the invariant |
| AddrManager.AddrMan.Attempt | src/addrman.cpp:314-331 | refines Attempt and keeps the invariant |
| AddrManager.AddrMan.Connected | src/addrman.cpp:471-489 | refines Connected and keeps the invariant |
| AddrManager.AddrMan.Add | src/addrman.cpp:246-312 | refines Add, with its answer, and keeps the invariant; what Add stores and forgets is AddStores, KnownRefreshed and AddForgets |
| AddrManager.AddrMan.GetAddr | src/addrman.cpp:450-469 | returns distinct entries that are not terrible, at most the limit, and all of them when below it; only positions in vRandom change |
| AddrManager.Run | src/addrman.cpp:373-447 | every run of the operations from a new manager keeps the key and everything else that Check_ tests |
| AddrCodec.RoundTrip | src/addrman.h:279-424 | rebuilding from the written image gives the same entries, counts, address map and tables up to renumbering |
| AddrCodec.RebuiltChecks | src/addrman.h:329-424 | the rebuilt manager satisfies everything Check_ tests |
| AddrManIO.Serialize | src/addrman.h:279-326 | the loops write exactly the image |
| AddrManIO.RebuiltRandom | src/addrman.h:329-412 | for any image, vRandom and the positions in it are inverse before pruning |
| AddrManIO.Unserialize | src/addrman.h:329-424 | for any complete image the loops give the rebuilt state without its unreferenced entries |
| AddrManIO.Reload | src/addrman.h:279-424 | writing and reading back gives a consistent manager with the same contents up to ids, order and unsaved fields |
| Framing.FrameParses | src/protocol.h:41-64 | a frame announces its own length and carries its header fields and payload |
| Framing.CommandReadBack | src/protocol.cpp:53-59 | every command of at most twelve bytes without a zero is read back from the field it was copied into |
| Framing.OneWayToCut | src/net.cpp:731-770 | a stream of frames can be cut into messages in one way only |
| Framing.Sender.EndMessage | src/net.cpp:2592-2632 | the queued bytes are the frame with the right size and checksum; it is written at once, as far as the socket has room, exactly if nothing was queued; the totals stay exact |
| Framing.Sender.SocketSendData | src/net.cpp:866-907 | the wire gains exactly the first queued bytes that the socket has room for; nSendSize is exact and the three assertions hold |
| Framing.NetMessage.ReadHeader | src/net.cpp:818-847 | absorbs a prefix of the chunk; refuses only oversized announcements |
| Framing.NetMessage.ReadData | src/net.cpp:849-863 | absorbs a non-empty prefix of the chunk without passing the message's end |
| Framing.Receiver.ReceiveMsgBytes | src/net.cpp:731-770 | absorbs the whole chunk and terminates, or the stream announces an oversized message |
| Framing.Receiver.Take | src/net.h:190-226 | complete messages are handed on in order, and none is withheld |
| Framing.NeverRefused | src/net.cpp:753-759 | no prefix of a stream of acceptable frames is refused |
| Framing.InOrder | src/net.cpp:731-770 | the messages received in full are a prefix of the messages sent |
| Framing.CompleteWhenArrived | src/net.cpp:731-770 | a sent message is complete at the other end if and only if the bytes that arrived reach to its end |
| Framing.ProcessNext | src/net.cpp:731-770 | the next message processed has the command, header fields and payload of the next message sent; none is processed only if no complete one is left |
| Framing.Run | src/net.cpp:731-907 | any interleaving of queueing, partial writes, arriving chunks and processing delivers a prefix of what was sent, commands and payloads unaltered, and every message whose last byte has arrived is complete |
| BlockQueue.DownloadQueue.FinalizeNode | src/main.cpp:381-405 | exactly the departing peer's blocks leave both maps, and the header counter drops by its validated ones |
| BlockQueue.DownloadQueue.MarkBlockAsReceived | src/main.cpp:408-427 | the block leaves the list and the map it was in, wherever that was |
| BlockQueue.DownloadQueue.AddBlockToQueue | src/main.cpp:430-444 | accepts exactly blocks that are listed nowhere, from known peers |
| BlockQueue.DownloadQueue.MarkBlockAsInFlight | src/main.cpp:447-459 | the block is taken off any list and put in flight at the peer |
| BlockQueue.DownloadQueue.RequestBlocks | src/main.cpp:3745-3755 | the loop terminates and requests the oldest wanted blocks, as many as there is room for under 128, in order; they and no others are then in flight at the peer |
| BlockQueue.ReceivedKeeps | src/main.cpp:408-427 | a received block is listed nowhere, and maps, lists and counters stay exact |
| BlockQueue.InFlightKeeps | src/main.cpp:447-459 | maps, lists and counters stay exact |
| BlockQueue.DepartKeeps | src/main.cpp:381-405 | maps, lists and counters stay exact |
| BlockQueue.AddKeeps | src/main.cpp:430-444 | maps, lists and counters stay exact |
| BlockQueue.ListedOnce | src/main.cpp:408-459 | no block is listed at two peers, or both wanted and in flight |
| BlockQueue.ReceivedWhere | src/main.cpp:408-427 | a received block is listed nowhere, every other stays where it was |
| BlockQueue.InFlightWhere | src/main.cpp:447-459 | the block is in flight at the peer, every other stays where it was |
| BlockQueue.DepartWhere | src/main.cpp:381-405 | exactly the departing peer's blocks leave |
| BlockQueue.Run | src/main.cpp:352-459 | every run keeps the maps the exact disjoint union of the lists, all counters exact, and at most 128 in flight per peer; every step acts on the places of blocks as on a plain map |
| StakeModifier.SelectionInterval | src/kernel.cpp:46-52 | the sum of the 64 sections |
| StakeModifier.SectionsGrow | src/kernel.cpp:38-43 | later sections are never shorter; the first is 200 seconds, the last 600 |
| StakeModifier.StakeIsFavoured | src/kernel.cpp:57-96 | a proof-of-stake block ranks at its raw hash over 2^32, any other at its raw hash |
| StakeModifier.SelectBlock | src/kernel.cpp:57-96 | selects exactly when a candidate is left: the least selection hash among those in time, the earlier on a tie, or the earliest of all if none is in time |
| StakeModifier.PicksDiffer | src/kernel.cpp:147-162 | no block is picked twice |
| StakeModifier.SelectBlocks | src/kernel.cpp:143-162 | the error branch is never taken; exactly min(64, n) blocks are picked, each winning its round, and bit r is the r-th one's entropy |
| StakeModifier.CollectCandidates | src/kernel.cpp:135-142 | the candidates are the longest run of most recent blocks that are not too old |
| StakeModifier.GetLastStakeModifier | src/kernel.cpp:25-36 | the last block that generated a modifier, if any |
| StakeModifier.ComputeNextStakeModifier | src/kernel.cpp:111-188 | the whole outcome: first modifier, error, unchanged modifier, or the new one from the winning blocks |
| StakeModifier.LastStop | src/kernel.cpp:133-150 | the last of 64 rounds stops at the start of the current modifier interval |
| BlockTemplate.NoteParents | src/miner.cpp:194-232 | a transaction is dropped exactly when an input is missing, and then nothing is noted; otherwise its unconfirmed parents are noted, and whoever lists them gains exactly this transaction |
| BlockTemplate.Collect | src/miner.cpp:184-254 | transactions with a missing input are dropped; every other eligible one is ready if it has no unconfirmed parent, and otherwise waits for exactly those it has |
| BlockTemplate.Consider | src/miner.cpp:275-333 | a transaction is taken if and only if both totals stay strictly below their limits, it is timely, connects, and pays unless the block is small or still sorted by priority; and when the order changes to fees |
| BlockTemplate.Release | src/miner.cpp:341-357 | exactly those that waited only for the new transaction become ready, once, even when listed several times |
| BlockTemplate.QueueIsReady | src/miner.cpp:265-358 | the queue holds exactly the eligible transactions that have not had their turn and whose unconfirmed parents are in the block |
| BlockTemplate.Turn | src/miner.cpp:265-358 | one turn goes to a ready transaction below no other that is ready, decides it by the tests, keeps every invariant and brings the loop one step nearer its end |
| BlockTemplate.CreateNewBlock | src/miner.cpp:175-358 | for every pool, with the exception named under "Left out": terminates; each turn went to the best ready transaction and took it exactly if it passed the tests; an eligible transaction had its turn if and only if its unconfirmed parents are all in the block; none twice, parents before children, both totals strictly below their limits |
| BlockTemplate.TurnIsBest | src/miner.cpp:265-273 | in fee order no other ready transaction pays more per kilobyte, in priority order none has a higher priority; the other measure decides between equals |
| BlockTemplate.ChosenDeserve | src/miner.cpp:275-333 | every chosen transaction is timely and connects to those before it; a cheap one fits the minimum size or came while only high-priority ones within the priority size had been chosen |
| BlockTemplate.TemplateMeans | src/miner.cpp:184-232 | no chosen transaction is minting, all are final, and every input is stored or pays from an earlier chosen one |
| OutputCodec.CompressAmount | src/coins.cpp:382-399 | the loop computes the compressed amount |
| OutputCodec.DecompressAmount | src/coins.cpp:401-425 | the loop computes the amount |
| OutputCodec.DecompressCompress | src/coins.cpp:382-425 | decompressing a compressed amount gives it back, for every natural number |
| OutputCodec.CompressDecompress | src/coins.cpp:382-425 | every natural number is the compressed form of what it decompresses to |
| OutputCodec.CompressedFits | src/coins.cpp:382-399 | a compressed amount is at most nine times the amount plus eight, so every amount in range fits a signed 64-bit integer |
| OutputCodec.WriteVarInt | src/serialize.h:296-310 | the loop writes the variable-length form |
| OutputCodec.ReadVarInt | src/serialize.h:312-325 | the loop reads it, and fails exactly at the end of the stream |
| OutputCodec.VarIntParses | src/serialize.h:295-325 | exactly the bytes written are consumed, and a non-negative number comes back |
| OutputCodec.ScriptDecompresses | src/script/compressor.cpp:46-129 | every special script is recovered from its short form |
| OutputCodec.ScriptRoundTrip | src/script/compressor.h:66-91 | every script is read back whole and nothing beyond it is consumed |
| OutputCodec.OutRoundTrip | src/coins.h:35-46 | an output comes back up to nRounds |
| CoinsCodec.CalcMaskSize | src/coins.cpp:16-32 | the mask ends at its last non-zero byte, and the non-zero bytes are counted |
| CoinsCodec.Serialize | src/coins.h:211-238 | the loops write version, code, mask, unspent outputs and height; the assertion holds |
| CoinsCodec.Unserialize | src/coins.h:240-272 | the loops read the record the bytes stand for, or fail at the end of the stream |
| CoinsCodec.MaskRoundTrip | src/coins.h:218-260 | the mask is read back although its length is implicit |
| CoinsCodec.RecordRoundTrip | src/coins.h:212-272 | reading what was written consumes exactly those bytes and gives the stated record |
| CoinsCodec.SurvivesIff | src/coins.h:212-272 | a cleaned record comes back unchanged if and only if version and height are not negative and no unspent output carries rounds |
| CoinsCodec.RoundsAreLost | src/coins.h:35-46 | a record with rounds that does not come back |
| CoinsCodec.ChainRecordSurvives | src/coins.h:212-272 | what a transaction without rounds leaves after any spends that do not use it up comes back unchanged |
| CoinsCodec.StoreAndLoad | src/coins.h:212-272 | the two methods in sequence: nothing left over, and the same record exactly under that condition |
| DocumentedRecords.FirstExample | src/coins.h:67-79 | the first documented record is written as the documented bytes, for any key hash |
| DocumentedRecords.SecondExample | src/coins.h:82-99 | so is the second, a coinbase with outputs 4 and 16 unspent |
| Base58.EncodeRoom | src/base58.cpp:75-76 | 138/100 digits per byte always suffice |
| Base58.DecodeRoom | src/base58.cpp:33-34 | 733/1000 bytes per digit always suffice |
| Base58Codec.MulAdd | src/base58.cpp:41-48 | the inner loop multiplies and adds, with the exact carry |
| Base58Codec.EncodeBase58 | src/base58.cpp:65-97 | the text of the byte string; the carry is always zero |
| Base58Codec.DecodeBase58 | src/base58.cpp:23-63 | the byte string of the text, or nothing; the carry is always zero |
| Base58Codec.DecodedIff | src/base58.cpp:23-97 | a text decodes to v if and only if it is v's encoding with only spaces around it |
| Base58Codec.EncodeThenDecode | src/base58.cpp:23-97 | decoding an encoding gives the byte string, for every byte string |
| Base58Codec.DecodeThenEncode | src/base58.cpp:23-97 | every text over the alphabet decodes, and encoding the result gives it back |
| Base58Codec.DecodeBase58Check | src/base58.cpp:115-132 | accepts exactly the encodings of a byte string followed by its checksum, for any hash |
| Base58Codec.CheckedRoundTrip | src/base58.cpp:107-132 | the checksum forms round-trip for any hash |

## Left out

- Cryptography, script evaluation, signature checking and signature-operation counting: parameters of the model.
- Sockets, threads, locks, files, logging, start-up and shutdown.
- Orphan blocks and the memory pool's own acceptance rules; resurrecting and removing pool transactions during a reorganisation.
- ChainStates.ChainState.AcceptBlock: the rules other than parent and target (times, checkpoints, finality) are one arbitrary verdict, because they add only easy conditions; the ids of an entering block's branch are taken to be pairwise different, because otherwise the index could not be taken back on a switch (`TxIndexModel.UndoneExactlyWhenFresh`).
- ChainStates.ChainState.AddToBlockIndex: takes the ids of an entering block's branch to be pairwise different, for the same reason.
- `CAddrMan::Select_` and `GetChance`: random choice weighted with floating point.
- Priorities and fees per kilobyte of the block assembler: given as reals, not computed; heap ties may be broken either way.
- BlockTemplate.NoteParents: the case that an input is missing after an unconfirmed parent has been noted, in which the source leaves a pointer to a removed list entry in `mapDependers` (src/miner.cpp:205-224).
- BlockTemplate.Collect: likewise.
- BlockTemplate.Turn: likewise.
- BlockTemplate.CreateNewBlock: likewise.
- 256-bit wrap-around of accumulated chain trust and 32-bit wrap-around of heights and positions.
- Variable-length integers that were not written by WriteVarInt and overflow their type.
- The address index, block-file positions, stormnode, mixing, instant-transaction, spork and secure-message code.
- BlockLedger.FetchInputs: does not model the lookup of previous transactions in the memory pool, which block connection does not use.
- ChainLedger.ChainDb.ConnectBlock: the checks of size, proof, time and merkle root are one arbitrary verdict, because they involve no ledger state.
- CoinDisconnect.DisconnectBlock: when the verdict is not clean, only the outputs of the resulting map are stated, because coinbase flag, height and version of a restored record then come from whatever pruned record the caches still hold.
- CoinDisconnect.ApplyTxInUndo: likewise.
- CoinDisconnect.RestoreTxInputs: likewise.
- CoinDisconnect.DisconnectAll: likewise.
- CoinDisconnect.UndoConnectedBlock: takes the connected view as given, because the source has no code that connects a block to the coin view (the calls in src/txmempool.cpp:373-389 are commented out).
- ChainRuns.OfferBlock: a block that would enter the tree and repeats a transaction id of its own branch is skipped, and `good` says so.
- ChainRuns.Run: starts from a tree whose genesis block is the best block; a failure to store the genesis block ends start-up in the source.
