# Verified model of the chain and pool machinery

This project models, in Dafny, the stateful core of a go-ethereum fork with NFT
transactions, and proves what it keeps over all inputs, runs and interleavings.

- **Transaction pool.** `TxSortedMap`, `TxList` and `PricedList` are the list structures of
  `core/tx_list.go` as classes over a verified binary heap (`Heap`). `PoolContent`,
  `PoolNonces`, `PoolTruncate`, `PoolQueue` and `PoolReset` hold the steps of
  `core/tx_pool.go` on values, `PoolStage` says what single operations make of the whole
  content, and `TxPool` is the pool object that runs them. Its invariant `Valid` says that the
  pending and queued nonces of an account are disjoint, that no stored list is empty, that the
  lookup holds exactly the pooled transactions, each once and with the right slot sum, and that
  every remote transaction is in a price heap; every method keeps it. `Gapless` says that the
  pending nonces of every account are the interval from the state nonce to the virtual nonce.
  `RunReorg` is the main theorem: it ties the pool after a run, stage by stage, to the pool
  before it. `PoolReinject` follows one account through what a reset takes back and drops, and
  `PoolGaps` says exactly which accounts the whole run leaves with a gap. `ReorgScheduler`
  is the coalescing scheduler, `TxNoncer` the virtual nonces.
- **Canonical chain.** `Chains` has block trees and the ancestor walk that everything is
  measured against. `HeaderChain` imports header batches and rewinds, `BlockChain`
  reorganises blocks and the transaction lookup, `Ancestry` has the two ancestor lookups.
- **Chain indexer.** `ChainIndexer` runs its steps against a chain that may be rewritten
  between any two reads.
- **Feed.** `Feed` permutes and deletes from one array in place while subscribers come and go.
- **Gas, value and NFT sales.** `GasPool`, `StateTransition` and `NftSales` over `Ledger`.
- **Derivation paths.** `HdPath` parses and prints.

Where the code does not do what one might expect, the model follows the code, says exactly when,
and has a run from a constructed object that shows it (`PoolCases`, `ChainCases` and the last
members of `StateTransition` and `NftSales`):

- A header batch that wins the fork choice moves the head, and the index follows exactly if its
  last header already was the head, or it brought a new header and is not on top of the head
  with a known header in front (`HeaderChains.HeaderChain.WriteHeaders`). It fails for a batch of
  known headers as heavy as the head with fewer blocks (`ChainCases.KnownBatchUnindexed`), and
  for a known child of the head with a new header on top (`ChainCases.KnownChildSkipped`).
- An interrupted header import leaves the caches ahead of the database exactly if a header was
  new (`HeaderChains.AbortedCaches`, `ChainCases.AbortedAhead`). A later batch that starts with
  such headers takes them for known and never stores them: what follows them is stored without
  its parent, and if nothing follows, a win makes a header the head that the database does not
  have. This is so exactly if a header of the batch is missing in the database while it and
  all before it are found (`HeaderChains.HollowTears`, `HeaderChains.HeaderChain.WriteHeaders`,
  `ChainCases.AbortedLost`). Rewinding drops the caches and with them the difference.
- `reorg` leaves index entries above the new head exactly if the new branch is at most one block
  past the fork and lower than the old head; with no block past the fork the new head is an
  ancestor of the old one (`BlockChains.IndexFollowsReorg`, `ChainCases.ShortBranchUnindexed`).
  It never does when all blocks have the same difficulty.
- A reset of a gapless pool breaks the interval of an account, before the limits are applied, in
  exactly two cases (`PoolGaps.ResetGaps`, `TxPools.TxPool.RunReorg`). Either the state nonce falls
  below its pending list, the first transaction of that is still payable, and what is queued starts
  at the state nonce without reaching the list (`PoolGaps.GapFreeExactly`,
  `PoolCases.PartialReinjectionGaps`). Or a pending transaction of it below the new state nonce is
  dropped to make room for one that comes back, which lowers the virtual nonce for good
  (`PoolReinjects.ResetStands`, `PoolCases.EvictionSinks`); with room for all that comes back
  this does not happen. The limits then close a gap exactly if they cut the list down to what
  lies below it (`PoolGaps.GapStays`). A reset that takes nothing back and lowers no nonce never
  leaves a gap in a funded pool.
- A remote transaction that is added again while it still has a stale heap entry has two entries
  then, unless the one it replaces has the heaps rebuilt (`TxPools.TxPool.PriceSwap`,
  `PoolCases.StaleEntry`). Making room may then count its slots twice and leave the pool above
  its limit (`PoolCases.CountedTwice`); with single entries it never does
  (`TxPools.TxPool.Add`), and a new base fee makes them single again.
- `GetAncestor` of the empty hash above the head answers with a canonical hash
  (`Ancestry.GetAncestor`, `ChainCases.EmptyHashAnswered`).
- A type 30 message pays the fee to the coinbase and again to its sender, so the total grows by
  exactly these fees (`StateTransitions.BlockTotal`, `StateTransitions.LivenessPaysTwice`).
- A sale leaves somebody in debt exactly if fee and royalty take more than the owner has and gets;
  each rate is below 10000, but their sum need not be (`NftSales.DebtExactly`,
  `NftSales.SaleOverdraws`).
- `truncateQueue` is documented to drop the oldest transactions; the code starts with the
  accounts of the latest heartbeat (`TxPools.TxPool.TruncateQueue`, `PoolCases.QueueDropsNewest`).

A hash is the identity of what it names. Signature recovery, JSON, the consensus engine and the
EVM are inputs: header batches are linked and their difficulties positive, running a message
returns no more gas than it got. Random choices, heartbeats and the order of map iteration are
parameters or arbitrary choices.

## Model

| member | source | states |
|---|---|---|
| `TxSortedMaps.TxSortedMap.Put` | core/tx_list.go:73-80 | keeps the heap a min-ordered permutation of the map's keys and the cache absent or exact; the contents change at one nonce |
| `TxSortedMaps.TxSortedMap.Forward` | core/tx_list.go:84-98 | removes exactly the nonces below the threshold and returns them lowest first: what it returns followed by what is left is the old sorted listing; a cache stays exact |
| `TxSortedMaps.TxSortedMap.Filter` | core/tx_list.go:105-112 | keeps exactly what the filter keeps, lists exactly what it drops, and has a valid heap again |
| `TxSortedMaps.TxSortedMap.Reheap` | core/tx_list.go:114-121 | from any stale heap and cache to a valid structure with the same contents |
| `TxSortedMaps.TxSortedMap.FilterOnly` | core/tx_list.go:125-139 | the filter that leaves the heap stale but drops the cache as soon as it is wrong |
| `TxSortedMaps.TxSortedMap.Cap` | core/tx_list.go:143-164 | keeps exactly the `threshold` lowest nonces; the rest comes back highest first |
| `TxSortedMaps.TxSortedMap.Remove` | core/tx_list.go:168-185 | reports whether the nonce was there and takes it out of map and heap |
| `TxSortedMaps.TxSortedMap.Ready` | core/tx_list.go:194-209 | takes out, in order, the maximal run of consecutive nonces that starts at the lowest one, provided that one is at most `start`; otherwise nothing |
| `TxSortedMaps.TxSortedMap.Flatten` | core/tx_list.go:216-237 | returns and caches the contents in strictly rising nonce order |
| `TxSortedMaps.TxSortedMap.LastElement` | core/tx_list.go:241-244 | returns the stored transaction with the highest nonce |
| `TxSortedMaps.LowestIsPrefix` | core/tx_list.go:143-164 | a part of the map whose listing is the first k of the whole listing is the set of the k lowest nonces, counted without the heap |
| `TxSortedMaps.RunIsPrefix` | core/tx_list.go:194-209 | a nonce is in the ready run, defined without an order of removal, exactly if its place in the sorted listing is below the length of the run |
| `TxSortedMaps.RankOf` | core/tx_list.go:143-164 | the i-th listed transaction has exactly i stored nonces below its own |
| `Transactions.FlatUnique` | core/tx_list.go:216-237 | contents and rising order determine the listing, so caching it is sound |
| `TxLists.TxList.Add` | core/tx_list.go:279-312 | inserts unless an older transaction with the nonce fails to be beaten in both prices and both bumped thresholds; the caps still bound everything stored |
| `TxLists.TxList.Forward` | core/tx_list.go:317-319 | removes the lower nonces and keeps the caps as bounds |
| `TxLists.TxList.Filter` | core/tx_list.go:330-359 | drops exactly the unpayable transactions and, on a strict list, invalidates exactly the payable ones behind one; the early exit on the caps never changes the outcome |
| `TxLists.TxList.Cap` | core/tx_list.go:363-365 | keeps the lowest nonces and the caps as bounds |
| `TxLists.TxList.Remove` | core/tx_list.go:370-381 | deletes one nonce; a strict list loses all later ones and returns them |
| `TxLists.TxList.Ready` | core/tx_list.go:390-392 | takes the ready run and keeps the caps as bounds |
| `TxLists.FilterLeavesPrefix` | core/tx_list.go:330-359 | on a strict list without gaps the filter leaves a gapless prefix that ends at the first unpayable transaction; that one and everything after it goes |
| `TxLists.StrictCut` | core/tx_list.go:346-358 | cutting the plain filter's result at the lowest removed nonce is the strict filter |
| `PricedLists.RootCheapest` | core/tx_list.go:429-453 | the root of a price heap is at least as expensive as a transaction exactly if every entry is |
| `PricedLists.DiscardLoop` | core/tx_list.go:557-583 | terminates; live heap entries plus dropped ones are what was there before, and nothing new is in the heaps; it falls short of the wanted slots only with both heaps empty and drops no more than it needs; no live floating transaction left was cheaper when one was dropped, one that came from the urgent heap was the cheapest there, and without a base fee nothing left is cheaper than anything dropped |
| `PricedLists.ConservedTracks` | core/tx_list.go:557-592 | conservation of live entries keeps every remaining remote transaction tracked |
| `PricedLists.DropStale` | core/tx_list.go:533-543 | pops stale entries only: the count of every live transaction is unchanged and a live one is at the root |
| `PricedLists.Rebuilt` | core/tx_list.go:596-618 | both heaps together hold every remote transaction exactly once, a fifth of them floating, none of these dearer than an urgent one |
| `PricedLists.PricedList.Put` | core/tx_list.go:500-506 | a remote transaction gets an entry, a local one does not; single entries stay single exactly if it had none left over |
| `PricedLists.PricedList.Removed` | core/tx_list.go:511-519 | every remote transaction stays tracked and single entries stay single; past a quarter of stale entries the heaps are rebuilt from the remotes alone |
| `PricedLists.PricedList.Reheap` | core/tx_list.go:596-618 | afterwards there is exactly one entry for each remote transaction and none for another |
| `PricedLists.PricedList.SetBaseFee` | core/tx_list.go:622-625 | the heaps are rebuilt under the new order |
| `PricedLists.PricedList.Underpriced` | core/tx_list.go:523-551 | true exactly if there is a remote transaction and none in either heap is cheaper by the order of that heap; no live entry is lost by asking |
| `PricedLists.PricedList.Discard` | core/tx_list.go:557-592 | succeeds exactly if forced or if the live entries account for the wanted slots, and then drops no more than needed, the most underpriced first; otherwise the multiset of live entries is as it was |
| `PricedLists.SinglePut` | core/tx_list.go:500-506 | adding a remote transaction leaves every one with a single entry exactly if it had none before |
| `PricedLists.DiscardsSingle` | core/tx_list.go:557-592 | with single entries nothing is dropped twice, and what is left has single entries |
| `PricedLists.StaleFirst` | core/tx_list.go:523-592 | throwing out stale roots before discarding changes nothing about which live transactions go |
| `PricedLists.SlotSumPart` | core/tx_list.go:557-583 | the slots of a listing depend only on how often each transaction is listed |
| `TxNoncers.TxNoncer.Get` | core/tx_noncer.go:45-55 | returns the virtual nonce and changes none, although it fills the map |
| `TxNoncers.TxNoncer.Set` | core/tx_noncer.go:59-64 | sets one virtual nonce and no other |
| `TxNoncers.TxNoncer.SetIfLower` | core/tx_noncer.go:68-79 | the virtual nonce becomes the lower of the two even if it was only in the state |
| `PoolContent.LookupAdd` | core/tx_pool.go:1752-1764 | the lookup afterwards, exactly: the new transaction is on one side, and the slot count stays the sum over both |
| `PoolContent.LookupRemove` | core/tx_pool.go:1767-1784 | the lookup afterwards, exactly: one transaction goes from whichever side has it, and the slot count stays the sum |
| `PoolContent.RemoteToLocals` | core/tx_pool.go:1788-1801 | moves exactly the accounts' remote transactions and counts them |
| `PoolContent.EnqueueAll` | core/tx_pool.go:734-769 | queueing transactions whose nonces are free inserts every one of them, in whatever order they come |
| `PoolContent.RemoveFromLists` | core/tx_pool.go:1003-1032 | removing a pending transaction moves exactly the later ones of its account to the queue and lowers the virtual nonce to its own; removing a queued one touches nothing else |
| `PoolContent.RemovalKeeps` | core/tx_pool.go:987-1033 | the removal keeps pending and queue disjoint by nonce, the lookup exact, and pending gapless |
| `PoolContent.PromoteAccount` | core/tx_pool.go:1306-1359 | drops the old and the unpayable, moves exactly the ready run to pending in nonce order, caps the rest unless local, and keeps the pool consistent |
| `PoolContent.DemoteAccount` | core/tx_pool.go:1505-1553 | keeps pending exactly what starts at the state nonce and is payable without an unpayable one before it, moves the other payable ones to the queue, and keeps the pool consistent |
| `PoolContent.AccountChanged` | core/tx_pool.go:641-817 | changing the two lists of one account, and the lookup to match, keeps the whole pool consistent |
| `PoolNonces.PromotionNonces` | core/tx_pool.go:1327-1334 | promoting the ready run keeps every account's pending nonces the interval from the state nonce to the virtual nonce, and keeps settling lists settling during a reset |
| `PoolNonces.RunContinues` | core/tx_pool.go:1327-1334 | the ready run of a queue is empty or starts exactly where the executable part of pending ends, and has no gap |
| `PoolNonces.ForwardReset` | core/tx_pool.go:1282-1284 | adopting a state in which no nonce is lower and forgetting the virtual nonces leaves every gapless list settling |
| `PoolNonces.GaplessIsSettling` | core/tx_pool.go:1277-1281 | a reset that fails and changes nothing leaves gapless, funded lists settling too |
| `PoolNonces.DemotionSettled` | core/tx_pool.go:1505-1553 | demotion turns a settling list into one that starts at the state nonce without a gap, and an emptied one has the state nonce as virtual nonce |
| `PoolNonces.NoncesSet` | core/tx_pool.go:1183-1187 | raising the virtual nonces to the ends of the lists makes all accounts gapless again |
| `PoolNonces.PromotionExhausts` | core/tx_pool.go:1306-1359 | after promotion the account has no ready run left, and other accounts are not affected |
| `PoolNonces.PromotionGains` | core/tx_pool.go:1327-1334 | pending gains exactly the promoted transactions, none of which it had |
| `PoolNonces.PromotedTwice` | core/tx_pool.go:1301-1362 | promoting an account twice is promoting it once, so an account may be listed any number of times |
| `PoolGaps.GapFreeExactly` | core/tx_pool.go:1301-1362 | after a reset to a nonce, promotion and demotion leave a list that was an interval without a gap exactly if that nonce is not below it, or it is empty or its first transaction unpayable, or nothing queued is executable at that nonce, or the queue closes the whole distance |
| `PoolGaps.GapsOf` | core/tx_pool.go:1138-1188 | the same for one account through all stages of a run: before truncation it is based at the state nonce exactly if the gap condition holds and no drop sank its virtual nonce; after the run it is gapless exactly then, or if truncation cut its list down to what lies below the gap |
| `PoolGaps.GapStays` | core/tx_pool.go:1366-1447 | a list with a gap that truncation shortens to its lowest transactions is an interval from the state nonce exactly if no more than the run below the gap is left |
| `PoolGaps.GaplessAgain` | core/tx_pool.go:1138-1188 | from a gapless pool: all accounts are based before truncation exactly if none comes to harm, and then the pool is gapless after the run |
| `PoolGaps.ResetGaps` | core/tx_pool.go:1138-1188 | the gap theorem for a whole reset, from the pool before it and from what came back and was dropped for that |
| `PoolReinjects.AnswerStands` | core/tx_pool.go:641-729 | one transaction taken back: an account whose pending nonces start at some nonce keeps an interval from there, possibly shorter, and its virtual nonce leaves the state nonce exactly when a pending transaction below that is dropped; then it is the end of the list |
| `PoolReinjects.RefillStands` | core/tx_pool.go:917-949 | the same for a batch of any length |
| `PoolReinjects.ResetStands` | core/tx_pool.go:1273-1296 | the same for a reset, which forgets all virtual nonces first |
| `PoolReinjects.RoomForAll` | core/tx_pool.go:641-729 | with room for the whole batch nothing is dropped, and every stage is a function of the one before it |
| `PoolReinjects.RoomSinksNone` | core/tx_pool.go:641-729 | with room for the whole batch no virtual nonce is lowered |
| `PoolGaps.RaisedFrom` | core/tx_pool.go:1175-1187 | the virtual nonces after a run do not depend on truncation for accounts without pending transactions |
| `PoolStages.AnsweredTells` | core/tx_pool.go:641-729 | what an answer tells: an accepted transaction is in the pool on its side; a rejected one is not unless it was before; no rejection but that of a replacement changes anything; an account becomes local only by a local transaction that is accepted |
| `PoolStages.AddedTells` | core/tx_pool.go:917-949 | the same for every answer of a batch |
| `PoolStages.GoneIsGone` | core/tx_pool.go:987-1033 | removing a transaction twice is removing it once |
| `PoolStages.NothingBack` | core/tx_pool.go:1273-1289 | a reset without transactions to take back keeps everything but the virtual nonces |
| `PoolTruncate.RoundLowers` | core/tx_pool.go:1399-1418 | dropping the last transaction of every list that reaches a water level lowers the level by one |
| `PoolTruncate.LevelledBased` | core/tx_pool.go:1367-1449 | cutting lists to a positive level leaves them starting at the state nonce without a gap |
| `PoolTruncate.PickOffender` | core/tx_pool.go:1387-1395 | the popped account has the longest list still to come, and everything longer has been cut already |
| `PoolTruncate.TruncationIsFair` | core/tx_pool.go:1367-1449 | what the water level means: local lists are whole; cut lists lose only their highest nonces and end at one common length, at least the guaranteed slots, which no uncut list passes; the limit is met or no list is above the guaranteed slots |
| `PoolQueue.CutPrefixes` | core/tx_pool.go:1477-1492 | queue truncation touches only the listed accounts and takes only highest nonces |
| `PoolQueue.CutTotal` | core/tx_pool.go:1470-1493 | exactly the overflow is dropped, unless all listed accounts run dry |
| `PoolQueue.Doomed` | core/tx_pool.go:1477-1492 | the transactions removed from one account, in order: all of them, or the last few from the end |
| `PoolResets.Reinjected` | core/tx_pool.go:1209-1272 | reinjects exactly the transactions of blocks that left the canonical chain and are not in blocks that joined it; nothing when the old head is an ancestor of the new one; gives up exactly for a shallow reorganisation whose blocks cannot be read back down to the fork, a missing old head counting only if the new one is not lower |
| `PoolResets.NoncesRisen` | core/tx_pool.go:1273-1284 | if no block lowers a nonce, none drops from a block to a descendant |
| `PoolResets.ResetFor` | core/tx_pool.go:1209-1289 | the reset the pool runs: no new head exactly if blocks or the state are missing, otherwise the lost transactions; it goes forward whenever the new head descends from the old one |
| `PoolResets.Advance` | core/tx_pool.go:1138-1188 | a pool that moves its head to a descendant keeps every account gapless |
| `TxPools.TxPool.constructor` | core/tx_pool.go:268-296 | an empty pool is consistent, gapless and funded |
| `TxPools.TxPool.RemoveTx` | core/tx_pool.go:987-1033 | the content afterwards is that of before without the transaction, in all three cases; the pool stays consistent, priced and gapless, and single entries stay single |
| `TxPools.TxPool.MakeRoom` | core/tx_pool.go:660-685 | which error comes up, from the prices and slots of the heaps; on an error nothing changes; otherwise exactly the dropped remote transactions go, the cheapest ones and no more than needed, and enough slots are free if entries were single |
| `TxPools.TxPool.PriceOut` | core/tx_pool.go:662-685 | the price index gives up what makes room, or says why not |
| `TxPools.TxPool.PriceSwap` | core/tx_pool.go:694-706 | a remote transaction keeps the entries single exactly if it had no stale entry itself or the removal of the one it replaces has the heaps rebuilt |
| `TxPools.TxPool.ReplacePending` | core/tx_pool.go:686-710 | replaces a pending transaction exactly if the price rule allows, keeping pending gapless and funded |
| `TxPools.TxPool.EnqueueTx` | core/tx_pool.go:734-769 | queues a transaction in the place of none or of one it may replace, with lookup and price index to match |
| `TxPools.TxPool.MarkLocal` | core/tx_pool.go:716-721 | an account becomes local, none of its transactions stays remote, and single entries stay single |
| `TxPools.TxPool.Add` | core/tx_pool.go:641-729 | the answer and the content afterwards, for a full pool too: what is known, invalid or gets no room changes nothing, otherwise the dropped ones make room and the price rule decides on the rest; the dropped ones are the cheapest; the pool stays consistent, gapless and funded; a remote transaction leaves it within capacity if entries were single; they stay so if it had none left over, and where there was room only then or if the one it replaces has the heaps rebuilt |
| `TxPools.TxPool.Insert` | core/tx_pool.go:686-729 | the second half: the content after a valid transaction there is room for |
| `TxPools.TxPool.AddTxsLocked` | core/tx_pool.go:917-949 | adds a batch in order, type 30 as local: every answer and every stage in between is that of adding the one transaction, which error a full pool gives and which transactions are dropped included; what every answer tells; reports exactly the senders of transactions that replaced none |
| `TxPools.TxPool.SetGasPrice` | core/tx_pool.go:430-447 | a higher price drops exactly the remote transactions with a lower tip; gapless lists stay so |
| `TxPools.TxPool.PromoteOne` | core/tx_pool.go:1306-1359 | promotion of one account on the pool: exact lists and virtual nonce, nothing ready left, other accounts as before |
| `TxPools.TxPool.PromoteExecutables` | core/tx_pool.go:1301-1362 | every listed account has its ready run pending, exactly the rest of its queue queued and the virtual nonce after the run; all other accounts are as before; nothing joins the lookup; pending gains exactly what is returned and no account listed has a ready run left |
| `TxPools.TxPool.DemoteUnexecutables` | core/tx_pool.go:1503-1554 | every account holds exactly what demotion keeps and queues; all pending transactions are funded; settling lists start at the state nonce without a gap |
| `TxPools.TxPool.CutDown` | core/tx_pool.go:1398-1419 | rounds over the accounts at the water level until the limit or the floor is met; a round is only run while the pool is above the limit |
| `TxPools.TxPool.NextOffender` | core/tx_pool.go:1387-1421 | the next longest list joins and the earlier ones come down to its length |
| `TxPools.TxPool.TruncatePending` | core/tx_pool.go:1367-1449 | terminates with all lists of accounts that are not local cut to one level that is not below the guaranteed slots, that meets the limit or is at the guaranteed slots, and above which the limit would be exceeded |
| `TxPools.TxPool.TruncateQueue` | core/tx_pool.go:1452-1494 | the overflow goes from the accounts with the latest heartbeat, highest nonces first; pending and local accounts are untouched; the limit is met or only local accounts have queued transactions |
| `TxPools.TxPool.SetNonces` | core/tx_pool.go:1183-1187 | closes a run: lists that start at the state nonce without a gap end at the virtual nonce |
| `TxPools.TxPool.ResetTo` | core/tx_pool.go:1273-1296 | a failed reset changes nothing; a successful one forgets the virtual nonces and adds the transactions it takes back one by one, with the errors, the drops and the price heaps of each step, and with none of these keeps everything else; a forward one leaves gapless funded lists settling |
| `TxPools.TxPool.DemoteAndCut` | core/tx_pool.go:1169-1187 | the second half of a run: exact demotion, exact truncation and virtual nonces, within the limits, from settling or gapless lists to gapless ones |
| `TxPools.TxPool.RunReorg` | core/tx_pool.go:1138-1188 | the content after a whole run, tied stage by stage to that before it: reset, exact promotion, exact demotion, exact truncation, virtual nonces; the pool is consistent and within its limits; after a reset every pending transaction is funded; which accounts it leaves with a gap, exactly, for every account whose pending nonces were an interval, and from a gapless pool for all of them; with room for what comes back the stage after the reset is a function of the pool before and no virtual nonce sinks; while resets go forward every account is gapless; a new base fee makes heap entries single |
| `PoolCases.PartialReinjectionGaps` | core/tx_pool.go:1138-1188 | a run from an empty pool: a pending transfer at nonce 5, then a reset to nonce 3 that brings back only nonce 3, leaves a gap |
| `PoolCases.EvictionSinks` | core/tx_pool.go:1138-1188 | a run from an empty pool: a pending transfer at nonce 5 that the new branch has mined makes room for one that comes back, and the virtual nonce stays below the state nonce |
| `PoolCases.StaleEntry` | core/tx_pool.go:987-1033 | a run from an empty pool after which a transaction has two heap entries |
| `PoolCases.CountedTwice` | core/tx_pool.go:641-729 | that run continued: a transaction of two slots is accepted and the pool is above its limit |
| `PoolCases.DroppedTwice` | core/tx_list.go:557-583 | the cheapest transaction with two entries is dropped twice for two slots |
| `PoolCases.NewestGoesFirst` | core/tx_pool.go:1452-1494 | of two queued transactions the one of the account with the later heartbeat is dropped |
| `PoolCases.QueueDropsNewest` | core/tx_pool.go:1452-1494 | a run of the pool over its queue limit: the account with the later heartbeat loses its transaction |
| `ReorgSchedulers.ReorgScheduler.Launch` | core/tx_pool.go:1080-1091 | starts a run only when none is in progress, with the merge of everything requested under its ticket |
| `ReorgSchedulers.ReorgScheduler.RequestReset` | core/tx_pool.go:1094-1102 | the ticket handed out is that of the next run, which spans the first old head to the latest new head |
| `ReorgSchedulers.ReorgScheduler.RequestPromote` | core/tx_pool.go:1104-1112 | the ticket handed out is that of the next run, whose accounts include the requested ones |
| `ReorgSchedulers.ReorgScheduler.ObserveDone` | core/tx_pool.go:1123-1124 | clears the way for the next run only when the last one has ended |
| `ReorgSchedulers.ReorgScheduler.Shutdown` | core/tx_pool.go:1126-1132 | waits for the active run and releases the ticket of the run that will not come |
| `ReorgSchedulers.ReorgScheduler.Loop` | core/tx_pool.go:1068-1135 | over any sequence of requests, events and run ends at most one run is active, closed tickets stay closed, and no request is ever added to a run that has started |
| `ReorgSchedulers.ReorgScheduler.TicketKept` | core/tx_pool.go:1037-1135 | unless shut down, a closed ticket was closed by its own run, which was started after the requests, spans all requested resets and promotes every requested account that has queued transactions |
| `ReorgSchedulers.PromotesRequested` | core/tx_pool.go:1141-1168 | every requested account with queued transactions is promoted by the run of its ticket, reset or not |
| `Feeds.Find` | event/feed.go:213-220 | the first slot with the channel, or none |
| `Feeds.Delete` | event/feed.go:223-225 | shifts the later slots down in place; the slice afterwards is the old one without the slot |
| `Feeds.Deactivate` | event/feed.go:228-232 | swaps a slot with the last active one in place and leaves the others |
| `Feeds.DeliverKeeps` | event/feed.go:159-181 | a delivery moves the channel from the undelivered prefix to the delivered rest |
| `Feeds.RemoveKeeps` | event/feed.go:171-177 | deleting a subscriber from the shared array shortens the active prefix exactly if it was still in it, and both parts stay what they were |
| `Feeds.Feed.Subscribe` | event/feed.go:72-92 | the channel waits in the inbox for the next send |
| `Feeds.Feed.Unsubscribe` | event/feed.go:103-117 | a channel in the inbox goes at once; another one waits for a send or for the send lock |
| `Feeds.Feed.RemoveIdle` | event/feed.go:119-122 | without a send in progress exactly the channel is removed |
| `Feeds.Feed.Begin` | event/feed.go:132-154 | the inbox is merged and all subscribers are undelivered |
| `Feeds.Feed.Deliver` | event/feed.go:160-164 | delivers to a subscriber that has not had the value |
| `Feeds.Feed.TakeRemoval` | event/feed.go:171-177 | a removal taken during a send loses exactly that subscriber, delivered or not |
| `Feeds.Feed.FastPath` | event/feed.go:159-165 | one non-blocking pass tries every undelivered channel exactly once, although each delivery swaps another case into the slot |
| `Feeds.Feed.Others` | event/feed.go:72-123 | what any sequence of calls leaves: subscribers are leaving if one of the calls was to unsubscribe them, and others are in the inbox if the last call about them was to join |
| `Feeds.Feed.Select` | event/feed.go:169-181 | a blocking select serves one more subscriber or takes one removal |
| `Feeds.Feed.Send` | event/feed.go:128-190 | for any calls of the others at any point: every subscriber nobody unsubscribes gets the value exactly once and stays; only channels unsubscribed before or meanwhile are removed, and get it at most once; those asked to leave and not removed are still leaving; the inbox has exactly the new channels whose last call was to join; the count is the number delivered |
| `HeaderChains.IndexFollowsIff` | core/headerchain.go:229-276 | a batch without new headers that wins leaves the index wrong unless its last header was already the head |
| `HeaderChains.OnlyHeadWins` | core/headerchain.go:213-228 | a stored ancestor of the head can win the fork choice only as the head itself |
| `HeaderChains.ChooseFork` | core/headerchain.go:213-289 | the batch wins exactly by weight, fewer blocks or the coin; a losing batch leaves head and index alone, a winning one makes its last header the head |
| `HeaderChains.WinnerIndexed` | core/headerchain.go:213-289 | the index follows a winning batch exactly if that ended at the head, or stored a header and is not on top of the head with a known header in front |
| `HeaderChains.Reindex` | core/headerchain.go:229-276 | the index after a winning batch: the ancestry of its first parent, then its headers, without the known ones if it is on top of the head |
| `HeaderChains.MovedIndex` | core/headerchain.go:229-276 | once the batch is stored that index is the ancestry of its last header exactly under the condition above |
| `HeaderChains.IndexSkips` | core/headerchain.go:232-276 | known headers on top of the head leave a hole in the index |
| `HeaderChains.LeafKept` | core/headerchain.go:167-228 | a head without stored children passes that on as long as the index follows, and a batch on top of it is new from its first header on |
| `HeaderChains.StoreBatch` | core/headerchain.go:167-200 | every header before the first one that neither caches nor database have is skipped, all others are written; if the skipped ones are stored, the store stays a tree and every total difficulty the sum along the ancestry; caches that agree with the database agree with what is about to be written |
| `HeaderChains.HollowTears` | core/headerchain.go:167-200 | headers found in the caches only are not written; the first one written on top of them has no parent in the store, which is no tree any more; if none is, the store is as before and lacks the last header |
| `HeaderChains.HollowNotSolid` | core/headerchain.go:181-200 | everything skipped was stored exactly unless a header of the batch is missing while it and all before it are found |
| `HeaderChains.Backfill` | core/headerchain.go:250-260 | walks back to the canonical chain and rewrites exactly the entries that differ |
| `HeaderChains.AbortedCaches` | core/headerchain.go:184-206 | after an interrupted import the caches are ahead of the database exactly if a header was new |
| `HeaderChains.AbortedAll` | core/headerchain.go:184-206 | whatever the caches were before, after an interrupted import they are never wrong about a stored header |
| `HeaderChains.TrimmedKeeps` | core/headerchain.go:563-635 | deleting every header above a number keeps store, weights and index valid |
| `HeaderChains.HeaderChain.GetTd` | core/headerchain.go:461-473 | the cached lookup by the right number equals the store's answer; a header that is not stored is found exactly if it is cached |
| `HeaderChains.HeaderChain.GetHeader` | core/headerchain.go:487-499 | the cached lookup by the right number equals the store's answer; a header that is not stored is found exactly if it is cached |
| `HeaderChains.HeaderChain.GetBlockNumber` | core/headerchain.go:120-130 | the cached number equals the store's answer; a header that is not stored has one exactly if it is cached |
| `HeaderChains.HeaderChain.WriteHeaders` | core/headerchain.go:149-301 | the cases of an unknown parent and of an abort; unless the batch starts with headers found in the caches only, the store stays parent-closed and weighed, a losing batch changes no index entry, after a winning one the index is the new head's ancestor chain with nothing above exactly if the head was the last one, or a header was new and the batch is not on top of the head with a known header in front, and the head's total difficulty never drops; if it does start so, exactly what is written, that the store is torn or the last header missing, and what becomes of head and index |
| `HeaderChains.HeaderChain.SetHead` | core/headerchain.go:563-640 | deletes every header of every fork above the number, whatever is stored above the head, keeps the index linked, and ends at the head's ancestor; at or above the head only the caches go; caches that were ahead agree with the database again |
| `HeaderChains.HeaderChain.WriteWithoutState` | core/blockchain.go:1412-1423 | storing a header with its weight keeps store, caches and index valid, wherever it hangs |
| `HeaderChains.HeaderChain.WriteHead` | core/blockchain.go:775-799 | nothing changes for a canonical block; any other stored block becomes the head, and the index is its ancestry exactly if its parent is canonical and nothing is indexed above it, as for a child of the head |
| `HeaderChains.AtHead` | core/blockchain.go:775-799 | putting the entry of a stored block into the index makes that its ancestry exactly under that condition |
| `ChainCases.KnownChildSkipped` | core/headerchain.go:229-276 | a run after which the index has a hole below the head |
| `ChainCases.KnownBatchUnindexed` | core/headerchain.go:213-276 | a run after which the index names another branch than that of the head |
| `ChainCases.AbortedAhead` | core/headerchain.go:184-206 | a run after which the caches have a header the database has not |
| `ChainCases.AbortedLost` | core/headerchain.go:149-301 | that run continued: importing the header again makes it the head, and the database does not have it |
| `Ancestry.GetAncestor` | core/headerchain.go:425-457 | equals the parent walk, and spends one unit of the allowance for each step off the canonical chain; runs out exactly when the fork point is too deep |
| `ChainCases.EmptyHashAnswered` | core/headerchain.go:425-457 | the empty hash two above genesis has genesis as second ancestor |
| `Ancestry.Descend` | core/evm.go:149-164 | the parent of the last cached header extends the cache by the next ancestor hash |
| `Ancestry.HashFn.Get` | core/evm.go:136-167 | whatever was asked before, the answer is that of the parent walk, with the number arithmetic wrapping at genesis; the cache only grows and is always a prefix of the ancestor hashes |
| `BlockChains.FindFork` | core/blockchain.go:2278-2322 | terminates at the nearest common ancestor with both branches above it, or reports exactly the case of an unreadable block |
| `BlockChains.LookupFollows` | core/blockchain.go:2339-2356 | indexing the new branch, deleting what only the old one had and indexing the head leaves the transaction lookup exact |
| `BlockChains.IndexFollowsReorg` | core/blockchain.go:2357-2368 | the index is the new head's ancestor chain exactly if the new branch is two blocks past the fork or reaches the old height |
| `BlockChains.Reorganise` | core/blockchain.go:2223-2385 | both results for a whole reorganisation from the current block |
| `BlockChains.ExtendsHead` | core/blockchain.go:775-802 | putting a child on top of the head keeps head, index and lookup in agreement |
| `BlockChains.UniformWinnersReach` | core/blockchain.go:1597-1616 | with equal difficulties a branch that is not lighter is not shorter |
| `BlockChains.BlockChain.WriteKnownBlock` | core/blockchain.go:1427-1439 | fails exactly for unreadable branches and then changes nothing; otherwise the block is the head, the lookup is exact, and the index is valid exactly under the condition on the branch |
| `BlockChains.BlockChain.WriteBlock` | core/blockchain.go:1597-1636 | the fork choice; it fails exactly for an unknown parent, or for a winner not on top of the head whose branches cannot be read back to the fork; then the same as for a known block; under uniform difficulty index and lookup stay valid after every block |
| `ChainCases.ShortBranchUnindexed` | core/blockchain.go:2223-2385 | a run after which the index has an entry above the head |
| `ChainIndexers.OneComparisonSuffices` | core/chain_indexer.go:419-429 | if the last stored section head is on a linked chain, so is every stored one above the checkpoint |
| `ChainIndexers.ChainIndexer.SetValidSections` | core/chain_indexer.go:479-491 | forgets exactly the sections at and above the limit |
| `ChainIndexers.ChainIndexer.VerifyLastHead` | core/chain_indexer.go:422-429 | with every read free to return anything, it rolls back exactly while the head read differs, so the last head was just seen or only the checkpoint is left |
| `ChainIndexers.ChainIndexer.Sections` | core/chain_indexer.go:434-440 | whatever linked chain has the reported head at its place has all stored section heads; exactly the sections from the reported number on are forgotten, each because the head read differed |
| `ChainIndexers.ChainIndexer.NewHead` | core/chain_indexer.go:243-300 | exactly how a new head or a reorganisation moves the known and stored sections, with the checkpoint compared before the first section above it is known |
| `ChainIndexers.ChainIndexer.ProcessSection` | core/chain_indexer.go:388-417 | with the chain rewritten between any two reads, and new heads handled and sections asked for meanwhile, a processed section's head is exactly one section of parent steps above the head it started from |
| `ChainIndexers.ChainIndexer.Update` | core/chain_indexer.go:317-369 | stored section heads above the checkpoint stay linked although the lock is released while processing; a processed section is stored unless a reorganisation took the one before away, and a failed round waits for the next notification |
| `GasPools.GasPool.AddGas` | core/gaspool.go:29-35 | panics exactly beyond 64 bits and then changes nothing |
| `GasPools.GasPool.SubGas` | core/gaspool.go:39-45 | fails exactly when there is too little gas and then changes nothing |
| `GasPools.IntrinsicGas` | core/state_transition.go:119-157 | the overflow error comes up exactly when the cost of the data exceeds 64 bits; the cost of an access list wraps around |
| `StateTransitions.StateTransition.BuyGas` | core/state_transition.go:193-213 | which error comes first and that it changes nothing; on success gas, pool and balance move together |
| `StateTransitions.StateTransition.RefundGas` | core/state_transition.go:361-376 | the refund is at most the used gas over the quotient and the counter (EIP-3529, Specification section); the rest goes back to sender and pool |
| `StateTransitions.StateTransition.TransitionDb` | core/state_transition.go:273-359 | succeeds exactly if all checks hold, otherwise with the error of the first that fails; never panics; state, gas used and failure are those of applying the message; the pool loses exactly the gas used; errors before the purchase change nothing and later ones cost the message's gas |
| `StateTransitions.Refusal` | core/state_transition.go:193-298 | no error exactly if every check holds, whatever the order |
| `StateTransitions.SettlementSettles` | core/state_transition.go:333-376 | what settling does to every balance and to the total |
| `StateTransitions.PayFee` | core/state_transition.go:333-352 | every balance after settlement: gas left to the sender, the fee to the coinbase or to the sender of a successful type 6, and once more to the sender of a type 30 |
| `StateTransitions.FeesZeroSum` | core/state_transition.go:273-376 | if running the message conserves the total so does the transition, except that type 30 creates exactly gas used times price |
| `StateTransitions.PurchaseCovered` | core/state_transition.go:193-213 | a sender that passes the balance check can pay for all the gas and still has the value |
| `StateTransitions.Process` | core/state_processor.go:60-116 | the messages are applied one by one, each in the state the one before left and with the gas left of the block, up to the first that is not admissible, whose error and index are reported; gas used plus gas left is the block's limit, receipts accumulate it, and no receipt exceeds its message's gas |
| `StateTransitions.BlockTotal` | core/state_processor.go:60-116 | over a block in which every run conserves the total, it grows by exactly the fees of the type 30 messages |
| `StateTransitions.BlockSolvent` | core/state_processor.go:60-116 | a block in which every run leaves nobody in debt leaves nobody in debt |
| `StateTransitions.LivenessPaysTwice` | core/state_transition.go:333-352 | a type 30 message after which the total of the balances is higher |
| `NftSales.Settle` | core/evm.go:541-552 | the total is conserved and every party gets its part even when buyer, owner, creator and exchanger coincide |
| `NftSales.DebtExactly` | core/evm.go:541-552 | a sale to a buyer who has the price leaves a negative balance exactly if the owner cannot pay fee and royalty out of what it has, gets as price and gets back as creator or exchanger, any of the parties coinciding; every settlement promises this |
| `NftSales.NoOverdraft` | core/evm.go:541-552 | with fee rate plus royalty at most 10000 no balance goes negative |
| `NftSales.Overdraft` | core/evm.go:541-552 | with higher rates an owner without funds is overdrawn by every price that is a multiple of 10000 |
| `NftSales.SaleOverdraws` | core/evm.go:560-672 | a run of the market: a sale at 10000 with a fee rate of 5000 and a royalty of 6000 leaves the owner at -1000 |
| `NftSales.Market.BuyBySellerOrExchanger` | core/evm.go:411-557 | when it succeeds, for all inputs; on an error nothing changes; on success the buyer owns the NFT, the sale is settled, and the fee goes to the exchanger the NFT was minted for if that one is open |
| `NftSales.Market.BuyByBuyer` | core/evm.go:560-672 | the same for a sale signed by the owner and sent by the buyer |
| `NftSales.Market.BuyAndMintByBuyer` | core/evm.go:675-796 | the same for minting on sale, sent by the buyer: the seller becomes creator and no royalty is due |
| `NftSales.Market.BuyAndMintByExchanger` | core/evm.go:799-991 | the same for minting on sale through an open exchanger both sides named |
| `NftSales.Market.BuyByApproveExchanger` | core/evm.go:995-1162 | the same for a caller authorised by an exchanger the NFT is approved to |
| `NftSales.Market.BuyAndMintByApproved` | core/evm.go:1165-1408 | the same for minting on sale by a caller an open exchanger authorised |
| `NftSales.Market.BuyByExchanger` | core/evm.go:1411-1610 | the same for a sale both sides signed, sent by an exchanger |
| `HdPaths.ParseDerivationPath` | accounts/hd.go:68-118 | accepts exactly the texts that mean a path and returns it, relative ones under the default root |
| `HdPaths.ToString` | accounts/hd.go:122-136 | prints the canonical text |
| `HdPaths.TextParses` | accounts/hd.go:90-116 | a printed component parses to itself, hardened from 2^31 on (BIP-32, section Extended keys) |
| `HdPaths.RoundTrip` | accounts/hd.go:68-136 | for every non-empty sequence of 32-bit components, parsing the printed path gives it back |
| `HdPaths.PrintedIsCanonical` | accounts/hd.go:68-136 | whatever parses is a non-empty path of 32-bit components, and printing it gives a text with the same meaning |
| `HdPaths.PrintedInjective` | accounts/hd.go:120-136 | different paths print differently |

## Left out

- Validation of a transaction by size, signature, value, fee caps and intrinsic gas is one Boolean input of `TxPools.TxPool.Add`, and all validation errors are one error.
- In the pool the lists of an account are values, not `TxList` objects; that their caps never change an outcome is proved of `TxLists.TxList.Filter`.
- Nonces are unbounded: the wrap-around of nonce 2^64 - 1 is not modelled.
- `priceBump` is not converted to a signed 64-bit number.
- Events, the journal, heartbeats kept by the pool, metrics and logs; the eviction ticker, which only removes queued transactions; reading the pool's content.
- PricedLists.PricedList.Removed: `stales` is an estimate and only its bookkeeping is modelled.
- TxPools.TxPool.MakeRoom: does not bound the slots when a remote transaction has two heap entries, because the code then counts it twice (`PoolCases.CountedTwice`).
- HeaderChains.HeaderChain.WriteHeaders: says nothing of a batch whose first parent is in the difficulty cache and not in the database; walking back from it, the code goes on only as long as the header cache has the ancestors. It starts from a tree whose head is indexed, so nothing is said of imports into a store that is already torn.
- HeaderChains.HeaderChain.WriteHead: the head block and the head fast block are modelled in `BlockChains` and not here.
- Freezer, pivot and forced rewinds of `SetHead`, receipt chains, and background indexing of transactions.
- Receipts, logs and chain events of a reorganisation; the miner and validator pools in `writeBlockWithState`.
- Child indexers, changing the checkpoint while processing, throttling, and failures of the index database.
- Subscribing one channel twice to one feed, and the type checks of a feed.
- BlockChains.BlockChain.WriteBlock: assumes that no block repeats a transaction of its ancestry, which block validation guarantees by nonce.
- Levels of merged NFTs: changing the owner is modelled for the address as given; the error texts of the sale functions; minting is an input that fails or yields a new NFT.
- Vote weights beyond the amount added; the other NFT and staking operations of `core/evm.go`.
- Unicode in derivation paths beyond white space; the path iterators and the JSON form of a path.
