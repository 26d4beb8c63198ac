# Verified models of a proof-of-stake Ethereum-style node

This project models the parts of the node in which several structures have to stay in
agreement while they are changed step by step, and proves that they do:

- the **transaction pool** (`core/tx_pool.go`, `core/tx_list.go`, `core/tx_noncer.go`): account
  lists over heap-indexed sorted maps, a hash lookup, virtual nonces, a two-heap eviction list, and
  the routines that add, replace, promote, demote, evict and truncate;
- the **canonical chain index** (`core/blockchain.go`, `core/headerchain.go`, `core/evm.go`): number
  and transaction indexes, total difficulties and heads that follow a tree of blocks, and the
  shortcuts that replace parent walks;
- the **section indexer** (`core/chain_indexer.go`): background processing with the lock released
  while reorganisations interleave;
- the **event feed** (`event/feed.go`): broadcast over one backing array shared by two slices;
- the **explorer cache** (`cachemanager/cachemanager.go`): paged account histories and supply totals
  that survive failures and restarts;
- **gas and balance accounting** (`core/state_transition.go`, `core/gaspool.go`,
  `core/state_processor.go`).

Objects whose methods change fields are classes; every region the source runs under a lock is one
method, and what can interleave is a sequence of events driven by a `Run` method. Each method is
proved against functions on values, about which the lemmas speak. Block stores, databases and
account states are maps; the virtual machine, signature recovery, the gas exemption test, receiver
readiness, coin flips, clocks, heartbeats and failures are parameters. A transaction hash stands for one
transaction: the pool carries the meaning of hashes as a ghost constant, and offers must agree with it.

Check everything with `dafny verify dfyconfig.toml`.

## Files

| file | content |
|---|---|
| `Common.dfy`, `Heap.dfy`, `Sorting.dfy`, `Sums.dfy` | options and 64-bit numbers, binary heaps as in Go's `container/heap`, sorting, totals over maps |
| `Transactions.dfy` | transactions, nonce maps, ranks, ready runs, listings |
| `TxSortedMap.dfy`, `TxList.dfy`, `TxPricedList.dfy` | the three list structures of `core/tx_list.go` |
| `TxPoolState.dfy`, `TxPoolAccounts.dfy`, `TxPoolFairness.dfy`, `TxPoolOffers.dfy`, `TxPool.dfy` | the pool: lookup and books, one account's life, pending truncation, offers and evictions, the pool itself |
| `TxPoolReset.dfy` | what a reset gives back, worked out from the chains of two heads |
| `TxPoolExamples.dfy` | runs of the pool that end unexpectedly |
| `ChainTree.dfy` | block stores, chains, forks, indexes, total difficulty |
| `BlockIndex.dfy`, `ForkChoice.dfy` | reorganisation and fork choice of full blocks |
| `HeaderChain.dfy`, `HashFn.dfy` | the header chain, ancestor lookup, block hashes for the virtual machine |
| `ChainIndexer.dfy`, `Feed.dfy`, `CacheManager.dfy`, `StateTransition.dfy` | the remaining components |

## Findings

Six properties one would expect do not hold of the code as it is. Each is stated exactly.

- **Gap after a lowered nonce.** When a new head lowers an account's state nonce, only the front of the
  pending list is checked, so a promoted run and the old one can leave a gap between them
  (`PoolExamples.LoweredNonceLeavesGap`).
- **Executed transactions evicted on the way.** A new head's dropped transactions are offered again before
  executed ones are removed. If one of these offers evicts a pending transaction the head has executed,
  the account's virtual nonce falls below its state nonce and it ends with nothing pending
  (`PoolExamples.EvictionBreaksRun`).

  For any head, any reinjection and any evictions these two are the only ways: `Pool.TxPool.RunReorg`
  states that a sound pool stays sound if and only if no account is hit by such an eviction and every
  such gap is cut off by the common level of the pending lists (`PoolOffers.KeepsRun`,
  `PoolOffers.ReorgSoundIff`). When there is room for everything the head gives back, the offers can be
  worked out beforehand, nothing is evicted and only the gap remains (`PoolOffers.RoomKeepsRun`).

  Neither happens along a run on two assumptions (`Pool.TxPool.Run`): from head to head no state nonce
  goes down, and what a head gives back had been executed at the head before it. The second follows
  from the first when the transactions given back are those the old head's chain left behind
  (`PoolReset.HeadsGoForward`). Both are about the heads of the chain, also those whose reset was given
  up because blocks or state were missing, and not about the state the pool last took over. With that
  state alone the claim is false: a reset that is given up and followed by one that gives back what the
  pool never saw executed ends unsound, although no nonce of the pool's state went down
  (`PoolExamples.GivenUpResetBreaksRun`).
- **Slots counted twice.** A transaction that was removed and came back has two entries in the eviction
  list, and both count as freed slots, so an accepted offer can leave the pool over its limit. In a pool
  of four slots with one local transaction, a remote one is executed by a head, given back by the next
  and then makes room for an offer that needs more: five slots are in use
  (`PoolExamples.DoubledEntryOverfills`). An accepted offer fits if and only if its surplus is at most the
  slots of what leaves, each transaction counted once, and without doubled live entries a remote one
  always fits (`Pool.TxPool.Add`). Along a run that offers no transaction twice nothing is doubled, and a
  pool without local transactions stays within its limit (`Pool.TxPool.Run`).
- **Stale number entries.** `reorg` reads the current block after moving it along the adopted branch
  except its last block. The number index is right afterwards if and only if two or more blocks were
  adopted or the new head is not lower (`BlockIndex.BlockChain.WriteKnownBlock`,
  `ForkChoice.LowerHeadLeavesEntry`). The consensus rule that difficulty equals block number excludes
  the bad case in every run (`ForkChoice.Run`). The transaction index is always right.
- **Header batches with nothing new.** A batch of known headers that ties with the current header can
  become current without its index entries being written; the index is right if and only if something
  new was stored or the head does not move (`HeaderChains.HeaderChain.WriteHeaders`,
  `HeaderChains.KnownSiblingBreaksIndex`). By the consensus rule only a won coin toss does this, along any
  run of batches and rewinds (`HeaderChains.HeaderChain.Run`).
- **Explorer stuck until restart.** A failure after the in-memory summary was changed makes every later
  attempt fail until the process restarts; nothing wrong is ever stored
  (`Explorer.CacheManager.ProcessNext`, `Explorer.CacheManager.RetriesFail`). A failed write of the first
  block is enough, on every chain (`Explorer.FailedWriteSticks`, `Explorer.OnlyRestartHelps`).

Further, the cost and gas caps of an account list bound only the transactions that are not
gas-exempt; `AccountLists.FilterAfterAnyRun` shows that this is enough for the shortcut.
Where every transaction a head gives back lies below the nonce the new head has for its sender, all of
them are refused as too old and no account is changed by the offers (`PoolOffers.ForwardKeepsRun`).

## Model

| member | source | states |
|---|---|---|
| Heap.Push | core/tx_list.go:40-42 | adding an element keeps the heap order and adds exactly that element |
| Heap.Pop | core/tx_list.go:44-50 | the element taken is a minimum, the rest is a heap of exactly the other elements |
| Heap.RemoveAt | core/tx_list.go:176-182 | removing any position keeps the heap order and removes exactly that element |
| Heap.Init | core/tx_list.go:116-122 | any sequence becomes a heap with the same elements |
| SortedMap.TxSortedMap.Put | core/tx_list.go:75-81 | the index stays a heap permutation of the nonces, the cache is dropped, the map is updated at one nonce |
| SortedMap.TxSortedMap.Forward | core/tx_list.go:86-102 | exactly the transactions below the threshold go, listed by nonce; the cache is still the full listing |
| SortedMap.TxSortedMap.Filter | core/tx_list.go:107-114 | exactly the matching transactions go, and the index is rebuilt when something did |
| SortedMap.TxSortedMap.FilterOnly | core/tx_list.go:127-141 | exactly the matching transactions go and the cache is dropped; the index is left for rebuilding |
| SortedMap.TxSortedMap.Reheap | core/tx_list.go:116-122 | the index becomes a heap permutation of the map's nonces |
| SortedMap.TxSortedMap.Cap | core/tx_list.go:145-166 | the lowest nonces stay, the others are returned highest first, index and cache follow |
| SortedMap.TxSortedMap.Remove | core/tx_list.go:170-187 | one nonce goes from map and index and the cache is dropped; the result says whether it was there |
| SortedMap.TxSortedMap.TakeReady | core/tx_list.go:196-211 | exactly the consecutive run at the lowest nonce is taken, and nothing when that nonce is above the start |
| SortedMap.TxSortedMap.Flatten | core/tx_list.go:218-239 | the listing by nonce of the whole map, cached or not |
| SortedMap.TxSortedMap.LastElement | core/tx_list.go:243-246 | the transaction with the highest nonce |
| SortedMap.ShiftFront | core/tx_list.go:95-98 | the tail of the cached listing after a front removal is the listing of what is left |
| SortedMap.AfterCap | core/tx_list.go:145-166 | sorting the index and dropping its end leaves the lowest nonces in map, index and cache |
| SortedMap.RunIsReady | core/tx_list.go:196-211 | popping while nonces are consecutive yields the maximal run |
| AccountLists.TxList.Add | core/tx_list.go:281-296 | accepted unless the present transaction at the nonce has a higher tier; caps grow to cover the new one |
| AccountLists.TxList.Forward | core/tx_list.go:301-303 | exactly the transactions below the threshold go |
| AccountLists.TxList.Filter | core/tx_list.go:314-348 | with or without the cap shortcut the result is that of a full scan: the unpayable, and in strict mode everything after the lowest of them |
| AccountLists.TxList.Cap | core/tx_list.go:352-354 | the lowest nonces stay |
| AccountLists.TxList.Remove | core/tx_list.go:359-370 | one transaction goes, and in strict mode everything behind it, which is returned |
| AccountLists.TxList.TakeReady | core/tx_list.go:379-381 | the ready run is taken |
| AccountLists.TxList.Flatten | core/tx_list.go:396-398 | the listing by nonce |
| AccountLists.ShortcutIsFullScan | core/tx_list.go:316-319 | caps within the limits mean that a scan would find nothing |
| AccountLists.FilterAfterAnyRun | core/tx_list.go:281-370 | after any sequence of operations the caps bound all non-exempt members and filtering equals a full scan |
| AccountLists.ApplyKeepsOk | core/tx_list.go:281-381 | every operation keeps keys and caps consistent |
| AccountLists.StrictStaysContiguous | core/tx_list.go:301-381 | no removal opens a gap in a strict list |
| PricedList.TxPricedList.Put | core/tx_list.go:466-472 | a remote transaction is one more entry, a local one none |
| PricedList.TxPricedList.Removed | core/tx_list.go:477-486 | the heaps are rebuilt exactly when more than a quarter of the entries is stale |
| PricedList.TxPricedList.Discard | core/tx_list.go:491-527 | terminates; succeeds if and only if forced or the live entries suffice; loses no live entry but the returned ones; frees enough, and not one transaction more than needed; when no urgent nonce was above a floating one, every nonce that goes is at least every one that stays, and that order is kept |
| PricedList.TxPricedList.Reheap | core/tx_list.go:530-552 | exactly the remote transactions, each once, a fifth of them floating, no urgent nonce above a floating one |
| PricedList.DiscardEnds | core/tx_list.go:491-527 | what an unsuccessful eviction has popped are all live entries |
| PoolState.LookupAdd | core/tx_pool.go:1720-1732 | the lookup stays consistent and its slot count is the sum over its transactions |
| PoolState.LookupRemove | core/tx_pool.go:1735-1752 | likewise for removal, also of an unknown hash |
| PoolState.LookupMigrate | core/tx_pool.go:1756-1769 | moving an account's remote transactions to the local set changes neither the whole nor the slots |
| PoolState.AccountStep | core/tx_pool.go:634-808 | changing one account's lists while the lookup changes by the same transactions keeps pending, queue and lookup a partition |
| PoolAccounts.PromoteSound | core/tx_pool.go:1268-1330 | promotion keeps the pending run from state nonce to virtual nonce and everything payable |
| PoolAccounts.DemoteSound | core/tx_pool.go:1471-1522 | demotion leaves a sound account as it is |
| PoolAccounts.ResetAnchors | core/tx_pool.go:1109-1155 | after a head with no lower nonce, promotion and demotion leave a run at the state nonce |
| PoolAccounts.ResetAnchorsIff | core/tx_pool.go:1471-1522 | promotion and demotion of an account that the reinjection left alone, for any head: a run at the state nonce exactly when no ready run ends below the old pending run |
| PoolAccounts.CutSettled | core/tx_pool.go:985-996 | removing a pending transaction and all behind it keeps the run |
| PoolOffers.EvictedGone | core/tx_pool.go:668-680 | an evicted nonce is gone from both lists, and evictions add nothing |
| PoolOffers.OfferKeeps | core/tx_pool.go:634-720 | after an offer exactly the evicted and the replaced transaction are missing and only the offered one is new |
| PoolOffers.RebasedReinjected | core/tx_pool.go:1241-1263 | through a whole reinjection the virtual nonce stays at the new state nonce, if and only if no pending transaction below it is evicted |
| PoolOffers.RebasedAnchors | core/tx_pool.go:1268-1522 | what promotion and demotion make of an account after any reinjection: a run, a gap, or nothing pending with the virtual nonce too low |
| PoolOffers.LowestOfGap | core/tx_pool.go:1335-1417 | cutting a list with a gap leaves a run exactly when it cuts at or before the gap |
| PoolOffers.ResetSettlesIff | core/tx_pool.go:1109-1155 | for any head, reinjection, evictions and truncation: exactly when the account ends as a run from state nonce to virtual nonce |
| PoolOffers.ResetPayable | core/tx_pool.go:1109-1155 | everything pooled is payable after a reset, whatever the head |
| PoolOffers.ReorgSoundIff | core/tx_pool.go:1109-1155 | a sound account is sound after a reorganisation if and only if it keeps its run |
| PoolOffers.RoomForeseen | core/tx_pool.go:1241-1263 | with room for everything the head gives back the log of the reinjection is a function of the pool and the head |
| PoolOffers.RoomKeepsRun | core/tx_pool.go:1241-1263 | with room for everything the head gives back no executed transaction is evicted, and an account keeps its run if and only if it gets no gap or the common level cuts it off |
| PoolOffers.ForwardKeepsRun | core/tx_pool.go:1176-1263 | with state nonces that do not go down and nothing given back at or above the new ones, every reinjected transaction is refused and every run kept |
| PoolOffers.LeavesForReason | core/tx_pool.go:1268-1522 | a transaction leaves only when it is too old, unpayable, over its account's queue limit, above the common level or cut by the total queue limit; otherwise it stays unchanged |
| PoolOffers.SlotsAfter | core/tx_pool.go:634-720 | the slots in use change by those of the accepted transaction minus those of what leaves, each counted once |
| PoolOffers.StockNext | core/tx_pool.go:1241-1263 | what a series of offers does to slots, eviction list and entered transactions, one offer at a time |
| PoolOffers.LookupShrinks | core/tx_pool.go:1268-1522 | when no account gains anything, neither do the lookup and the slots in use |
| PoolOffers.TotalAtMost | core/tx_pool.go:1335-1462 | a book has no more transactions than the lookup |
| PoolFairness.LeveledTotal | core/tx_pool.go:1360-1411 | the total after levelling is the sum of the minimum of length and level over the non-local accounts plus the local lengths |
| PoolFairness.LeveledRound | core/tx_pool.go:1360-1390 | cutting every offender by one lowers the common level by one |
| Pool.TxPool.constructor | core/tx_pool.go:188-209 | an empty pool with an empty eviction list is consistent and sound |
| Pool.TxPool.Learn | core/tx_pool.go:751-754 | lookup and eviction list gain the transaction together, the list only if it is remote |
| Pool.TxPool.MarkRemoved | core/tx_list.go:477-486 | the eviction list keeps its entries, or is rebuilt from the remote transactions when more than a quarter is stale |
| Pool.TxPool.EnqueueTx | core/tx_pool.go:725-760 | the queue list and the lookup change together; a replaced transaction leaves both |
| Pool.TxPool.PromoteTx | core/tx_pool.go:778-808 | the pending list, the lookup and the virtual nonce change together, whether accepted or not |
| Pool.TxPool.RemoveTx | core/tx_pool.go:958-1004 | exactly one transaction leaves the pool; those pending behind it return to the queue and the virtual nonce drops to it |
| Pool.TxPool.Add | core/tx_pool.go:634-720 | every outcome if and only if its reason holds; every account, the lookup and the eviction list afterwards as a function of the offer and the evicted transactions; these are live remote ones, enough and not one more than needed; an accepted offer fits if and only if its surplus is at most the slots of what leaves, and a remote one always fits when no live entry was doubled; the partition and soundness are kept |
| Pool.TxPool.MakeRoom | core/tx_pool.go:656-680 | fails exactly when not forced and the live entries do not suffice; exactly the evicted transactions leave the pool and each account loses exactly its own |
| Pool.OfferFits | core/tx_pool.go:656-720 | without doubled entries an accepted offer that evicts enough leaves the pool within its limit |
| Pool.FitsAfter | core/tx_pool.go:656-720 | an accepted offer fits if and only if its surplus is at most the slots of what leaves, each counted once |
| Pool.TxPool.SetIfLower | core/tx_noncer.go:68-79 | the virtual nonce becomes the smaller of the two |
| Pool.TxPool.PromoteAccount | core/tx_pool.go:1273-1328 | old and unpayable transactions go, the ready run becomes pending, the rest is capped; the promoted ones are returned |
| Pool.TxPool.PromoteExecutables | core/tx_pool.go:1268-1330 | exactly the given accounts are promoted, independently of the order |
| Pool.TxPool.DemoteAccount | core/tx_pool.go:1474-1520 | executed and unpayable transactions go, stranded ones return to the queue, a missing front empties the pending list into the queue |
| Pool.TxPool.DemoteUnexecutables | core/tx_pool.go:1471-1522 | every account is demoted, independently of the order |
| Pool.TxPool.TruncatePending | core/tx_pool.go:1335-1417 | all non-local accounts are cut to one common level, not below the guaranteed slots, keeping lowest nonces, local ones untouched; the limit holds unless the level is at the guarantee; the level is the highest for which it holds |
| Pool.TxPool.TruncateQueue | core/tx_pool.go:1420-1462 | queued transactions fall to the limit, or no non-local account has any; never below the limit; highest nonces go first, and an account loses some only after all more recently active ones lost theirs; local accounts and pending untouched |
| Pool.TxPool.ApplyReset | core/tx_pool.go:1241-1263 | the head state is taken over and each transaction given back offered once, in order, to the pool the earlier offers left; every account afterwards as a function of the log, every outcome in the log for its reason; what is entered, and with room for all that nothing is evicted and the eviction list has exactly these more |
| Pool.TxPool.SettleNonces | core/tx_pool.go:1149-1155 | every virtual nonce with something pending ends behind it |
| Pool.TxPool.EnforceLimits | core/tx_pool.go:1143-1155 | every account afterwards: cut to one common level unless local, the highest the limit allows; queues cut from the top only down to the total limit, the most recently active account first; virtual nonces behind the runs |
| Pool.TxPool.RunReorg | core/tx_pool.go:1109-1170 | every account afterwards, for any head, as a function of the log and then of the limits, which cut to the highest common level allowed and queues only down to their total limit, local ones not at all; what happens to slots and eviction list; a sound pool stays sound if and only if every account keeps its run |
| Pool.TxPool.Evict | core/tx_pool.go:376-388 | the whole queue of a non-local account goes and nothing else |
| Pool.TxPool.EvictIdleAccounts | core/tx_pool.go:374-391 | exactly the non-local accounts idle for longer than the lifetime lose their queue |
| Pool.TxPool.Run | core/tx_pool.go:634-1522 | along every sequence of offers, reorganisations and evictions the pool stays a partition; it stays sound when from head to head, given-up ones included, no state nonce goes down and only executed transactions are given back; when no transaction is offered twice no live entry is doubled, and without local transactions the slots stay within the limit |
| PoolExamples.LoweredNonceLeavesGap | core/tx_pool.go:1499-1515 | a head lowers a nonce from 5 to 3 and gives 3 and 4 back, of which 4 is refused as unpayable; the pool ends with nonces 3 and 5 pending |
| PoolExamples.EvictionBreaksRun | core/tx_pool.go:1241-1263 | a run of the pool that ends with an account expecting a nonce the chain has executed |
| PoolExamples.GivenUpResetBreaksRun | core/tx_pool.go:1197-1263 | a reset that is given up and one that follows it end in an unsound pool, although no nonce of its state went down |
| PoolExamples.DoubledEntryOverfills | core/tx_list.go:491-527 | a run of the pool, with a local transaction and a remote one that is executed, given back and doubled, that ends with five slots in use of four |
| PoolReset.Difference | core/types/transaction.go:351-366 | the members of the first list that are not in the second, in order |
| PoolReset.WithoutCounts | core/types/transaction.go:351-366 | each stays as often as it was there |
| PoolReset.Dropped | core/tx_pool.go:1180-1239 | nothing is given back for a child, a first or a distant head; without the old head's block the reset is given up unless the new head is lower; otherwise, with both chains stored, what the old one left behind above the fork, and given up when only one is complete |
| PoolReset.LeftBehindIff | core/tx_pool.go:1214-1239 | what is given back is exactly what the old chain has and the new one lacks |
| PoolReset.ExecutedIn | core/state_transition.go:202-215 | a transaction is below its sender's nonce from the block on that contains it, and not before |
| PoolReset.ExecutedOnce | core/state_transition.go:202-215 | so no transaction is in a chain twice |
| PoolReset.ResetIsForward | core/tx_pool.go:1176-1263 | a head to which no state nonce goes down gives back only what had been executed at the head before |
| PoolReset.ExtensionGoesForward | core/tx_pool.go:1180-1239 | along one chain no state nonce goes down and nothing is given back |
| PoolReset.HeadsGoForward | core/tx_pool.go:1060-1170 | a run of the pool that follows the heads of a block store, given-up resets included, goes forward when no state nonce goes down from head to head |
| ChainTree.ChainsMeet | core/blockchain.go:2158-2182 | chains that share a block share everything below it |
| ChainTree.ForkSplits | core/blockchain.go:2158-2182 | two chains agree exactly below their fork |
| BlockIndex.BlockChain.WriteHeadBlock | core/blockchain.go:775-802 | index entries, transaction entries and heads after entering one block |
| BlockIndex.BlockChain.FindFork | core/blockchain.go:2139-2182 | the blocks of both branches above the fork and the transactions left behind; fails exactly when an ancestor of the new head is missing |
| BlockIndex.BlockChain.WriteBranch | core/blockchain.go:2202-2211 | the adopted branch except its head is in the number and transaction indexes |
| ChainTree.EntriesAbove | core/blockchain.go:2218-2229 | exactly the entries above the number |
| BlockIndex.BlockChain.DeleteAbove | core/blockchain.go:2218-2229 | exactly the entries above the current block go |
| BlockIndex.BlockChain.Reorg | core/blockchain.go:2139-2229 | the state of both indexes between branches; nothing is written when it fails |
| BlockIndex.BlockChain.WriteKnownBlock | core/blockchain.go:1416-1428 | the transaction index is exactly that of the new chain; the number index is, if and only if two or more blocks were adopted or the new head is not lower |
| BlockIndex.AdoptedIff | core/blockchain.go:2218-2229 | when the number index is the adopted chain |
| BlockIndex.NoStaleEntry | core/blockchain.go:2213-2217 | deleting removed but not re-added transactions leaves none that is off the new chain |
| BlockIndex.KeptEntry | core/blockchain.go:2213-2217 | and removes none that is on it, also when it was on both branches |
| ForkChoice.WriteBlockWithoutState | core/blockchain.go:1401-1412 | the given total difficulty and the block are stored and nothing else changes; the stored chain stays weighed exactly when the parent is stored and the difficulty is the sum |
| ForkChoice.InsertSideChain | core/blockchain.go:1974-2018 | the running sum is the total difficulty of each block; exactly the blocks of the chain are stored, canonical ones only passed |
| ForkChoice.WriteBlockWithState | core/blockchain.go:1440-1572 | refused exactly without a parent; becomes the head exactly when heavier or preferred on a tie; the head never gets lighter; the exact condition for the index |
| ForkChoice.LowerHeadLeavesEntry | core/blockchain.go:2218-2229 | a chain of four blocks whose head moves down by one and leaves a stale entry |
| ChainTree.HeavierIsHigher | consensus/proofofstake/proofofstake.go:459-464 | with difficulty equal to number, heavier is higher |
| ForkChoice.Run | core/blockchain.go:1440-1572 | under that rule, in every order of arrival, exactly the arrivals with a stored parent are accepted and stored, the indexes describe the head's chain, and the head is a highest one of the old head and the executed blocks |
| HeaderChains.HeaderChain.Collect | core/headerchain.go:149-201 | known headers are skipped up to the first new one; the batch makes the store complete with right total difficulties |
| HeaderChains.HeaderChain.Rewind | core/headerchain.go:247-260 | the backward rewrite ends, with exactly the entries above the fork of the two chains |
| HeaderChains.HeaderChain.Changes | core/headerchain.go:231-276 | the index changes that lead from one chain to the other |
| HeaderChains.HeaderChain.Mark | core/headerchain.go:233-288 | the index follows the head if and only if something was inserted or the head stays |
| HeaderChains.HeaderChain.WriteHeaders | core/headerchain.go:149-301 | every status exactly for its reason; stored headers complete, total difficulties path sums; a heaviest current header is followed by a heaviest one; the exact condition for the index, with which no header is stored on top of the current one |
| HeaderChains.KnownSiblingBreaksIndex | core/headerchain.go:149-301 | a reachable state in which a batch with nothing new breaks the index |
| HeaderChains.HeaviestIsChildless | core/headerchain.go:229-232 | a heaviest header has no stored child, so appending needs no rewrite |
| HeaderChains.HeaderChain.GetAncestor | core/headerchain.go:425-457 | the hash the parent walk finds; no result exactly when the header is missing, the walk too short or the budget too small |
| HeaderChains.HeaderChain.SetHead | core/headerchain.go:563-640 | everything above the number goes on all branches, the index is the ancestry of the new head, which has no stored child and by the consensus rule is a heaviest header |
| HeaderChains.HeaderChain.Run | core/headerchain.go:149-640 | along every run of batches and rewinds the headers stay complete and the index right up to a batch of known headers that moves the head; by the consensus rule the head stays a heaviest one and only a won coin toss ends the run |
| HeaderChains.KnownBatchMoves | core/headerchain.go:204-276 | by the consensus rule a batch of known headers moves a heaviest head only when the coin says so |
| HashFn.HashFunction.Query | core/evm.go:81-112 | below the reference number exactly the plain walk, for every history of queries and a growing store |
| HashFn.CacheIsWalk | core/evm.go:84-110 | every cached hash is what the walk finds |
| ChainIndexers.ChainIndexer.SetValidSections | core/chain_indexer.go:479-492 | the heads above go, the rest stays chained |
| ChainIndexers.ChainIndexer.VerifyLastHead | core/chain_indexer.go:422-429 | drops exactly non-canonical heads from the top; one canonical last head makes all heads canonical |
| ChainIndexers.ChainIndexer.Reorged | core/chain_indexer.go:243-275 | no section that ends above the common ancestor stays, checkpoint aside, and no more go |
| ChainIndexers.ChainIndexer.Advanced | core/chain_indexer.go:276-302 | a section becomes known only with its confirmations, and past a checkpoint only if it matches |
| ChainIndexers.ChainIndexer.Begin | core/chain_indexer.go:317-336 | the next section and the head it must continue |
| ChainIndexers.ChainIndexer.ResetFails | core/chain_indexer.go:391-395 | a failing backend reset drops all sections |
| ChainIndexers.ChainIndexer.ReadNext | core/chain_indexer.go:397-412 | whatever is canonical at that moment is taken only if it continues what was read |
| ChainIndexers.ChainIndexer.Finish | core/chain_indexer.go:350-368 | a section is recorded exactly when it was read completely and nothing was dropped meanwhile |
| ChainIndexers.ChainIndexer.Sections | core/chain_indexer.go:434-440 | the sections reported are canonical |
| ChainIndexers.ChainIndexer.Run | core/chain_indexer.go:243-429 | in every interleaving heads exist exactly below the stored count and are chained, hence canonical after one check |
| ChainIndexers.AllCanonical | core/chain_indexer.go:422-429 | chained heads are canonical when the last one is |
| ChainIndexers.StillThere | core/chain_indexer.go:350-353 | an unchanged previous head means that no section was dropped meanwhile |
| Feeds.Feed.Subscribe | event/feed.go:72-92 | one more subscription of the channel is live, in the inbox |
| Feeds.Feed.Find | event/feed.go:213-220 | the first position of a channel or none |
| Feeds.Feed.Delete | event/feed.go:223-225 | one position is removed in place |
| Feeds.Feed.Deactivate | event/feed.go:228-232 | a case is swapped behind the active ones in place |
| Feeds.Feed.Unsubscribe | event/feed.go:103-113 | gone at once if the channel is in the inbox, otherwise waiting for the list |
| Feeds.Feed.RemoveIdle | event/feed.go:116-123 | removed under the send lock; its channel is always found |
| Feeds.Feed.BeginSend | event/feed.go:130-155 | every live subscription becomes a target, in a grown or the same array |
| Feeds.Feed.TryNext | event/feed.go:156-169 | delivers to the channel at hand exactly if it is ready, and finishes exactly when none is left |
| Feeds.Feed.Choose | event/feed.go:179-182 | the chosen channel is served and leaves the active part |
| Feeds.Feed.ChooseRemoval | event/feed.go:172-178 | a cancelled channel leaves the list, always found, and the active part exactly if an occurrence was still to be served |
| Feeds.Feed.Run | event/feed.go:72-190 | the array version follows the state machine on every sequence of events and leaves its trace; every finished send is exactly-once by the trace |
| Feeds.RunSendsWell | event/feed.go:130-190 | in the trace of every run, between a start and its finish every subscription that stays is delivered to exactly once, a removed one at most once, nobody else, and the count is the number of deliveries |
| Feeds.StepTracks | event/feed.go:130-190 | each event keeps what is delivered, removed and still to be served in balance |
| Feeds.StepLive | event/feed.go:72-123 | each event changes the live subscriptions by those that join or get away, and by no others |
| Feeds.RunLive | event/feed.go:72-190 | no subscription is lost or made up along any run |
| Feeds.DeleteServes | event/feed.go:172-178 | deleting from the shared array takes one occurrence out of the part it is in |
| Feeds.SwapServes | event/feed.go:228-232 | swapping moves exactly one occurrence from active to served |
| Explorer.LiveAccounts | cachemanager/cachemanager.go:289-359 | each account gets the block's transactions it sent or received, a transfer to itself once |
| Explorer.AccountPages | cachemanager/cachemanager.go:581-673 | the open page and all later ones are rewritten as pages of the longer list; the internal length check never fails |
| Explorer.PageStays | cachemanager/cachemanager.go:638-660 | full pages never change |
| Explorer.OpenPageGrows | cachemanager/cachemanager.go:638-660 | prepending fills the open page up to twenty |
| Explorer.AllPages | cachemanager/cachemanager.go:361-367 | all accounts of a block, in any order |
| Explorer.CacheManager.UpdateSummary | cachemanager/cachemanager.go:386-503 | when it succeeds and when it leaves the summary half changed |
| Explorer.TotalsStep | cachemanager/cachemanager.go:404-492 | one block turns sums over n-1 blocks into sums over n |
| Explorer.CacheManager.ProcessNext | cachemanager/cachemanager.go:271-384 | all is written or nothing; when an attempt succeeds and when it leaves the manager stuck |
| Explorer.CacheManager.Restart | cachemanager/cachemanager.go:189-229 | a restart resumes at the stored block and is not stuck |
| Explorer.CacheManager.RetriesFail | cachemanager/cachemanager.go:386-394 | once stuck, no attempt gets anywhere before a restart |
| Explorer.FailedWriteSticks | cachemanager/cachemanager.go:369-394 | on every chain a new manager whose first write fails is stuck with nothing stored |
| Explorer.OnlyRestartHelps | cachemanager/cachemanager.go:189-269 | and stays at block 0 through any retries until a restart takes the block in |
| Explorer.CacheManager.Run | cachemanager/cachemanager.go:189-269 | along every run last block, pages and totals describe the same prefix, whose length is determined by where the faults strike |
| Explorer.ProgressMade | cachemanager/cachemanager.go:231-269 | the prefix never shrinks and grows with every attempt that meets no fault after a restart |
| Explorer.CacheManager.ListTransactions | cachemanager/cachemanager.go:730-793 | page p is the reverse of positions 20(p-1) up to 20p of the flat list; below 1 the last page, above the count nothing |
| StateTransitions.TransferConserves | core/evm.go:116-124 | transfers conserve the sum, overdraw nobody, and leave a self-transfer without effect |
| StateTransitions.IntrinsicGas | core/state_transition.go:112-151 | fails exactly when the data part exceeds 64 bits; the value in 64-bit arithmetic |
| StateTransitions.FitsByDivision | core/state_transition.go:135-143 | the overflow test by division is exact |
| StateTransitions.GasPool.AddGas | core/gaspool.go:29-35 | panics exactly on overflow |
| StateTransitions.GasPool.SubGas | core/gaspool.go:39-45 | refuses exactly when the pool has too little |
| StateTransitions.StateTransition.BuyGas | core/state_transition.go:185-200 | balance and pool are checked before either is charged |
| StateTransitions.StateTransition.PreCheck | core/state_transition.go:202-215 | the first broken rule, or the gas bought |
| StateTransitions.StateTransition.RefundGas | core/state_transition.go:300-315 | the refund is capped, the pool never overflows |
| StateTransitions.StateTransition.Settle | core/state_transition.go:280-298 | the gas used after the capped refund, returned to sender and pool; the fee goes to the coinbase below the cutoff block only |
| StateTransitions.StateTransition.TransitionDb | core/state_transition.go:230-298 | refused exactly for the first broken rule; otherwise the state, the gas used and the pool after the run |
| StateTransitions.MessageConserves | core/state_transition.go:230-320 | no valid message overdraws anybody; the refund stays within the cap; the sum of balances changes by the machine's delta, minus gas used times price from the cutoff block on |
| StateTransitions.FeesBalance | core/state_transition.go:286-315 | what was paid for gas comes back as refund and fee |
| StateTransitions.Process | core/state_processor.go:63-158 | succeeds if and only if every transaction passes in its place, exempt ones at price zero on a machine without gas failures; pool and used gas make up the limit, receipts carry prefix sums |
| StateTransitions.BlockConserves | core/state_processor.go:84-110 | over any number of transactions gas stays within the limit, nobody is overdrawn, and balances change by the machine's deltas minus the burnt fees |

## Left out

- Mutexes, channels, timers, metrics, logging and events to subscribers: each locked region is one step.
- Fast sync, the ancient store, light clients, trie and snapshot handling: full blocks with state only.
- Database and header caches of recently used entries: reads go to the maps.
- 64-bit wrap-around of nonces, block numbers, counts and section arithmetic; replacement tiers, gas, intrinsic gas and the offset into the hash cache are modelled with it.
- When heartbeats are set: truncation and idle eviction get them as a function from accounts to times.
- The account lists inside the pool are values of `AccountLists.List`; the class `AccountLists.TxList` is proved equal to them, and aliasing of list objects between pool maps is not modelled.
- Exactness of the eviction list's stale counter, which the source treats as a heuristic.
- Which transaction a tie among equal nonces evicts.
- Pool.TxPool.ApplyReset: gets the transactions a head gives back as part of the head; `PoolReset.Dropped` works them out from the two chains.
- PoolReset.Dropped: does not say what happens when both chains are incomplete, which depends on where they are.
- A checkpoint added while the section indexer runs, and child indexers beyond the notifications they get.
- Channel types and their checks in the feed.
- State roots of side chain blocks and the reimport of a side chain that became heavier.
- Serialisation and key formats of the explorer cache, switching its extended interface on for an existing database, and chain reorganisations below a processed block.
- HeaderChains.HeaderChain.SetHead: without the callbacks that rewind block data; outside the consensus rule a heavier side header can remain.
- The virtual machine, rewards at the end of a block, access list warm-up and logs: the machine is a function that returns no more gas than it got.
- Network protocols, RPC, console, account management and consensus beyond the difficulty rule.
