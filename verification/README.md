# Naoto exchange: a verified model

A Dafny model of the core of an electronic exchange: the matching engine with its indexes and pools, the
lock-free queue and object pool between its threads, the triple-buffered client states of the order gateway and
the account service, the risk check, the report writers, the login catch-up, the reassembly of the multicast
feed, and the dashboard's reading of it.

`dafny verify dfyconfig.toml` checks everything.

## How it fits together

- **Reference engine** (`Reference`, `Priority`): two sequences of orders sorted by price then arrival, and the
  plain walk over them. `Settlement`, `Lifetime` and `Dashboard` prove what its reports and depth updates add up
  to over whole runs.
- **What is sent** (`Messages`): every report of the reference engine field by field, and that a filled order is gone.
- **Concrete engine** (`SkipList`, `PriceLevels`, `Pools`, `OrderBooks`, `MatchingEngine`): skip list, hash maps of
  prices and ids, intrusive lists, fixed pools and stale cached best prices. `BidAsk.Handle` is proved to be one step
  of the reference engine, and `EngineRuns` carries the run theorems of `Priority`, `Settlement`, `Dashboard` and
  `Lifetime` over to what the concrete engine sends.
- **Hash map** (`FlatTables`, `FlatWalk`, `FlatHashMaps`, `FlatSkip`): lookup and deletion are exact; insertion is
  exact precisely when its walk is clear of a skipped bucket. The order book's price and id indexes are two of these,
  so the engine is handed only orders whose insertions are exact.
- **Threads** (`SpscQueue`, `StoragePools`, `TornReads`): machines whose steps are single loads, stores and slot
  accesses; theorems are about every interleaving.
- **Client states** (`Funds`, `TripleBuffer`, `GatewayStates`, `AccountStates`) and their writers
  (`GatewayWriter`, `CatchUp`, `LedgerWriter`).
- **Whole system** (`RiskCheck`, `Reserves`, `Solvency`, `LedgerSolvency`): a gateway, any number of engines, accepted
  orders, reports under way and the account service that books them. `Overdrafts` shows that the starting condition
  is needed, `Logins` follows a login from the account service's ledger to the gateway.
- **Feed** (`Reassembly`).
- Helpers: `Domain`, `Pointers`, `Books`, `Sums`, `Seqs`, `Words`, `Modular`, `Sealing` (a guard that keeps large facts folded
  in proofs).

## Facts of the code the model keeps

- A traded amount is negated in 32 bits and added to a 64-bit level total, so totals are right modulo 2^32 only;
  published depths are right because they are 32 bits wide (`PriceLevels.ReduceFirst`,
  `Dashboard.MirrorIsExactIffTotalsFit`).
- An insertion into the hash map skips a whole bucket when the bucket's first slot is taken by a richer entry, and
  later lookups stop at that slot. `FlatHashMaps.FlatHashMap.AddNode` states exactly when this happens and which key is
  lost. The order book's indexes can meet such an insertion.
- Reports on the wire are numbered from 0, and every snapshot the account service sends is stamped 0, whatever it has
  booked. The replay at login begins with report 1, so it takes reports twice that the snapshot has and leaves out
  report 0 if the snapshot has none; after 8192 reports, or at a gateway that joined later, every login is dropped.
  `CatchUp.ZeroStampIsLedgerIff` and `Logins.LoginFromService` state exactly which logins come out right.
- The gateway does not read the status of a login answer (`Logins.RefusalIsShownAsLogin`).
- The price improvement of a filled limit order stays reserved for the session, and so does the value of a cancelled
  order (`Lifetime.KeptBy`).
- The account service's attempts can become negative, since only ADD reports raise them. A client that logs in with
  negative attempts can spend more than its balance (`Overdrafts.SolventIff`).
- A cancelled resting order reports a positive attempt delta, a cancelled market remainder a negative one. Attempts
  are therefore not conserved; solvency does not need them to be.
- The gateway ignores the attempt of an ADD report and the replay at login moves the attempt by the sold amount.
- A cancel request passes the risk check like an order and reserves by its amount field, which holds the target id.
- A market order is matched only at prices its own price allows. A limit order's remainder rests. An order of
  amount 0 is the one case in which a stale cached price decides the outcome.
- With every order node in use an order that should rest is dropped without a report.
- The engine's header names a test in which the remainder of a partly filled marketable limit order is cancelled; the
  code rests it, and the model follows the code.
- The swap inside the scalar pass over a home bucket is unreachable: an entry is never closer to home than its lane.

## Model

| member | source | states |
|---|---|---|
| `Priority.SweepIsPriceTimePriority` | market_server/matching_engine/include/bid_ask.hpp:187-290 | every sweep trades with a prefix of the opposite orders sorted by price then arrival, at the resting price and never worse than the order's own, all makers but the last in full; quantity is conserved; if anything is left, nothing that remains crosses and everything that crossed is gone |
| `Priority.StepKeepsCoherent` | market_server/matching_engine/include/bid_ask.hpp:634-700 | one message keeps both books sorted by price then arrival, ids unique across both, every bid strictly below every ask, and no more orders than nodes |
| `Priority.RunKeepsCoherent` | market_server/matching_engine/include/bid_ask.hpp:634-700 | the same after any admissible run: the book is never crossed |
| `Priority.RestKeepsCoherent` | market_server/matching_engine/include/bid_ask.hpp:460-564 | resting an order that crosses nothing keeps the books coherent |
| `Messages.MatchMessages` | market_server/matching_engine/include/bid_ask.hpp:241-281 | the k-th match of any walk sends the taker's report and then the maker's, every field given, and publishes the maker's price; a report says FILL exactly when nothing of its order is left, else PARTIAL_FILL |
| `Messages.RestMessages` | market_server/matching_engine/include/bid_ask.hpp:486-494 | an order that comes to rest is reported once as ADD, with the value it locks of the paying asset |
| `Messages.RemainderMessages` | market_server/matching_engine/include/bid_ask.hpp:292-313 | a market order's remainder is reported once as CANCEL, with what was reserved and not spent taken off, and rests nowhere |
| `Messages.CancelMessages` | market_server/matching_engine/include/bid_ask.hpp:91-185 | a cancel request that does not hit gets exactly one REJECT to its own client and order id and changes neither books nor depth; one that hits gets one CANCEL of the target with what it still locks, and one depth update |
| `Messages.FilledStaysGone` | market_server/matching_engine/include/bid_ask.hpp:250-270 | over any run, after a FILL report of an id no order with that id rests, until a new order comes with it |
| `Settlement.StepConserves` | market_server/matching_engine/include/bid_ask.hpp:243-270 | the confirmed deltas of one message's reports sum to zero in every asset |
| `Settlement.RunConserves` | market_server/matching_engine/include/bid_ask.hpp:374-401 | over any run the confirmed deltas of all reports sum to zero in every asset |
| `Settlement.LegDecodes` | market_client/include/app_state.hpp:135-148 | decoding one leg of a match gives the exact quantity and resting price for the buyer's leg of a positive match, and nothing for the seller's |
| `Settlement.RunPrints` | market_client/include/app_state.hpp:135-148 | decoding the report stream of any run gives exactly one print per match of positive quantity and price, in match order, whichever side was the aggressor |
| `Lifetime.SweepWithinReserve` | market_server/matching_engine/include/bid_ask.hpp:187-313 | what a taker spends, its price improvement and the value of its remainder at its own price add up to its value at submission, and the improvement is not negative |
| `Lifetime.RunAccounts` | market_server/matching_engine/include/bid_ask.hpp:292-313 | over any run and for every order id: submitted quantity equals traded plus resting plus dropped; what the risk check reserved equals debits plus locked value plus market release plus what stays reserved with nothing behind it, namely the value of cancelled orders and of dropped remainders and the price improvement of orders without a market remainder |
| `Lifetime.RunLocks` | market_server/matching_engine/include/bid_ask.hpp:486-494 | in every reachable state the attempt deltas of a resting order from its ADD report on sum to exactly the value it still locks |
| `Lifetime.CancelReportsLock` | market_server/matching_engine/include/bid_ask.hpp:119-137 | after any run a cancel that finds its target reports exactly the sum of the attempt deltas the target has had since its ADD report |
| `Dashboard.DepthView.Apply` | market_client/include/app_state.hpp:40-67 | an update sets one price of one side, depth 0 removes it, everything else is unchanged, and the returned delta is the change shown |
| `Dashboard.StepReplays` | market_server/matching_engine/include/bid_ask.hpp:272-281 | replaying one message's depth updates carries a view of the old book to a view of the new one |
| `Dashboard.RunReplays` | market_server/matching_engine/include/bid_ask.hpp:139-151 | replaying every update of any run shows at every price of both sides the resting quantity modulo 2^32, and no price with nothing resting |
| `Dashboard.MirrorIsExactIffTotalsFit` | market_client/include/app_state.hpp:40-67 | the view equals the book's totals if and only if every level total is below 2^32 |
| `PriceLevels.AppendChained` | market_server/matching_engine/include/price_level.hpp:37-56 | appending a node at the tail of its price splices it into the intrusive list behind all orders of that price |
| `PriceLevels.DetachChained` | market_server/matching_engine/include/price_level.hpp:58-83 | unlinking a node from anywhere in the intrusive list cuts exactly that order |
| `PriceLevels.JoinLevel` | market_server/matching_engine/include/price_level.hpp:37-56 | an order joining a level keeps head, tail, size and total of every level right |
| `PriceLevels.LeaveLevel` | market_server/matching_engine/include/price_level.hpp:58-83 | an order leaving keeps head, tail, size and total of every level right, and empties the level exactly when it was the last |
| `PriceLevels.ReduceFirst` | market_server/matching_engine/include/price_level.hpp:166-169 | adding a 32-bit negation to the 64-bit total keeps it right modulo 2^32 |
| `OrderBooks.Store.AcquireNode` | market_server/common/include/single_threaded_storage_pool.hpp:33-43 | pops the node free list, null when it is empty |
| `OrderBooks.Store.ReleaseNode` | market_server/common/include/single_threaded_storage_pool.hpp:45-54 | pushes a node unless null or the list is full |
| `OrderBooks.Store.LevelAddOrder` | market_server/matching_engine/include/price_level.hpp:37-56 | writes exactly the links and counters of an append |
| `OrderBooks.Store.LevelDeleteOrder` | market_server/matching_engine/include/price_level.hpp:58-83 | writes exactly the links and counters of an unlink and says whether the level is empty |
| `OrderBooks.Store.ClearPriceLevel` | market_server/matching_engine/include/price_level.hpp:125-149 | returns the nodes of a level's chain to the pool in list order and resets the level |
| `OrderBooks.OrderBook.GetBestLevel` | market_server/matching_engine/include/order_book.hpp:34-37 | the level of the first order in price-time priority, null for an empty side |
| `OrderBooks.OrderBook.AddLimitOrder` | market_server/matching_engine/include/order_book.hpp:51-78 | inserts the order behind all of its price, keeps hash map of prices, skip list and lists in agreement, and returns its level with the total right modulo 2^32 |
| `OrderBooks.OrderBook.DeleteOrder` | market_server/matching_engine/include/order_book.hpp:80-139 | removes exactly that order from list and hash map of ids and, if its level is empty, the level from hash map of prices, skip list and level pool; its node is free again; no bucket of the id map loses room |
| `OrderBooks.OrderBook.ReduceFirstOrder` | market_server/matching_engine/include/bid_ask.hpp:231-235 | takes a traded amount off the first order and its level total, nothing else |
| `Pools.TakeNode` | market_server/matching_engine/include/order_book.hpp:51-78 | a node taken from the pool into one side's list is still in exactly one place |
| `Pools.ReturnNode` | market_server/matching_engine/include/order_book.hpp:80-139 | a node returned to the pool is still in exactly one place |
| `Pools.TakeLevel` | market_server/matching_engine/include/order_book.hpp:58-69 | a level taken from the pool for a new price is still in exactly one place |
| `Pools.ReturnLevel` | market_server/matching_engine/include/order_book.hpp:105-116 | a level returned to the pool is still in exactly one place |
| `Pools.AddId` | market_server/matching_engine/include/bid_ask.hpp:470-474 | registering a fresh id keeps the id map holding exactly the resting orders of both sides |
| `Pools.DropId` | market_server/matching_engine/include/order_book.hpp:85 | dropping an id keeps the id map holding exactly the resting orders of both sides |
| `MatchingEngine.Place` | market_server/matching_engine/include/bid_ask.hpp:460-484 | acquires a node, enters its id in the hash map and inserts the order; null exactly when every node is in use, and then nothing changes |
| `MatchingEngine.Withdraw` | market_server/matching_engine/include/bid_ask.hpp:139-185 | deletes one order; both books, pools and id map stay in agreement |
| `MatchingEngine.TradeFirst` | market_server/matching_engine/include/bid_ask.hpp:214-239 | one match's writes to the maker's side keep both books, pools and id map in agreement |
| `MatchingEngine.FindOrder` | market_server/matching_engine/include/bid_ask.hpp:91-103 | an id is found in the hash map exactly when an order with it rests on one of the sides, and the node is that order's |
| `MatchingEngine.BidAsk.constructor` | market_server/matching_engine/include/bid_ask.hpp:595-632 | the new engine is valid with both books empty, given hash maps with more slots than nodes and levels |
| `MatchingEngine.BidAsk.Emit` | market_server/matching_engine/include/bid_ask.hpp:243-270 | a report is queued for the emitter, numbered by the engine's own running 32-bit counter; the emitter writes its own number over it on the wire |
| `MatchingEngine.BidAsk.Publish` | market_server/matching_engine/include/bid_ask.hpp:272-281 | a depth update is queued for the emitter, numbered by the engine's own running 32-bit counter; the emitter writes its own number over it on the wire |
| `MatchingEngine.BidAsk.AddLimitOrder` | market_server/matching_engine/include/bid_ask.hpp:460-564 | resting is what the reference engine does: same book, same ADD report, same depth update, nothing when no node is free; the cached price of its side is improved if it can be |
| `MatchingEngine.BidAsk.CancelOrder` | market_server/matching_engine/include/bid_ask.hpp:91-185 | rejects an unknown or foreign id, otherwise reports what the order still locks, removes it and publishes what is left |
| `MatchingEngine.BidAsk.MatchAsk` | market_server/matching_engine/include/bid_ask.hpp:214-281 | one turn of the buyer's inner loop is one match of the reference walk: both reports, one depth update, the maker reduced or removed, the market price at the maker's if anything changed hands |
| `MatchingEngine.BidAsk.MatchBid` | market_server/matching_engine/include/bid_ask.hpp:346-411 | one turn of the seller's inner loop is one match of the reference walk, the market price included |
| `MatchingEngine.BidAsk.SweepAskLevel` | market_server/matching_engine/include/bid_ask.hpp:214-290 | the inner loop ends with the level exhausted or the taker filled and stays on the reference walk |
| `MatchingEngine.BidAsk.SweepBidLevel` | market_server/matching_engine/include/bid_ask.hpp:346-420 | the same for the seller's inner loop |
| `MatchingEngine.BidAsk.WalkAsks` | market_server/matching_engine/include/bid_ask.hpp:187-290 | the nested loops terminate and produce exactly the reference sweep; the cached ask ends at the best one left if the order was not used up, otherwise at the last one traded at |
| `MatchingEngine.BidAsk.WalkBids` | market_server/matching_engine/include/bid_ask.hpp:317-420 | the nested loops terminate and produce exactly the reference sweep; the cached bid ends at the best one left if the order was not used up, otherwise at the last one traded at |
| `MatchingEngine.BidAsk.FillBuyOrder` | market_server/matching_engine/include/bid_ask.hpp:187-315 | a marketable buy does exactly what the reference engine does, remainder included |
| `MatchingEngine.BidAsk.FillSellOrder` | market_server/matching_engine/include/bid_ask.hpp:317-445 | a marketable sell does exactly what the reference engine does, remainder included |
| `MatchingEngine.BidAsk.ClearByCache` | market_server/matching_engine/include/bid_ask.hpp:77-88 | although cached best prices go stale, an order they call not marketable crosses nothing |
| `MatchingEngine.BidAsk.ExecuteOrder` | market_server/matching_engine/include/bid_ask.hpp:581-591 | going by the cached prices has the outcome of the reference engine, which has none; only an order of amount 0 depends on the cache: it rests exactly if it is a limit order its cached price does not call marketable; market price and caches follow the trades |
| `MatchingEngine.MarketIsLastTrade` | market_server/matching_engine/include/bid_ask.hpp:228-229 | the market price is that of the last trade of a positive quantity, if there is one |
| `MatchingEngine.BidAsk.Handle` | market_server/matching_engine/include/bid_ask.hpp:634-700 | one message on skip list, hash maps, intrusive lists, pools and caches is one step of the reference engine on two sorted sequences, reports and updates included, and keeps all of them in agreement; a limit order that comes to rest must find room in its home buckets or a clear walk |
| `EngineRuns.Start` | market_server/matching_engine/include/bid_ask.hpp:595-632 | a new engine is explained by the empty history |
| `EngineRuns.Process` | market_server/matching_engine/include/bid_ask.hpp:634-700 | every handled message extends the run that explains the engine's whole state and output |
| `EngineRuns.ReachableStates` | market_server/matching_engine/include/bid_ask.hpp:634-700 | in every reachable state of the concrete engine: books sorted and uncrossed, reports conserve every asset, the trade tape is the matches, replaying the depth feed gives the book, reservations match the reports, and a cancel reports what is reserved |
| `EngineRuns.ReachableAccounts` | market_server/matching_engine/include/bid_ask.hpp:292-313 | in every reachable state of the concrete engine each order id's quantity is conserved, and its debits, locks, releases and what stays reserved add up to what was reserved |
| `EngineRuns.ReachableFills` | market_server/matching_engine/include/bid_ask.hpp:250-270 | the same in every reachable state of the concrete engine |
| `SkipList.SkipList.constructor` | market_server/common/include/skip_list.hpp:68-121 | empty map with both sentinels linked on every level |
| `SkipList.SkipList.Advance` | market_server/common/include/skip_list.hpp:127-135 | one level is followed exactly as far as keys rank below the bound |
| `SkipList.SkipList.Descend` | market_server/common/include/skip_list.hpp:205-217 | the walk down finds on every level the last node ranked below the bound |
| `SkipList.SkipList.GetVal` | market_server/common/include/skip_list.hpp:123-148 | exact lookup in the map, for any choice of node levels |
| `SkipList.SkipList.GetHead` | market_server/common/include/skip_list.hpp:238-241 | the value of the best key, null for the empty map |
| `SkipList.SkipList.AddNode` | market_server/common/include/skip_list.hpp:150-199 | insert if absent; every level stays a strictly sorted sublist of the one below; no node is lost |
| `SkipList.SkipList.DeleteNode` | market_server/common/include/skip_list.hpp:201-236 | removes exactly the key; every level stays a strictly sorted sublist of the one below; no node is lost |
| `SkipList.LinkIn` | market_server/common/include/skip_list.hpp:189-198 | splicing level by level up to the node's height gives the links of the list with the node |
| `SkipList.LinkOut` | market_server/common/include/skip_list.hpp:223-226 | unlinking level by level gives the links of the list without the node |
| `FlatTables.PathTags` | market_server/common/include/flat_hash_map.hpp:107-123 | between an entry's home and its slot every slot is taken with a tag at least its distance |
| `FlatTables.RemainderIsMod` | market_server/common/include/flat_hash_map.hpp:162 | the home bucket is the hash modulo the number of buckets |
| `FlatTables.ShiftKeeps` | market_server/common/include/flat_hash_map.hpp:283-298 | moving the next entry back by one keeps every tag a distance from home and moves the hole one on |
| `FlatTables.SwapKeeps` | market_server/common/include/flat_hash_map.hpp:51-76 | displacing a richer entry keeps the order of the table; the displaced key is all that is missing |
| `FlatTables.PlaceKeeps` | market_server/common/include/flat_hash_map.hpp:33-49 | filling a free slot reached past full slots keeps the order of the table and adds the key |
| `FlatWalk.StrandedIsMissed` | market_server/common/include/flat_hash_map.hpp:115-123 | an entry beyond a slot that stops its search is missed: the search ends at a free or richer slot with the key nowhere before it |
| `FlatWalk.MissedIsWrong` | market_server/common/include/flat_hash_map.hpp:115-123 | a table that misses a key is out of order under every assignment of places |
| `FlatWalk.StepSkip` | market_server/common/include/flat_hash_map.hpp:237-251 | skipping a bucket because its first slot is richer strands the carried entry for good |
| `FlatHashMaps.ProbeBucket` | market_server/common/include/flat_hash_map.hpp:97-147 | one sixteen-lane probe: a hit is a taken slot with the key, a miss has a stop before any candidate, else no lane stops or matches |
| `FlatHashMaps.FlatHashMap.constructor` | market_server/common/include/flat_hash_map.hpp:79-85 | the empty map |
| `FlatHashMaps.FlatHashMap.PaddingSafeWrite` | market_server/common/include/flat_hash_map.hpp:33-49 | writes one slot and keeps the copy of the first bucket behind the last equal to it |
| `FlatHashMaps.FlatHashMap.GetVal` | market_server/common/include/flat_hash_map.hpp:87-154 | exact lookup on a table in order; on any table whatever, not found for a key whose search ends before it |
| `FlatHashMaps.FlatHashMap.DeleteNode` | market_server/common/include/flat_hash_map.hpp:256-302 | removes exactly its key and takes no free slot; the backward shift terminates, given a free slot or an entry at home besides the key, and keeps the table in order |
| `FlatHashMaps.FlatHashMap.AddNode` | market_server/common/include/flat_hash_map.hpp:156-254 | a present key changes nothing; with room in the home bucket the entry goes into its first free slot and nothing else changes; otherwise the key is inserted if and only if the walk over the old table never meets a richer entry at the first slot of a bucket, and if it does, the key carried at that moment, computed from the old table, is one the map should have and every later lookup of it misses |
| `FlatHashMaps.FlatHashMap.Erase` | market_server/common/include/flat_hash_map.hpp:256-302 | with more slots than keys deletion always ends, and every home bucket with room keeps room |
| `FlatHashMaps.FreeSlot` | market_server/common/include/flat_hash_map.hpp:283-298 | with fewer keys than slots some slot is free, so the backward shift has an end |
| `FlatSkip.CrowdedNeighbour` | market_server/common/include/flat_hash_map.hpp:237-251 | with a full home bucket and a home resident in the next bucket's first slot, the insertion always fails and the key lost is the inserted one |
| `FlatSkip.SkipHappens` | market_server/common/include/flat_hash_map.hpp:237-251 | a concrete four-bucket table in order, with two empty buckets, on which inserting key 64 loses key 64 |
| `FlatSkip.Crowd` | market_server/common/include/flat_hash_map.hpp:156-254 | seventeen insertions into a new map, all into home buckets with room, build that table slot by slot |
| `FlatSkip.InsertedIsLost` | market_server/common/include/flat_hash_map.hpp:156-254 | a new map, after eighteen insertions of different keys, misses the last: its lookup fails |
| `SpscQueue.StepKeepsInv` | market_server/common/include/spsc_queue.hpp:33-55 | every load, slot access and store of either side keeps counters, stale local copies and slots consistent, counters modulo 2^64 |
| `SpscQueue.BoundedFifo` | market_server/common/include/spsc_queue.hpp:102-124 | under every interleaving of any length: popped items are a prefix of pushed items, at most Size are in between, and a slot being written is never the one being read |
| `SpscQueue.GivesUpExactly` | market_server/common/include/spsc_queue.hpp:36-44 | a push gives up at its reload exactly when the queue holds Size items, a pop exactly when it is empty |
| `StoragePools.PopulatedHolds` | market_server/common/include/storage_pool.hpp:45-56 | the constructor's pushes all succeed and leave every object in the free queue |
| `StoragePools.StepKeepsOwned` | market_server/common/include/storage_pool.hpp:68-104 | every step of either thread leaves each object in exactly one place |
| `StoragePools.Ownership` | market_server/common/include/storage_pool.hpp:68-104 | under every interleaving each object is in exactly one of free queue, local reuse stack, client hands or a push in progress; what Acquire is about to return is not out; releasing an object that is out cannot fail |
| `StoragePools.SingleThreadedStoragePool.constructor` | market_server/common/include/single_threaded_storage_pool.hpp:20-31 | every object is free once |
| `StoragePools.SingleThreadedStoragePool.Acquire` | market_server/common/include/single_threaded_storage_pool.hpp:33-43 | an object that is not out, or null exactly when all are |
| `StoragePools.SingleThreadedStoragePool.Release` | market_server/common/include/single_threaded_storage_pool.hpp:45-54 | accepts a non-null object exactly while the queue has room and queues it; null is refused; an object that is out is always taken back |
| `Funds.FlushRotates` | market_server/order_gateway/include/client_states.hpp:177-225 | a flush keeps the rotation: next copy equal to the visible one, third lagging by exactly its own generation's change |
| `Funds.Settle` | market_server/order_gateway/include/client_states.hpp:209-220 | resets one generation's change and adds the other two to the oldest copy |
| `Funds.CreditAsset` | market_server/order_gateway/include/client_states.hpp:167-174 | adds to every position holding the asset and to no other |
| `TripleBuffer.ClientStates.constructor` | market_server/order_gateway/include/client_states.hpp:39-52 | all three copies show the given states |
| `TripleBuffer.ClientStates.GetClientState` | market_server/order_gateway/include/client_states.hpp:70-78 | readers get the visible version |
| `TripleBuffer.ClientStates.FlushTripleBuffer` | market_server/account_service/include/client_states.hpp:150-214 | the staged version becomes the visible one and stays staged; no other client changes |
| `GatewayStates.SetAuthStatus` | market_server/order_gateway/include/client_states.hpp:112-122 | stages the login flag of one client |
| `GatewayStates.SetClientState` | market_server/order_gateway/include/client_states.hpp:125-152 | stages exactly the snapshot, logged in, under the next session number, dropping what was staged |
| `GatewayStates.SetClientAssets` | market_server/order_gateway/include/client_states.hpp:154-175 | stages a delta at every position holding the asset |
| `GatewayStates.VisibleBalances` | market_server/order_gateway/include/client_states.hpp:125-225 | after any history the visible balances are the last snapshot's plus every delta on the position's asset up to the last flush |
| `GatewayStates.SessionsCount` | market_server/order_gateway/include/client_states.hpp:140-142 | the session number counts snapshots modulo 2^32 |
| `GatewayStates.VisibleLogin` | market_server/order_gateway/include/client_states.hpp:112-225 | after any history the visible login flag is that of the last login change or snapshot before the last flush, and the visible session number counts the snapshots up to it |
| `AccountStates.SetClientState` | market_server/account_service/include/client_states.hpp:84-120 | stages the difference to the visible balances on top of what is staged, all other fields and the sequence id outright |
| `AccountStates.SetClientAssets` | market_server/account_service/include/client_states.hpp:122-148 | stages a delta at every position holding the asset, and the sequence id |
| `AccountStates.LoadIsExactIffSettled` | market_server/account_service/include/client_states.hpp:84-120 | a loaded state is what the next flush shows if and only if no unflushed balance change was pending |
| `AccountStates.StagedAccumulates` | market_server/account_service/include/client_states.hpp:122-148 | staged balances are the starting ones plus every delta on the position's asset |
| `AccountStates.VisibleBalances` | market_server/account_service/include/client_states.hpp:84-214 | after any history the visible state is the last load made with nothing pending, plus every delta since up to the last flush, under the sequence id of the last update before it |
| `AccountStates.VisibleSequence` | market_server/account_service/include/client_states.hpp:122-214 | after any history the visible sequence id is that of the last update before the last flush |
| `TornReads.CopyIsOneVersion` | market_server/order_gateway/include/client_states.hpp:70-78 | under every interleaving, a finished cell-by-cell copy during which the index changed at most once is the version published when the reader loaded it |
| `TornReads.TwoChangesTear` | market_server/order_gateway/include/client_states.hpp:70-78 | with two changes a reader can end with a state nobody published |
| `TornReads.FlushIsWriter` | market_server/order_gateway/include/client_states.hpp:177-225 | any sequence of writes with the effect of a flush, several to a cell included and for any split of the fields into cells, is a possible writer: writes to the copy after the visible one, one publication of exactly the staged version, and writes to the copy after that |
| `TornReads.StageIsWriter` | market_server/order_gateway/include/client_states.hpp:112-152 | any sequence of writes with the effect of staging a change, several to a cell included and for any split of the fields into cells, is a possible writer between publications |
| `TornReads.LoginIsWhole` | market_server/order_gateway/include/client_state.hpp:12-19 | with client id, login flag and session number in cells of their own, equal cells are equal states: a copy that is one version has all three from it |
| `RiskCheck.GetAssetIdx` | market_server/order_gateway/include/client_state.hpp:30-43 | finds the first position of an asset, or that there is none |
| `RiskCheck.CheckOrderRisk` | market_server/order_gateway/include/order_risk_check.hpp:11-62 | accepts exactly the orders whose cost fits confirmed minus attempted minus locally reserved funds at the paying asset's first position, adds exactly that cost to the reservation there and nothing elsewhere, starts from no reservations in a new session, and names every refusal |
| `Reserves.StepTakes` | market_server/matching_engine/include/bid_ask.hpp:187-313 | one message releases and leaves locked no more of a client's funds than were locked before plus what was reserved for it |
| `Reserves.StepHonest` | market_server/matching_engine/include/bid_ask.hpp:243-270 | no report debits more than it takes off the attempts or credits a negative amount |
| `Solvency.EventCovers` | market_server/order_gateway/include/order_risk_check.hpp:46-61 | every submission, match and delivery keeps the client's commitments covered |
| `Solvency.NeverNegative` | market_server/order_gateway/include/client_states_writer.hpp:105-167 | over any interleaving of submissions, matching on any number of engines and late report deliveries, the visible confirmed balance covers all commitments, and neither it nor what it becomes with the reports under way is negative |
| `Solvency.FreshSessionIsSolvent` | market_server/order_gateway/include/order_risk_check.hpp:46-61 | from a session with nothing committed, the balance not negative and attempts and local reservations together not negative, no run drives a confirmed balance below zero |
| `Overdrafts.NegativeAttemptOverdraws` | market_server/order_gateway/include/order_risk_check.hpp:46-61 | with attempts and local reservations together negative and somebody to sell one unit, an explicit run of six events ends with the client's cash below zero |
| `Overdrafts.SolventIff` | market_server/order_gateway/include/order_risk_check.hpp:46-61 | at the start of a session with somebody to sell, no run takes a client's cash below zero if and only if attempts and local reservations together are not negative |
| `LedgerSolvency.AccountNeverNegative` | market_server/account_service/include/client_states_writer.hpp:56-104 | the account service that books, in any batches, the reports the engines emitted over such a run shows exactly that balance, so it never shows a negative one |
| `LedgerSolvency.ServiceShows` | market_server/account_service/include/client_states_writer.hpp:56-104 | after any batches the account service shows of each position the confirmed balance plus what the client's reports moved, the attempt plus the attempts of the reports that sell it, and of the client the sequence id of its last report |
| `LedgerSolvency.ExchangeConserves` | market_server/account_service/include/client_states_writer.hpp:56-104 | over any run of the exchange, on any number of engines, however the reports are interleaved and batched, the ledger's total of every asset is unchanged, if whoever trades an asset has one position for it |
| `GatewayWriter.ClientStatesWriter.constructor` | market_server/order_gateway/include/client_states_writer.hpp:43-66 | no slot of the new ring holds an id that belongs there, whatever the first id |
| `GatewayWriter.ClientStatesWriter.HandleReport` | market_server/order_gateway/include/client_states_writer.hpp:68-103 | a report is remembered and, for a connected client, applied and shown; nobody else changes |
| `GatewayWriter.ClientStatesWriter.HandleBatch` | market_server/order_gateway/include/client_states_writer.hpp:105-167 | all reports are remembered in order and each connected client gets all of its own, shown by one flush |
| `GatewayWriter.BatchIsOneByOne` | market_server/order_gateway/include/client_states_writer.hpp:105-167 | one flush after a batch shows what a flush after each report would have |
| `GatewayWriter.RecordAllHolds` | market_server/order_gateway/include/client_states_writer.hpp:123-125 | recording consecutive reports keeps the last 8192 in the ring |
| `GatewayWriter.ClientStatesWriter.HandleResponse` | market_server/order_gateway/include/client_states_writer.hpp:169-260 | a stale response changes nothing; a fresh one is replayed up to the latest report, loaded and shown; its client is then connected, where it was before or else at the response's connection, whoever was shown there is not, and every other client's entry is as it was |
| `GatewayWriter.LoginThenReport` | market_server/order_gateway/include/client_states_writer.hpp:68-103 | after the login of a client that was not connected, its next report is shown on the connection of the login, on top of what the login showed, and on no other |
| `GatewayWriter.LoginShowsLedger` | market_server/order_gateway/include/client_states_writer.hpp:214-256 | after a login that passes the test, the visible confirmed balance of a position is the ledger's after the latest report if and only if the snapshot's is the ledger's after the report it is stamped with, and the visible attempt is the snapshot's plus what the later reports sold of the position; the account service stamps every snapshot 0, see `Logins.LoginFromService` |
| `GatewayWriter.ClientStatesWriter.HandleDisconnect` | market_server/order_gateway/include/client_states_writer.hpp:262-271 | shows the client as logged out, with its balances |
| `CatchUp.StalenessIsExact` | market_server/order_gateway/include/client_states_writer.hpp:174-178 | the slot test passes exactly for the latest id and for the ids whose later reports are all still in the ring |
| `CatchUp.ReplayRing` | market_server/order_gateway/include/client_states_writer.hpp:213-243 | the loop replays exactly the reports after the snapshot |
| `CatchUp.ReplayMatchesIff` | market_server/order_gateway/include/client_states_writer.hpp:228-241 | a replayed report moves confirmed balances as the ledger does if and only if it does not sell the asset it buys |
| `CatchUp.ReplayedAttempt` | market_server/order_gateway/include/client_states_writer.hpp:228-241 | the replay moves a position's attempt by what each report of the client sells of it, unless the report buys it too |
| `CatchUp.AttemptMatchesIff` | market_server/order_gateway/include/client_states_writer.hpp:228-241 | a replayed report moves attempts as the ledger does if and only if its attempt is the amount it sells, or 0 if it sells the asset it buys: fills, but neither added nor cancelled orders |
| `CatchUp.CatchUpIsLedger` | market_server/order_gateway/include/client_states_writer.hpp:213-243 | for any snapshot that passes the test, the replay is the ledger after the latest report if and only if the snapshot is the ledger after the report it is stamped with |
| `CatchUp.AttemptIsLedgerIff` | market_server/order_gateway/include/client_states_writer.hpp:213-243 | after the replay a position's attempt is the ledger's after the latest report if and only if the snapshot's is off by exactly what the two treatments of the later reports differ by |
| `CatchUp.ZeroStampPassesIff` | market_server/order_gateway/include/client_states_writer.hpp:174-178 | a snapshot stamped 0, as all are, passes the slot test if and only if no report has come or the stream began at 0 and no more than 8192 have; any later login is dropped |
| `CatchUp.ZeroStampIsLedgerIff` | market_server/order_gateway/include/client_states_writer.hpp:213-243 | a snapshot of the ledger after any n reports, stamped 0, is replayed to the ledger after the latest report if and only if the reports taken twice (1 to n-1), or for n = 0 the report left out (0), do not move the position |
| `CatchUp.UnseenReportIsLost` | market_server/order_gateway/include/client_states_writer.hpp:213-243 | a snapshot of the starting ledger is replayed to 100 where the ledger has 70 |
| `CatchUp.BookedReportIsTakenTwice` | market_server/order_gateway/include/client_states_writer.hpp:213-243 | a snapshot of 70 taken after both reports is replayed to 40 |
| `CatchUp.ReplayReleases` | market_server/order_gateway/include/client_states_writer.hpp:234-238 | a snapshot with 30 reserved shows 0 after the fill that pays them is replayed |
| `Logins.LoginFromService` | market_server/account_service/src/client_request_processor.cpp:86-104 | the account service has booked any part of the report stream, in any batches, and answers a login with what it shows, stamped 0: each position the gateway then shows is what the service will have after the whole stream if and only if the reports taken twice or left out do not move it |
| `Logins.AttemptsFromService` | market_server/account_service/src/client_request_processor.cpp:86-104 | the attempts shown after such a login are what the service had booked plus what the reports after report 0 sold |
| `Logins.ProcessRequest` | market_server/account_service/src/client_request_processor.cpp:39-104 | a login is accepted exactly with the right key and from the client's own gateway or gateway 10; a wrong gateway is named whatever the key; an acceptance carries the client's positions and balances, a refusal none, and all are stamped 0 |
| `Logins.RefusalIsShownAsLogin` | market_server/account_service/src/client_request_processor.cpp:39-84 | the gateway does not read the status of an answer: a refused client is shown as logged in, all positions cash, each at what its reports after report 0 moved |
| `LedgerWriter.ClientStatesWriter.HandleReport` | market_server/account_service/include/client_states_writer.hpp:29-54 | a report is booked and its client shown; `LedgerSolvency.ServiceShows` says what that adds up to |
| `LedgerWriter.ClientStatesWriter.HandleBatch` | market_server/account_service/include/client_states_writer.hpp:56-104 | all reports are booked in order, then each client of the batch is flushed once; `LedgerSolvency.ServiceShows` says what that adds up to |
| `LedgerWriter.BatchingIsIrrelevant` | market_server/account_service/include/client_states_writer.hpp:56-104 | any way of cutting a report stream into batches shows the same ledger as booking one by one |
| `LedgerWriter.LedgerConserves` | market_server/account_service/include/client_states_writer.hpp:56-104 | however the reports of an engine run are batched, the ledger's total of every asset is unchanged, if whoever trades an asset has one position for it |
| `Reassembly.Receiver.AddSlot` | market_server/common/include/sequence_ring_buffer.hpp:40-58 | puts a pointer in the slot of its id unless the id is too far behind |
| `Reassembly.Receiver.GetSlot` | market_server/common/include/sequence_ring_buffer.hpp:30-38 | finds an object only if the id stored in it is the one asked for |
| `Reassembly.SlotIsSafe` | market_server/common/include/sequence_ring_buffer.hpp:40-58 | within the window an arriving message never displaces another that waits |
| `Reassembly.FoundIffReceived` | market_server/common/include/sequence_ring_buffer.hpp:30-38 | the lookup of the next id succeeds exactly when it has been received, although slots keep pointers to recycled objects |
| `Reassembly.OvertakenIff` | market_server/common/include/sequence_ring_buffer.hpp:45-48 | storing an id makes the id due next too old if and only if it is Size or more ahead of it, and then the arrival of the id due next changes no slot |
| `Reassembly.Receiver.TakeOne` | market_server/common/include/udp_multicast_receiver.hpp:201-233 | a message is taken exactly when the object offered is free, counting what the consumer has just given back; it is then in its slot, or its object is free again because its id is too old; without an object it is lost |
| `Reassembly.Receiver.Drain` | market_server/common/include/udp_multicast_receiver.hpp:235-259 | the drain loop ends with the next id not received; each id it passes is refused exactly when the queue has no room for it, its object then with the pool, otherwise with the consumer, and nothing refused or handed on before changes |
| `Reassembly.Receiver.Receive` | market_server/common/include/udp_multicast_receiver.hpp:201-259 | for any loss, reordering or duplication with no id Size or more ahead, what has been handed on is the longest gapless prefix received, minus exactly what the outgoing queue had no room for; with room for all it grows by exactly the messages from the old next id to the new one; every message offered a free object is taken |
| `Reassembly.InOrderOnce` | market_server/common/include/udp_multicast_receiver.hpp:235-259 | the stream handed on carries each id at most once, in order, with its own payload |
| `Reassembly.OvertakenIsLost` | market_server/common/include/sequence_ring_buffer.hpp:45-48 | the smallest case: a ring of two, id 2 stored first, id 0 refused |

## Left out

- Network, DPDK, epoll, etcd, shared memory, thread pinning, logging and timestamps: input and output.
- C++ memory orders below single atomic actions: acquire and release are taken to give the stated visibility.
- 64-bit overflow of prices, balances and products: prices and balances are unbounded integers.
- The hash map of connections inside the gateway writer: it is a plain map there.
- Queues between engine and services inside the engine model: outgoing streams are unbounded sequences.
- FlatHashMaps.FlatHashMap.AddNode: without room in the home bucket all tags are below 112, and the walk is clear or some
  bucket has its first slot free. Otherwise a walk may pass its own start or write tags that read as free slots, and
  nothing is stated.
- FlatHashMaps.FlatHashMap.DeleteNode: requires, besides the key's own slot, a free one or one whose entry is at home,
  because otherwise the backward shift does not end; `FlatHashMaps.FlatHashMap.Erase` has it from the number of keys.
- FlatHashMaps.FlatHashMap.PaddingSafeWrite: the four parallel arrays are one array of slots.
- SkipList.SkipList.AddNode: the level generator is any choice up to the maximum; the forward pointers are stored level
  by level; exhaustion of the node pool is excluded.
- MatchingEngine.BidAsk.Handle: order ids are 32 bits and unused. A limit order of which something comes to rest has a
  price strictly between the sentinels and, at a new price, a free level, a free skip list node and an exact insertion
  into the hash map; its id has an exact insertion too, and, if it trades first, room in its home bucket, because the
  deletions of the trades can undo a clear walk. A market order needs none of this.
- MatchingEngine.BidAsk.CancelOrder: a cancel names the side its target rests on, as the repository's own stress test
  says it must (market_server/functional_tests/realistic_stress_test.cpp, line 507).
- PopOrder and GetBestOffer: not used by the engine.
- Solvency.NeverNegative: within one session, each client keeps its connection, order prices are not negative, and
  reports reach the gateway in order without loss; reconnects and their effect on reservations are not modelled.
- Solvency.FreshSessionIsSolvent: a refused order changes nothing in the same session and is no event.
- LedgerSolvency.AccountNeverNegative: the reports of all engines reach the account service in one order without loss.
- LedgerWriter.LedgerConserves: one engine's run; `LedgerSolvency.ExchangeConserves` is about any number of engines.
- Overdrafts.SolventIff: cash positions; selling more of another asset than is held would need several orders of 32-bit
  amounts.
- GatewayWriter.ClientStatesWriter.HandleResponse: one response at a time; the unreachable resend of a stale request and
  logging are left out, and sequence ids do not wrap.
- CatchUp.CatchUpIsLedger: confirmed balances only, and no report sells the asset it buys, as none of an engine's does; attempts
  are `CatchUp.AttemptIsLedgerIff`.
- Reassembly.Receiver.Receive: sequence ids do not wrap at 2^32; packets carry messages of one emitted stream.
- TornReads.CopyIsOneVersion: a reader that is overtaken twice is not covered, because such a copy can be torn.
- StoragePools.Ownership: clients release only what they hold; a null release is refused without effect.
- TripleBuffer.ClientStates.FlushTripleBuffer: sequence ids of the account service are a field of each copy instead of a
  vector beside them.
- Dashboard drawing, candles, latency statistics, SHA-256, TCP framing, wire sizes, VersionedFd and the multicast address
  mapping: easy members or foreign code.
