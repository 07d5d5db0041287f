# A verified model of the exchange and its trading clients

The project models one exchange and the clients that trade on it: the limit order book and its matching loop, the
market data stream with its snapshots and recovery, the book a client rebuilds from that stream, the client's orders,
positions and risk check, and the queues, pools and connections in between. To verify:
`dafny verify dfyconfig.toml`.

Two layers run through it. Pure functions on order lists say what a request, an update, a record or a response does;
the laws of the system (price-time priority, agreement of replicas, recovery, conservation, position limits) are
lemmas about those functions, over every input and every run. Classes and methods repeat the program's own loops and
in-place updates, and their contracts equate the new state with those functions.

## How it is laid out

| files | part of the system |
|---|---|
| `Types`, `OrderLists`, `PriceMap` | messages and constants; one side of a book as the list of its orders in price-time order; the price map with its `price % 256` index |
| `ExchangeModel`, `ExchangeInvariants`, `Ledger` | what a request does to a book and what it sends; what every request keeps; quantity accounts over whole runs |
| `Rings`, `LevelLists`, `BookIndex` | circular doubly linked lists, the level lists and order FIFOs spliced in place, and how they show the order lists; shared by both books, whose headers repeat the same text |
| `ExchangeOrderBook`, `TradingOrderBook`, `ReplicaAgreement` | the two books as classes over those lists, and the two side by side |
| `ReplicaModel`, `Snapshot`, `Market`, `MarketDataPublisher` | replay of updates, the snapshot stream and its round trip, runs of the matching engine on all tickers, publisher and synthesizer |
| `ConsumerModel`, `MarketDataConsumer`, `ConsumerLaws`, `RecoverySafety`, `RecoveryRuns`, `RecoveryProgress` | gap detection and recovery over a network that loses, repeats and reorders |
| `PositionKeeper`, `RiskManager`, `OrderManager` | profit and position, the pre-trade check, one order per ticker and side |
| `TradingSystem`, `TradingLimits`, `TradingMoves`, `ExchangeSimulation` | the whole client against an exchange that executes at will, over queues; for which configurations its limit holds; what its moves come to; and the same client against the real books, which is a refinement of that |
| `LockFreeQueue`, `MemoryPool` | the single-producer single-consumer ring as interleaved steps, the block pool |
| `Framing`, `WireLayout`, `OrderGateway`, `OrderServer` | records over byte streams, the packed layouts of the order connection, both ends of it, the sequencer |

A list node carries two ghost constants: the ring it belongs to (a price slot, or a side) and its key in it (the
market order id, or the price with bids negated). `Rings.Linked` says that `next` leads to the next higher key of the
same ring and from the highest to the lowest, and `prev` back: that is one sorted circular list per ring.
`BookIndex.NextInLevel` and `BookIndex.NextInSide` read this back as the FIFO of a level and the order of the levels.

## What the code relies on

- Live prices of one book are distinct modulo 256, and a client does not reuse the id of a live order. Neither is
  checked. `ExchangeInvariants.CanRest` states it for the one moment it matters, when an Add has quantity left, and
  `AddKeepsWellFormed` shows that the book stays well formed exactly then. `AliasedPriceMisfiled` is a concrete sell
  filed as the second order of a bid level.
- Client ids are below 256 and order ids below 2^20: the arrays indexed by them are read with `.at()` in `noexcept`
  functions. Sides of requests are BUY or SELL.
- Pointer arrays start null and `open_vwap_` at zero; the constructors do not write them.
- The START and the END of a whole snapshot queue come from one snapshot. The consumer never compares the numbers they
  carry. `RecoveryRuns.RecoveryIsSafe` assumes that snapshots arrive in the order they were taken (with losses and
  repeats) and that whenever the queue is gapless from a START to an END the two carry the same number; a queue with a
  gap may hold anything, because the consumer drops it. `RecoveryProgress.SpliceIsAccepted`, `SpliceAtEnd` and
  `SpliceCanBeWrong` show what happens without that. That the synthesizer's own stream is in order is
  `RecoveryProgress.ScheduleIsInOrder`.
- Slots of the lock-free ring are written only while one is free; `LockFreeQueue.OldestIsLost` is a run, for rings of
  every size, that writes once too often.
- Positions and quantities are below 2^31, and a client's responses go out after it is bound to a socket.

## Where the code differs from what it says of itself

- The comment at src/include/matching_engine/exchange_order_book.hpp:59 gives one price map for both sides because no
  price can rest on both. That part is `OnePriceMapSuffices`; it does not cover two prices that share a slot.
- `TradingOrderBook` means CLEAR to empty the book (src/trading_engine/trading_order_book.cpp:52). It leaves the price
  map and the best bid and offer as they were, so the book is in order afterwards exactly when it was empty before:
  the contract of `OnClear`.
- The sequencer promises FIFO order (src/include/order_gateway/fifo_sequencer.hpp:3), but `std::sort` is not stable
  and a whole read carries one receive time: `OrderDetermined` says exactly when the order of a batch is fixed.
- The risk check casts the order size to a signed 32-bit integer and adds it to the position in 32 bits (modelled as
  two's complement; the language leaves the overflow undefined). `GuardsExactly` gives the configurations for which it
  guards the limit, `TradingLimits.LimitHoldsExactly` says that for these, and no others, it holds over every run;
  `LimitsEvaded` has one configuration defeated by the cast and one by the sum.
- The position keeper takes a change of sign from the product of the positions before and after a fill, in 32 bits.
  From about 46341 on the product can have the wrong sign: `FlipImagined` buys 60000, sells 10000 of them, and books a
  flip. `SoundShows` and the contract of `AddFill` say exactly when the accounts stay right.
- The quantity of a quote is summed in 32 bits: it is the total of the level exactly when that is below 2^32
  (`QuoteIsTotal`; `QuoteWraps` is a level of 2^32 quoted as 0).
- The memory pool ends the program when its last free block is taken, so a pool of n blocks serves n - 1.
- A quote may stay INVALID after the first order on an empty side (`FirstOrderUnquoted`), and an order of quantity
  zero is accepted and stays LIVE at the client though the exchange holds nothing of it (`TradingSystem.LiveIsHeld`;
  `TradingLimits.ZeroOrderStaysLive` is a run that leads there).

## Model

| member | source | states |
|---|---|---|
| ExchangeInvariants.SweepIsWaterfall | src/matching_engine/exchange_order_book.cpp:95-126 | Matching is price-time priority: every order reached gets its quantity or what those ahead left over, at its own price, within the limit; matching stops only when the aggressor is filled or no acceptable order is left |
| ExchangeInvariants.FillsReported | src/matching_engine/exchange_order_book.cpp:37-92 | Every execution is reported once and in order: both owners and the trade at the resting order's price, never worse than the limit, all with the same quantity, and the resting order withdrawn or republished with its remainder |
| ExchangeInvariants.AddReported | src/matching_engine/exchange_order_book.cpp:128-164 | An Add answers with its acceptance under the next market order id, then exactly its fills under that id in 32 bits, then, if something is left, the ADD of the very order that now rests |
| ExchangeInvariants.CancelReported | src/matching_engine/exchange_order_book.cpp:184-205 | Cancelling a live order takes exactly that order out and tells its price, side, priority and all that was left of it |
| ExchangeInvariants.LateCancelReported | src/matching_engine/exchange_order_book.cpp:173-183 | Cancelling an order that is not live changes nothing and is rejected |
| ExchangeInvariants.SweepEatsFromFront | src/matching_engine/exchange_order_book.cpp:27-93 | Whole orders go from the front of the other side and at most one more is cut down, and then the aggressor is filled |
| ExchangeInvariants.SweepConserves | src/matching_engine/exchange_order_book.cpp:30-35 | Executed plus remaining quantity is the aggressor's quantity; executed plus what still rests is what rested before |
| ExchangeInvariants.SweepLeavesOnlyWorse | src/matching_engine/exchange_order_book.cpp:101-110 | An aggressor with quantity left has nothing acceptable left against it |
| ExchangeInvariants.OnePriceMapSuffices | src/include/matching_engine/exchange_order_book.hpp:59-60 | After matching, a remainder finds its slot empty or holding the level of its own side and price |
| ExchangeInvariants.NewOrderIsLast | src/include/matching_engine/exchange_order_book.hpp:160-167 | The priority read for a new order is above every priority at its price |
| ExchangeInvariants.NextPriorityIsNext | src/include/matching_engine/exchange_order_book.hpp:160-167 | It is one more than the last in use at the price, and 1 where none is |
| ExchangeInvariants.RestKeepsWellFormed | src/include/matching_engine/exchange_order_book.hpp:199-218 | Resting keeps the book well formed if and only if no live price shares the slot and the owner's id is not live |
| ExchangeInvariants.AddKeepsWellFormed | src/matching_engine/exchange_order_book.cpp:128-164 | An Add keeps price-time order, unique ids, owners and slots, positive quantities and an uncrossed book if and only if its remainder can rest |
| ExchangeInvariants.CancelKeepsWellFormed | src/matching_engine/exchange_order_book.cpp:166-212 | Every cancel keeps the book well formed |
| ExchangeInvariants.ProcessKeepsWellFormed | src/include/matching_engine/matching_engine.hpp:30-52 | A request keeps the book well formed if and only if it is legal |
| ExchangeInvariants.NeverCrossed | src/matching_engine/exchange_order_book.cpp:128-164 | After every legal request the best bid is below the best ask |
| ExchangeInvariants.AliasedPriceMisfiled | src/include/matching_engine/exchange_order_book.hpp:75-79 | With a bid at 100, a sell at 356 is filed in that bid's level and the book is no longer well formed |
| PriceMap.RestIsInsert | src/include/matching_engine/exchange_order_book.hpp:199-215 | When the slot fits, an order found its place through the price map exactly where price-time order puts it |
| Ledger.RunConserves | src/matching_engine/exchange_order_book.cpp:27-212 | Over every legal run, for every accepted order, the original quantity is what its fills report plus what rests plus what its CANCELED gives back |
| Ledger.ProcessBalances | src/matching_engine/exchange_order_book.cpp:27-212 | One request keeps, for every order, accepted less executed less returned quantity equal to what rests, and every response it sends is true when sent |
| Ledger.SweepIsTruthful | src/matching_engine/exchange_order_book.cpp:37-57 | At its place in the response stream every FILLED reports an executed quantity and a remainder that agree with all that was reported before |
| Rings.LinkBefore | src/include/matching_engine/exchange_order_book.hpp:119-123 | Splicing a node in front of another keeps every ring a sorted circular doubly linked list, now with the node |
| Rings.LinkAfter | src/include/matching_engine/exchange_order_book.hpp:111-118 | Splicing behind, the same |
| Rings.Unlink | src/include/matching_engine/exchange_order_book.hpp:182-192 | Taking a node out of a ring of several keeps every ring sorted and circular, now without the node |
| Rings.AloneLeaves | src/include/matching_engine/exchange_order_book.hpp:142-143 | A node that is its own successor is the only one of its ring |
| LevelLists.PriceLevels.FindPlace | src/include/matching_engine/exchange_order_book.hpp:90-114 | The search ends at the first level that is worse than the new price, or wraps to the head when every level is better |
| LevelLists.PriceLevels.LinkLevel | src/include/matching_engine/exchange_order_book.hpp:84-135 | The new level enters the sorted ring of its side and becomes the head exactly when the side was empty or it is best |
| LevelLists.PriceLevels.AddOrdersAtPrice | src/include/matching_engine/exchange_order_book.hpp:81-136 | A level for a free slot joins the lists and the price map with all invariants kept |
| LevelLists.PriceLevels.RemoveOrdersAtPrice | src/include/matching_engine/exchange_order_book.hpp:138-158 | The level of a price leaves its side and the price map, the next level becomes the head if it was the head |
| LevelLists.PriceLevels.AddOrder | src/include/matching_engine/exchange_order_book.hpp:199-218 | The order enters at the end of its level's FIFO, the level being made if there is none |
| LevelLists.PriceLevels.RemoveOrder | src/include/matching_engine/exchange_order_book.hpp:178-197 | The order leaves its FIFO, which then starts at the next order, or takes its level with it |
| LevelLists.PriceLevels.GetNextPriority | src/include/matching_engine/exchange_order_book.hpp:160-167 | One more than the priority of the youngest order of the slot's level, 1 without a level |
| BookIndex.FrontShown | src/matching_engine/exchange_order_book.cpp:101-105 | The first order of the best level is the first of the side in price-time order; there is no level exactly when there is no order |
| BookIndex.NextInLevel | src/include/matching_engine/exchange_order_book.hpp:209-215 | From an order `next` leads to the one behind it at its price, from the last back to the level's first |
| BookIndex.NextInSide | src/include/matching_engine/exchange_order_book.hpp:90-134 | From a level `next` leads to the next worse price of the side, from the worst back to the best |
| BookIndex.AddNode | src/include/matching_engine/exchange_order_book.hpp:199-218 | Adding to the linked lists is inserting in price-time order |
| BookIndex.RemoveNode | src/include/matching_engine/exchange_order_book.hpp:178-197 | Removing from the linked lists is removing by id |
| BookIndex.CutNode | src/matching_engine/exchange_order_book.cpp:35 | Changing a quantity in place changes that order and no place in the lists |
| ExchangeOrderBookClass.ExchangeOrderBook.Match | src/matching_engine/exchange_order_book.cpp:27-93 | One execution takes the lesser quantity off the head order, removes it when nothing is left, and sends the two responses, the trade and the MODIFY or CANCEL |
| ExchangeOrderBookClass.ExchangeOrderBook.CheckForMatch | src/matching_engine/exchange_order_book.cpp:95-126 | The loop ends and leaves exactly the sweep's lists, remainder and messages |
| ExchangeOrderBookClass.ExchangeOrderBook.Add | src/matching_engine/exchange_order_book.cpp:128-164 | Lists, maps and messages after an Add are those of the model's request, and all invariants hold again |
| ExchangeOrderBookClass.ExchangeOrderBook.Cancel | src/matching_engine/exchange_order_book.cpp:166-212 | The same for a cancel, found or rejected |
| ExchangeOrderBookClass.LookupShown | src/matching_engine/exchange_order_book.cpp:168-174 | Looking in the (client, order id) map is looking through the book |
| ExchangeOrderBookClass.PriorityShown | src/include/matching_engine/exchange_order_book.hpp:160-167 | What the price map finds for a price, and the priority read there, is what the order lists say |
| ReplicaModel.ProcessReplays | src/trading_engine/trading_order_book.cpp:24-91 | Replaying the updates of one request turns the public view of the book into that of the new book, down to FIFO order, and each update is acceptable in its turn |
| ReplicaModel.SequencedKeepsOrderly | src/trading_engine/trading_order_book.cpp:30-47 | An update of the feed keeps a replica in price-time order, unique and uncrossed |
| Market.RunAgrees | src/include/matching_engine/matching_engine.hpp:30-52 | After every legal run of requests on any tickers, replaying the whole stream gives every book's public view |
| ReplicaAgreement.ServeAndFollow | src/trading_engine/trading_order_book.cpp:24-91 | The linked books of exchange and client agree order by order after every request whose updates have been taken in |
| TradingOrderBookClass.TradingOrderBook.OnMarketUpdate | src/trading_engine/trading_order_book.cpp:24-91 | The update changes the book as the replay says; the quote of a side is reread exactly when the update is for it at its best price or better. The lists stay in order, and every quote unknown or that of the book modulo 2^32, if and only if the update is not a CLEAR that finds something to clear |
| TradingOrderBookClass.TradingOrderBook.OnMarketUpdates | src/trading_engine/trading_engine.cpp:91-102 | A run of the feed leaves the replayed book and quotes that are unknown or, modulo 2^32, exact |
| TradingOrderBookClass.TradingOrderBook.ReadQuote | src/include/trading_engine/trading_order_book.hpp:30-58 | Walking the best level's ring adds up exactly the quantity at the best price, in 32 bits |
| TradingOrderBookClass.TradingOrderBook.OnClear | src/trading_engine/trading_order_book.cpp:52-76 | CLEAR drops the map and both lists but not the price map or the quotes; the book is in order afterwards if and only if it was empty |
| TradingOrderBookClass.QuotesFollow | src/include/trading_engine/trading_order_book.hpp:30-58 | Refreshing only the quotes an update touches keeps every quote unknown or, modulo 2^32, exact |
| TradingOrderBookClass.QuoteOutcome | src/trading_engine/trading_order_book.cpp:25-28 | A non-trade update at the side's best price or a better one makes its quote that of the new book; any other leaves the quote alone, and an exact quote exact unless the side was empty |
| TradingOrderBookClass.BestIsBest | src/include/trading_engine/trading_order_book.hpp:33-34 | The quoted price is the best on its side |
| TradingOrderBookClass.QuoteIsTotal | src/include/trading_engine/trading_order_book.hpp:33-38 | A quote shows the whole quantity at the best price if and only if that is below 2^32 |
| TradingOrderBookClass.QuoteWraps | src/include/trading_engine/trading_order_book.hpp:33-38 | Two orders of 2^31 at the best price are quoted with quantity 0 |
| TradingOrderBookClass.FirstOrderUnquoted | src/trading_engine/trading_order_book.cpp:25-28 | The first order on an empty side refreshes no quote |
| Snapshot.FoldRepresents | src/market_data/snapshot_synthesizer.cpp:28-66 | The synthesizer's table follows the book update by update, as ADD messages of the live orders, and no ASSERT fires |
| Snapshot.TickerRoundTrip | src/market_data/snapshot_synthesizer.cpp:78-99 | Replaying a ticker's part of a snapshot, by increasing id, rebuilds its book including FIFO order |
| Market.SnapshotRoundTrip | src/market_data/snapshot_synthesizer.cpp:68-111 | Replaying a published snapshot into any state of the replicas gives every book |
| Market.TablesFollow | src/market_data/snapshot_synthesizer.cpp:28-66 | Along any stream in sequence the tables mirror the replicas and no ASSERT fires |
| Market.SnapshotAtRebuilds | src/market_data/snapshot_synthesizer.cpp:113-131 | A snapshot taken after any update, also between the updates of one request, rebuilds the books as of that update |
| MarketDataPublisherClass.MarketDataPublisher.Run | src/market_data/market_data_publisher.cpp:20-50 | Both streams carry all updates numbered 1, 2, 3 and so on, in whatever batches they come |
| MarketDataPublisherClass.SnapshotSynthesizer.AddToSnapshot | src/market_data/snapshot_synthesizer.cpp:28-66 | One record changes its ticker's table as the fold says and moves the last number on by one |
| MarketDataPublisherClass.SnapshotSynthesizer.PublishSnapshot | src/market_data/snapshot_synthesizer.cpp:68-111 | The loops send START, per ticker CLEAR and its live orders by id, then END, numbered from 0 |
| MarketDataPublisherClass.SnapshotSynthesizer.Run | src/market_data/snapshot_synthesizer.cpp:113-131 | On the publisher's numbered feed, in whatever batches it is drained, no ASSERT fires; for every batch behind which the timer goes off the whole snapshot of the updates so far stands in the stream, and as many snapshots are closed as the timer went off |
| MarketDataPublisherClass.DueIsSent | src/market_data/snapshot_synthesizer.cpp:127-130 | A snapshot that is due stands in the stream from START to END, numbered from 0 |
| MarketDataPublisherClass.EndsAreDues | src/market_data/snapshot_synthesizer.cpp:127-130 | Snapshots go out when they are due and at no other time |
| MarketDataConsumerClass.MarketDataConsumer.RecvCallback | src/market_data/market_data_consumer.cpp:184-242 | A batch of records changes state, queues and output as the model's step does, record by record |
| MarketDataConsumerClass.MarketDataConsumer.CheckSnapshotSync | src/market_data/market_data_consumer.cpp:55-159 | The loops over both queues accept, keep or drop exactly what the model's check does |
| MarketDataConsumerClass.MarketDataConsumer.CollectSnapshot | src/market_data/market_data_consumer.cpp:68-89 | The walk over the snapshot queue finds it complete exactly when it has no gap, and collects its events |
| MarketDataConsumerClass.MarketDataConsumer.CollectIncrementals | src/market_data/market_data_consumer.cpp:105-135 | The walk over the incrementals stops at the first gap above the snapshot and collects what is before it |
| MarketDataConsumerClass.MarketDataConsumer.QueueMessage | src/market_data/market_data_consumer.cpp:163-180 | A repeated snapshot number starts the queue over; any message is queued and the check is made |
| ConsumerLaws.InSequenceDelivered | src/market_data/market_data_consumer.cpp:209-233 | Outside recovery, records numbered on from the one expected are delivered as they come, and recovery does not start |
| ConsumerLaws.GapStartsRecovery | src/market_data/market_data_consumer.cpp:208-221 | Any other number starts a recovery with exactly that record queued and nothing delivered |
| ConsumerLaws.LosslessIsInStep | src/market_data/market_data_consumer.cpp:184-242 | With no loss, repetition or reordering of incrementals, whatever comes on the snapshot socket in between and in whatever pieces: never in recovery, and every update delivered |
| ConsumerLaws.FirstLossIsNoticed | src/market_data/market_data_consumer.cpp:208-221 | The first incremental out of sequence, wherever in a buffer, ends that: what came before it is delivered and recovery starts with it |
| ConsumerLaws.RecoveryEndsExactly | src/market_data/market_data_consumer.cpp:55-180 | Recovery ends with a record if and only if the snapshot queue then runs from START to END without a gap and no update above END's number is missing; until then nothing is delivered and no incremental dropped |
| ConsumerLaws.RecoveryEndsWith | src/market_data/market_data_consumer.cpp:137-155 | It ends with both queues empty, the first update not queued expected next, and the snapshot's and the queued updates' events delivered |
| RecoveryRuns.RecoveryIsSafe | src/market_data/market_data_consumer.cpp:184-242 | Over every run with any loss, repetition and reordering of incrementals, and any loss and repetition of snapshot messages after which no gapless queue joins a START and an END of different snapshots: whenever the consumer is not in recovery, everything it has delivered replays to the exchange's books after update `next_exp_inc_seq_num_ - 1` |
| RecoveryRuns.StepIsSafe | src/market_data/market_data_consumer.cpp:184-242 | Each record keeps the invariant behind this, in and out of recovery |
| RecoveryRuns.ReassemblyKept | src/market_data/market_data_consumer.cpp:55-180 | After every record the snapshot queue is empty or holds messages 0 to m, START first and END not yet |
| RecoverySafety.OneOrigin | src/market_data/market_data_consumer.cpp:55-103 | A whole queue whose START and END carry one number holds exactly the messages of that snapshot |
| RecoverySafety.AcceptSynchronizes | src/market_data/market_data_consumer.cpp:105-155 | Accepting a whole snapshot with no gap above it puts the consumer in step with the exchange |
| RecoveryProgress.WholeSnapshotEndsRecovery | src/market_data/market_data_consumer.cpp:55-180 | One whole snapshot received in order ends recovery when the queued incrementals above it have no gap, with the number after the last of them expected next |
| RecoveryProgress.DueSnapshotEndsRecovery | src/market_data/snapshot_synthesizer.cpp:113-131 | From timer to reader: the records of any due snapshot, as they stand in the synthesizer's stream, end the recovery of a consumer that has no gap queued above it and put it in step with the exchange |
| RecoveryProgress.SpliceIsAccepted | src/market_data/market_data_consumer.cpp:60-103 | The front of one snapshot and the rest of another, joined at any message, are accepted as one whole snapshot; the consumer is then right if and only if the joined events rebuild the later state |
| RecoveryProgress.SpliceAtEnd | src/market_data/market_data_consumer.cpp:60-103 | Joined at the END, for two snapshots of one length, it is right if and only if nothing changed between the two |
| RecoveryProgress.ScheduleIsInOrder | src/market_data/snapshot_synthesizer.cpp:68-131 | Whenever the timer goes off, the snapshot stream consists of genuine snapshots in the order they were taken: what recovery assumes of it before loss |
| RecoveryProgress.SpliceCanBeWrong | src/market_data/market_data_consumer.cpp:98-107 | Two bids, one of them cancelled between two snapshots: the splice is accepted and leaves a book the exchange never had |
| PositionKeeper.RealisedIsCash | src/include/trading_engine/position_keeper.hpp:36-56 | Over any fills, through opens, reductions, flat and flips, realised profit less the cost of the open position is the cash flow |
| PositionKeeper.AverageCost | src/include/trading_engine/position_keeper.hpp:45-56 | Adding to a position realises nothing, reducing it keeps the average it was entered at, crossing zero enters at the fill's price |
| PositionKeeper.OneSideRealisesNothing | src/include/trading_engine/position_keeper.hpp:45-46 | Over any buys alone, or sells alone, nothing is realised and the position is valued at what it cost |
| PositionKeeper.VolumeIsTotal | src/include/trading_engine/position_keeper.hpp:43 | The volume is the quantity of all fills together, in 32 bits |
| PositionKeeper.PositionInfo.AddFill | src/include/trading_engine/position_keeper.hpp:36-78 | Position, open values and realised profit after any fill, with the 32-bit product of positions, and a volume larger by its quantity, in 32 bits; the books stay those of average-cost accounting over all fills if and only if the fill is sound |
| PositionKeeper.SoundShows | src/include/trading_engine/position_keeper.hpp:45-56 | The open values after a fill are those of the textbook account if and only if the fill adds to the position, or leaves the truncated product of old and new position its true sign, or there is no value at stake |
| PositionKeeper.SmallProductsKeepSign | src/include/trading_engine/position_keeper.hpp:51 | The sign is true whenever the product is within 32 bits, so for all positions of up to 46340 |
| PositionKeeper.KeptIsAccount | src/include/trading_engine/position_keeper.hpp:36-56 | Over any run of sound fills, what the code keeps is the textbook account and satisfies the cash identity |
| PositionKeeper.FlipImagined | src/include/trading_engine/position_keeper.hpp:51-54 | Buying 60000 and selling 10000 of them at the same price leaves an open value on the wrong side, because 50000 times 60000 is negative in 32 bits |
| PositionKeeper.PositionInfo.UpdateBbo | src/include/trading_engine/position_keeper.hpp:80-102 | A two-sided quote values an open position at the middle; anything else changes nothing |
| PositionKeeper.PositionInfo.ProfitIsCash | src/include/trading_engine/position_keeper.hpp:45-59 | As long as the fills were sound: realised profit less the bought plus the sold open value is the cash flow, and the side opposite to the position has none |
| PositionKeeper.PositionInfo.TotalIsMarkedToMarket | src/include/trading_engine/position_keeper.hpp:58-73 | As long as the profits are those of the account: total profit is the cash flow plus the position at the last price it was valued at |
| RiskManager.GuardsExactly | src/include/trading_engine/risk_manager.hpp:45-59 | From any position within the limit no allowed order can exceed it, if and only if the limit and the largest order size add up to less than 2^31; the casts, the product and the sum are 32-bit |
| RiskManager.RefusedForTheFirst | src/include/trading_engine/risk_manager.hpp:45-59 | For these configurations and positions within the limit: an order is allowed if and only if its size, the position it leads to and the total profit are all within their limits, and refused for the first that is not |
| RiskManager.LimitsEvaded | src/include/trading_engine/risk_manager.hpp:50-53 | With the largest order size configured, an order of four billion passes a limit of 100; and a second order of 1.5 billion passes a limit of 1.6 billion |
| OrderManagerClass.OrderManager.OnOrderUpdate | src/include/trading_engine/order_manager.hpp:24-48 | A response changes the order of its ticker and side and no other; a CANCEL_REJECTED, which carries no side, changes none |
| OrderManagerClass.ResponseDecides | src/include/trading_engine/order_manager.hpp:31-47 | ACCEPTED makes the order live, CANCELED dead, FILLED leaves it what is left and dead when that is nothing, CANCEL_REJECTED changes nothing |
| OrderManagerClass.MoveDecides | src/include/trading_engine/order_manager.hpp:55-87 | Case by case, field by field: what a move of an order does to it and what it sends |
| OrderManagerClass.OrderManager.NewOrder | src/trading_engine/order_manager.cpp:7-28 | The slot holds a pending order under the next id, and its NEW is sent |
| OrderManagerClass.OrderManager.CancelOrder | src/trading_engine/order_manager.cpp:30-44 | The slot waits for its cancel, which is sent with the order's id |
| OrderManagerClass.OrderManager.MoveOrder | src/include/trading_engine/order_manager.hpp:55-87 | A live order at another price waits for the one CANCEL sent with its id; a live one at that price or a pending one changes nothing; a finished one is replaced, with one NEW, if and only if the price is valid and the check allows |
| OrderManagerClass.OrderManager.MoveOrders | src/include/trading_engine/order_manager.hpp:89-104 | The same for bid and then ask, both checked against the same position; an order is still live afterwards if and only if it was live at the price asked for |
| TradingSystem.PositionWithinLimit | src/include/trading_engine/risk_manager.hpp:45-59 | Over every run, with requests served in any order and responses delayed at will, neither the known nor the true position exceeds the limit, even if all the exchange holds on a side is executed |
| TradingSystem.SlotsAgree | src/include/trading_engine/order_manager.hpp:24-87 | A slot that is INVALID or DEAD has nothing in flight or at the exchange; any other tracks what the exchange holds, plus fills and returned quantity in flight, once its NEW is served |
| TradingSystem.OneOrderAtATime | src/include/trading_engine/order_manager.hpp:3-4 | The exchange holds at most one order per ticker and side, the one its slot works, and no NEW is in flight beside it |
| TradingMoves.MoveOutcome | src/include/trading_engine/order_manager.hpp:55-87 | At any point of any run, a move cancels an order live at another price, replaces a finished one if the price is valid and the three limits allow, and does nothing else; an order live afterwards has the price |
| TradingMoves.NewWasChecked | src/include/trading_engine/risk_manager.hpp:45-59 | Every NEW on its way to the exchange was sent by a move to its price and quantity that kept the size, position and loss limits then |
| TradingMoves.Repricing | src/include/trading_engine/order_manager.hpp:55-87 | Two moves to a price, each followed by the exchange's answer, take a live order from any other price to it, and nothing else changes |
| TradingSystem.LiveIsHeld | src/include/trading_engine/order_manager.hpp:31-47 | A LIVE order with nothing in flight is held at the exchange, with the quantity the client counts, if and only if that is positive |
| TradingLimits.LimitHoldsExactly | src/include/trading_engine/risk_manager.hpp:45-59 | Known and true position stay within every limit over every run, if and only if for every ticker the limit and the largest order size add up to less than 2^31 |
| TradingLimits.Exceeding | src/include/trading_engine/risk_manager.hpp:50-53 | For every other configuration, a run of orders that each pass the check and take the true position to 2^31 |
| TradingLimits.ZeroOrderStaysLive | src/matching_engine/exchange_order_book.cpp:131-146 | An order of quantity zero is accepted and stays live at the client with nothing at the exchange and nothing in flight |
| ExchangeSimulation.ProcessIsSimulated | src/include/matching_engine/matching_engine.hpp:30-52 | Whatever one request of any client does at the exchange is, for one client, a run of accepts, executions and withdrawals: it is sent the same responses, its true position takes the same fills, and the book again shows exactly its live orders and their open quantities |
| ExchangeSimulation.MarketIsSystem | src/include/matching_engine/matching_engine.hpp:30-52 | Every run of the client against the real books, with any requests of other clients in between, is a run of the system with the exchange that executes at will |
| ExchangeSimulation.PositionWithinLimitAtExchange | src/include/trading_engine/risk_manager.hpp:45-59 | Against the real matching engine, over every such run: neither known nor true position exceeds the limit, not even when an order of the client resting in a book is executed in full, and at most one order of the client rests per side of a book |
| TradingSystem.StepKeeps | src/trading_engine/trading_engine.cpp:138-151 | Every step of client or exchange keeps the agreement and the limits |
| TradingSystem.DeliverAgrees | src/include/trading_engine/order_manager.hpp:31-47 | Taking the next response keeps a slot in agreement, and a fill moves its quantity from outstanding to the position |
| TradingSystem.SweepIsChain | src/matching_engine/exchange_order_book.cpp:37-57 | What matching tells an aggressor is a chain of executions from its full quantity to its remainder |
| TradingSystem.SweepExecutes | src/matching_engine/exchange_order_book.cpp:48-57 | What matching tells the owner of a resting order is an execution of that order |
| LockFreeQueue.ConsumedIsPrefixOfCommitted | src/include/runtime/lock_free_queue.hpp:32-47 | Under every interleaving in which a write finds a slot the consumer has read past, consumed values are a prefix of the committed ones, and the consumer never holds an uncommitted or overwritten one |
| LockFreeQueue.FullRingOverwrites | src/include/runtime/lock_free_queue.hpp:32 | A write into a ring with a free slot is sound; into a full one, whatever the consumer is doing, it goes over the oldest value to be read, and the consumer then hands on a value that was never committed in its place |
| LockFreeQueue.OldestIsLost | src/include/runtime/lock_free_queue.hpp:32-47 | For rings of every size and any values that fill it, one more write leads to a run whose consumed values are not a prefix of the committed ones |
| LockFreeQueue.StepKeeps | src/include/runtime/lock_free_queue.hpp:34-45 | Each atomic step of either side keeps what that rests on |
| MemoryPool.MemoryPool.Allocate | src/include/runtime/memory_pool.hpp:26-36 | The block handed out was in no one's use; allocation goes on if and only if a free block remains |
| MemoryPool.MemoryPool.Deallocate | src/include/runtime/memory_pool.hpp:38-44 | The block leaves the ones in use, and the next one to hand out is still free |
| MemoryPool.MemoryPool.UpdateNextFreeIndex | src/include/runtime/memory_pool.hpp:69-82 | The search round the pool ends, finds a free block exactly when there is one besides the one just taken, and finds the nearest |
| Framing.ChunkingIsIrrelevant | src/order_gateway/gateway_client.cpp:57-89 | The records cut and the bytes held depend on the stream alone, not on the pieces it came in |
| Framing.FramesOfStream | src/include/order_gateway/order_server.hpp:77-116 | With a layout that decodes what it encodes of the messages that fit it: from any part of a stream of fitting records that has arrived come the first records sent, whole and unchanged, and from all of it all |
| Framing.DeliveredInOrder | src/order_gateway/gateway_client.cpp:57-89 | Of a stream numbered from 1, of records that fit the layout, every record that has arrived whole is in sequence, whatever the pieces |
| Framing.OneMoreInSequence | src/order_gateway/gateway_client.cpp:65-78 | One more message is taken exactly when its number is the next; any other is as if it had not come |
| WireLayout.RequestsAreLawful | src/include/order_gateway/client_request.hpp:16-67 | The packed 38-byte request record decodes to what was encoded, for every record whose fields fit their widths |
| WireLayout.ResponsesAreLawful | src/include/order_gateway/client_response.hpp:16-74 | The packed 50-byte response record decodes to what was encoded, for every record whose fields fit their widths |
| WireLayout.RequestBytes | src/include/order_gateway/client_request.hpp:16-67 | The fields of the request record in their order, each in its width, lowest byte first, with the codes of type and side |
| WireLayout.ResponseBytes | src/include/order_gateway/client_response.hpp:16-74 | The same for the response record |
| OrderGateway.GatewayClient.RecvCallback | src/order_gateway/gateway_client.cpp:50-91 | The loop hands on the buffered records that are the client's and in sequence and keeps the bytes behind the last whole one |
| OrderGateway.GatewayClient.NothingLost | src/order_gateway/gateway_client.cpp:65-78 | On a stream of packed responses, in whatever pieces, whose records for the client are numbered 1, 2, 3 and so on among records for others: the client has handed on every one of its own that arrived whole, in order; none failed a check |
| OrderGateway.GatewayClient.Run | src/order_gateway/gateway_client.cpp:27-45 | Requests leave numbered 1, 2, 3 and so on over all batches |
| OrderGateway.AlwaysConsecutive | src/include/order_gateway/order_server.hpp:84-109 | Whatever arrives on whatever sockets, the numbers taken from each client are exactly 1, 2, 3 and so on |
| OrderGateway.ForeignIsDropped | src/include/order_gateway/order_server.hpp:88-95 | A request on another socket than its client's changes nothing |
| OrderGateway.OutOfTurnIsDropped | src/include/order_gateway/order_server.hpp:97-105 | A request out of turn is not taken, though it binds a client seen for the first time |
| OrderGateway.TakenExactly | src/include/order_gateway/order_server.hpp:71-117 | Over any callbacks on any sockets: from each client are taken exactly the requests in sequence among those that came in on the one socket it was first seen on |
| OrderGateway.OwnStreamTaken | src/include/order_gateway/order_server.hpp:84-109 | A client's numbered requests on its own socket are taken whole and in order |
| OrderServerClass.OrderServer.RecvCallback | src/include/order_gateway/order_server.hpp:71-117 | The loop takes the buffered records in turn, as the model's step does, into the sequencer, and keeps the bytes behind the last whole one |
| OrderServerClass.OrderServer.TakenFromOneSocket | src/include/order_gateway/order_server.hpp:84-109 | Of a server called back with any records on any sockets: all it took from a client came in, in sequence, on the one socket the client is bound to, where it was first seen |
| OrderServerClass.OrderServer.SendResponse | src/include/order_gateway/order_server.hpp:43-66 | Each response goes out on the one socket its client is bound to; there the client's records are its responses in order, numbered 1, 2, 3 and so on, whichever clients share the socket |
| OrderServerClass.ResponsesArrive | src/order_gateway/gateway_client.cpp:50-91 | End to end: of the bytes the server has put on a client's socket, whatever part has arrived and in whatever pieces, the client has handed on the first of its responses, in order, and all once all have arrived |
| OrderServerClass.FifoSequencer.SequenceAndPublish | src/include/order_gateway/fifo_sequencer.hpp:43-69 | What is published is the whole batch, once each, in order of receive time |
| OrderServerClass.OrderDetermined | src/include/order_gateway/fifo_sequencer.hpp:21-27 | The order in which a batch is published is determined if and only if no two different requests of it share a receive time |

## Left out

- TradingOrderBookClass.TradingOrderBook.OnMarketUpdate: says of a CLEAR of a book that holds orders what it leaves, which is not a book in order; updates behind it are not followed on the linked lists, and recovery across a CLEAR is stated on the replayed order lists.
- RecoveryRuns.RecoveryIsSafe: assumes that snapshot messages arrive in order and that no whole queue joins markers of two snapshots, because the consumer checks neither; without the second it fails (`RecoveryProgress.SpliceCanBeWrong`).
- Ledger.RunConserves: covers runs of fewer than 2^32 requests, because matching passes the market order id on as a 32-bit quantity; `Ledger.ProcessBalances` likewise.
- Market.RunAgrees: covers market order ids below 2^20, the size of the arrays the receivers index with them.
- OrderServerClass.FifoSequencer.SequenceAndPublish: sorts by insertion and promises only what `std::sort` promises; in-place sorting of the array is not modelled.
- OrderServerClass.OrderServer.RecvCallback: more than 1024 pending requests end the program and are excluded; so are client ids of 256 and above, which the code uses as unchecked indexes.
- PositionKeeper.PositionInfo.AddFill: uses reals for doubles, and takes the product of price and quantity without overflow of its 64 bits.
- RiskManager.GuardsExactly: signed overflow, which the language leaves undefined, is taken to wrap in two's complement; the same holds of the position product in `PositionKeeper`.
- OrderManagerClass.OrderManager.OnOrderUpdate: the table has two further places per ticker for the sides INVALID and MAX; no response changes them and they are not modelled.
- LevelLists.PriceLevels.RemoveOrder: nodes are allocated with `new` and dropped; the block pools behind them are modelled on their own in `MemoryPool`.
- ExchangeOrderBookClass.ExchangeOrderBook.Add: the outgoing queues are sequences that grow; the ring behind them is modelled on its own in `LockFreeQueue`. Quantities are natural numbers; only the market order id is cut to 32 bits where the code passes it as a quantity.
- ExchangeSimulation.PositionWithinLimitAtExchange: requests of every client are legal in the sense of `ExchangeInvariants.Legal`, because the engine does not check that; the two queues between client and engine are a multiset of requests and a sequence of responses.
- Sockets, multicast groups, timestamps, threads, clocks and logging: input and output only.
- Byte layouts of the market data records: the consumer is modelled on records. Byte order of the order connection is taken as little-endian, the native one of the platform.
- Feature engine, market maker, liquidity taker and the random algorithm: they only decide when to call `MoveOrders`.
- Rounding of floating point numbers and memory ordering of the atomics, which use the sequentially consistent default.
- Command line, configuration parsing and the printers that check the sort order of levels.
