# A verified model of the exchange

The repository is a small electronic exchange in C++. Clients send orders over TCP to an order gateway;
a sequencer orders them by receive time; a matching engine keeps one limit order book per ticker and emits
client responses and market updates; a publisher numbers the updates and sends them out; a snapshot
synthesizer keeps a mirror of the books and now and then sends a whole snapshot; a consumer on the trading
side rebuilds the stream over a lossy network. The components talk through lock-free queues and take their
nodes from memory pools.

This project models that pipeline and proves what it is for: **whatever the network loses, repeats or
reorders, as long as it does not mix two snapshot rounds, a subscriber that is not in recovery holds exactly the
orders that rest in the books, and can rebuild every queue in price-time order** (`EndToEnd.SubscriberFollows`,
`EndToEnd.SubscriberRebuilds`; `EndToEnd.Delivery` says what keeps rounds apart).
`Exchange.Run` composes the objects in memory, from requests to engine, queue, publisher and synthesizer, and on to a
subscriber that reads bytes and messages taken from what those two sent. `ResponseRouting.Respond` goes back from the
engine to the clients. The theorem rests on one result per layer.

| layer | files | main results |
|---|---|---|
| price-time book, on values | `PriceTime`, `PriceTimeInvariant`, `PriceTimeLaws`, `OrderLife`, `MessageLaws` | invariant of every request, closed form of matching, what every message says field by field, conservation and order lifecycle over whole runs |
| the book in memory | `Ring`, `MemPool`, `BookMemory`, `BookAbstraction`, `BookSteps`, `BookResting`, `BookCapacity`, `BookPriority`, `OrderBook`, `BookConditions` | the linked, indexed, pooled book refines the simple one; exactly when it does, and exactly when it survives |
| the engine | `MatchingEngine` | whole runs over all tickers refine the simple engine and end exactly where it says |
| market data, exchange side | `MarketData`, `MirrorAgreement`, `MirrorCapacity`, `MirrorConditions`, `SnapshotOrder`, `MarketDataWire`, `UpdateWidths`, `MarketDataPublisher`, `SnapshotSynthesizer` | the mirror agrees with the books, exactly when its pool lasts, snapshots round-trip and preserve queue order |
| market data, subscriber side | `MarketDataConsumer`, `ConsumerSafety`, `ConsumerProgress`, `ConsumerMixing`, `MarketDataDelivery` | safety of the recovery protocol, progress, and what fails without its conditions |
| queues | `Modulo`, `LFQueue` | every interleaving of one producer and one consumer |
| the gateway | `WireFormat`, `Gateway`, `FIFOSequencer`, `SequencerRounds`, `OrderServer`, `ResponseRouting` | framing independent of reads, exact admission per client, exactly when order survives the sequencer, responses that can always be sent |
| everything together | `EndToEnd`, `Exchange` | requests to subscribers, as streams and as objects |

## How it is built

Each component appears twice where the program changes state: as functions on values, about which the
properties are proved, and as a class with the program's own fields whose methods are proved equal to those
functions. Pointers are pool indices (`-1` for null); the pools, tables and links of a book are fields.
A failed `ASSERT`, a `FATAL`, or an `at` out of bounds ends the program; a method then returns `ok == false`.
Lemmas turn Dafny's automatic induction off, so that the proof of each is its body.

A type `Code` (and, for the consumer, `Rules`) says which text of the program a model runs. `AsWritten` is the
repository's; `Repaired` is what its comments and its own sanity check describe. Both are proved about:

- `exchange/matcher/me_order_book.h:130-137`: any level put in front of another is taken for the new best one,
  and the bid side is entered even for an ask. The comment at line 134 and the order check in
  `exchange/matcher/me_order_book.cpp:251-255` say otherwise. `OrderBook.MEOrderBook.AddOrdersAtPrice` states
  for both texts exactly when a book remains, and `BookConditions` gives the inputs that lose it.
- `exchange/matcher/me_order_book.h:180` and `exchange/matcher/me_order_book.cpp:97` pass the order id as a
  32-bit `Qty`. `BookConditions.TruncatedIdExactly` says when that is harmless.
- Neither text checks that `price % 256` is free or holds that price
  (`exchange/matcher/me_order_book.h:79`, `:212`), nor that the client's id is free (`:231`). `BookResting.Restable` is the
  exact condition; a window of 256 prices meets the first part (`BookConditions.WindowMayRest`).
- `trading/market_data/market_data_consumer.cpp:58-61`: START and END are numbered but not counted, so no
  snapshot is ever complete. `ConsumerProgress.AsWrittenExactly` says what the consumer then does over whole runs.
  Counting every message repairs it; `ConsumerMixing.MixedRoundsPass` shows that START and END must match as well.
- `exchange/order_server/fifo_sequencer.h:47`: the buffer is declared empty inside the publishing loop, so one
  request goes out and the others are lost, against `workflow.txt:37-40`
  (`FIFOSequencer.NothingLostExactly`). And `std::sort` promises no order of equal times, which all requests of
  one read share (`FIFOSequencer.OrderSurvivesExactly`). As each socket is read once in a round, two different requests
  that a client sends in one round may change places, and only those (`SequencerRounds.DeliveredExactly`,
  `SequencerRounds.TwoInOneRead`).
- `exchange/market_data/snapshot_synthesizer.cpp:7`: the mirror of all tickers has one pool, of the size that every book
  has to itself. `MirrorCapacity.MirrorLastsExactly` says which runs the synthesizer outlives, and
  `MirrorConditions.SharedPoolRunsOut` gives a run that the books outlive and the synthesizer does not.
- `exchange/market_data/market_data_publisher.cpp:20`: the size sent is a pointer's, not the update's.
  `MarketDataWire.ArrivesExactly` says what a consumer can then read.
- `exchange/market_data/market_data_publisher.cpp:22,28`: the slot is read after it was released.
  `LFQueue.CountMeansLess` says what that costs, and `LFQueue.PublisherSpoils` spoils an update while the count is
  below the capacity.

## Model

| member | source | states |
|---|---|---|
| Ring.RingInsert | exchange/matcher/me_order_book.h:115-128 | four link writes put one node at any place of a circular doubly linked list, both directions, nothing else moved |
| Ring.RingRemove | exchange/matcher/me_order_book.h:154-155 | two link writes take any node out and leave a ring of the others |
| MemPool.MemPool.Allocate | common/mem_pool.h:23-31 | hands out the free block it points to, and ends the program exactly when no other block is free |
| MemPool.MemPool.UpdateNextFreeIndex | common/mem_pool.h:49-61 | the circular probe terminates, stops on a free block when there is one, and fails exactly when there is none |
| MemPool.ProbeFirst | common/mem_pool.h:49-61 | the block it stops on is the first free one going round, and none is free if there is none |
| MemPool.MemPool.Deallocate | common/mem_pool.h:33-40 | frees exactly the given block, and fails exactly for a block outside the pool or already free |
| MemPool.RunSound | common/mem_pool.h:23-61 | over every run of allocations and releases no live block is handed out, the pointer stays on a free block, and the run survives if and only if each step was allowed |
| PriceTimeInvariant.ProcessWF | exchange/matcher/me_order_book.cpp:129-216 | every request keeps the book sorted price-time, positive, uniquely numbered and uncrossed: best bid below best ask |
| PriceTimeLaws.RunWF | exchange/matcher/me_order_book.cpp:129-216 | so does every run of requests with proper sides in which no client reuses a live id |
| PriceTimeInvariant.MatchedQueue | exchange/matcher/me_order_book.cpp:97-127 | what survives matching is still in order, and while quantity is left every price in it is strictly beyond the limit |
| PriceTimeInvariant.CancelExact | exchange/matcher/me_order_book.cpp:167-216 | a cancel is rejected exactly when the client has no such order resting; otherwise that order, and no other, leaves |
| PriceTimeLaws.MatchLeaves | exchange/matcher/me_order_book.cpp:97-127 | what is left after matching is the quantity beyond all that is priced within the limit: at most it for a buyer, at least it for a seller |
| PriceTimeLaws.MatchClosedForm | exchange/matcher/me_order_book.cpp:19-127 | every fill, remainder and message of a match, by position: the front orders are taken in strict priority and each gives all it has before the next |
| PriceTimeLaws.FillPrices | exchange/matcher/me_order_book.cpp:97-127 | fill prices are within the limit and never improve from one to the next, compared as numbers; at one price the older order is filled first |
| PriceTimeLaws.Conservation | exchange/matcher/me_order_book.cpp:19-215 | over every run and per side: quantity resting before and accepted equals quantity resting, traded and cancelled |
| OrderLife.MatchLife | exchange/matcher/me_order_book.cpp:19-95 | each fill lowers the open quantity of taker and maker by exactly what it reports, never below zero, within both limits |
| OrderLife.Lifecycle | exchange/matcher/me_order_book.cpp:29-216 | over every run an id is accepted once and first, its leaves fall strictly, it never trades above its limit as a buyer or below it as a seller, at most one cancel follows, nothing comes after, every response names the client, order id and side that were accepted, and the open quantity is what rests in the book |
| OrderLife.OrderAddsUp | exchange/matcher/me_order_book.cpp:19-216 | over every run and for every id given out: the quantity accepted is what was executed, cancelled and still rests |
| MessageLaws.QueueOrder | exchange/matcher/me_order_book.h:90-113 | as numbers: bids fall, asks rise, and at one price ids and priorities rise |
| MessageLaws.MatchSays | exchange/matcher/me_order_book.cpp:19-127 | every field of the four messages of every fill: all name the resting order's price, which is within the limit, three the same quantity, and each its own order, client, side and what is left; while quantity is left, every price left is strictly beyond the limit |
| MessageLaws.AddSays | exchange/matcher/me_order_book.cpp:129-165 | every field of the acknowledgement and of the one announcement, whose priority is one above the highest at its price, or 1 |
| MessageLaws.CancelSays | exchange/matcher/me_order_book.cpp:167-216 | every field of a cancel's response and update, and of a rejection, which is sent exactly when no such order rests |
| BookMemory.LinkLevel | exchange/matcher/me_order_book.h:77-140 | linking a level at its sorted place keeps the whole linked structure of both sides |
| BookMemory.FirstNotBetter | exchange/matcher/me_order_book.h:90-113 | a place before which all prices are better and at which none is, is the one sorted place of a price |
| BookMemory.MisplacedBest | exchange/matcher/me_order_book.h:130-137 | a bid entry point on an ask level, or behind a better bid, belongs to no book |
| BookSteps.LevelLoose | exchange/matcher/me_order_book.h:143-167 | unlinking a level with its last order removes exactly that order from the queues |
| BookSteps.OrderLoose | exchange/matcher/me_order_book.h:190-203 | unlinking an order inside a level removes exactly that order and keeps the order of the rest |
| BookSteps.FrontLowered | exchange/matcher/me_order_book.cpp:21-27 | lowering the first order's quantity in memory lowers the front of the queue and nothing else |
| BookResting.FoundByKey | exchange/matcher/me_order_book.cpp:169-176 | the client table finds in one step exactly what searching both queues finds |
| BookResting.PlacesAgree | exchange/matcher/me_order_book.h:130-137 | whether the program links a level safely can be read off the prices that rest on its side |
| BookResting.RestOutcome | exchange/matcher/me_order_book.h:211-232 | after a remainder is rested, the memory is the book with it inserted if the order may rest there, and otherwise no book at all |
| BookCapacity.FreeExactly | common/mem_pool.h:49-61 | a pool has a free block if and only if fewer blocks are used than it has |
| BookCapacity.OrderLeft | exchange/matcher/me_order_book.cpp:150 | once the next order block is taken another is free if and only if both queues together leave one |
| BookCapacity.LevelLeft | exchange/matcher/me_order_book.h:218 | the same for level blocks, one for each different price that rests |
| BookCapacity.PlaceExactly | exchange/matcher/me_order_book.h:211-232 | whether an order finds its place in the client table and the pools can be read off the queues before the call |
| BookPriority.LevelSlot | exchange/matcher/me_order_book.h:169-176 | the last order of the level in a price's slot is the last order in that slot of both queues together, whatever its price and side |
| OrderBook.MEOrderBook.SeekLevel | exchange/matcher/me_order_book.h:91-113 | the walk along a circular list terminates and stops at the sorted place, in every case of an empty, single or wrapped list |
| OrderBook.MEOrderBook.AddOrdersAtPrice | exchange/matcher/me_order_book.h:77-140 | the level is linked at its sorted place and the entry point changes only for a new best, if and only if the text in use links safely there; otherwise no reading of the memory is a book, and the links and entry points that are left are stated |
| OrderBook.MEOrderBook.RemoveOrdersAtPrice | exchange/matcher/me_order_book.h:143-167 | takes the level out of its side and of the price table, moves the entry point on if it was the best, and frees its block |
| OrderBook.MEOrderBook.RemoveOrder | exchange/matcher/me_order_book.h:183-208 | the order leaves its queue, the client table and the pool; every other order keeps its place |
| OrderBook.MEOrderBook.AddOrder | exchange/matcher/me_order_book.h:211-232 | the order ends in its queue where price-time priority puts it exactly when the order may rest; failure exactly when its ids lie outside the client table or no level block is left free |
| OrderBook.MEOrderBook.GetNextPriority | exchange/matcher/me_order_book.h:169-176 | one more than the last priority in the price's slot, or one; that is the last priority at the price if the slot is fit for it |
| OrderBook.MEOrderBook.MatchOrder | exchange/matcher/me_order_book.cpp:19-95 | one fill: responses, updates, both quantities and the removal of a filled order, in the program's order |
| OrderBook.MEOrderBook.CheckForMatch | exchange/matcher/me_order_book.cpp:97-127 | the matching loop terminates with the queue, leaves, responses and updates of the simple match |
| OrderBook.MEOrderBook.Add | exchange/matcher/me_order_book.cpp:129-165 | survives exactly when nothing is left or the remainder finds its place; responses and updates are stated in every case: acknowledgement, fills, and one announcement if the program goes on with a remainder; the book is that of the simple add if the remainder may rest, and otherwise no book is left |
| OrderBook.MEOrderBook.Cancel | exchange/matcher/me_order_book.cpp:167-216 | constant-time cancel equals the cancel by linear search, with the same messages in the same order; ends the program exactly for an order id of a known client outside the client table |
| BookConditions.WindowHasNoCollision | exchange/matcher/me_order_book.h:68-74 | in a window of 256 prices, negative ones included, two prices share a slot only if they are equal |
| BookConditions.SlotsCollideExactly | exchange/matcher/me_order_book.h:68-70 | two prices, negative ones included, share a slot if and only if they are a multiple of 256 apart |
| BookConditions.WindowMayRest | exchange/matcher/me_order_book.h:72-79 | one price table for both sides is sound: within such a window every remainder with a free client id may rest |
| BookConditions.AloneIsReached | exchange/matcher/me_order_book.cpp:129-165 | a book of one order, as in the next rows, is what one request makes of the empty book |
| BookConditions.NewBestAskIsLost | exchange/matcher/me_order_book.h:130-137 | as written a new best ask loses the book; a new best bid does not, and repaired neither does |
| BookConditions.MiddleBidIsLost | exchange/matcher/me_order_book.h:130-137 | as written a bid level between two others loses the book |
| BookConditions.CollidingPricesAreMixed | exchange/matcher/me_order_book.h:68-79 | prices 256 apart may not both rest, even repaired |
| BookConditions.TruncatedIdExactly | exchange/matcher/me_order_book.cpp:97-111 | the 32-bit id reports what the full id would if and only if it fits or the first turn of the matching loop is not entered |
| BookConditions.ReportedBits | exchange/matcher/me_order_book.cpp:97 | as written, fills report the lowest 32 bits of the id |
| MatchingEngine.MatchingEngine.ProcessClientRequest | exchange/matcher/matching_engine.h:34-52 | survives exactly when the request is valid and finds its place in its ticker's book; what it sends is stated in every case, and no other book changes; where the remainder may rest, its own book becomes the simple engine's |
| MatchingEngine.MatchingEngine.Run | exchange/matcher/matching_engine.h:71-81 | over every run whose orders may rest: it processes exactly as many requests as the simple engine survives, with all books and both outgoing queues the simple engine's; where a request ends it, everything sent up to that point |
| MatchingEngine.CutShort | exchange/matcher/matching_engine.h:34-52 | how far a run gets is where the first request that does not survive meets the books that the ones before it left |
| MarketData.ReplayIsFold | exchange/market_data/snapshot_synthesizer.cpp:29-81 | a subscriber that replays the books' updates reaches the mirror's state |
| MarketData.SnapshotRoundTrip | exchange/market_data/snapshot_synthesizer.cpp:83-129 | replaying a published snapshot from any prior state reproduces the mirror exactly |
| MessageLaws.RoundSays | exchange/market_data/snapshot_synthesizer.cpp:86-125 | a round is framed by START and END, both naming the last update folded |
| MirrorAgreement.AddShown | exchange/market_data/snapshot_synthesizer.cpp:29-81 | folding what an add emits turns the mirror of the old book into the mirror of the new one, no bounds check or assertion about an order failing (the pool is in the rows of `MirrorCapacity`) |
| MirrorAgreement.CancelShown | exchange/market_data/snapshot_synthesizer.cpp:57-68 | the same for a cancel |
| MirrorAgreement.MirrorFollows | exchange/market_data/snapshot_synthesizer.cpp:29-81 | over every run of every book, the fold of all updates is exactly the resting orders, and no bounds check or assertion about an order fails |
| MessageLaws.MirrorShows | exchange/market_data/snapshot_synthesizer.cpp:35-68 | an agreeing mirror shows every resting order under its ticker and id with its side, price, quantity and priority, and nothing else |
| MessageLaws.FoldSays | exchange/market_data/snapshot_synthesizer.cpp:33-76 | for each kind of update: which bounds and assertions about an order can fail, and which fields of which order change |
| MirrorCapacity.MirrorSize | exchange/market_data/snapshot_synthesizer.cpp:36-43 | a mirror that agrees with the books holds as many orders as rest in all books together |
| MirrorCapacity.StepLasts | exchange/market_data/snapshot_synthesizer.cpp:36-43 | the synthesizer outlives a request if and only if fewer orders than its pool has blocks rest after it |
| MirrorCapacity.MirrorLastsExactly | exchange/market_data/snapshot_synthesizer.cpp:29-81 | over every run: no assertion of the synthesizer fails, its pool included, if and only if never as many orders rest in all books together as its pool has blocks |
| MirrorConditions.SharedPoolRunsOut | exchange/market_data/snapshot_synthesizer.cpp:7 | for every pool size, the program's own included, a run over two tickers that all books outlive and the synthesizer does not |
| SnapshotOrder.QueuesRebuilt | exchange/market_data/snapshot_synthesizer.cpp:107-116 | inserting a snapshot row by price, in the order of ids in which it is sent, rebuilds each side in exact price-time order |
| SnapshotOrder.OnlyOneOrder | exchange/matcher/me_order_book.h:63-65 | because ids and priorities rise together, the same orders sorted are the same queue |
| MarketDataPublisher.Publisher.Drain | exchange/market_data/market_data_publisher.cpp:14-33 | empties the queue of outgoing updates: each is read for the subscribers, then released and read for the synthesizer in the order of the text in use; both channels get the same updates under the same consecutive numbers, the incremental one as many bytes of each as that text sends |
| MarketDataWire.UpdateRoundTrip | exchange/market_data/market_update.h:49-62 | the packed 34-byte update decodes to what was encoded, for every representable update |
| MarketDataWire.UpdateLayout | exchange/market_data/market_update.h:16-62 | each field of an update by its byte offset, width and codes |
| MarketDataWire.MessageLayout | exchange/market_data/market_update.h:81-83 | each message of a channel by its place in the bytes: the number in 8, then the update in 34 |
| MarketDataWire.BytesSent | exchange/market_data/market_data_publisher.cpp:19-20 | as written, 16 bytes are sent of each message of 42 |
| MarketDataWire.ArrivesExactly | exchange/market_data/market_data_publisher.cpp:19-20 | a consumer reads what was published if and only if whole updates are sent, or none |
| UpdateWidths.RunFits | exchange/market_data/market_update.h:49-62 | over every run, requests that fit their fields cause updates that fit theirs |
| SnapshotSynthesizer.SnapshotSynthesizer.AddToSnapshot | exchange/market_data/snapshot_synthesizer.cpp:29-81 | changes pointers, pool and blocks so that the mirror is what the fold says; survives if and only if the fold is defined, a new order does not take the last block, and the number is the next one |
| SnapshotSynthesizer.SnapshotSynthesizer.PublishSnapshot | exchange/market_data/snapshot_synthesizer.cpp:83-129 | sends exactly one round of the mirror, numbered from 0, between START and END that name the last update |
| SnapshotSynthesizer.SnapshotSynthesizer.Turn | exchange/market_data/snapshot_synthesizer.cpp:131-145 | folds all that is pending, then publishes if due; survives exactly when the numbers have no gap and the mirror, its pool included, outlives the updates |
| SnapshotSynthesizer.BlockLeft | common/mem_pool.h:49-61 | once the next block is taken for an order another is free if and only if the mirror's orders leave one |
| MarketDataConsumer.MarketDataConsumer.CheckSnapshotSync | trading/market_data/market_data_consumer.cpp:34-117 | the two scans over the ordered maps judge and deliver as the recovery rules on values say |
| MarketDataConsumer.MarketDataConsumer.QueueMessage | trading/market_data/market_data_consumer.cpp:119-131 | a repeated snapshot number restarts the queue, an incremental replaces its number, then the queue is judged |
| MarketDataConsumer.MarketDataConsumer.RecvCallback | trading/market_data/market_data_consumer.cpp:133-167 | one read of either channel takes the state where the recovery rules take it |
| ConsumerSafety.QueueKeptThroughout | trading/market_data/market_data_consumer.cpp:34-131 | for any messages, between messages the snapshot queue is empty or a prefix 0..k that begins with START and holds no END |
| ConsumerSafety.Recovers | trading/market_data/market_data_consumer.cpp:76-116 | a whole round followed by gapless incrementals brings any subscriber to the exchange's state |
| ConsumerSafety.ReceiveSafe | trading/market_data/market_data_consumer.cpp:133-167 | every single message, of either channel, keeps the safety invariant, if it belongs to the queued round wherever it would continue it, or if rounds arrive in order and START must match END |
| ConsumerSafety.ConsumerIsSafe | trading/market_data/market_data_consumer.cpp:26-167 | over every run of lost, repeated and reordered messages in which either guard holds: not in recovery, the deliveries replay to the exchange's state after `next - 1` updates; in recovery, to some state the exchange was in |
| ConsumerSafety.MatchingIsSafe | trading/market_data/market_data_consumer.cpp:70-78 | where START and END must name the same update, the same safety holds of every run whose rounds arrive in order, mixed or not |
| ConsumerProgress.StuckForGood | trading/market_data/market_data_consumer.cpp:51-68 | as written, for any messages, a consumer in recovery never leaves it and delivers nothing more |
| ConsumerProgress.AsWrittenExactly | trading/market_data/market_data_consumer.cpp:133-163 | as written, over every run: delivered is the stretch of incrementals before the first out of place, and recovery is avoided if and only if all came once and in order |
| ConsumerProgress.AsWrittenIsSafe | trading/market_data/market_data_consumer.cpp:26-167 | as written, safety holds of every run, without any condition on rounds |
| ConsumerProgress.TailExactly | trading/market_data/market_data_consumer.cpp:80-96 | queued incrementals complete a recovery if and only if no number from the snapshot's on is missing, and which number is then next |
| ConsumerProgress.TailStops | trading/market_data/market_data_consumer.cpp:80-96 | complete or not, the consumer then waits for the first number from the snapshot's on that is not queued |
| ConsumerProgress.RoundRecovers | trading/market_data/market_data_consumer.cpp:19-131 | a whole round in order, cut into reads and interleaved with incrementals anyhow, whatever was queued before, ends recovery if and only if the incrementals queued when END arrives have no gap behind the round, with the right next number and deliveries; otherwise they are kept |
| ConsumerProgress.GoesBackExactly | trading/market_data/market_data_consumer.cpp:80-116 | a round that ends recovery moves the consumer backwards if and only if it expected a later update than the one behind the round, and later ones than all it has queued |
| ConsumerProgress.StaleRoundGoesBack | trading/market_data/market_data_consumer.cpp:80-116 | it happens in every feed of two updates: one of them repeated, then a stale round |
| ConsumerMixing.MixedRoundsPass | trading/market_data/market_data_consumer.cpp:70-78 | without matching START and END, two rounds mix into a state the exchange never had |
| ConsumerMixing.LateOldRoundPasses | trading/market_data/market_data_consumer.cpp:119-125 | with it, an older round arriving around a newer one still mixes, so one of the two guards must be assumed |
| MarketDataDelivery.HeardGenuine | trading/market_data/market_data_consumer.cpp:133-167 | where whole updates are sent, reading anything taken from the bytes and messages of the two channels is reading genuine messages |
| MarketDataDelivery.OneRoundUnmixed | trading/market_data/market_data_consumer.cpp:119-131 | whatever arrives of one round only is never mixed |
| MarketDataDelivery.LosslessInStep | trading/market_data/market_data_consumer.cpp:133-167 | a consumer that misses no update is in step in the end, whatever it reads of the snapshots |
| Modulo.PlaceIsRemainder | common/lf_queue.h:27 | the place of an element in the ring, computed without division, is the remainder that the queue computes |
| LFQueue.StepKeeps | common/lf_queue.h:21-41 | every atomic step of either side keeps the queue invariant, given room to write |
| LFQueue.StartExactly | common/lf_queue.h:21-24 | starting a write keeps the invariant if and only if there is room |
| LFQueue.WriteExactly | common/lf_queue.h:21-41 | in either discipline and whatever the consumer is doing: there is room if and only if, after the write is started, every possible interleaving stays linear |
| LFQueue.AllInterleavings | common/lf_queue.h:21-45 | in every interleaving what is consumed is a whole prefix of what was published, no slot is copied while written, and indexes and count agree up to half-finished steps |
| LFQueue.PointedStays | exchange/market_data/market_data_publisher.cpp:14-20 | while a consumer points to a slot, no step of the producer changes it |
| LFQueue.CountMeansRoom | common/lf_queue.h:43-45 | a consumer that copies before it releases: a count below capacity means room |
| LFQueue.CountMeansLess | exchange/market_data/market_data_publisher.cpp:20-29 | a consumer that releases before it copies: there is room exactly when the count leaves one slot more while a copy is outstanding |
| LFQueue.PublisherSpoils | exchange/market_data/market_data_publisher.cpp:14-29 | with any capacity, the publisher's release before its copy reaches a state in which the count is below the capacity and one more write tears the element that is being copied |
| LFQueue.OverfullLoses | common/lf_queue.h:21-29 | with a full ring, one more write makes the consumer get the new value instead of the due one |
| LFQueue.LFQueue.Write | common/lf_queue.h:21-24 | fills the next slot, also of a full ring; the queue stays valid if and only if there was room |
| LFQueue.LFQueue.UpdateWriteIndex | common/lf_queue.h:26-29 | publishes it in two steps: the index, then the count |
| LFQueue.LFQueue.GetNextToRead | common/lf_queue.h:31-35 | points to the next slot to read, copying nothing; points nowhere exactly when the count is zero |
| LFQueue.LFQueue.Peek | exchange/market_data/market_data_publisher.cpp:20 | reads the element behind the pointer before its release; in a valid queue it is the oldest unread one |
| LFQueue.LFQueue.Copy | exchange/market_data/market_data_publisher.cpp:28 | reads the element behind the pointer, before or after its release; in a valid queue it is the oldest unread one |
| LFQueue.LFQueue.UpdateReadIndex | common/lf_queue.h:37-41 | releases it in two steps; the assertion holds |
| WireFormat.WireRoundTrip | exchange/order_server/client_request.h:29-71 | the packed 38-byte request decodes to what was encoded, for every representable request |
| WireFormat.FrameLayout | exchange/order_server/client_request.h:12-59 | each field of a frame by its byte offset and width, low byte first, the sign of the price and the codes of type and side |
| Gateway.FramesInPieces | exchange/order_server/order_server.h:54-85 | a buffer read in two pieces gives the same frames and the same leftover |
| Gateway.FramingIndependent | exchange/order_server/order_server.h:54-85 | for any reads of any sockets, the frames of a socket are those of its whole stream |
| Gateway.InSequenceExactly | exchange/order_server/order_server.h:72-79 | a number is accepted if and only if some frame carries it when exactly the numbers below it have been accepted |
| Gateway.OneMoreRead | exchange/order_server/order_server.h:52-86 | a read after others admits exactly the frames it completes and leaves the rest for the next one |
| Gateway.ForwardedExactly | exchange/order_server/order_server.h:52-86 | over any interleaving of reads, what is forwarded for a client is what its bound socket's stream holds in sequence 1, 2, 3 and so on |
| Gateway.ForwardedOnly | exchange/order_server/order_server.h:52-86 | a client named by the frames of one socket only is forwarded exactly what that socket's stream holds in sequence |
| Gateway.BoundToFirst | exchange/order_server/order_server.h:61-70 | a client is bound for good to the socket of the first frame that names it, whatever its number |
| Gateway.ChunkingIndependent | exchange/order_server/order_server.h:52-86 | the same streams cut and interleaved otherwise forward the same requests of a client whom one socket's frames name |
| Gateway.DeliveredInOrder | exchange/order_server/fifo_sequencer.h:29-49 | through the repaired sequencer, whatever its sort does with ties, the engine gets a client's requests once each and in sequence, given distinct times in each round |
| FIFOSequencer.OrderSurvivesExactly | exchange/order_server/fifo_sequencer.h:36 | a client's order survives every outcome of the sort if and only if its requests wait by time and no two different ones share a time |
| FIFOSequencer.NothingLostExactly | exchange/order_server/fifo_sequencer.h:38-48 | as written everything is published if and only if at most one request waits; repaired always |
| FIFOSequencer.EarliestOnly | exchange/order_server/fifo_sequencer.h:38-48 | as written, the request with the earliest time is published, and no other |
| SequencerRounds.RoundOneTime | common/tcp_server.cpp:31-46 | in a round, which reads no socket twice, all that is forwarded for one client has one receive time |
| SequencerRounds.DeliveredExactly | exchange/order_server/fifo_sequencer.h:29-49 | over all rounds of reads: a client's forwarded requests reach the engine in order under every outcome of the sort if and only if no round forwards two different ones of it |
| SequencerRounds.TwoInOneRead | exchange/order_server/order_server.h:54-81 | any two different requests of a client in one read may change places |
| FIFOSequencer.FIFOSequencer.AddClientRequest | exchange/order_server/fifo_sequencer.h:22-27 | keeps the request behind the others, and ends the program exactly when the buffer is full |
| FIFOSequencer.FIFOSequencer.SequenceAndPublish | exchange/order_server/fifo_sequencer.h:29-49 | publishes a permutation by receive time (as written, only its first) and empties the buffer |
| OrderServer.TCPSocket.Compact | exchange/order_server/order_server.h:83-84 | the leftover moves to the front, from a place that does not overlap |
| OrderServer.OrderServer.HandleFrame | exchange/order_server/order_server.h:61-81 | one frame is bound, filtered and forwarded as the gate on values says; fails exactly when the sequencer is full |
| OrderServer.OrderServer.RecvCallback | exchange/order_server/order_server.h:52-86 | a read admits all whole frames and keeps what is left; it survives if and only if all clients are known and the sequencer has room |
| OrderServer.OrderServer.SendResponses | exchange/order_server/order_server.h:34-48 | every response goes to its client's socket under the client's next number, and the next turn goes on from there; fails exactly for a client without a socket |
| OrderServer.StampedPerClient | exchange/order_server/order_server.h:36-47 | each client sees all its responses of a turn under consecutive numbers |
| OrderServer.NumbersExactly | exchange/order_server/order_server.h:37-47 | a client's next number goes up by one for each of its responses, and for no other |
| OrderServer.StampedOverTurns | exchange/order_server/order_server.h:26-48 | over any number of turns of the loop, each client sees all its responses under consecutive numbers |
| OrderServer.NumberedFromOne | exchange/order_server/order_server.h:26-48 | from the start of the server: the k-th response to a client carries number k |
| OrderServer.OrderServer.SendInTurns | exchange/order_server/order_server.h:26-48 | turns one after another send what those laws speak of |
| ResponseRouting.ResponsesBound | exchange/order_server/order_server.h:58-81 | over every run from empty books, every response to requests that came through the gate names a client that is bound to a socket |
| ResponseRouting.Respond | exchange/order_server/order_server.h:34-48 | so the assertion on the client's socket holds: all such responses are sent |
| ResponseRouting.RespondInTurns | exchange/order_server/order_server.h:26-48 | and so does any number of turns, each going on from the numbers that the last one left |
| EndToEnd.MayRestIsAccepted | exchange/matcher/matching_engine.h:71-81 | the part of a run that the books in memory survive is one that the simple books accept |
| EndToEnd.FeedFollows | exchange/market_data/market_data_publisher.cpp:11-37 | after any number of requests, the updates sent so far stand for exactly the resting orders |
| EndToEnd.ChannelsAreGenuine | exchange/market_data/snapshot_synthesizer.cpp:83-145 | what publisher and synthesizer send is what the consumer's theorem calls genuine |
| EndToEnd.SubscriberFollows | trading/market_data/market_data_consumer.cpp:133-167 | in every text of the consumer: a subscriber that is not in recovery and has heard the first k requests holds exactly the orders then resting |
| EndToEnd.SubscriberRebuilds | trading/market_data/market_data_consumer.cpp:133-167 | and rebuilds every queue of every book in price-time order |
| Exchange.Publish | exchange/exchange_main.cpp:37-53 | engine, queue, publisher and synthesizer as objects: the run succeeds exactly when the simple engine survives it and never as many orders rest as the synthesizer's pool has blocks; both channels then carry its numbered updates and one round of its books |
| Exchange.Run | trading/market_data/market_data_consumer.cpp:18-167 | and a subscriber that reads anything taken from those two channels, as long as the publisher sends whole updates, holds exactly the orders that rested after as many requests as it has heard of, which are all if it misses none |

## Left out

- Sockets, epoll, multicast membership, partial sends and timestamps: operating-system input and output. The
  channels are sequences of byte chunks or messages.
- Threads, sleeps, signals, logging and the `toString` functions. Only the interleaving of queue steps is modelled.
- The publisher never starts the synthesizer; the model assumes that it runs.
- How the bytes of a multicast channel fall into datagrams: a read of the incremental channel gets the bytes of any
  messages in any order, and bytes behind the last whole message are dropped.
- The book's tables start null; the constructor does not initialise them (`exchange/matcher/me_order_book.h:40,49`).
- The hash maps of a book and the stores of all pools are maps and sequences held in fields, not arrays; the free flags
  are arrays. The consumer's ordered maps are ascending sequences.
- The two loops of `checkForMatch` differ only in the side they name; the model has one loop with the side as a
  parameter.
- Field widths, except the narrowing of an order id to `Qty` and the wire format. Quantities never underflow
  (`OrderLife.MatchLife`); overflow of 64-bit ids, priorities and sequence numbers is not modelled.
- The mirror's dimensions and pool size are parameters; `exchange/market_data/snapshot_synthesizer.h:54` uses the number
  of order ids for both dimensions.
- The capacity of the outgoing queues: the engine's, publisher's and consumer's outputs are sequences that grow.
  What happens when a queue is overfull is in `LFQueue`.
- The hardware memory model: each atomic operation is one step in one order of all steps.
- The trading side's own order book is a stub in the repository; `MarketData.Replay` and `SnapshotOrder.Rebuild`
  stand in for it.
- A client id outside the gateway's arrays is undefined behaviour there; the model ends the program.
- ConsumerSafety.ConsumerIsSafe: asks for one guard against mixed rounds. `ConsumerMixing.MixedRoundsPass` shows that without any the claim fails where START and END are not compared, `ConsumerMixing.LateOldRoundPasses` that it fails where they are. As written the consumer needs none (`ConsumerProgress.AsWrittenIsSafe`).
- Gateway.DeliveredInOrder: needs distinct receive times per client and round; `SequencerRounds.DeliveredExactly` has the exact condition in terms of reads.
- Exchange.Run: one round of requests, one drain and one turn of the synthesizer one after another, with a queue wide enough for the run; interleavings of queue steps are in `LFQueue.AllInterleavings`, many rounds in `EndToEnd.SubscriberFollows`. Of a publisher as written it says what is sent, and nothing of what a subscriber makes of it (`MarketDataWire.ArrivesExactly`).
