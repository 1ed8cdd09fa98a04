# NanoExchange: a verified model

NanoExchange is an exchange pipeline. A gateway frames OUCH messages and puts them in time order; a
matching engine keeps one limit order book per ticker; a publisher numbers and encodes every public
update; a snapshot streamer keeps a shadow book, a replay ring and a cached snapshot for recovering
clients. This project models those parts and proves what they keep, separately and together.

`dafny verify dfyconfig.toml` checks everything.

## How it is organised

**One reference book, three concrete ones.** `PriceTime` defines the book as two lists of resting orders
in priority order, and one step of it for add, cancel and replace, with every emitted message. Three
classes refine it, each with its own heap structure:

- `MapBook.Book`: sorted maps of price levels, each level a doubly linked FIFO of pooled orders, with a
  (client, order id) index. `OrderStore` holds the linked lists, the pool and the index; `MapLevels` the maps.
- `VectorBook.Book`: a dense level array whose occupied levels form a sorted doubly linked list behind cached
  best pointers (`VectorLevels`).
- `BitmapBook.Book`: directly indexed levels, 64-bit occupancy words and bit scans (`Bits`, `Bitmap`).

Every operation of a class is proved to have exactly the effect of the reference step on the book, the match
counter and the messages. `MatchingEngine` does the same for whole engines and whole request queues.

**What each request is owed** is stated apart from the reference steps, field by field of the request and of the
book it meets (`Promises`, `RequestPromises`), and over runs by the client a message goes to (`Ownership`).

**Theorems about every run** are then proved of the reference engine (`EngineRun`) and hold of all three
forms: strict price-time order and no crossed book (`BookInvariants`), what matching takes from whom
(`Greedy`), agreement of the two production books (`Equivalence`), match ids (`MatchIds`), conservation
(`Conservation`), agreement with the shadow book (`ShadowBook`, `ShadowAgreement`, `ShadowCover`, `ShadowGaps`,
`ShadowLeftovers`, `Priority`).
What is said of either engine holds of the vector engine on the runs it can take: those in which no order
priced at 256000 or more comes to rest (`EngineRun.IndexableRun`).

**Market data and recovery**: `Itch`, `Publisher`, `Streamer`; `MarketFeed` joins publisher and streamer on
one run, and `Recovery` and `RecoveryRuns` say what a client that only sees frames can know.

**Gateway**: `Framing`, `Tokens`, `SessionPromises`, `Sequencer`, `OrderServer`.

**The whole pipeline**: `Pipeline` is a step system over bounded queues with an invariant, freedom from
deadlock and draining of every fair run; `Exchange` joins it to the sessions, books and shadow books.

## Where the code does less than its documentation says

- The repository's README.md says that both books have identical semantics (lines 93-95). They hold the same
  orders and produce the same fills, but three outputs differ: the vector book's TRADE carries no match id, its
  CANCELED response reports what is left instead of what was canceled, and it does not announce the dropped
  remainder of a fill-and-kill replacement. `Equivalence.RunIdentical` says exactly on which runs every message is
  the same, by a condition on each request and the book it meets; `Equivalence.RunAgrees` does so with the first two
  differences erased; `Counterexamples` has a run for each of the three.
- The repository's README.md says that the shadow book holds all resting orders (lines 106-108). Any CANCEL
  update erases the order from it, even a partial cancel, and a replace announces its full quantity before it
  trades. `ShadowAgreement.StepAgrees` and `RunAgrees` give the exact condition, decidable before the request is
  processed; `Counterexamples` has a run for each way to fail; `ShadowCover.RunCovers`, `ShadowGaps.RunGone`,
  `ShadowGaps.RunMisses` and `ShadowLeftovers.RunExplained` say what remains true without it, what is lost and what
  is left over.
- A recovering client cannot always follow the feed from a snapshot. An Order Replace frame carries no side (the
  section "Order Replace Message" of Nasdaq TotalView-ITCH leaves it to the receiver to keep), so a client must hold the
  replaced order, and the shadow book that snapshots are made of has lost every partially canceled one.
  `RecoveryRuns.RunRecovers` gives the exact condition over runs, `Counterexamples.LostReplaceFails` a failing run.

## Model

| member | source | states |
|---|---|---|
| `OrderStore.UnlinkChain` | src/engine/order_book/order_book_map.cpp:44-48 | unlinking any node of a side leaves a well-formed, price-sorted list of FIFO levels, linked in both directions, without that node |
| `OrderStore.AppendChain` | src/engine/order_book/order_book_map.cpp:25-33 | linking a new node behind its level's tail puts it exactly at its price-time position and keeps the list well formed |
| `OrderStore.RemoveValid` | src/engine/order_book/order_book_map.cpp:39-64 | after a removal, live pool nodes, both sides' lists and index entries are still in bijection, no client entry is empty, and the abstract book lost exactly that order |
| `OrderStore.InsertValid` | src/engine/order_book/order_book_map.cpp:15-36 | after an insertion of a fresh key, the same bijection holds and the abstract book gained the order at its price-time position |
| `OrderStore.Locate` | src/engine/order_book/order_book_map.cpp:180-205 | a key found in the index is the order that a search of the abstract book finds, on the side it finds it |
| `MapLevels.BeginIsFront` | src/engine/order_book/order_book_map.cpp:74-79 | `begin()` of a side's map is the level of the first order in price-time priority, and the map is empty exactly when the side is |
| `MapLevels.ShrinkMap` | src/engine/order_book/order_book_map.cpp:44-53 | after an order leaves, the map holds exactly the non-empty levels with the right heads and tails |
| `MapLevels.GrowMap` | src/engine/order_book/order_book_map.cpp:23-33 | after an order joins, the map holds exactly the non-empty levels with the right heads and tails |
| `MapBook.Book.Insert` | src/engine/order_book/order_book_map.cpp:15-36 | keeps the heap invariant and inserts the order behind every order of the same or a better price |
| `MapBook.Book.Delete` | src/engine/order_book/order_book_map.cpp:39-64 | keeps the heap invariant, removes exactly that order, and its key is no longer indexed |
| `MapBook.Book.FillHead` | src/engine/order_book/order_book_map.cpp:83-119 | one turn of the inner loop is one fill of the reference match, messages and match id included |
| `MapBook.Book.MatchIncoming` | src/engine/order_book/order_book_map.cpp:67-131 | the nested loops terminate and compute the reference match: rest of the opposite side, remainder, match counter, messages in order |
| `MapBook.Book.AddOrder` | src/engine/order_book/order_book_map.cpp:134-174 | book, match counter and messages are those of the reference add, for every request with a fresh key |
| `MapBook.Book.CancelOrder` | src/engine/order_book/order_book_map.cpp:176-240 | book and messages are those of the reference cancel: unknown, excess, partial and full |
| `MapBook.Book.ReplaceOrder` | src/engine/order_book/order_book_map.cpp:242-316 | book, match counter and messages are those of the reference replace, rejections and fill-and-kill remainder included |
| `VectorLevels.LevelList` | src/engine/order_book/order_book_vector.cpp:28-87 | in every valid book the list from the best pointer is strictly price-sorted, consistent in both directions and holds exactly the levels with a non-empty order list |
| `VectorLevels.FindPredecessor` | src/engine/order_book/order_book_vector.cpp:38-46 | the walk stops at the level just better than the new one, whose successor is the level just worse |
| `VectorLevels.InsertPriceLevel` | src/engine/order_book/order_book_vector.cpp:28-67 | the level is threaded between its two neighbours in price order and the best pointer moves exactly when it is first |
| `VectorLevels.GrowArray` | src/engine/order_book/order_book_vector.cpp:90-116 | after an order joins, occupied levels carry their queue ends and neighbouring levels, all others are vacant, and the best pointer is right |
| `VectorLevels.ShrinkArray` | src/engine/order_book/order_book_vector.cpp:119-143 | the same after an order leaves, with its level cut out if it was alone |
| `VectorBook.RemovePriceLevel` | src/engine/order_book/order_book_vector.cpp:70-87 | both neighbours bypass the level, the level is vacated and the best pointer moves on if it pointed there |
| `VectorBook.Book.Insert` | src/engine/order_book/order_book_vector.cpp:90-116 | keeps the heap invariant and inserts the order behind every order of the same or a better price |
| `VectorBook.Book.Delete` | src/engine/order_book/order_book_vector.cpp:119-143 | keeps the heap invariant and removes exactly that order |
| `VectorBook.Book.FillHead` | src/engine/order_book/order_book_vector.cpp:158-190 | one turn of the inner loop is one fill of the reference match |
| `VectorBook.Book.MatchIncoming` | src/engine/order_book/order_book_vector.cpp:146-242 | the nested loops terminate and compute the reference match |
| `VectorBook.Book.AddOrder` | src/engine/order_book/order_book_vector.cpp:245-284 | book, match counter and messages are those of the reference add, for every fresh key, unless a good-till-cancel remainder priced at 256000 or more would rest |
| `VectorBook.Book.CancelOrder` | src/engine/order_book/order_book_vector.cpp:291-355 | book and messages are those of the reference cancel |
| `VectorBook.Book.ReplaceOrder` | src/engine/order_book/order_book_vector.cpp:361-402 | book, match counter and messages are those of the reference replace, under the same bound on what comes to rest |
| `Bits.BitParts` | tests/ob_variants.h:579-585 | the word operators used by the bitmap act on every bit separately |
| `Bits.ZeroIsEmpty` | tests/ob_variants.h:594-599 | a word is zero exactly when none of its 64 bits is set |
| `Bits.LowMaskBit` | tests/ob_variants.h:612-613 | the downward mask has exactly the bits up to the start, the top position included |
| `Bits.HighMaskBit` | tests/ob_variants.h:592 | the upward mask has exactly the bits from the start |
| `Bitmap.SetBit` | tests/ob_variants.h:575-581 | marks that price and no other |
| `Bitmap.ClearBit` | tests/ob_variants.h:583-585 | unmarks that price and no other |
| `Bitmap.NextOccupiedAsc` | tests/ob_variants.h:587-605 | the least marked price at or above the start, or the invalid marker if there is none |
| `Bitmap.NextOccupiedDesc` | tests/ob_variants.h:607-627 | the greatest marked price at or below the start, or the invalid marker if there is none |
| `BitmapBook.RemovePriceLevel` | tests/ob_variants.h:641-651 | unmarks one price and leaves the cached best price the best marked one |
| `BitmapBook.InsertPriceLevel` | tests/ob_variants.h:629-639 | marks one price and leaves the cached best price the best marked one |
| `BitmapBook.OccupancyIsExact` | tests/ob_variants.h:566-570 | a price is marked exactly when an order rests at it, and the cached best prices are the greatest bid and the least ask |
| `BitmapBook.SilentMatch` | tests/ob_variants.h:698-738 | what matching leaves does not depend on the messages that the other books send |
| `BitmapBook.Book.MatchIncoming` | tests/ob_variants.h:698-738 | matching through the bitmaps leaves what the reference match leaves, and the same remainder |
| `BitmapBook.Book.AddOrder` | tests/ob_variants.h:753-759 | the book afterwards is the one both production books would hold, under the same bound on what comes to rest |
| `BitmapBook.Book.CancelOrder` | tests/ob_variants.h:761-770 | removes exactly the order with that key, and changes nothing if there is none |
| `BitmapBook.WithoutIsFullCancel` | tests/ob_variants.h:761-770 | this is the production books' cancel with no share count |
| `MatchingEngine.MapEngine.ProcessClientRequest` | src/engine/matching_engine.cpp:23-50 | a request changes its ticker's book as the reference step says and no other book |
| `MatchingEngine.MapEngine.Drain` | src/engine/matching_engine.cpp:52-71 | a map engine fed a queue of requests ends in the reference run's state with the reference run's messages |
| `MatchingEngine.VectorEngine.ProcessClientRequest` | src/engine/matching_engine.cpp:23-50 | the same for the vector engine, under the bound on what comes to rest |
| `MatchingEngine.VectorEngine.Drain` | src/engine/matching_engine.cpp:52-71 | the same for the vector engine, over every run in which no order priced at 256000 or more comes to rest |
| `BookInvariants.MatchStops` | src/engine/order_book/order_book_map.cpp:71-130 | quantity is left over only if nothing crossing remains |
| `BookInvariants.StepInv` | src/engine/order_book/order_book_map.cpp:134-316 | every request with a fresh key keeps strict price-time order by market order id, positive quantities, unique ids and keys, and the best bid strictly below the best ask |
| `EngineRun.RunInv` | src/engine/matching_engine.cpp:52-71 | all that holds of every book after every run of either engine |
| `EngineRun.NeverReusedIsFresh` | src/engine/order_book/order_book_map.cpp:35 | requests whose keys are never reused meet every book's freshness precondition, in any order |
| `EngineRun.BoundedIsIndexable` | src/engine/order_book/order_book_vector.cpp:97 | if every good-till-cancel add and replace is priced below 256000, nothing priced higher ever comes to rest |
| `Greedy.MatchTakesShares` | src/engine/order_book/order_book_map.cpp:71-130 | the order at each position gives exactly what is wanted after everything ahead of it, up to its remaining quantity and only within the limit; it leaves the book exactly when that is all it had |
| `Greedy.MatchTotal` | src/engine/order_book/order_book_map.cpp:71-130 | the total taken is the smaller of the incoming quantity and the crossing liquidity |
| `Greedy.OnlyLastPartial` | src/engine/order_book/order_book_map.cpp:83-119 | at most the last fill is partial: behind an order within the limit that keeps something, nobody trades |
| `Greedy.MatchMessages` | src/engine/order_book/order_book_map.cpp:83-116 | there is one fill per position with a positive share, these are a prefix of the list, and each takes one match id |
| `Greedy.MatchMessageAt` | src/engine/order_book/order_book_map.cpp:83-116 | the j-th fill is against position j, for its share, at the resting price, within the aggressor's limit, under the j-th match id |
| `Promises.MatchTold` | src/engine/order_book/order_book_map.cpp:83-116 | for each position that gives something, three messages in order: to the resting order's own client with its own ids, token, quantity and what it has left; to the sender with its own and what it still wants; and the trade, all with equal quantity, price and match id |
| `Promises.MatchTook` | src/engine/order_book/order_book_map.cpp:71-130 | each opposite order gives what is wanted after everything ahead of it, within the limit, and keeps the rest; in all, the smaller of the quantity and what rests within the limit |
| `RequestPromises.AddPromise` | src/engine/order_book/order_book_map.cpp:134-174 | an add, by the request's own side, price, quantity, type, ids and token: who gives how much, what rests, what is traded in all, and every message with every field |
| `RequestPromises.UnknownPromise` | src/engine/order_book/order_book_map.cpp:180-205 | a cancel or replace of an order that the book does not hold changes nothing and gets one CANCEL_REJECTED to its sender |
| `RequestPromises.ExcessPromise` | src/engine/order_book/order_book_map.cpp:210-220 | a cancel of more than is left changes nothing and gets one CANCEL_REJECTED with the order's id and what it has left |
| `RequestPromises.CancelPromise` | src/engine/order_book/order_book_map.cpp:208-239 | any other cancel takes exactly its shares, or all if it gives none, from that order alone, and sends the CANCEL update and the CANCELED response with every field |
| `RequestPromises.EmptyReplacePromise` | src/engine/order_book/order_book_map.cpp:258-269 | a replace without a new id or without shares changes nothing and gets one CANCEL_REJECTED |
| `RequestPromises.ReplacePromise` | src/engine/order_book/order_book_map.cpp:271-316 | an accepted replace: the old order leaves, its successor enters on its side with the request's price, quantity, type, new id and token, and every message with every field, in both forms |
| `Ownership.RunOwned` | src/engine/order_book/order_book_map.cpp:91-109 | over every run, every response that names a market order id goes to the client whose request introduced it, under that request's id, price and token, and every execution is within that request's limit |
| `Equivalence.StepAgrees` | src/engine/order_book/order_book_vector.cpp:146-402 | one request: both books end equal, with the same fills, and messages equal up to the three differing outputs |
| `Equivalence.RunAgrees` | README.md:93-95 | over every run both engines hold the same books and send the same fills; with match ids of trades and leaves of cancels erased, their messages agree exactly when every accepted fill-and-kill replacement found enough liquidity |
| `Equivalence.StepIdentical` | src/engine/order_book/order_book_map.cpp:111-315 | both books send exactly the same messages for a request if and only if it trades nothing, cancels nothing or exactly half, and is no accepted fill-and-kill replacement |
| `Equivalence.RunIdentical` | README.md:93-95 | both engines send exactly the same messages over a run if and only if they do so for every request of it |
| `BothEngines.RunBoth` | README.md:93-95 | a concrete map engine and a concrete vector engine that process the same requests hold the same books and match counter and have sent the same executions |
| `Counterexamples.TradeIdDiffers` | src/engine/order_book/order_book_vector.cpp:184-187 | a run of two requests, fresh and indexable, whose messages are equal but for the last: the trade, with match id 1 from the map engine and none from the vector engine |
| `Counterexamples.CancelLeavesDiffers` | src/engine/order_book/order_book_vector.cpp:344-350 | a run of two requests, fresh and indexable, whose messages are equal but for the last: the CANCELED response, with leaves 4 from the map engine and 6 from the vector engine |
| `Counterexamples.ReplaceEndDiffers` | src/engine/order_book/order_book_vector.cpp:399-401 | a run of two requests, fresh and indexable, on which the map engine sends what the vector engine sends and then the CANCELED response and the CANCEL update of the replacement |
| `MatchIds.RunIssues` | src/engine/matching_engine.h:58 | across all tickers ids 1, 2, 3, ... are issued in order, each in exactly two EXECUTED responses on opposite sides with equal quantity and price and in exactly one TRADE of that quantity |
| `Conservation.RunConserves` | src/engine/order_book/order_book_map.cpp:83-315 | for every order: entered equals traded plus dropped plus replaced away plus still resting, over every run |
| `Conservation.RunBalanced` | src/engine/order_book/order_book_map.cpp:83-116 | over every run of either book, total bought of a ticker equals total sold of it |
| `Conservation.StepTicker` | src/engine/order_book/order_book_map.cpp:67-316 | a request only ever speaks about its own ticker |
| `ShadowBook.MatchAgrees` | src/network/market/snapshot_stream.h:310-323 | the trades of a match keep a faithful shadow book faithful, and each names an order it knows |
| `ShadowAgreement.StepAgrees` | src/network/market/snapshot_stream.h:285-336 | from agreement, a request preserves agreement if and only if it is no partial cancel, no replace that trades on entry and rests, and no fill-and-kill replace whose end goes unannounced; the unknown-order TRADE branch is not reached |
| `ShadowAgreement.RunAgrees` | src/network/market/snapshot_stream.h:285-336 | the shadow books equal the order books at every request boundary of a run if and only if every request met that condition |
| `Counterexamples.PartialCancelFails` | src/network/market/snapshot_stream.h:295-298 | after an add and a partial cancel, in either engine, the shadow book is not the order book |
| `Counterexamples.CrossingReplaceFails` | src/engine/order_book/order_book_map.cpp:286-298 | nor after a good-till-cancel replace that trades on entry |
| `Counterexamples.FilledReplaceFails` | src/engine/order_book/order_book_map.cpp:286-302 | nor after a fill-and-kill replace that is filled |
| `Counterexamples.UnannouncedReplaceFails` | src/engine/order_book/order_book_vector.cpp:386-401 | nor, in the vector engine, after a fill-and-kill replace that finds nothing |
| `ShadowCover.RunCovers` | src/network/market/snapshot_stream.h:290-323 | without any restriction: every resting order never partially canceled is in the shadow book with its side, its price and exactly its remaining quantity plus what the replace that created it, if it was one, traded on entry |
| `ShadowLeftovers.RunExplained` | src/network/market/snapshot_stream.h:300-323 | over every run, an id in the shadow book under which nothing rests was created by a replace that traded on entry or, in the vector form, by an accepted fill-and-kill replace |
| `ShadowGaps.RunGone` | src/network/market/snapshot_stream.h:295-298 | a partially canceled order is not in the shadow book and never comes back to it, over every run |
| `ShadowGaps.RunMisses` | src/network/market/snapshot_stream.h:310-322 | over every run, the unknown-order TRADE branch is reached exactly for orders that were partially canceled before |
| `Priority.ShadowFixesPriority` | src/network/market/snapshot_stream.h:97-104 | the unordered shadow book determines full price-time priority: all reachable books it agrees with list the same orders in the same order |
| `Itch.FrameDetermines` | src/network/protocol/itch_encoder.h:33-107 | two updates have the same frame if and only if they agree on kind, 16-bit locate, id and, by kind, on side, ticker, price, quantity, new id and match id; a replace frame tells nothing of the side |
| `Itch.FrameCarries` | src/network/protocol/itch_encoder.h:36-98 | which fields of its update each kind of frame carries, the match number of an execution included |
| `Itch.BigEndianRoundTrip` | src/network/market/marketdata_publisher.h:47-52 | the big-endian prefix gives the sequence number back |
| `Itch.BigEndianAt` | src/network/market/marketdata_publisher.h:50 | its bytes are the base-256 digits, the most significant first |
| `Itch.WireExact` | src/network/protocol/itch_encoder.h:43-50 | a snapshot loses nothing exactly when every price and quantity fits 32 bits |
| `Itch.FollowsExactly` | src/network/protocol/itch_encoder.h:84-97 | a client that held the shadow book holds it after the next frame if and only if a MODIFY names an order in it with the same side |
| `Recovery.RecoversExactly` | src/network/market/snapshot_stream.h:79-142 | over any feed and all tickers: from every snapshot and for every number of frames followed the client holds the shadow books, if and only if every update can be followed |
| `RecoveryRuns.RunRecovers` | src/network/market/snapshot_stream.h:285-336 | over every run with 32-bit prices and quantities, recovery is exact from every snapshot if and only if no accepted replace names an order that was partially canceled before |
| `RecoveryRuns.FaithfulRecovers` | src/network/market/snapshot_stream.h:285-336 | after a faithful run, a client that recovered at any moment holds exactly the resting orders with side, price and remaining quantity |
| `Counterexamples.LostReplaceFails` | src/network/market/snapshot_stream.h:295-308 | after an add, a partial cancel and a replace, in either engine, recovery is not exact |
| `Publisher.MarketDataPublisher.Publish` | src/network/market/marketdata_publisher.h:61-80 | each encodable update is fanned out and pushed once, with the same bytes, which are its encoding, and the next number; every other update only consumes a number |
| `Publisher.Contiguous` | src/network/market/marketdata_publisher.h:66-79 | with nothing skipped the streamer sees 1, 2, 3, ... |
| `Publisher.RunOnFeed` | src/network/protocol/itch_encoder.h:100-105 | the engine never emits an update without a frame or about an unknown ticker, so nothing is ever skipped |
| `Publisher.ReplayIsFeed` | src/network/market/marketdata_publisher.h:47-80 | what any part of the streamer's history replays is what the publisher sent under the same numbers, byte for byte |
| `MarketFeed.Feed.PublishNext` | src/network/market/marketdata_publisher.h:61-80 | for every run of the engine: each update goes out once, under the next number, as its own encoding |
| `MarketFeed.Feed.ConsumeNext` | src/network/market/snapshot_stream.h:223-233 | whatever the interleaving, the next queued update meets all that the streamer demands of it |
| `MarketFeed.Feed.Replay` | src/network/market/snapshot_stream.h:149-176 | for every run: 'C' at or past the last number, 'N' if the gap exceeds 8192, and otherwise 'R' and exactly the datagrams first published under the missing numbers |
| `MarketFeed.Feed.Snapshot` | src/network/market/snapshot_stream.h:138-142 | for every run: what is served decodes to the shadow books after the updates consumed, and following the feed from there is exact if no replace names a partially canceled order |
| `Streamer.SnapshotStreamer.ApplyToBook` | src/network/market/snapshot_stream.h:285-336 | the shadow book after the update, in place, and the dirty flag |
| `Streamer.AppendRing` | src/network/market/snapshot_stream.h:69-75 | writing one slot keeps every other entry that is still in the window of 8192 |
| `Streamer.SnapshotStreamer.Consume` | src/network/market/snapshot_stream.h:223-233 | shadow books, ring, last number and cache stay consistent with the history of updates |
| `Streamer.SnapshotStreamer.ServeReplay` | src/network/market/snapshot_stream.h:149-176 | 'C', 'N' or 'R' as the gap demands, and after 'R' exactly the missing datagrams of the updates consumed, in order, read from the ring |
| `Streamer.AppendTicker` | src/network/market/snapshot_stream.h:95-105 | in whatever order the map is iterated, the frames of a ticker decode to its shadow book |
| `Streamer.SnapshotStreamer.BakeSnapshot` | src/network/market/snapshot_stream.h:79-109 | the baked buffer decodes to the current shadow books under the current number |
| `Streamer.SnapshotStreamer.ServeSnapshot` | src/network/market/snapshot_stream.h:138-142 | cached or baked, what is served decodes to the current shadow books under the current number: the cache is never stale |
| `Framing.ScanConcat` | src/network/gateway/order_server.h:62-103 | scanning a leftover together with what came next is scanning the whole |
| `Framing.ChunkingIsIrrelevant` | src/network/gateway/order_server.h:62-103 | for every stream and every split into reads, frames and leftover are those of one read |
| `Framing.ScanParses` | src/network/gateway/order_server.h:66-103 | every frame begins with 'O', 'X' or 'U' and has that message's size, the frames lie in the stream in order, only other bytes are skipped, and the leftover is empty or the beginning of a message |
| `Tokens.Newest` | src/network/gateway/token_manager.h:56-68 | the newest registration of that token by that client, or 0 |
| `Tokens.OrderTokenManager.RegisterNewToken` | src/network/gateway/token_manager.h:37-53 | the next id, or 0 and no change once the pool is exhausted; afterwards every lookup is the newest registration |
| `Tokens.OrderTokenManager.GetID` | src/network/gateway/token_manager.h:56-68 | returns the newest id that this client registered for the token |
| `Tokens.OrderTokenManager.GetToken` | src/network/gateway/token_manager.h:70-75 | returns the token an issued id was registered with, and nothing for any other id |
| `Tokens.OrderTokenManager.DecodeOuch` | src/network/protocol/ouch_processor.h:15-82 | registrations and request are those of the decoding function, failures included |
| `Tokens.SessionKeeps` | src/network/protocol/ouch_processor.h:22-79 | over every session: every id in a request was registered by that request's own client for that request's ticker, and new ids strictly increase |
| `SessionPromises.DecodePromise` | src/network/protocol/ouch_processor.h:15-82 | a message becomes a request exactly when its token is known and the pool has room, and then side, type, price, shares, token, ids and ticker are what the message says |
| `SessionPromises.SessionConveys` | src/network/gateway/order_server.h:79-93 | over every session the requests are those of the understood messages, one each, in order of arrival, each asking for what its message says |
| `Tokens.SessionNeverReuses` | src/network/gateway/token_manager.h:37-53 | no (client, id) pair is ever introduced twice |
| `Tokens.LineageHolds` | src/network/protocol/ouch_processor.h:57-79 | every replacement has the ticker and client of the order it replaced |
| `Tokens.TickerInherited` | src/network/protocol/ouch_processor.h:69-72 | through any chain of replacements, ticker and client are those of the entered order |
| `Tokens.DecodeConcat` | src/network/gateway/order_server.h:79-95 | decoding continues over reads as over one |
| `Sequencer.SortByTime` | src/network/gateway/fifo_process.h:64-69 | a permutation in time order |
| `Sequencer.FifoSequencer.AddToPending` | src/network/gateway/fifo_process.h:45-56 | retains the request, or refuses exactly when the buffer is full and changes nothing |
| `Sequencer.FifoSequencer.PublishPendingOrders` | src/network/gateway/fifo_process.h:58-92 | publishes a prefix of what was pending in time order, retains the sorted rest, and stops short only at a full queue; nothing that arrived is lost or duplicated |
| `Sequencer.FifoSequencer.GrowPending` | src/network/gateway/fifo_process.h:94-97 | doubles the buffer and keeps what is pending |
| `Sequencer.FifoSequencer.Retain` | src/network/gateway/order_server.h:82-90 | the overflow ladder always retains the request, with its own timestamp: its assertion holds |
| `Sequencer.FifoSequencer.NothingLost` | src/network/gateway/fifo_process.h:45-97 | at any moment, what arrived is what was published and what is pending, as multisets |
| `OrderServer.Gateway.RegisterClient` | src/network/gateway/order_server.h:164-169 | a new client id, and sockets and clients stay one to one |
| `OrderServer.Gateway.OnDisconnect` | src/network/gateway/order_server.h:171-180 | exactly that socket and its client are forgotten, and sockets and clients stay one to one |
| `OrderServer.Gateway.Route` | src/network/gateway/order_server.h:121-135 | a response goes to its own client's live socket, and is dropped only if there is none |
| `OrderServer.Gateway.OnRecv` | src/network/gateway/order_server.h:55-104 | the loop terminates, decodes exactly the complete frames in order, retains every decoded request stamped with the time of its read, and leaves exactly the incomplete tail |
| `OrderServer.ReadsCompose` | src/network/gateway/order_server.h:98-103 | a read behind the leftover of another leaves the registrations, requests and leftover of one read |
| `Pipeline.StepKeeps` | src/network/gateway/order_server.h:185-194 | whatever thread moves: no request is lost or duplicated on the way in, nothing is lost or reordered on the way out |
| `Pipeline.NoDeadlock` | src/engine/matching_engine.h:61-82 | for any positive capacities, a state with work left has an enabled step that moves closer to empty |
| `Pipeline.StepProgress` | src/network/market/marketdata_publisher.h:57-81 | without new input every step moves closer to empty, or leaves the thread that will unchanged |
| `Pipeline.Drains` | src/network/gateway/order_server.h:185-194 | every fair run drains once input stops |
| `Exchange.NeverReusedPermutes` | src/network/gateway/fifo_process.h:64-69 | freshness survives whatever order the sequencer chooses |
| `Exchange.ExchangeSettles` | src/network/gateway/order_server.h:182-194 | every fair run fed by client sessions drains; then exactly the accepted requests were processed with every book's preconditions met, clients were sent exactly the responses and the streamer exactly the updates, all books are sorted and uncrossed, and the shadow books equal them if every request was faithful |
| `Exchange.ExchangeRecovers` | src/network/market/snapshot_stream.h:178-233 | in such a run recovery is exact from every snapshot if and only if no accepted replace named a partially canceled order, and after a faithful run every recovered client holds the order books |

## Left out

- OrderStore.Allocate: the object pool is an allocator of fresh slots that is never exhausted; its capacity and recycling order are not modelled.
- MatchIds.RunIssues: holds while fewer than 2^64 - 1 matches were made; wrap-around of the match counter, order ids and sequence numbers is not modelled.
- MapBook.Book.AddOrder: needs a key that is not resting, since the index would silently overwrite an existing entry; `Tokens.SessionNeverReuses` supplies it. The other adds and replaces need the same.
- MapBook.Book.MatchIncoming: the inner loop's re-test of a level that was just erased is modelled as seeing an empty level; in the code it reads a destroyed map node.
- VectorBook.Book.AddOrder: needs a price below 256000 if a good-till-cancel remainder comes to rest, as do the replaces of the vector book and the adds of the bitmap book; the code indexes its arrays unchecked there.
- Equivalence.RunIdentical: for runs with fewer than 2^64 - 2 matches, since an exhausted counter would reach the invalid match id.
- VectorBook.Book.MatchIncoming: always has an engine to report to; the null-engine form used by benchmarks is left out.
- VectorBook.Book.Insert: level arrays are sequence-valued fields, and orders are nodes of a map from references, so aliasing is explicit and not a property of the Dafny heap; the bitmap words are sequences too.
- BitmapBook.Book.AddOrder: the three fields of each side are grouped in one value, and the order carries a token that this form of the book never reads.
- MatchingEngine.MapEngine.ProcessClientRequest: needs a ticker in range, which the code does not check, and has no case for a request type outside the three, which the code only logs.
- Streamer.SnapshotStreamer.Consume: needs contiguous numbers, known tickers and payloads of at most 40 bytes; `MarketFeed.Feed.ConsumeNext` proves that it gets them on every run. `& 8191` is modelled as a remainder.
- Publisher.MarketDataPublisher.Publish: the byte layout of a frame is a parameter, any map from frames to one to 40 bytes; the ITCH structs are not part of this model.
- RecoveryRuns.RunRecovers: the repository has no client; the one modelled applies each frame to the ticker its 16-bit locate names, takes the side of a replacement from the replaced order and ignores frames about orders it does not hold. For at most 65536 tickers, beyond which two tickers share a locate.
- Pipeline.Admits: that clients name an existing ticker, and to the vector engine good-till-cancel prices below 256000, is an assumption about clients; the gateway does not check it.
- Tokens.DecodeMsg: share counts are 32 bits wide, as the section "Enter Order Message" of OUCH 4.2 has them; the accessor of the wire struct is not part of this model.
- OrderServer.Gateway.OnRecv: the sizes of the OUCH structs and the reading of their fields are parameters, because the wire structs are not part of this model; `encodeOuch` is left out.
- Sequencer.SortByTime: the order of equal timestamps is that of one possible sort; the other theorems assume only a sorted permutation.
- Pipeline.StepKeeps: publishing early from a full buffer in the middle of a read is not a step of its own (`Sequencer.FifoSequencer.Retain` covers it), and the publisher's push and pop are one step.
- Quantities, ids and prices are unbounded except where the wire narrows them.
- Sockets, epoll, timeouts, UDP registration and eviction, logging, instrumentation, thread pinning, start-up and shutdown: input, output and operating system plumbing.
- Memory ordering inside the single-producer single-consumer queues: queues are bounded sequences.
- ITCH timestamps: arbitrary parameters of encoding.
- The other book variants in `tests/ob_variants.h`, the benchmarks and the Python scripts: they would repeat the books above or add easy members.
