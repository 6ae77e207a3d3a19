# AetherX exchange kernel, verified

AetherX is an event-sourced exchange. This project models its kernel in Dafny and proves what the kernel
promises: the order book and matcher of every symbol, the double-entry ledger with escrow, the position
engine, the retry queue, the event store with the order management system and the recording of fills, the
trigger engine, and two fast forms of an analysis against the simple ones they stand for.

`dafny verify dfyconfig.toml` checks everything.

## How it is built

- **Order book.** `PriceTime` is the specification: a book side is one sequence in matching order, and a taker
  walks it greedily. `BookLaws` shows that this walk is the only allocation with price-time priority, stated
  without a walk. `RunLaws`, `TradeLaws` and `CancelLaws` are about whole runs of messages. `OrderQueues`,
  `BookSides`, `OrderBooks` and `Workers` are the heap: linked queues, sorted price arrays, price maps and the
  id index, updated in place by nested loops, and proved equal to the specification. `Levels` links the two.
- **Money.** `Ledgers` has the three operations with their rollbacks, `LedgerLaws` what any run of them keeps.
  `Escrows` composes ledger and matcher as stages that take their work whenever they like. `VenueLaws` shows that
  no stage loses or repeats work, `EscrowLaws` that funds are always there when they are due.
- **Positions.** `Positions` is the engine, `PositionLaws` its laws, over exact reals.
- **Queues and logs.** `RetryQueues` and `RetryLaws`: pollers that overlap, with stale snapshots. `EventStores`,
  `OmsEngines`, `OmsLaws`: intents whose handling interleaves between awaits. `MatchingEngines`, `FillRecords` and
  `FillLaws`: fills on their way into the log. `Keys` and `KeyShapes` are about the dash-joined keys used in several
  places. `TriggerEngines` and `TriggerLaws`: ticks, additions and cancels between the firing steps.
- **Fast forms.** `Impacts`: the walk over published levels against the matcher. `Rsi`: candle by candle against
  the whole chart.

A concurrent service is a step function over its shared state. A step is what one handler does between two
awaits, and the class beside it has one method for each step, proved equal to it.

## Conventions

- Matcher and ledger use integers (lots, ticks), scaled so that price times quantity is an exact amount.
  Positions and indicators use reals. Rounding of doubles and of NUMERIC columns is not modelled; the two
  decimals of the impact estimate are.
- Callers give every order a fresh id and a positive quantity (`backend/src/controllers/order.ts:32`). A price of
  0, or below, means a market order (`backend/src/services/matchingWorker.ts:138`).
- User and order ids are UUID columns (`backend/src/models/schema.sql:11`, `:78`), so user ids have one length.
  Idempotency keys are whatever the client sends, but never empty (`backend/src/controllers/order.ts:47`).
- A database transaction commits or leaves everything as it was, and an insert with a conflict clause is an
  insert if absent. Removal from a sorted set is an atomic test-and-remove.
- `BookSide` joins the price map and the price array that the source passes around together. The nested loops of
  the matcher are separate methods, one for each loop and one for each turn.
- Ghost fields `nodes`, `orders`, `book`, `members`, `land` and `history` hold the abstract view, the footprint or
  the history that validity ties to the real fields.

## Where the code and its comments disagree

- `backend/src/services/ledgerEngine.ts:187-188` says that a market buy is paid from the checking wallet. The code
  does that for the system account only (`EscrowLaws.MarketBuyBounces`).
- `backend/src/services/matchingWorker.ts:180` guards against an endless loop that cannot occur: the index moves on
  only when the taker is used up (`OrderBooks.OrderBook.MatchNext`).
- `backend/src/services/retryQueue.ts:103` speaks of an atomic pop of the minimum. The code reads a range and
  then removes entry by entry, so pollers do hold stale entries (`RetryLaws.StaleTextsNeverMatch`).
- A taker that buys below its limit locked more than it pays. Nothing releases the difference, so it stays in
  escrow (`Escrows.Saving`, `EscrowLaws.EscrowIdentity`).
- An order cancelled while an evaluation is firing still fires (`TriggerLaws.ExactlyTheSatisfiedFire`). A trigger
  whose event cannot be stored is forgotten without firing, and a failed publish leaves the rest of the due triggers
  waiting (`TriggerLaws.WhoStillWaits`).
- `backend/src/models/migrations/001_event_sourcing.sql:18` gives all events one key space, and clients choose their
  keys. An intent whose key reads like a cancel or a fill of known orders can vanish
  (`OmsLaws.KeysThatLoseTheirIntent`). Stored first, it swallows that cancel (`OmsLaws.CancelsThatCanBeLost`) or
  that genuine fill (`FillRecords.FillsThatCanBeLost`). UUID keys do none of this
  (`FillRecords.UuidsClaimNothingElse`).
- In a market that does not move the index is 99, not 50: no losses count as a strength of 100
  (`Rsi.IndexIsTheShareOfGains`).
- The chart pads the first p + 1 entries with 50, so it differs from the incremental index at entry p
  (`Rsi.Compare`).

## Model

| member | source | states |
|---|---|---|
| `OrderQueues.OrderQueue.Push` | backend/src/services/matchingWorker.ts:18-28 | the queue keeps its representation (acyclic, prev and next inverse, head, tail, volume equal to the sum of quantities) and gains the order at its end |
| `OrderQueues.OrderQueue.Shift` | backend/src/services/matchingWorker.ts:30-39 | removes exactly the oldest order, or nothing from an empty queue, keeping the representation |
| `OrderQueues.OrderQueue.Remove` | backend/src/services/matchingWorker.ts:41-51 | unlinks exactly the given node wherever it is, keeps everybody else in order and the volume right |
| `OrderQueues.OrderQueue.Take` | backend/src/services/matchingWorker.ts:149-173 | a fill reduces the oldest order, which leaves exactly when it is used up |
| `BookSides.BookSide.InsertResting` | backend/src/services/matchingWorker.ts:121-131 | the side read in matching order is the old one with the order behind all equal or better prices; sorted array, map and queues stay consistent |
| `BookSides.BookSide.RemoveResting` | backend/src/services/matchingWorker.ts:102-116 | the side is the old one without the id, and a level that becomes empty leaves map and array |
| `BookSides.BookSide.Splice` | backend/src/services/matchingWorker.ts:176-178 | closing an emptied level at position i changes no order and keeps the array sorted and equal to the map keys |
| `BookSides.BookSide.Published` | backend/src/services/matchingWorker.ts:185-190 | the stored volumes of the best 20 levels are the grouped quantities of the orders that rest |
| `OrderBooks.OrderBook.constructor` | backend/src/services/matchingWorker.ts:54-68 | a new book is valid, empty and on fresh objects |
| `OrderBooks.OrderBook.MatchLevel` | backend/src/services/matchingWorker.ts:146-174 | the inner loop fills one price in time order; the index keeps exactly the nodes still queued |
| `OrderBooks.OrderBook.MatchNext` | backend/src/services/matchingWorker.ts:135-182 | one turn of the outer loop: the index i advances only when the taker is used up, otherwise a price level disappears (the termination measure) |
| `OrderBooks.OrderBook.MatchOrder` | backend/src/services/matchingWorker.ts:133-183 | the nested loops over array, map and linked queues emit the trades, remainder and resting orders of the greedy walk over the other side, and terminate |
| `OrderBooks.OrderBook.AddOrder` | backend/src/services/matchingWorker.ts:70-95 | the new book and the trades are those of adding the order to the book as a value; the depth sent is the top 20 of the new book |
| `OrderBooks.OrderBook.CancelOrder` | backend/src/services/matchingWorker.ts:97-119 | the new book lacks exactly that order; an unknown id changes and publishes nothing |
| `OrderBooks.OrderBook.IndexIsTheBook` | backend/src/services/matchingWorker.ts:58-58 | orderMap holds exactly the ids that rest |
| `Workers.Worker.OnMessage` | backend/src/services/matchingWorker.ts:202-222 | a message changes the book of its own symbol only; books of different symbols share no object; an empty symbol does nothing |
| `Workers.Replay` | backend/src/services/matchingWorker.ts:199-227 | fed any messages with fresh ids, the worker holds for every symbol the book of the run of that symbol, has published exactly its trades, and shows the top 20 of the current book |
| `BookLaws.WalkIsTheOnlyPriorityMatch` | backend/src/services/matchingWorker.ts:133-183 | whatever allocation of fills respects price-time priority (stated without any walk) has the trades, remainder and resting orders the matcher produces |
| `BookLaws.PriorityMatchExists` | backend/src/services/matchingWorker.ts:133-183 | such an allocation exists for every sorted queue and every taker |
| `BookLaws.WalkConcat` | backend/src/services/matchingWorker.ts:135-182 | walking one level and then the others is walking the whole side: a level is left only when it is used up |
| `BookLaws.WalkTrades` | backend/src/services/matchingWorker.ts:146-167 | trade i is with maker i, field by field: its price and id, buyer and seller by side, a quantity both had, within the limit of the taker |
| `BookLaws.WalkRest` | backend/src/services/matchingWorker.ts:169-181 | what rests afterwards is a tail of the queue whose first order may have shrunk; a remainder means the limit stopped it |
| `RunLaws.RemainderDoesNotCross` | backend/src/services/matchingWorker.ts:82-90 | a remainder that comes to rest is strictly outside the best price left on the other side |
| `RunLaws.ReachableBooks` | backend/src/services/matchingWorker.ts:70-131 | after any adds and cancels with fresh ids: both sides sorted, bids strictly below asks, ids unique, quantities positive and never more than was sent, equal prices in arrival order |
| `RunLaws.PricesOfReachableBooks` | backend/src/services/matchingWorker.ts:66-90 | the same in plain numbers: bids fall, asks rise, every bid is below every ask, all prices and quantities positive |
| `TradeLaws.TradesAreFairAndDistinct` | backend/src/services/matchingWorker.ts:143-174 | every trade of every run is between two sent orders of opposite sides and says so field by field: the price the earlier one was sent with, the users of the buy and of the sell order as buyer and seller, both ids, the symbol, a quantity neither lacked, within the limit of the later one; no (taker, maker) pair trades twice |
| `TradeLaws.QuantityIsConserved` | backend/src/services/matchingWorker.ts:70-174 | for every id and run: quantity sent = fills as taker + fills as maker + resting + cancelled + discarded market remainder |
| `TradeLaws.OnlyMarketOrdersAreDiscarded` | backend/src/services/matchingWorker.ts:77-90 | in every run only what is left of a market order is dropped instead of resting, and only what a cancel names is taken out |
| `TradeLaws.CancelledAndDiscardedAreGone` | backend/src/services/matchingWorker.ts:83-119 | an order that was cancelled or discarded never rests again |
| `TradeLaws.RestingIsSentMinusFilled` | backend/src/services/matchingWorker.ts:82-91 | what rests of an order is what was sent minus its fills, and positive |
| `CancelLaws.CancelUndoesAdd` | backend/src/services/matchingWorker.ts:97-131 | an order that traded with nobody, cancelled after any messages about other orders that did not trade, leaves the book of the history without it |
| `CancelLaws.CancelCommutes` | backend/src/services/matchingWorker.ts:70-119 | cancelling an order before or after a message about another order that does not trade gives the same book |
| `CancelLaws.CancelUnknown` | backend/src/services/matchingWorker.ts:97-99 | cancelling an id that does not rest, such as a fully filled one, changes nothing |
| `Levels.InsertIntoLevel` | backend/src/services/matchingWorker.ts:121-129 | appending to an existing price level is insertion into the flat side |
| `Levels.InsertNewLevel` | backend/src/services/matchingWorker.ts:123-128 | opening a level in the sorted array is insertion into the flat side |
| `Levels.DepthIsGroup` | backend/src/services/matchingWorker.ts:189-190 | price and volume per level are the flat side grouped by price |
| `Impacts.EstimateImpact` | backend/src/services/microstructureAnalytics.ts:201-220 | the loop returns the basis points of what the levels yield for the size, to two decimals; 100 if nothing can be filled, 0 without a middle price |
| `Impacts.ImpactInBasisPoints` | backend/src/services/microstructureAnalytics.ts:214-219 | the estimate is the hundredth nearest to ten thousand times the distance of the average price from the middle, over the middle |
| `Impacts.OneLevel` | backend/src/services/microstructureAnalytics.ts:204-219 | an order that fits the best level is estimated by the price of that level |
| `Impacts.EmptySideAndZeroMiddle` | backend/src/services/microstructureAnalytics.ts:213-216 | nothing to fill is 100, a middle of zero is 0 |
| `Impacts.SweepIsMatch` | backend/src/services/microstructureAnalytics.ts:201-212 | over all levels, filled size and cost are the quantity and notional of the trades of a market order |
| `Impacts.EstimateAgreesWithMatcher` | backend/src/services/microstructureAnalytics.ts:197-220 | in every reachable book, from the published levels: filled size and cost are those of the matcher if and only if the levels cover the size or there are at most 20 |
| `Impacts.BuyingMoreCostsMore` | backend/src/services/microstructureAnalytics.ts:201-215 | on the ask side the average fill price never falls as the size grows |
| `Impacts.SellingMoreEarnsLess` | backend/src/services/microstructureAnalytics.ts:201-215 | on the bid side it never rises |
| `Impacts.BuyImpactGrows` | backend/src/services/microstructureAnalytics.ts:214-219 | the estimated impact of a buy never falls with its size while the middle is at most the best ask |
| `Impacts.SellImpactGrows` | backend/src/services/microstructureAnalytics.ts:214-219 | that of a sell never falls while the middle is at least the best bid |
| `Impacts.ImpactGrowsInReachableBooks` | backend/src/services/microstructureAnalytics.ts:197-235 | in every reachable book with both sides the middle lies between best bid and best ask, and from any price between them the published estimates of both sides never fall with the size |
| `Impacts.RoundedMiddleStaysInside` | backend/src/services/microstructureAnalytics.ts:134-134 | the middle rounded to the cent lies between bid and ask if and only if there is a whole cent between them |
| `Impacts.RoundedMiddleIsNearest` | backend/src/services/microstructureAnalytics.ts:134-134 | the rounded middle is a whole number of cents and at most half a cent off |
| `Impacts.RoundedImpactGrows` | backend/src/services/microstructureAnalytics.ts:134-220 | so with a whole cent in the spread the estimates from the rounded middle never fall with the size |
| `Impacts.PublishedLevelsAreSorted` | backend/src/services/matchingWorker.ts:185-190 | the levels published for a reachable book have positive volumes and are sorted best first |
| `Impacts.DepthTellsTheBook` | backend/src/services/matchingWorker.ts:185-196 | in every reachable book the published depth has at most 20 levels a side, strictly best first, each with the sum of what rests at its price; an order without a level is worse than 20 that have one |
| `Ledgers.LedgerEngine.LockEscrow` | backend/src/services/ledgerEngine.ts:39-102 | tables and result are those of the all-or-nothing step, with the errors in the order of the source; any failure, also of a later statement, leaves all tables as they were |
| `Ledgers.LedgerEngine.ReleaseEscrow` | backend/src/services/ledgerEngine.ts:107-169 | likewise for the release: all of it, or the tables as they were |
| `Ledgers.LedgerEngine.SettleTrade` | backend/src/services/ledgerEngine.ts:175-275 | likewise for a settlement: both legs, or the tables as they were, also when the second leg is refused |
| `LedgerLaws.LedgerAgrees` | backend/src/services/ledgerEngine.ts:281-300 | after any operations, failed ones included: every balance is opening plus credits minus debits and not negative, every transaction balances, totals per currency are unchanged |
| `LedgerLaws.FailureChangesNothing` | backend/src/services/ledgerEngine.ts:95-98 | the steps as values return the ledger they were given on failure; the rollbacks themselves are in the contracts of the three methods |
| `LedgerLaws.LockMoves` | backend/src/services/ledgerEngine.ts:45-92 | a lock goes through if and only if both accounts of the user exist and checking covers a positive worth; it moves exactly that from checking to escrow, with one header and its two legs |
| `LedgerLaws.ReleaseMoves` | backend/src/services/ledgerEngine.ts:107-160 | the same in the other direction, out of what escrow holds |
| `LedgerLaws.SettleMoves` | backend/src/services/ledgerEngine.ts:183-262 | account by account: price times quantity leaves the cash account of the buyer and reaches the checking account of the seller, the quantity leaves the asset account of the seller and reaches the checking account of the buyer, as two bookings, and no other balance moves |
| `LedgerLaws.AssetDropsTheFirst` | backend/src/services/ledgerEngine.ts:45-45 | the asset of a symbol is the symbol without its first USDT |
| `LedgerLaws.SettleSucceedsExactly` | backend/src/services/ledgerEngine.ts:195-207 | a settlement goes through if and only if the four wallets exist and the two paying ones can pay in turn, also when one wallet pays both legs |
| `EscrowLaws.EscrowIdentity` | backend/src/services/ledgerEngine.ts:39-275 | in every interleaving of locking, matching, cancelling, releasing and settling: every escrow balance is opening + holds of open orders + pending releases + unsettled legs + accumulated price improvement of takers |
| `VenueLaws.OrdersAreDeliveredInOrder` | backend/src/services/ledgerEngine.ts:39-102 | in every interleaving the orders whose funds were locked reach the books once each, first come first served |
| `VenueLaws.ListedBooksAreRuns` | backend/src/services/matchingWorker.ts:205-215 | every book is the run of the orders delivered to it and the cancels for it |
| `VenueLaws.TradesAreSettledOnce` | backend/src/services/ledgerEngine.ts:175-275 | every matched trade is settled once or still waits to be, and nothing else is settled |
| `VenueLaws.CancelsAreReleasedOnce` | backend/src/services/ledgerEngine.ts:107-169 | every order a cancel took out of a book is released once or still waits to be |
| `EscrowLaws.ReleaseNeverBounces` | backend/src/services/ledgerEngine.ts:116-122 | a release that is due always succeeds |
| `EscrowLaws.SettlementNeverBounces` | backend/src/services/ledgerEngine.ts:186-207 | a settlement that is due never fails for lack of funds; it fails if and only if a receiving wallet was never opened |
| `EscrowLaws.MarketBuyBounces` | backend/src/services/ledgerEngine.ts:186-204 | in every reachable state a trade of an ordinary buyer is refused if and only if it costs more than escrow holds for the buyer, whatever the checking wallet holds |
| `Escrows.WalkClaim` | backend/src/services/matchingWorker.ts:133-183 | matching turns what two orders hold into what they keep, the legs of the trade and the improvement, and loses nothing |
| `Positions.PositionState.ProcessFill` | backend/src/services/positionEngine.ts:102-142 | the fields after a fill are those of the position as a value, through scale-in, reduce, close and flip |
| `Positions.PositionEngine.HandleTradeExecution` | backend/src/services/positionEngine.ts:72-100 | buyer and seller side, in this order, and no other position; a self-trade applies both to one position |
| `Positions.PositionEngine.MarkToMarket` | backend/src/services/positionEngine.ts:152-168 | marks every open position of the symbol and touches no other |
| `PositionLaws.MarkingSettles` | backend/src/services/positionEngine.ts:154-165 | a mark sets the unrealized PnL of an open position to size times the distance from the entry, unless it is within a cent of that already, and nothing else; marking again changes nothing |
| `PositionLaws.AddingBlends` | backend/src/services/positionEngine.ts:112-117 | a fill in the direction of the position adds the notionals and realizes nothing |
| `PositionLaws.ReducingRealizes` | backend/src/services/positionEngine.ts:119-129 | a fill against the position realizes the closed units times the distance of entry and price: a partial close keeps the entry, a full one resets it, a flip starts at the price of the trade |
| `PositionLaws.MarginFollows` | backend/src/services/positionEngine.ts:131-131 | margin times leverage is the notional; leverage and unrealized PnL are left alone |
| `PositionLaws.LiquidationFollows` | backend/src/services/positionEngine.ts:133-135 | one leverage-th of the entry below the entry of a long, above that of a short, none when flat |
| `PositionLaws.FillBooksCash` | backend/src/services/positionEngine.ts:112-140 | in every branch size times entry minus realized moves by exactly the cash that changed hands |
| `PositionLaws.PositionIsItsFills` | backend/src/services/positionEngine.ts:72-143 | after any trades, what is stored under a key is a flat position after the fills that reach the key, a self-trade being two of them |
| `PositionLaws.CashIdentity` | backend/src/services/positionEngine.ts:72-143 | in every run, for every user and symbol whose key no other position shares: size times entry minus realized PnL is the cash the user paid in the symbol |
| `PositionLaws.SplittingChangesNothing` | backend/src/services/positionEngine.ts:102-141 | two fills at one price equal one fill of the sum, from any position, also when the split straddles a close or a flip |
| `PositionLaws.LiquidationLosesTheMargin` | backend/src/services/positionEngine.ts:131-135 | long or short, through every branch: the loss at the liquidation price is the margin; a flat position has neither |
| `PositionLaws.EntryPriceHull` | backend/src/services/positionEngine.ts:72-129 | in every run, for every user and symbol whose key no other position shares: while open, the average entry lies within any bounds on the prices that user traded at there |
| `PositionLaws.OneLengthKeepsApart` | backend/src/services/positionEngine.ts:83-83 | no two positions share a key when user ids have one length, as the UUIDs of the users table have |
| `PositionLaws.ZeroSum` | backend/src/services/positionEngine.ts:72-147 | after any trades, per symbol: sizes sum to zero, and realized plus unrealized PnL sums to zero over the users at any mark, as long as no two position keys coincide |
| `PositionLaws.ZeroSumForEverySymbol` | backend/src/services/positionEngine.ts:72-147 | with user ids of one length it holds for every symbol |
| `Keys.JoinClashes` | backend/src/services/positionEngine.ts:83-83 | two different pairs share a dash-joined key if and only if a dash can be shifted from one part to the other |
| `RetryQueues.RetryQueue.ClaimNext` | backend/src/services/retryQueue.ts:115-139 | removal of the next entry as test-and-remove, and what follows up to the handler: skipped if the text is gone, dead-lettered without a handler, else one attempt more |
| `RetryQueues.RetryQueue.HandlerRejected` | backend/src/services/retryQueue.ts:144-162 | dead-lettered when the attempts are used up, otherwise queued again with the delay of the table |
| `RetryQueues.RetryQueue.Enqueue` | backend/src/services/retryQueue.ts:46-67 | a new job is queued with no attempts |
| `RetryLaws.EveryJobIsInOnePlace` | backend/src/services/retryQueue.ts:105-164 | in every interleaving of overlapping pollers each job is in exactly one place, once: queued, in flight at one poller, completed, dead |
| `RetryLaws.HandlerRunsAreBounded` | backend/src/services/retryQueue.ts:138-157 | the handler of a job starts at most max(1, maxAttempts) times |
| `RetryLaws.JobsEndExactlySo` | backend/src/services/retryQueue.ts:132-164 | in every interleaving a job is completed if and only if its handler succeeded, and dead if and only if its last attempt failed or a claim found no handler |
| `RetryLaws.DeadJobsHadEveryRun` | backend/src/services/retryQueue.ts:152-155 | no job is given up early: a dead job has had exactly max(1, maxAttempts) runs, or a claim found no handler |
| `RetryLaws.FailureIsRetried` | backend/src/services/retryQueue.ts:146-162 | a failure with attempts left puts the job back once, with its attempts, the message and a delay of 1, 2, 3, 5, 8, 13, 21 and from then on 30 seconds; without attempts left it is dead, and nothing else moves |
| `RetryLaws.RunningJobs` | backend/src/services/retryQueue.ts:138-141 | the attempts of a running job are the runs it has had, and its limit the one it was enqueued with |
| `RetryLaws.ClaimStartsTheJob` | backend/src/services/retryQueue.ts:121-140 | a claim takes the job out of the queue and hands it to the handler with one attempt more and otherwise as it was |
| `RetryLaws.StaleTextsNeverMatch` | backend/src/services/retryQueue.ts:109-126 | a text that has left the queue never matches again, so a stale snapshot cannot claim a later incarnation |
| `RetryLaws.DelaysGrow` | backend/src/services/retryQueue.ts:35-36 | delays never shrink with the attempts and stay between one and thirty seconds; below the cap they are Fibonacci numbers of seconds |
| `RetryLaws.PollersComeToRest` | backend/src/services/retryQueue.ts:105-164 | without new jobs and polls the claims and answers still possible are bounded by a measure that every one of them lowers |
| `RetryLaws.WorkFalls` | backend/src/services/retryQueue.ts:115-162 | that measure: attempts left and snapshot entries left |
| `EventStores.EventStore.Append` | backend/src/services/eventStore.ts:32-57 | appends unless the key is taken; no key never conflicts |
| `EventStores.EventStore.AppendBatch` | backend/src/services/eventStore.ts:64-102 | appends everything if and only if all keys are new and distinct, otherwise nothing |
| `OmsEngines.OmsEngine.AppendOrder` | backend/src/services/omsEngine.ts:62-111 | builds parent and linked children and stores them together or not at all; a duplicate key leads to the rejection path |
| `OmsEngines.OmsEngine.AppendRejection` | backend/src/services/omsEngine.ts:118-127 | the catch block stores a rejection unless the key is taken |
| `OmsLaws.OneOutcomePerIntent` | backend/src/services/omsEngine.ts:45-129 | for keys of any shape, whatever repeats and interleaves and whichever publish fails: never two outcomes, and once a call has committed or finished exactly one, if and only if no cancel or fill sits on the key |
| `OmsLaws.UsurpedByAnAction` | backend/src/services/omsEngine.ts:134-145 | a cancel or fill sits on a key if and only if some cancel or trade with that key came before anything else was stored under it |
| `OmsLaws.KeysThatLoseTheirIntent` | backend/src/services/omsEngine.ts:78-79 | an intent can end without an outcome if and only if its key reads like the cancel key of a known order or the fill key of two of them |
| `OmsLaws.UuidIntentsHaveOneOutcome` | backend/src/services/omsEngine.ts:45-129 | an intent with a UUID key has exactly one outcome once a call for it has committed or finished, whatever the keys of the other intents |
| `OmsLaws.ChildrenComeWithTheirParent` | backend/src/services/omsEngine.ts:69-108 | for keys of any shape: a take-profit child of a parent exists if and only if that parent was created with a take-profit, and likewise a stop-loss child |
| `OmsLaws.ChildIsBorn` | backend/src/services/omsEngine.ts:71-107 | a child order in the log is the one that an intent of a created parent asked for |
| `OmsLaws.WhatOrdersSay` | backend/src/services/omsEngine.ts:58-107 | field by field: an order in the log is an arrived intent word for word, or closes one: opposite side, same user and symbol, linked to it, under its key with -tp or -sl, at the price and for the quantity of that link; the intent is then recorded as well |
| `OmsLaws.OrdersPassTheRiskCheck` | backend/src/services/omsEngine.ts:48-55 | no order is recorded without a call for its intent that the risk check let through |
| `OmsLaws.RejectionsSayWhy` | backend/src/services/omsEngine.ts:117-129 | every rejection carries the message with which some call for its intent was refused, failed to commit or failed to publish |
| `OmsLaws.ApprovedCall` | backend/src/services/omsEngine.ts:45-115 | from any state in which its keys are free, an approved call stores its one to three orders together, publishes each and is finished |
| `OmsLaws.RejectedCall` | backend/src/services/omsEngine.ts:117-129 | a refused call, or one whose commit fails, stores one rejection with the reason and is finished |
| `OmsLaws.CancelsAreRecorded` | backend/src/services/omsEngine.ts:134-145 | a cancel that was asked for is recorded if and only if nothing else sits on its key |
| `OmsLaws.CancelsThatCanBeLost` | backend/src/services/omsEngine.ts:134-145 | a cancel can be suppressed for good if and only if some intent has its key or lends it to a child |
| `OmsLaws.OtherKeysCanLoseTheirIntent` | backend/src/services/omsEngine.ts:134-145 | an intent named after a cancelled order, with -cancel appended, can end with no outcome at all |
| `KeyShapes.FillKeysAreInjective` | backend/src/services/matchingEngine.ts:43-43 | keys of fills between orders named by UUIDs, in any text a uuid column accepts, never collide |
| `FillRecords.FreeTradesAreRecorded` | backend/src/services/matchingEngine.ts:33-49 | in every interleaving with intents and cancels, whatever the keys: the log holds exactly the trades that found their key free, in order |
| `FillRecords.FillsAreCompleteExactly` | backend/src/services/matchingEngine.ts:33-49 | so every trade is recorded if and only if none finds its key taken |
| `FillRecords.WhatTakesAFillKey` | backend/src/services/matchingEngine.ts:43-43 | a trade finds its key taken if and only if an order event sits on it or the same two orders have traded before |
| `FillRecords.OnlyRepeatsAreSuppressed` | backend/src/services/matchingEngine.ts:33-49 | where no order event sits on the key of a trade, the log holds the first trade of every (taker, maker) pair, in order |
| `FillRecords.FillsThatCanBeLost` | backend/src/services/matchingEngine.ts:33-49 | a genuine trade can be lost if and only if some intent has its key or lends it to a child |
| `FillRecords.UuidsClaimNothingElse` | backend/src/services/omsEngine.ts:78-79 | an intent with a UUID key claims the key of no fill and of no cancel |
| `FillRecords.NoFillIsDropped` | backend/src/services/matchingEngine.ts:33-49 | if no pair trades twice: the log holds every trade, once and in order, if and only if none meets an order event on its key |
| `FillLaws.NoPairTwiceAnywhere` | backend/src/services/matchingWorker.ts:199-222 | across all symbols of the worker no pair of orders trades twice |
| `FillLaws.EveryPublishedTradeIsLogged` | backend/src/services/matchingEngine.ts:33-49 | from the worker to the log, handlers finishing in any order: no published trade is lost if and only if none meets an order event on its key, and none is lost when the keys of intents stay apart from those of the trades |
| `FillLaws.FillsSurviveExactlyWithoutClashes` | backend/src/services/matchingEngine.ts:43-43 | with ids of any shape: all trades of a run are recorded if and only if no dash can be shifted between two of their keys |
| `FillLaws.DashedIdsCanLoseAFill` | backend/src/services/matchingEngine.ts:43-43 | a run of the matcher alone in which a genuine second trade is taken for a repeat; its order ids are no UUIDs, so the orders table keeps them away from the matcher |
| `MatchingEngines.MatchingEngine.OnWorkerMessage` | backend/src/services/matchingEngine.ts:33-56 | a trade goes to the log under its pair key, a depth into the cache |
| `MatchingEngines.Serve` | backend/src/services/matchingEngine.ts:33-94 | worker and main thread together: the log records the trades of all books in order, and the depth served for a symbol is the top 20 of its current book |
| `TriggerEngines.TriggerEngine.AddTrigger` | backend/src/services/triggerEngine.ts:53-73 | files the trigger under its symbol in the registry of its type; without a price it is ignored |
| `TriggerEngines.TriggerEngine.RemoveTrigger` | backend/src/services/triggerEngine.ts:75-82 | filters the id out of both registries of the symbol |
| `TriggerEngines.TriggerEngine.EvaluateTriggers` | backend/src/services/triggerEngine.ts:84-107 | collects the satisfied stops and then the satisfied take-profits, in bucket order |
| `TriggerEngines.TriggerEngine.FireOne` | backend/src/services/triggerEngine.ts:109-122 | unfiles the next trigger and stores its event; a failure to store or to publish ends the evaluation |
| `TriggerLaws.TriggersFireAtMostOnce` | backend/src/services/triggerEngine.ts:109-122 | no trigger fires twice and none that has fired is still waiting, whatever happens in between |
| `TriggerLaws.EvaluationSoFar` | backend/src/services/triggerEngine.ts:84-122 | at any point after its tick an evaluation has fired a prefix of the satisfied triggers; an event that is not stored or not published ends it |
| `TriggerLaws.ExactlyTheSatisfiedFire` | backend/src/services/triggerEngine.ts:84-122 | when it has ended, exactly the triggers satisfied at the tick have fired, in order, if and only if no event failed to be stored and none before the last failed to be published; also those cancelled meanwhile |
| `TriggerLaws.WhoStillWaits` | backend/src/services/triggerEngine.ts:62-122 | whatever failed, a trigger filed at the tick still waits if and only if it was not cancelled, has not fired, and is not the one whose event was not stored |
| `TriggerLaws.UnsatisfiedStay` | backend/src/services/triggerEngine.ts:84-122 | a trigger the tick did not satisfy and nobody cancelled is still waiting, whatever failed |
| `TriggerLaws.BucketsKeepTheirOrder` | backend/src/services/triggerEngine.ts:62-82 | over any events a bucket keeps what has not left it in order, newcomers behind |
| `TriggerLaws.OpposedTriggersNeverMeet` | backend/src/services/triggerEngine.ts:91-107 | a sell stop below a sell take-profit, or a buy stop above a buy take-profit, never fire on one tick |
| `TriggerLaws.WhatATickMakesDue` | backend/src/services/triggerEngine.ts:84-106 | a trigger is due if and only if it waits for the symbol as a sell stop or buy take-profit priced at or above the tick, or as a buy stop or sell take-profit priced at or below it |
| `TriggerLaws.DueInBucketOrder` | backend/src/services/triggerEngine.ts:88-106 | the satisfied triggers of a bucket are due in its order |
| `TriggerLaws.WhatIsFiled` | backend/src/services/triggerEngine.ts:53-73 | an order with a price is filed behind the others of its symbol and kind, under its trigger price if it has one, else under its stop price |
| `Rsi.AruAlgo.ProcessCandle` | backend/src/services/aruAlgo.ts:137-171 | the value after each candle is the index of all closes so far, though the buffer keeps only the last ones; none before p + 1 candles, and never if the buffer is too short |
| `Rsi.ComputeRSI` | frontend/src/components/TVChart.tsx:90-132 | entry m of the batch is 50 up to m = p and the index of the first m + 1 closes from there on |
| `Rsi.Compare` | backend/src/services/aruAlgo.ts:137-171 | both forms agree from entry p + 1 on; at entry p if and only if gains and losses balance; the incremental one says something if and only if p is below the buffer length |
| `Rsi.IndexIsPercentage` | backend/src/services/aruAlgo.ts:167-170 | the index lies between 0 and 100 |
| `Rsi.BalancedIndex` | frontend/src/components/TVChart.tsx:117-121 | it is 50 if and only if average gain and loss are equal and not zero |
| `Rsi.IndexIsTheShareOfGains` | backend/src/services/aruAlgo.ts:167-170 | it is the share of the average gain in gain plus loss, in percent, and 100 - 100/101 without losses; so above 50 if and only if gains outweigh losses or nothing was lost |
| `Rsi.FirstAverages` | backend/src/services/aruAlgo.ts:148-158 | the first averages times the period are the sums of all rises and of all falls of the closes |
| `Rsi.NextAverages` | backend/src/services/aruAlgo.ts:144-164 | later the gain takes one p-th of a rise and the loss one p-th of a fall, both giving up one part in p of what they were |
| `Rsi.RiseMinusFall` | backend/src/services/aruAlgo.ts:150-156 | rises less falls are the net move of the closes |

## Left out

- Rounding of doubles and the eight decimals of NUMERIC columns: the model is exact.
- HTTP, sockets, authentication, worker start-up, logging, Redis and Postgres themselves: input and output only.
- Failures of the database in the middle of the ledger other than a refused statement, and crashes between two steps.
- Recording a fill when the store is down: the handler then loses the event; the model lets the store answer.
- Overlapping ticks: the event bus awaits every tick before the next, so there is one evaluation at a time.
- `Rsi.Compare`: the fields of a candle other than its close play no part, and a period is positive.
- Stop orders on their live path: `backend/src/services/matchingEngine.ts:68` forwards waiting triggers to the matcher, and triggers added live carry no id; the matcher here gets limit and market orders, and triggers have ids.
- Forwarding of order events to the worker: a field-by-field copy.
- Escrow for market orders: nothing locks funds for them.
- Accounts looked up twice under one owner and currency, and upper-casing of currency names.
- The read-model projection of `backend/src/services/omsEngine.ts:157-234`: its updates are unguarded, so a cancelled order can become active again.
- Risk validation: a verdict from outside.
- The stored `unrealizedPnl` after a close: it is not reset, so unrealized PnL is computed from size, entry and mark.
- Flushing positions to the database, and setting their leverage.
- `IdempotencyStore`: its two stores do not agree in general.
- Redis calls that fail: they succeed in the retry-queue model. A failing re-insertion after a failed handler loses the job.
- The payload of a retried job, which is carried along like its kind.
- Malformed entries in the retry queue, the trimming of the dead-letter list and its copy in Postgres.
- The other indicators of `AruAlgo`, its signals, and `getLatestIndicators`, which shares state with the live instance.
- Spread, depth, order flow, liquidity score and volatility state: sums and thresholds.
- The sum of unsigned amounts in the reconciliation worker: the signed check of the ledger is the one proved.
- Event bus, service registry, observability, analytics and the user interface: plumbing.
