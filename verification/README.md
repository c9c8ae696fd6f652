# Order book trading core, verified

A model in Dafny of the trading pipeline of the order book service, and proofs
about it. A user's funds are split into available and locked. Placing an order
locks what it may need, one engine matches orders by price and time and publishes
events, and settlement applies the events to wallets, trade history and an order
projection. The engine never looks at money and settlement never looks at the
book, so nothing in the code says why settlement cannot fail or why money is
conserved. That is what is proved here, over every interleaving of the parts.

`dafny verify dfyconfig.toml` checks the whole project.

## How it is built

- **Values.** `Domain`, `FlatBook`, `EventStream`, `Ledger`: orders, a book whose
  sides are plain lists matched recursively, the events of a command, and wallets
  as values. `Pipeline` is the whole system as a state machine: seed, reserve,
  enqueue, refuse, submit, engine, deliver. A run is any list of steps. A delivery
  may pick any published event at any time, so runs contain every reordering and
  every redelivery.
- **Objects.** `BookSides`, `OrderBooks`, `Stores`, `Engine`, `Settlement`,
  `Trading`, `Reconciliation`: classes that update their fields in place, as the
  service does, each method proved against the value functions above. The order
  book keeps its price list, its levels with their queues and its ID map; live
  orders are shared between queue and map and mutated while matching. `Systems`
  owns them all together: each thing it does is a step of `Pipeline`, and any list
  of steps, performed on the objects, is a run of `Pipeline`.
- **Finer and narrower machines.** `Grain` lets anything happen between two wallet
  updates of one event and between two published events of one command, and is
  proved to run the same runs; `Completion` proves the converse. `Machine` computes everything in wrapping 64-bit
  arithmetic, and `FineMachine` does so at the finer grain; for both it is proved
  exactly when they do what the exact machine does. `SelfTrades` is the run that
  tells them apart.
- **Properties.** `Claims` and `Collateral` hold the identity the whole system
  rests on; `Accounts`, `Delivery`, `Lifecycle`, `OrderLife`, `Execution`, `Depth`,
  `DepthQuery` and `Int64Bounds` the other properties; `Theorems` states them for
  whole runs. `Effects` says what each step does for whoever asked for it, `Records`
  what the log says of every trade and order; neither mentions how it is done.
  `Limits` says exactly where the guarantees stop holding.

Amounts are unbounded integers, except in `Machine`, `FineMachine` and
`SelfTrades`. As long as the seeded supply fits in 64 bits, two things can go
wrong in the wallets and no others. A BUY's price times quantity may wrap to an amount its owner
can pay; and halfway through a trade with oneself, when the units bought have come
and the units sold have not gone, a SELL may lock more than fits. If every BUY's
product fits, and the seeded Vibranium does together with the quantity of any
self-trade, a run in 64 bits is the exact run.

Where code and documentation disagree the code is followed. `event.go` says
releases are set on terminal updates only; the engine sets the refund on the
taker's update whatever its status. `README.md` presents the compensating release
as always safe. It is when the channel refused the order. When the channel took
the order and only the reply was given up, it is safe exactly if the wallet turns
it down; `Limits` proves that for every accepted order of every run and shows a
run in which money appears from nothing.

## Model

| member | source | states |
|---|---|---|
| `Theorems.ExactCollateral` | README.md:74-92 | After any run, what a user has locked of either asset is to the unit what that user's waiting orders, resting orders and unsettled events still claim; no balance is negative |
| `Theorems.SettlementNeverFails` | internal/core/service/settlement.go:121-174 | After any run, whichever published event is delivered next, every wallet update it asks for returns nil and moves exactly the event's amounts (self-trades included); a redelivered event changes nothing |
| `Theorems.CompensationNeverFails` | internal/core/service/trading.go:86-92 | After any run, releasing an order whose channel send failed succeeds |
| `Theorems.MoneyConserved` | README.md:91-92 | After any run, the total of each asset over all wallets is what was seeded, and each user's total is the seed plus what the recorded trades brought |
| `Theorems.SettlementOrderFree` | README.md:368-369 | Settling the same published events in any two orders, with any repetitions, leaves the same wallets |
| `Theorems.SupplyFlatBetweenSeeds` | internal/core/service/reconciliation.go:11-15 | Between seedings, every observation of the money supply taken between two settled events is the same |
| `Theorems.BookAlwaysSound` | internal/core/domain/orderbook.go:30-77 | After any run the book is ordered, its orders are live and unique, and the best bid is below the best ask |
| `Theorems.EventIdsNeverRepeat` | internal/adapter/driven/matching/engine.go:154-160 | Two events of one run never share an ID |
| `Theorems.ProducersNeverCollide` | internal/core/domain/event.go:24-31 | Events of two engines with different producer IDs never share an ID |
| `Theorems.ReservationAccounted` | internal/core/domain/order.go:88-104 | At every moment of a run, what an accepted order reserved equals what its trades paid or delivered, plus what was released to it, plus what still stands for it |
| `Theorems.FillsAreTrades` | internal/core/domain/orderbook.go:184-216 | An order's filled quantity is the total of the trades naming it and never exceeds its quantity; every trade pairs an accepted BUY and SELL within both limits |
| `Theorems.OrdersOnlyProgress` | internal/core/domain/order.go:60-63 | Along the log an order's filled quantity never falls and nothing follows a terminal status |
| `Theorems.ProjectionAgreesWithBook` | internal/adapter/driven/memstore/order.go:23-30 | In-step settlement stores what its part of the log says; caught up, the stored non-terminal orders are exactly the resting ones, field for field |
| `Theorems.EffectivelyOnce` | README.md:319-323 | Deliveries that repeat and rewind leave wallets, trades, projection and journal as if each event had been seen once |
| `Effects.CancelTakesEffect` | internal/adapter/driven/matching/engine.go:134-152 | After any run, a cancellation asked for when nothing else waits takes that order and no other off the book, and the log is longer by exactly one update: the order as it was but CANCELLED, with the collateral behind it as release |
| `Effects.CancelReturnsFunds` | internal/core/service/settlement.go:149-174 | Once that update is settled, the owner has exactly that collateral available again, and no other balance has changed |
| `Effects.CancelInVain` | internal/adapter/driven/matching/engine.go:135-141 | A cancellation for an order that does not rest changes nothing |
| `Effects.PlaceTakesEffect` | internal/core/domain/orderbook.go:162-233 | Once the engine has taken an order, the last event is that order under the next sequence number, filled for the lesser of its quantity and what crosses it; it rests exactly if something of it is left, and then nothing on the other side crosses it |
| `Effects.ReserveTakesEffect` | internal/core/service/trading.go:49-83 | A reservation under a new ID moves price times quantity of COP, or the quantity of Vibranium, from available to locked, exactly when the order is valid and its owner has that much; otherwise nothing changes |
| `Effects.RefuseTakesEffect` | internal/core/service/trading.go:86-92 | An order the channel refuses leaves, and what was locked for it is available again |
| `Effects.SendTakesEffect` | internal/adapter/driven/matching/engine.go:166-172 | An order that is sent comes last in the channel |
| `Effects.SubmitTakesEffect` | internal/adapter/driven/matching/engine.go:181-187 | A cancellation or a depth query comes last in the channel |
| `Effects.QueryTakesNothing` | internal/adapter/driven/matching/engine.go:110-112 | A depth query leaves everything as it was |
| `Effects.SeedTakesEffect` | internal/core/service/query.go:58-70 | A new user gets a wallet with the seed available; a known user, no name or a negative seed changes nothing |
| `Effects.DeliverTakesEffect` | internal/core/service/settlement.go:80-118 | A first delivery journals the event, shifts balances by exactly what it says, and extends history or projection by it; a repeated one changes nothing |
| `Records.StatusesTellFills` | internal/core/domain/orderbook.go:210-230 | Every published and every stored order is FILLED exactly when its filled quantity is its quantity, partially filled only in between, OPEN only when nothing is filled, or else CANCELLED |
| `Records.TradesAreNumbered` | internal/core/domain/orderbook.go:189-197 | The k-th trade of the log has sequence k, ID symbol-k and the symbol of the book |
| `Records.TradeIdsNeverRepeat` | internal/core/domain/orderbook.go:190-197 | No two trades share an ID, neither in the log nor in the trade history |
| `Records.EventsAreNumbered` | internal/adapter/driven/matching/engine.go:154-160 | The n-th event carries n in its sequence and in its ID |
| `Records.EventsArePlain` | internal/core/domain/event.go:16-46 | An event carries a trade or an order, not both, and a trade releases nothing |
| `Records.MakersFollowTrades` | internal/adapter/driven/matching/engine.go:117-121 | Right behind a trade comes its maker: on its side of it, at the price of the trade, with nothing released |
| `Records.OrdersAreNumbered` | internal/core/domain/orderbook.go:164-167 | The order counter is the number of orders accepted, less those withdrawn and those still waiting |
| `Limits.LateReleaseExact` | internal/core/service/trading.go:86-92 | Releasing an order after the channel took it keeps exact collateral if and only if the wallet turns the release down, having less locked than the order reserved |
| `Limits.LateReleaseInRun` | internal/adapter/driven/matching/engine.go:173-178 | So it is for every order ever accepted in any run, be it waiting, resting, filled or cancelled by then |
| `Limits.LateReleaseUnbacks` | internal/adapter/driven/matching/engine.go:173-178 | An order that still waits for the engine is fully backed, so its late release succeeds and breaks the collateral identity |
| `Limits.LateReleaseCreatesMoney` | internal/adapter/driven/matching/engine.go:166-179 | A run in which a late release makes the buyer's leg fail and the seller's apply, so that COP appears from nothing |
| `Limits.MoneyFromNothing` | README.md:385-388 | The same run on concrete values: ten COP more than were seeded |
| `Limits.TradeMovesSupply` | internal/core/service/settlement.go:127-141 | Supply moves by exactly what one leg of a trade did and the other did not |
| `Limits.TradeKeepsSupplyExactly` | README.md:385-388 | A trade keeps the COP supply if and only if both legs succeed, both fail, or no COP moves |
| `Limits.ReseedExact` | internal/core/service/query.go:58-70 | Seeding a wallet that exists keeps collateral exact if and only if nothing of it is locked |
| `Limits.ReseedInRun` | internal/core/service/query.go:58-70 | So it is for every user in every state of every run |
| `Limits.ReseedUnbacks` | internal/core/service/query.go:58-70 | A run in which it is not: a user whose funds all stand behind a waiting BUY is seeded again, whatever with |
| `Int64Bounds.NothingOverflows` | internal/core/domain/wallet.go:40-127 | If the seeded supply fits in int64, so does every balance, user total, supply sum, event amount, order claim and depth total between any two whole deliveries of every run |
| `Int64Bounds.RunningRefund` | internal/core/domain/orderbook.go:203 | Every intermediate value of the refund accumulator lies between zero and the final release, which is the sum of (limit - price) * quantity over the fills |
| `Int64Bounds.DepthWithinSupply` | internal/core/domain/orderbook.go:293-307 | The depth of the bid side is within the seeded COP, of the ask side within the seeded Vibranium |
| `Machine.ReservationBackedExactly` | internal/core/domain/order.go:90-95 | With a supply that fits, a BUY reservation computed in wrapping arithmetic leaves collateral exact if and only if the product fits, or wraps to a negative amount, or wraps to more than the user has available |
| `Machine.ReservationBackedInRun` | internal/core/service/trading.go:110-118 | So it is for the next reservation after any wrapping run none of whose reservations went wrong |
| `Machine.StepExactIff` | internal/core/domain/wallet.go:40-127 | Any step in wrapping arithmetic is the exact step, and keeps collateral exact, if and only if it is not a BUY taken for a wrapped product |
| `Machine.MachineRunIsExact` | internal/core/domain/wallet.go:40-127 | With a seeded supply that fits, a run of whole deliveries in wrapping arithmetic is where the exact run is at every moment if and only if no BUY along it is taken for a wrapped product |
| `Machine.FittingIsHarmless` | internal/core/domain/order.go:90-95 | It is enough that every BUY's product fits; a SELL's need not |
| `Machine.MatchExact` | internal/core/domain/orderbook.go:176-219 | The matching loop in wrapping arithmetic, refund accumulated fill by fill, is the exact match |
| `Machine.EngineExact` | internal/adapter/driven/matching/engine.go:104-152 | So is a whole engine step on a book whose orders and releases fit |
| `Machine.DeliverExact` | internal/core/service/settlement.go:121-174 | Settling an event in wrapping arithmetic is settling it exactly, when nothing comes between its wallet updates |
| `FineMachine.FineMachineRunIsExact` | internal/core/service/settlement.go:127-141 | With other steps between two wallet updates and between two published events, and a seeded supply that fits, a wrapping run is where the exact run is at every moment if and only if along it no BUY is taken for a wrapped product and no SELL locks more Vibranium than fits |
| `FineMachine.BalancesFitExactly` | internal/core/domain/wallet.go:40-127 | At every moment of such a run every balance fits, unless a trade with oneself stands between its legs; there, if and only if what its owner has locked fits |
| `FineMachine.NextSellFits` | internal/core/domain/wallet.go:51-62 | Every SELL that a user can place next is reserved exactly if and only if all the Vibranium of the user, available and locked, fits |
| `FineMachine.FittingRunsAreExact` | internal/core/domain/wallet.go:40-127 | If every BUY's product fits and so does the seeded Vibranium together with the quantity of any self-trade, the wrapping run never strays |
| `FineMachine.TwiceTheSeedsIsEnough` | internal/core/domain/wallet.go:40-127 | So it is when twice the seeded Vibranium fits |
| `FineMachine.StepFineExactIff` | internal/core/domain/wallet.go:40-127 | One step of such a run is exact if and only if it is harmless, and a harmless one keeps every balance in range |
| `FineMachine.SampleFits` | internal/core/service/reconciliation.go:81-85 | Every partial COP sum of a sample fits; the Vibranium sum does, unless a trade stands between its legs and its quantity does not fit on top of the seeds |
| `SelfTrades.BothComeHalfway` | internal/core/service/settlement.go:127-141 | A user's own BUY and SELL of q units trade; after the buyer's leg both machines show all v seeded units available and q locked |
| `SelfTrades.SelfTradeStrays` | internal/core/domain/wallet.go:51-62 | If v + q does not fit, a SELL of v units reserved at that moment makes the wrapped locked amount negative, the seller's leg is refused, and the COP the buyer's leg has spent is gone |
| `SelfTrades.OneCopIsLost` | internal/core/domain/wallet.go:108-119 | One COP and the largest int64 of units are such a case |
| `Machine.UnbackedOrderRests` | README.md:379-384 | A BUY whose product wraps to zero is accepted from a user without funds and rests with nothing behind it |
| `Machine.TwoToThe32CostsNothing` | README.md:379-384 | A BUY of 2^32 at 2^32 is one |
| `Int64Bounds.WrapIsTwosComplement` | internal/core/domain/order.go:90-95 | A wrapped result is in the range of int64 and off by a multiple of 2^64 |
| `Grain.FineRunsAreRuns` | internal/core/service/settlement.go:121-174 | However settlement is interrupted between two wallet updates and the engine between two published events - by reservations, compensations, seeding, each other - completing what they have in hand leads to a state of a run that did it at once |
| `Grain.FineEmit` | internal/adapter/driven/matching/engine.go:115-132 | Publishing one more event of the command in hand does not change that state |
| `Grain.NoLegEverFails` | internal/core/service/settlement.go:128-172 | No single wallet update of settlement ever fails, whatever came before it |
| `Grain.FineCollateral` | README.md:74-92 | Between two wallet updates a user has locked what the user's orders and unsettled events, published or about to be, claim plus what the event in hand has still to take |
| `Grain.MidTradeSample` | internal/core/service/reconciliation.go:66-73 | A sample of the money supply is exact except between the legs of a trade, when the notional is missing from COP and the quantity is counted twice in Vibranium |
| `Grain.LegsAreMoney` | internal/core/service/settlement.go:121-174 | The wallet updates of an event, one after the other, do what settling it does |
| `Completion.EveryRunCanFinish` | internal/core/service/settlement.go:121-174 | From every state between two small steps, the remaining wallet updates and publications alone lead to the state with nothing in hand |
| `Completion.CoarseRunsAreFine` | internal/adapter/driven/matching/engine.go:115-132 | Every run of whole engine steps and deliveries is what some run in the smallest steps does |
| `Systems.System.DriveFromStart` | internal/adapter/driven/matching/engine.go:88-102 | From the start, whatever steps the objects are asked for, they end in the state that the state machine reaches by the same steps, which every whole-run theorem is about |
| `Systems.System.Drive` | internal/adapter/driven/matching/engine.go:88-102 | The same from any state, adding to the system's objects none but new ones |
| `Systems.System.Perform` | internal/core/service/trading.go:49-108 | Each single step does what the state machine's does, with an order ID used before, an unknown position or an empty channel changing nothing; a cancellation, a query or a sent order comes last in the channel |
| `Systems.System.RunEngine` | internal/adapter/driven/matching/engine.go:104-152 | A turn of the engine's objects is the state machine's engine step and answers the command, takes the oldest command, puts no order object on the book but the one it carried, opens only new levels, and leaves wallets and all other orders alone |
| `Systems.System.Deliver` | internal/core/service/settlement.go:80-103 | Handling a published event in the settlement's objects is the state machine's delivery step |
| `Systems.System.DeliverInRun` | internal/core/service/settlement.go:121-174 | In a state some run reaches, settlement's objects log no failure, whichever published event they are handed |
| `Systems.System.Reserve` | internal/core/service/trading.go:49-83 | Validating an order and locking its funds is the state machine's reserve step; a new order object is kept to be sent exactly when there is no error |
| `Systems.System.Send` | internal/adapter/driven/matching/engine.go:166-172 | Sending the i-th of these to the channel is the enqueue step; that one leaves and comes last in the channel |
| `Systems.System.Cancel` | internal/core/service/trading.go:100-103 | Asking for a cancellation is the submit step, and the channel ends with it |
| `Systems.System.Refuse` | internal/core/service/trading.go:86-92 | Freeing the i-th one's funds when the channel refuses is the refuse step; that one leaves |
| `Systems.System.Seed` | internal/core/service/query.go:58-70 | Seeding a new user is the seed step, and the wallet object is new |
| `Systems.System.OrdersAreApart` | internal/core/domain/orderbook.go:128-137 | No order object that waits for the engine is on the book or waits twice |
| `OrderBooks.OrderBook.Place` | internal/core/domain/orderbook.go:162-233 | The loop over prices, levels and queues gives the fills, refund, taker and book of the recursive match over the flattened side, keeps the book valid, and puts no order object on it but the taker |
| `OrderBooks.OrderBook.MatchAgainst` | internal/core/domain/orderbook.go:176-219 | The matching loop ends in the state of the recursive match and touches nothing of the taker's own side |
| `OrderBooks.HitsReachMatch` | internal/core/domain/orderbook.go:176-219 | A loop that hits the front order until it cannot has computed the recursive match |
| `OrderBooks.OrderBook.Rest` | internal/core/domain/orderbook.go:235-242 | Resting inserts behind every order of equal or better price and makes the order findable |
| `OrderBooks.OrderBook.Cancel` | internal/core/domain/orderbook.go:244-268 | Cancel removes exactly the order with that ID, reports its unfilled collateral, reports nothing for an unknown ID, and keeps the book valid |
| `OrderBooks.OrderBook.Snapshot` | internal/core/domain/orderbook.go:270-277 | A snapshot shows, for each side, the lesser of depth and the number of prices (all of them for a depth that is not positive), best first, every price shown better than every price not shown, each with the quantity and the number of orders resting at it |
| `OrderBooks.OrderBook.constructor` | internal/core/domain/orderbook.go:141-149 | A new book is valid and empty |
| `OrderBooks.OrderBook.PricesAreLevels` | internal/core/domain/orderbook.go:30-36 | Prices are strictly best first and are the keys of levels; no level is empty |
| `OrderBooks.OrderBook.QueuedIsLive` | internal/core/domain/orderbook.go:23-36 | Every queued order has the level's price, the side's side, something left to trade, and is what the ID map holds for it |
| `OrderBooks.OrderBook.QueueInOrder` | internal/core/domain/orderbook.go:21-26 | A queue is in acceptance order |
| `OrderBooks.OrderBook.IndexedIsQueued` | internal/core/domain/orderbook.go:134 | Every order of the ID map stands in the queue of its price on its side |
| `OrderBooks.IndexesWith` | internal/core/domain/orderbook.go:235-242 | Adding an order to its side and to the map keeps the map exact |
| `OrderBooks.IndexesWithout` | internal/core/domain/orderbook.go:256-261 | Removing an order from its side and from the map keeps the map exact |
| `OrderBooks.OrderBook.Exchange` | internal/core/domain/orderbook.go:184-213 | Both orders advance by the traded quantity; the maker is FILLED exactly if nothing is left of it, else PARTIALLY_FILLED, and the taker's status stays |
| `OrderBooks.OrderBook.NewTrade` | internal/core/domain/orderbook.go:187-206 | A trade has the symbol, the maker's price, buyer and seller by side, its number as sequence and symbol-number as ID; a BUY taker gets back its limit for the quantity less what the trade costs |
| `BookSides.Search` | internal/core/domain/orderbook.go:59-64 | Bisection finds the smallest index from which on the predicate holds |
| `BookSides.BookSide.InsertPrice` | internal/core/domain/orderbook.go:55-68 | A new price is inserted where strict best-first order requires |
| `BookSides.BookSide.RemovePrice` | internal/core/domain/orderbook.go:70-77 | Only the given price leaves, and order is kept |
| `BookSides.BookSide.Add` | internal/core/domain/orderbook.go:45-53 | An order lands behind every order of equal or better price, opening its level if needed |
| `BookSides.BookSide.PopFront` | internal/core/domain/orderbook.go:79-86 | The first order leaves the side, and its level with it when empty |
| `BookSides.BookSide.Remove` | internal/core/domain/orderbook.go:88-105 | Exactly one order with that price and ID leaves, or there was none |
| `BookSides.BookSide.LevelsView` | internal/core/domain/orderbook.go:293-307 | The view shows the best prices of the side, as many as were asked for, best first and with what rests at each |
| `BookSides.BookSide.BestIsFirst` | internal/core/domain/orderbook.go:38-43 | The front order of the best level is the first of the flattened side |
| `Matching.MatchExplained` | internal/core/domain/orderbook.go:176-219 | Fills run through the makers from the front, each in full but perhaps the last, at the maker's price and within both limits, numbered consecutively, the maker FILLED if used up and else PARTIALLY_FILLED; the rest is untouched, and matching stops only when it must |
| `Matching.MatchIsTheExplanation` | internal/core/domain/orderbook.go:6-8 | Exactly one outcome - taker, rest, fills and refund - fits that description, so a book is a function of its commands |
| `BookInvariant.PlaceKeepsBookInv` | internal/core/domain/orderbook.go:162-242 | Place keeps both sides sorted by price then sequence, live, uniquely identified and uncrossed |
| `BookInvariant.CancelKeepsBookInv` | internal/core/domain/orderbook.go:244-268 | So does Cancel, after which the ID no longer rests |
| `BookInvariant.NeverCrossed` | internal/core/domain/orderbook.go:176-180 | The best bid is strictly below the best ask |
| `BookInvariant.InsertAtSlot` | internal/core/domain/orderbook.go:55-68 | An order is inserted at the first position whose price it beats |
| `Execution.PlaceFillsAllThatCrosses` | internal/core/domain/orderbook.go:176-219 | A taker fills exactly the lesser of its quantity and the quantity resting at prices it accepts |
| `Execution.BestExecution` | internal/core/domain/orderbook.go:33-36 | No other way of taking that quantity from the resting orders costs a BUY less or pays a SELL more |
| `Execution.CancelUndoesResting` | internal/core/domain/orderbook.go:235-268 | Cancelling what has just come to rest restores both sides as the match left them |
| `Execution.CancelReleasesUnfilled` | internal/core/domain/orderbook.go:263-267 | Cancel releases exactly the unfilled part of the reservation |
| `Execution.PlaceThenCancel` | internal/core/domain/orderbook.go:162-268 | A non-crossing Place followed by its Cancel restores both sides and releases the whole reservation |
| `Execution.CancelOnce` | internal/core/domain/orderbook.go:244-250 | A second Cancel of the same ID fails |
| `Execution.CancelTakesOff` | internal/core/domain/orderbook.go:246-268 | Cancelling any resting order takes exactly it off its side, turns it CANCELLED, releases the collateral behind it, and touches no counter |
| `Execution.NothingToCancel` | internal/core/domain/orderbook.go:246-250 | There is nothing to cancel exactly when no resting order has that ID |
| `Depth.LevelsTotal` | internal/core/domain/orderbook.go:293-307 | All levels together count every unit resting on the side |
| `Depth.LevelsSorted` | internal/core/domain/orderbook.go:293-307 | Levels run strictly best price first |
| `Depth.LevelsExact` | internal/core/domain/orderbook.go:293-307 | Each level's quantity and count are those of the orders resting at its price |
| `Depth.LevelsOfBlock` | internal/core/domain/orderbook.go:293-307 | A queue in front of other prices aggregates to one level |
| `DepthQuery.TopShowsBest` | internal/core/domain/orderbook.go:293-307 | The first levels of a sorted side are its best prices: none left out is as good as one shown, and none is counted twice |
| `EventIds.JoinInjective` | internal/adapter/driven/matching/engine.go:154-160 | producer-sequence determines both producer and sequence, whatever the producer ID contains |
| `EventIds.ParseDecimal` | internal/core/domain/orderbook.go:316 | Decimal formatting loses nothing |
| `Engine.Worker.PublishEvent` | internal/adapter/driven/matching/engine.go:154-160 | An event is numbered one past the last, identified, and appended |
| `Engine.Worker.HandlePlace` | internal/adapter/driven/matching/engine.go:115-132 | Publishes every fill as a trade and a maker update, then the taker with its refund, for the book's own outcome |
| `Engine.Worker.HandleCancel` | internal/adapter/driven/matching/engine.go:134-152 | Publishes one update carrying both releases, or answers not found and publishes nothing |
| `Engine.Worker.Handle` | internal/adapter/driven/matching/engine.go:104-152 | One command does to book and log what the state machine's engine step does, and is answered: a placed order with its state after matching, which is also the last event published; a cancelled one with the CANCELLED order of the one event published; an unknown ID with not-found, and nothing published; a query with the best levels |
| `Engine.Worker.Step` | internal/adapter/driven/matching/engine.go:88-113 | The oldest command waiting is the one processed and answered |
| `Engine.Worker.Run` | internal/adapter/driven/matching/engine.go:88-102 | Draining the channel leaves the book and publishes the events of processing every waiting command in order |
| `Reachability.QueueReady` | internal/adapter/driven/matching/engine.go:164-168 | In every reachable state each waiting order can be placed when its turn comes |
| `Reachability.DrainingIsRunning` | internal/adapter/driven/matching/engine.go:88-102 | Processing every waiting command is that many engine steps of the state machine |
| `Claims.PlaceConservesClaims` | internal/core/domain/orderbook.go:162-233 | For every user and for every order, the claims of the book and of the incoming order equal those of the resulting book and events |
| `Claims.CancelConservesClaims` | internal/core/domain/orderbook.go:244-268 | Cancel turns a resting claim into an equal release |
| `Claims.RefundNonNegative` | internal/core/domain/orderbook.go:199-203 | A refund is never negative |
| `Ledger.CoveredSettles` | internal/core/domain/wallet.go:92-119 | Wallets that cover an event's claims settle it without error, buyer and seller possibly the same user |
| `Ledger.MoneyKeepsSupply` | internal/core/domain/wallet.go:92-127 | An event that settles without error creates and destroys nothing |
| `Ledger.OpKeepsSupply` | internal/core/domain/wallet.go:36-90 | Reserving and releasing leave the supply alone |
| `Ledger.SupplyWithout` | internal/core/service/reconciliation.go:81-85 | A supply may be added up in any order |
| `Reachability.StepInv` | internal/adapter/driven/matching/engine.go:104-160 | Every step keeps waiting orders unique and off the book, events well formed, and the journal a part of the log |
| `Reachability.HeadPlaceable` | internal/adapter/driven/matching/engine.go:164-168 | The order the engine takes next is validated, unfilled and not resting |
| `Collateral.EngineClaims` | internal/adapter/driven/matching/engine.go:115-152 | The engine moves claims between orders and events and changes no user's total |
| `Collateral.DeliverClaims` | internal/core/service/settlement.go:80-92 | Journalling an event settles its claims and no others |
| `Collateral.RefuseCollateral` | internal/core/service/trading.go:120-134 | A compensating release succeeds and gives back exactly the reservation |
| `Collateral.DeliverySettles` | internal/core/service/settlement.go:121-174 | Any unsettled event, delivered in any order, settles without error |
| `Collateral.StepCollateral` | README.md:74-92 | Every step keeps locked funds equal to claims |
| `Accounts.StepAccounts` | README.md:91-92 | Every step keeps the supply and keeps each total explained by the trade history |
| `Accounts.SettlementOrderIrrelevant` | README.md:368-369 | Wallets depend on which events are settled, not on their order |
| `Delivery.OnlyFirstsMatter` | internal/core/service/settlement.go:80-92 | Handling a sequence of events is handling its first occurrences |
| `Delivery.RewindsAreHarmless` | README.md:319-323 | A consumer that rewinds any number of times reaches the ledger of one that does not |
| `Lifecycle.TrackPlace` | internal/adapter/driven/matching/engine.go:115-132 | The events of a Place turn a projection of the old book into one of the new book, and keep filled equal to traded |
| `Lifecycle.TrackCancel` | internal/adapter/driven/matching/engine.go:134-152 | So do the events of a Cancel |
| `OrderLife.StepProjection` | internal/adapter/driven/matching/engine.go:115-152 | Every step keeps the log's projection in step with the book |
| `OrderLife.StepReservations` | internal/core/domain/order.go:88-104 | Every step keeps every order's reservation accounted for |
| `OrderLife.StepStores` | internal/core/service/settlement.go:104-154 | Every step keeps trade history and projection those of the applied events |
| `Stores.WalletCell.ReserveCOP` | internal/core/domain/wallet.go:39-49 | Moves available to locked, or reports a negative or unaffordable amount and changes nothing |
| `Stores.WalletCell.ReserveVibranium` | internal/core/domain/wallet.go:51-62 | The same for Vibranium |
| `Stores.WalletCell.ReleaseCOP` | internal/core/domain/wallet.go:66-77 | Moves locked to available, or reports why not and changes nothing |
| `Stores.WalletCell.ReleaseVibranium` | internal/core/domain/wallet.go:79-90 | The same for Vibranium |
| `Stores.WalletCell.SettleBuy` | internal/core/domain/wallet.go:94-106 | Spends locked COP for available Vibranium, or reports why not and changes nothing |
| `Stores.WalletCell.SettleSell` | internal/core/domain/wallet.go:108-119 | Delivers locked Vibranium for available COP, or reports why not and changes nothing |
| `Stores.WalletStore.Update` | internal/adapter/driven/memstore/wallet.go:50-64 | One wallet is mutated in full, or an error is reported and every wallet is as before |
| `Stores.WalletStore.UpdateAny` | internal/adapter/driven/memstore/wallet.go:50-64 | The same for any mutation at all: what it did before it failed is rolled back |
| `Stores.WalletStore.Upsert` | internal/adapter/driven/memstore/wallet.go:41-48 | The wallet of that user is replaced by a copy; all others stay |
| `Stores.WalletStore.List` | internal/adapter/driven/memstore/wallet.go:66-76 | Every wallet exactly once, sorted by user ID |
| `Stores.LessIsLexicographic` | internal/adapter/driven/memstore/wallet.go:74 | That order is the lexicographic one: where two IDs first differ the smaller character comes first, and a beginning before the whole |
| `Stores.Journal.MarkProcessed` | internal/adapter/driven/memstore/journal.go:25-34 | An ID is new exactly once |
| `Stores.TradeStore.Recent` | internal/adapter/driven/memstore/trade.go:31-44 | The newest trades, newest first, up to the limit; a non-positive limit means all |
| `Stores.EventLog.Receive` | internal/adapter/driven/memlog/eventlog.go:27-31 | Events are received in the order they were published |
| `Settlement.Service.Run` | internal/core/service/settlement.go:53-68 | Consuming the stream handles every waiting event once, in order |
| `Settlement.Service.Handle` | internal/core/service/settlement.go:70-103 | An event is skipped when the journal has it or does not answer; a new one is journalled and applied; nothing is logged as failed exactly when the journal answers and every wallet update is covered |
| `Settlement.Service.Apply` | internal/core/service/settlement.go:105-118 | What each type of event does to wallets, history and projection |
| `Settlement.Service.ApplyTrade` | internal/core/service/settlement.go:120-147 | Both legs are attempted whatever the other returned, and the trade is recorded once |
| `Settlement.Service.ApplyOrderUpdate` | internal/core/service/settlement.go:149-174 | The projection is refreshed and each positive release is applied |
| `Trading.Service.PlaceOrder` | internal/core/service/trading.go:48-98 | Which error, which order, which funds and which command each path leaves: the engine's reply, the rejected order, or none, down to a caller that gives up after the order was sent |
| `Trading.ErrorsSayWhy` | internal/core/service/trading.go:60-92 | Each error of PlaceOrder comes back under its own condition and no other: an invalid field, no wallet, too little COP for a BUY, too little Vibranium for a SELL, an engine that gave no answer |
| `Trading.Service.Submit` | internal/core/service/trading.go:84-92 | Funds stay locked exactly behind an answered order; one that was sent but not answered stays in the channel with its funds freed |
| `Trading.ReleaseUndoesReserve` | internal/core/service/trading.go:110-134 | Releasing right after reserving restores every wallet |
| `Trading.PlacingIsTwoSteps` | internal/core/service/trading.go:48-98 | An uninterrupted PlaceOrder is the state machine's reserve followed by refuse, by enqueue, or by enqueue and a late release |
| `Trading.SeedService.Seed` | internal/core/service/query.go:57-70 | A wallet is created or replaced, unless the user is missing or a balance negative |
| `Reconciliation.Service.Sample` | internal/core/service/reconciliation.go:66-104 | The sums are the supply of the wallets, a change against the baseline is reported, and the baseline moves with it |
| `Reconciliation.ListingTotal` | internal/core/service/reconciliation.go:81-85 | Adding up any listing of the wallets gives the supply |
| `Domain.Order.Validate` | internal/core/domain/order.go:126-144 | An order is valid exactly when side, user, symbol, price and quantity are; each error names the first of these that is not |

## Left out

- HTTP, configuration, bootstrap, telemetry, the load test: input/output and wiring.
- Postgres, Kafka and Redis adapters: foreign systems; the in-memory stores are modelled, and a delivery may pick any published event.
- Timestamps, metrics, loggers: dropped. A failed wallet update, which settlement only logs, is the result `clean` of its methods.
- Random generation of order and producer IDs: parameters, with the condition that order IDs do not repeat.
- Seeding a wallet that exists is not a step of the state machine; `Limits.ReseedInRun` says when it would be safe.
- A release after the channel took the order is not a step of the state machine; `Limits.LateReleaseInRun` says what it does in any state.
- Crashes between journalling and applying, and engine restarts: one engine lives for the whole run.
- Trading.Service.PlaceOrder: the engine's reply is a parameter, because the engine runs elsewhere; which reply it is, Engine.Worker.Handle says.
- Channel capacity, blocking, cancellation and fairness: queues are unbounded and nothing is claimed about progress.
- `ORDER_ACCEPTED` events: settlement's branch is modelled, the engine never emits one.
- Counters (order, trade and event sequence) are unbounded, also in the 64-bit machines; a price or quantity beyond int64 is not an input of theirs.
- Machine.DeliverExact: has no step between the two wallet updates of an event; FineMachine.StepFineExactIff does.
- Int64Bounds.NothingOverflows: speaks of states between whole deliveries; FineMachine.BalancesFitExactly speaks of all others.
- Machine.MachineRunIsExact: keeps each delivery whole; FineMachine.FineMachineRunIsExact does not.
- The durable log behind `Systems.System.Drive` keeps every published event; the in-memory one of the service forgets what it has handed out.
- Lookups and counts that only read a field (the order lookup, the trade count): nothing to state.
- Theorems.FillsAreTrades: speaks of trades in the log; that the trade store holds those of the settled part is in Theorems.ProjectionAgreesWithBook.
- Theorems.SupplyFlatBetweenSeeds: leaves out samples taken between the two legs of a trade, which Grain.MidTradeSample covers.
