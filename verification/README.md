# Order book, ring buffer and thread pool: a Dafny model

The project models four components and proves properties of the models.

* **The matching engine** (`LimitOrderBook`). `Engine.dfy` is the class with its index
  arrays, updated in place: intrusive doubly linked FIFO queues per price level, a free
  list, an id index, cached level totals at the width of `QtyT`, a 64-bit-word bitset and
  cached best levels. Its public operations are proved equal to a specification on a
  *view* (`IndexedBook.dfy`): the book of all resting orders, together with the part of it
  that the level index shows. The two differ only when a level total has wrapped to zero,
  since `unlink_order` takes a total of zero to mean an empty level. No assumption on
  totals is made: `Widths.dfy` proves exactly when nothing is hidden, and then the engine
  is price-time matching (`PriceTimeBook.dfy`, `BookLaws.dfy`); `Beforehand.dfy` reads off
  the book before a call, at every width, whom it will trade with and whether it will
  fail. What a whole run keeps is proved of the specification that each method equals. `EngineState.dfy`,
  `EngineSteps.dfy` and `EngineFacts.dfy` hold the storage invariant and its preservation;
  `Bits.dfy` the word arithmetic.
* **The account wrapper** (`OrderBook::Impl`). `Exchange.dfy` is the class; `Ledger.dfy`,
  `Replay.dfy` and `ExchangeSpec.dfy` give its meaning and laws, `TradeLog.dfy` the trade
  ring, `Depth.dfy` the aggregated depth, `Witnesses.dfy` short runs that refute expected
  laws. The engine has moved on before its executions are replayed, so the invariant is
  carried over the executions not yet applied.
* **The single-producer single-consumer ring** (`SpscRing.dfy`), one step per atomic or
  buffer access; a load of the other side's index may return any value not older than the
  last one seen.
* **The work-stealing pool** (`StealingPool.dfy`), a transition system with any number of
  submitters and workers and try-locks that may fail at any time.

Where the code differs from what one would expect of it, the model follows the code:

* `submit_bid` locks quote without debiting it, so the price-improvement refund adds quote
  (`ExchangeSpec.QuoteConservedExactly`, `Witnesses.QuoteFromNothing`).
* `addBalance` checks a withdrawal against the balance, not the unlocked part
  (`ExchangeSpec.DepositKeepsGood`, `Witnesses.WithdrawalOfLockedQuote`).
* `process_order` can trade and still return false, exactly when its limit reaches too
  little quantity and its id is active on an order it does not reach
  (`Beforehand.RejectedExactlyAt`, `Witnesses.RefusedAfterTrading`).
* A wrapped level total can drop a level from the index
  (`Widths.ProcessExact`, `Widths.RemoveExact`, `Widths.WrappedLevelIsLost`), and the depth
  is then wrong (`Depth.FirstOfScan`, `Depth.DepthOfLostLevel`). Discarding the remainder of
  an order can do the same to its own level (`Widths.DiscardExactly`).
* The comment on `pending_` says that it makes `wait_idle` well defined; it does so exactly
  when no submit is between its push and its increment (`StealingPool.IdleExactly`,
  `StealingPool.ZeroWithReturnedSubmit`).

`dafny verify dfyconfig.toml` checks the whole project.

## Model

| member | source | states |
|---|---|---|
| Bits.WithLevelAt | projects/orderbook_implementation/include/limit_order_book.hpp:98-114 | Setting or clearing the bit of one level changes that level in the 64-bit-word bitset and no other, for any number of words. |
| Bits.CountlZero | projects/orderbook_implementation/include/limit_order_book.hpp:123-137 | 63 minus the leading-zero count of a non-zero word is its highest set digit, with nothing set above it. |
| Bits.CountrZero | projects/orderbook_implementation/include/limit_order_book.hpp:140-155 | The trailing-zero count of a non-zero word is its lowest set digit, with nothing set below it. |
| EngineSteps.HighestInWord | projects/orderbook_implementation/include/limit_order_book.hpp:123-137 | The top digit of the last non-zero word is the highest occupied level and is in range, so the in-range test after the scan never fails. |
| EngineSteps.LowestInWord | projects/orderbook_implementation/include/limit_order_book.hpp:140-155 | The bottom digit of the first non-zero word is the lowest occupied level and is in range. |
| PriceTimeBook.BestIsBest | projects/orderbook_implementation/include/limit_order_book.hpp:256-263 | The best level of the abstract book is the maximum non-empty bid level, the minimum non-empty ask level, and -1 exactly when the side is empty. |
| BookLaws.PrioritySorted | projects/orderbook_implementation/include/limit_order_book.hpp:283-317 | The line of makers lists better price levels before worse ones. |
| BookLaws.PriorityDeterminesQueues | projects/orderbook_implementation/include/limit_order_book.hpp:283-317 | Every FIFO level queue can be read back from the line of makers, so the line loses nothing. |
| BookLaws.MatchFollowsPriority | projects/orderbook_implementation/include/limit_order_book.hpp:283-317 | For every book and taker, matching takes a prefix of the price-time line: all but the last maker in full, never past the limit, maker price as execution price; it stops only when the taker is filled or the next maker does not cross, and a partly filled maker stays in front. |
| BookLaws.MatchConserves | projects/orderbook_implementation/include/limit_order_book.hpp:283-317 | Traded quantity plus remainder is the quantity that came in. |
| BookLaws.AcceptedInFull | projects/orderbook_implementation/include/limit_order_book.hpp:273-376 | An accepted order is traded or rested in full: traded plus rested is qty, and the rested part is appended at the tail of its own level. |
| BookLaws.FreshIdAccepted | projects/orderbook_implementation/include/limit_order_book.hpp:275-277 | Under an inactive id a call is rejected for bad arguments only, and then nothing has happened. |
| Beforehand.RefusedOutright | projects/orderbook_implementation/include/limit_order_book.hpp:275-277 | At every width: a zero quantity, a price off the range or an id out of range is refused with nothing changed, and under an inactive id nothing else is. |
| Beforehand.LeftoverExactly | projects/orderbook_implementation/include/limit_order_book.hpp:283-317 | A taker is left with a remainder exactly when the offers its limit reaches have too little between them, and it has then taken every one of them in full. |
| Beforehand.ReachIsAll | projects/orderbook_implementation/include/limit_order_book.hpp:285-288 | Behind the first maker that does not cross the limit no other crosses, so what a limit reaches is everything that crosses it. |
| Beforehand.MatchAtIsCutMatch | projects/orderbook_implementation/include/limit_order_book.hpp:224-317 | At every width, whatever is hidden and whatever wraps: matching gives the executions and the remainder of price-time matching on the shown book, with every queue cut where the total left behind first reads zero. |
| Beforehand.SameTradesExactly | projects/orderbook_implementation/include/limit_order_book.hpp:224-317 | From any view and at every width, the executions are those of price-time matching on the whole book if and only if the line the engine sees is the line of the book as far as the limit reaches and the quantity lasts. |
| Beforehand.FittedIsUncut | projects/orderbook_implementation/include/limit_order_book.hpp:224-234 | With totals that fit nothing is cut off. |
| Beforehand.CleanMatchExactly | projects/orderbook_implementation/include/limit_order_book.hpp:224-234 | Matching on a fully shown book hides nothing exactly when no order that the limit reaches and the quantity fills leaves orders of its level behind with a total reading zero: read off the makers' line, without replaying the matching. |
| Beforehand.ActiveAfterAt | projects/orderbook_implementation/include/limit_order_book.hpp:299-310 | At every width: after a matching that leaves a remainder, an id is active exactly if it was active and did not trade. |
| Beforehand.RejectedExactly | projects/orderbook_implementation/include/limit_order_book.hpp:319-321 | On the width-free book, a call with good arguments returns false exactly when its limit reaches too little and its id is active on an order it does not reach; it has then traded all it reaches, so something exactly when anything crosses. |
| Beforehand.RejectedAfterMatching | projects/orderbook_implementation/include/limit_order_book.hpp:319-321 | At every width: rejection is a remainder meeting an id still active after matching, and the book matching left is kept. |
| Beforehand.RejectedExactlyAt | projects/orderbook_implementation/include/limit_order_book.hpp:319-321 | The same condition before the call for process_order itself, at every width and with anything hidden; a rejected call leaves no trace exactly when it reaches nobody. |
| BookLaws.ProcessKeepsBook | projects/orderbook_implementation/include/limit_order_book.hpp:273-376 | Every call, accepted or not, keeps ids unique, quantities positive and the book uncrossed. |
| BookLaws.RestThenRemove | projects/orderbook_implementation/include/limit_order_book.hpp:186-235 | Cancelling an order that has just been rested restores the abstract book. |
| BookLaws.SubmitThenCancel | projects/orderbook_implementation/src/OrderBook.cpp:141-146 | Submitting under a fresh id and cancelling leaves exactly the book that matching alone leaves; an order that crosses nothing leaves no trace. |
| BookLaws.RunsNeverCross | projects/orderbook_implementation/include/limit_order_book.hpp:319-326 | In every run of orders, cancels and resets on the width-free book the best bid stays below the best ask. |
| IndexedBook.MatchAtLeaves | projects/orderbook_implementation/include/limit_order_book.hpp:283-317 | At every width of Qty and whatever has wrapped: traded plus remainder is qty, queues only shrink, no new level is shown, and matching stops only when filled or when nothing shown crosses. |
| IndexedBook.EachMakerOnce | projects/orderbook_implementation/include/limit_order_book.hpp:283-317 | One call trades with each maker at most once. |
| IndexedBook.ProcessAtKeeps | projects/orderbook_implementation/include/limit_order_book.hpp:273-376 | process_order keeps ids unique, quantities positive, each level shown whole or not at all, and the shown prices uncrossed, with no assumption on level totals. |
| IndexedBook.RemoveAtKeeps | projects/orderbook_implementation/include/limit_order_book.hpp:379-393 | cancel keeps the same, with no assumption on level totals. |
| IndexedBook.RunsStaySteady | projects/orderbook_implementation/include/limit_order_book.hpp:238-263 | In every run of process_order, cancel and reset, at every width and with totals wrapping, the invariant holds and best_bid stays below best_ask whenever both exist. |
| Widths.HiddenStays | projects/orderbook_implementation/include/limit_order_book.hpp:224-234 | A level that has dropped out of the index on the makers' side stays out while matching goes on. |
| Widths.MatchExact | projects/orderbook_implementation/include/limit_order_book.hpp:283-317 | With the whole book indexed, matching at width m equals price-time matching if no filled order leaves a level totalling zero modulo m, and otherwise leaves a non-empty level out of the index. |
| Widths.ProcessExact | projects/orderbook_implementation/include/limit_order_book.hpp:273-376 | process_order leaves the whole book indexed if and only if no order it fills leaves a non-empty level totalling zero at the width of Qty; and then its result, executions and book are the price-time ones. |
| Widths.RemoveExact | projects/orderbook_implementation/include/limit_order_book.hpp:224-234 | cancel leaves the whole book indexed if and only if the level it takes from is left empty or with a total that does not read zero. |
| Widths.PlainExactly | projects/orderbook_implementation/include/limit_order_book.hpp:200-234 | Over a run, the engine is the width-free price-time book with nothing hidden at any step exactly when every operation is clean in the book it meets. |
| Widths.FitsIsCleanMatch | projects/orderbook_implementation/include/limit_order_book.hpp:224-234 | Level totals that fit in Qty on the makers' side make the condition hold. |
| Widths.ProcessFits | projects/orderbook_implementation/include/limit_order_book.hpp:200-200 | After an order all totals fit if and only if its remainder fits on top of its own level. |
| Widths.RemoveFits | projects/orderbook_implementation/include/limit_order_book.hpp:379-393 | A cancel keeps totals that fit. |
| Widths.FitsAfterIsClean | projects/orderbook_implementation/include/limit_order_book.hpp:224-234 | A cancel that leaves fitting totals is clean even if the level did not fit before. |
| Widths.RestedCancelExactly | projects/orderbook_implementation/include/limit_order_book.hpp:186-235 | From any view, at every width: resting an order and cancelling it restores the book, and the index with it exactly when the level was shown before if and only if its total does not read zero. |
| Widths.DiscardExactly | projects/orderbook_implementation/src/OrderBook.cpp:141-144 | Submitting under a fresh id and discarding the remainder leaves a fully indexed book fully indexed if and only if matching is clean and, when something was left over, the orders at its own price do not total zero at the width of Qty. |
| Widths.FreshCancelIsClean | projects/orderbook_implementation/src/OrderBook.cpp:141-144 | On the width-free book, taking out an order just entered is clean exactly when its level had no false zero before, or nothing was rested; when all totals fitted it is, even if resting made the level overflow. |
| Widths.WrappedLevelIsLost | projects/orderbook_implementation/include/limit_order_book.hpp:224-234 | At every width, a run of three sells and a cancel after which two asks rest and the engine has no best ask. |
| EngineSteps.RestKeepsIndex | projects/orderbook_implementation/include/limit_order_book.hpp:186-207 | Allocating a slot and linking it behind its level keeps queues, free list, id index, totals, bits and best level in agreement. |
| EngineSteps.DropKeepsIndex | projects/orderbook_implementation/include/limit_order_book.hpp:209-235 | Unlinking any order and freeing its slot keeps the same agreement with what the zero test leaves shown. |
| EngineSteps.ReduceKeepsIndex | projects/orderbook_implementation/include/limit_order_book.hpp:299-300 | A partial fill of the head of a shown level keeps the same agreement. |
| EngineSteps.ResetIsIndexed | projects/orderbook_implementation/include/limit_order_book.hpp:240-254 | The arrays that reset fills encode the empty book with every slot free. |
| EngineSteps.DroppedPartition | projects/orderbook_implementation/include/limit_order_book.hpp:174-184 | Level queues and free list still partition the pool slots after a slot is freed. |
| EngineSteps.QueuedPartition | projects/orderbook_implementation/include/limit_order_book.hpp:157-172 | Level queues and free list still partition the pool slots after a slot is taken. |
| EngineFacts.SoundIsWellFormed | projects/orderbook_implementation/include/limit_order_book.hpp:157-235 | From the array invariant: every id rests at most once in the whole book and every resting quantity is positive. |
| EngineFacts.IdIndexIsResting | projects/orderbook_implementation/include/limit_order_book.hpp:157-172 | id_to_idx_ holds a slot for exactly the ids resting in the book. |
| EngineFacts.FindSlot | projects/orderbook_implementation/include/limit_order_book.hpp:379-389 | The slot id_to_idx_ gives lies on the queue of the side and level it stores, with that id. |
| EngineFacts.FreeSlotForInactiveId | projects/orderbook_implementation/include/limit_order_book.hpp:157-172 | Pigeonhole: while an in-range id is inactive the free list is not empty, so the pool never runs out for a usable id. |
| EngineFacts.CancelFacts | projects/orderbook_implementation/include/limit_order_book.hpp:379-393 | Unlinking and freeing the slot of an active id is removing that id from book and index. |
| EngineFacts.FullFill | projects/orderbook_implementation/include/limit_order_book.hpp:299-310 | Emptying, unlinking and freeing the head of the best level is one full trade of the specification. |
| Engine.LimitOrderBook.constructor | projects/orderbook_implementation/include/limit_order_book.hpp:238-238 | A new engine is valid and holds the empty book, with its arrays distinct and of the template sizes. |
| Engine.LimitOrderBook.Reset | projects/orderbook_implementation/include/limit_order_book.hpp:240-254 | From any contents, reset restores the invariant with the empty book. |
| Engine.LimitOrderBook.SetOccupied | projects/orderbook_implementation/include/limit_order_book.hpp:106-114 | Changes exactly one level's bit and nothing else in the engine. |
| Engine.LimitOrderBook.FindBestBid | projects/orderbook_implementation/include/limit_order_book.hpp:123-137 | Returns the highest occupied bid level, or none, by one-word or multi-word scan, for any number of levels. |
| Engine.LimitOrderBook.FindBestAsk | projects/orderbook_implementation/include/limit_order_book.hpp:140-155 | Returns the lowest occupied ask level, or none. |
| Engine.LimitOrderBook.AllocOrder | projects/orderbook_implementation/include/limit_order_book.hpp:157-172 | Fails exactly for an out-of-range or active id or an empty free list and then changes nothing; otherwise pops the free list and enters the id. |
| Engine.LimitOrderBook.FreeOrder | projects/orderbook_implementation/include/limit_order_book.hpp:174-184 | Pushes the slot of an active id on the free list and clears the id; otherwise changes nothing. |
| Engine.LimitOrderBook.LinkBehind | projects/orderbook_implementation/include/limit_order_book.hpp:186-198 | The in-place link updates that put a slot behind the tail of a level, on the arrays. |
| Engine.LimitOrderBook.JoinNeighbours | projects/orderbook_implementation/include/limit_order_book.hpp:209-222 | The in-place link updates that join the neighbours of a slot or move the ends of its level, on the arrays. |
| Engine.LimitOrderBook.LinkNewOrder | projects/orderbook_implementation/include/limit_order_book.hpp:186-207 | Links, total, bit and cached best after linking, stated on all arrays at once. |
| Engine.LimitOrderBook.UnlinkOrder | projects/orderbook_implementation/include/limit_order_book.hpp:209-235 | Links, total, quantity, bit and rescanned best after unlinking, stated on all arrays at once. |
| Engine.LimitOrderBook.FillHead | projects/orderbook_implementation/include/limit_order_book.hpp:299-310 | Trades t with the oldest order of a shown level: the view afterwards is the specification's, and a filled order is unlinked and freed. |
| Engine.LimitOrderBook.RestOrder | projects/orderbook_implementation/include/limit_order_book.hpp:319-328 | Rests the remainder at the tail of its level exactly when its id is inactive; otherwise changes nothing. |
| Engine.LimitOrderBook.MakerFacts | projects/orderbook_implementation/include/limit_order_book.hpp:288-296 | The head of a best level is always a real order with positive quantity, so the branches for an empty head at a best level are unreachable. |
| Engine.LimitOrderBook.BestBid | projects/orderbook_implementation/include/limit_order_book.hpp:256-259 | The best shown bid price, or none. |
| Engine.LimitOrderBook.BestAsk | projects/orderbook_implementation/include/limit_order_book.hpp:260-263 | The best shown ask price, or none. |
| Engine.LimitOrderBook.LevelQuantity | projects/orderbook_implementation/include/limit_order_book.hpp:265-270 | The queue total of a price modulo the width of Qty; zero outside the price range. |
| Engine.LimitOrderBook.ProcessOrder | projects/orderbook_implementation/include/limit_order_book.hpp:273-376 | For every valid state, width and argument: terminates, keeps the invariant, and its result, executions and new state are those of the specification. |
| Engine.LimitOrderBook.Cancel | projects/orderbook_implementation/include/limit_order_book.hpp:379-393 | Succeeds exactly on an active in-range id; keeps the invariant; the new state is the old one with that id removed. |
| Ledger.ApplyOneKeepsAccounts | projects/orderbook_implementation/src/OrderBook.cpp:338-389 | One execution keeps the lock identity and base solvency of every user, and quote solvency when it held, self-trades included. |
| Ledger.ApplyOneTotals | projects/orderbook_implementation/src/OrderBook.cpp:362-389 | One execution moves base between users and creates quote only as (limit - price) * qty of a buy taker; the maker's refund is always zero. |
| Ledger.ApplyOneLocks | projects/orderbook_implementation/src/OrderBook.cpp:338-360 | Each user's sum of locks changes by what the fills of maker and taker release, also when both are the same user. |
| Replay.StepKeepsSync | projects/orderbook_implementation/src/OrderBook.cpp:320-360 | Filling the head maker and the taker in the table keeps table and book in agreement while the book is ahead by the unapplied executions. |
| Replay.ReplayAll | projects/orderbook_implementation/src/OrderBook.cpp:320-391 | Replaying a whole matching run, at any width: every execution settles (the inactive-maker skip never fires), table and book agree at the end, locks stay exact, base is conserved and quote grows by the taker's price improvements. |
| Replay.ReplayGains | projects/orderbook_implementation/src/OrderBook.cpp:320-391 | Replaying a whole matching run moves to every user exactly what the executions say: notional and base between both sides, self-trades included, and to a buy taker what it had locked beyond the notional; no order changes owner, side or limit. |
| ExchangeSpec.ActiveIsResting | projects/orderbook_implementation/src/OrderBook.cpp:210-221 | An active order rests in the engine under its id, so the engine's cancel cannot fail for it. |
| ExchangeSpec.CancelKeepsGood | projects/orderbook_implementation/src/OrderBook.cpp:210-235 | cancel succeeds exactly on the caller's own active order of that side; every user keeps quote and base, only the caller's lock falls, by the order's, and only that order changes, keeping owner, side and limit; table and engine stay in agreement. A failed cancel changes nothing. |
| ExchangeSpec.Solvent | projects/orderbook_implementation/src/OrderBook.cpp:121-123 | In every consistent state locked base is between zero and the base balance, and locked quote is not negative. |
| ExchangeSpec.AcceptedReplay | projects/orderbook_implementation/src/OrderBook.cpp:125-146 | After an accepted order has been replayed the exchange is consistent again: ids, sides, prices and remainders of table and engine agree. |
| ExchangeSpec.RejectedLeavesNothing | projects/orderbook_implementation/src/OrderBook.cpp:117-139 | A rejected submission leaves users, engine and all other orders as they were: the lock rollback is sound. Rejected by the engine it uses up exactly one id, rejected before that none. |
| ExchangeSpec.SubmitCases | projects/orderbook_implementation/src/OrderBook.cpp:115-147 | A submission is accepted exactly when the user exists, the quantity is not zero, the unlocked quote covers price times quantity (for an ask, the unlocked base the quantity), the price is in range and an id is left; the id is the next one. |
| ExchangeSpec.SubmitKeepsGood | projects/orderbook_implementation/src/OrderBook.cpp:115-180 | Every submission, accepted or not and whatever wraps, keeps lock identity, base solvency and agreement of table and engine; base totals are conserved and quote totals grow by exactly the price improvement created. |
| ExchangeSpec.SubmittedOrder | projects/orderbook_implementation/src/OrderBook.cpp:190-208 | An accepted IOC or market order leaves the book that matching alone leaves and is inactive with nothing locked; a limit order stays active exactly for its remainder. |
| ExchangeSpec.SubmitGains | projects/orderbook_implementation/src/OrderBook.cpp:320-391 | A submission changes every user's quote and base by exactly what its executions say of them as maker's owner and as taker, discarded remainder or not; who has no part in it keeps balances and locks; earlier orders keep owner, side and limit. |
| ExchangeSpec.NonCrossingRests | projects/orderbook_implementation/src/OrderBook.cpp:115-147 | An accepted order that crosses nothing shown rests in full behind its level and changes only its lock. |
| ExchangeSpec.SubmittedView | projects/orderbook_implementation/src/OrderBook.cpp:125-146 | The engine's view after an accepted submission is what process_order leaves, with the order cancelled if it is to be discarded. |
| ExchangeSpec.CleanSubmission | projects/orderbook_implementation/src/OrderBook.cpp:115-147 | From a fully shown book a submission leaves the whole book shown if and only if matching is clean and, when a remainder is discarded, the orders at its own price do not total zero; clean matching is price-time matching, and totals that fit make it all hold. |
| ExchangeSpec.MarketSweeps | projects/orderbook_implementation/src/OrderBook.cpp:198-208 | A market order is left with a remainder only once nothing is shown on the other side. |
| ExchangeSpec.ImprovementIsDrift | projects/orderbook_implementation/src/OrderBook.cpp:375-389 | The quote created by a buy taker is its limit times the traded quantity less the notional it paid; a sell taker creates none. |
| ExchangeSpec.BuyPrices | projects/orderbook_implementation/include/limit_order_book.hpp:285-299 | A buy taker's executions: the first at the best shown ask, none below it, none above the limit, none at all exactly when nothing shown crosses. |
| ExchangeSpec.QuoteConservedExactly | projects/orderbook_implementation/src/OrderBook.cpp:375-389 | Total quote never falls on a submission, and is conserved if and only if it is a sell, is rejected, or bids no higher than the best shown ask. |
| ExchangeSpec.SettlementAloneConserves | projects/orderbook_implementation/src/OrderBook.cpp:362-373 | Without the refund, settlement conserves total quote at any price. |
| ExchangeSpec.DepositKeepsGood | projects/orderbook_implementation/src/OrderBook.cpp:87-95 | addBalance fails exactly for an unknown user or a withdrawal beyond the balance, and then changes nothing; otherwise exactly that user's quote and base move by the deltas and no lock changes. It keeps quote solvent if and only if the new balance covers what is locked. |
| ExchangeSpec.MakeUserKeepsGood | projects/orderbook_implementation/src/OrderBook.cpp:77-85 | A new user comes last with empty balances; all other users, the orders and the engine are as before, and so are all totals. |
| ExchangeSpec.StepLaws | projects/orderbook_implementation/src/OrderBook.cpp:77-235 | One law for every public operation: consistency kept, base changed by funding only, quote by funding and price improvement only; where quote is solvent it stays so exactly unless funding takes out locked quote. |
| ExchangeSpec.RunLaws | projects/orderbook_implementation/src/OrderBook.cpp:77-235 | Over every run: consistency and the exact base and quote totals; and from a state with quote solvent, quote is solvent all along if and only if no accepted withdrawal takes out locked funds. |
| ExchangeSpec.RunBalances | projects/orderbook_implementation/src/OrderBook.cpp:77-391 | Over every run, from any point at which a user exists: the user's quote and base are what they were, plus the funding accepted and what the executions of all submissions since say. |
| Witnesses.QuoteFromNothing | projects/orderbook_implementation/src/OrderBook.cpp:375-389 | A concrete run from the initial state in which two users trade one unit and total quote grows. |
| Witnesses.WithdrawalOfLockedQuote | projects/orderbook_implementation/src/OrderBook.cpp:90-92 | A concrete run from the initial state after which a user has less quote than is locked. |
| Witnesses.RefusedAfterTrading | projects/orderbook_implementation/include/limit_order_book.hpp:319-321 | At every width, a run of two calls from the empty book after which a third, under an active id, makes a trade and returns false. |
| Exchange.AllLogged | projects/orderbook_implementation/src/OrderBook.cpp:327-336 | When no execution is skipped the trade log receives every execution, in order. |
| Exchange.TradesRecord | projects/orderbook_implementation/src/OrderBook.cpp:102-111 | One trade is logged for each execution, in order, with its taker, its maker, its price and quantity and the side of each. |
| Exchange.LoggedTrades | projects/orderbook_implementation/src/OrderBook.cpp:102-111 | The trades a submission logs name the new order as taker and, in order, the makers of the line it meets, at each maker's price and in full but for the last; taker and maker sides are told apart. |
| Exchange.OrderBook.constructor | projects/orderbook_implementation/src/OrderBook.cpp:59-62 | A new exchange is consistent, empty and with fitting totals. |
| Exchange.OrderBook.MakeUser | projects/orderbook_implementation/src/OrderBook.cpp:77-85 | A known name gives its user and changes nothing; a new one appends a user with empty balances under that name, so names stay distinct and each maps to its user. |
| Exchange.OrderBook.AddBalance | projects/orderbook_implementation/src/OrderBook.cpp:87-95 | Fails exactly for an unknown user or a withdrawal beyond the balance; otherwise moves that user's balances by the deltas and nothing else; refines the deposit specification. |
| Exchange.OrderBook.SubmitBid | projects/orderbook_implementation/src/OrderBook.cpp:115-147 | Refines the submission specification in place, and logs exactly the matching's executions when logging is on. |
| Exchange.OrderBook.SubmitAsk | projects/orderbook_implementation/src/OrderBook.cpp:149-180 | The same for asks. |
| Exchange.OrderBook.AddMarketBid | projects/orderbook_implementation/src/OrderBook.cpp:198-202 | A market bid is a discarding submission at the highest price. |
| Exchange.OrderBook.AddMarketAsk | projects/orderbook_implementation/src/OrderBook.cpp:204-208 | A market ask is a discarding submission at the lowest price. |
| Exchange.OrderBook.Cancel | projects/orderbook_implementation/src/OrderBook.cpp:210-235 | Succeeds exactly on the caller's own active order of that side; then only the caller's lock changes among all users; refines the cancel specification in place. |
| Exchange.OrderBook.ApplyExecutions | projects/orderbook_implementation/src/OrderBook.cpp:320-391 | The loop over executions computes the replay of the ledger specification and logs each settled execution. |
| Exchange.OrderBook.Settle | projects/orderbook_implementation/src/OrderBook.cpp:338-389 | One execution in place: fill both orders, pay, refund; equal to one step of the ledger. |
| Exchange.OrderBook.GetDepth | projects/orderbook_implementation/src/OrderBook.cpp:276-311 | Terminates and returns the first max_levels entries of the scan from the best shown price; these are the first max_levels entries of the true depth if and only if none are asked for, or the side's best level is shown and those max_levels totals fit. |
| Depth.DepthIsExact | projects/orderbook_implementation/src/OrderBook.cpp:276-311 | The true depth lists every non-empty level once, strictly best to worst, with its queue total. |
| Depth.FirstOfScan | projects/orderbook_implementation/src/OrderBook.cpp:276-311 | At every width: a bounded read of a side is true if and only if it asks for nothing, or the best level is shown and the entries it asks for fit. |
| Depth.ScanIsDepth | projects/orderbook_implementation/src/OrderBook.cpp:276-311 | The unbounded scan of a side is its true depth if and only if its best level is shown and its totals fit. |
| Depth.DepthOfLostLevel | projects/orderbook_implementation/src/OrderBook.cpp:276-311 | At every width, a run from the empty book after which the asks hold m at one price and the scan of the asks finds nothing. |
| TradeLog.Ring.Push | projects/orderbook_implementation/src/OrderBook.cpp:102-111 | Appends to the unbounded log when enabled, across any number of wraps of the ring; the new trade has the taker, maker, price, quantity and sides of the execution, field by field. |
| TradeLog.Ring.Clear | projects/orderbook_implementation/src/OrderBook.cpp:241-244 | Empties the log. |
| TradeLog.Ring.SetEnabled | projects/orderbook_implementation/src/OrderBook.cpp:240-240 | Changes whether trades are logged, and nothing logged so far. |
| TradeLog.Ring.Recent | projects/orderbook_implementation/src/OrderBook.cpp:246-257 | Returns the last min(max, 4096, n) of the n trades logged since the last clear, newest first. |
| SpscRing.NextIsModulo | projects/spsc_ringbuffer/include/spsc_ringbuffer.hpp:12-18 | For a power of two capacity the masked increment of an index is its successor modulo the capacity. |
| SpscRing.FullExactly | projects/spsc_ringbuffer/include/spsc_ringbuffer.hpp:41-46 | In any reachable state a push is refused exactly when Capacity - 1 values lie between the head the producer has seen and its tail; with that head exact, when Capacity - 1 values are in flight. |
| SpscRing.EmptyExactly | projects/spsc_ringbuffer/include/spsc_ringbuffer.hpp:54-59 | A pop fails exactly when it has taken every value up to the tail the consumer has seen. |
| SpscRing.CallsInSteps | projects/spsc_ringbuffer/include/spsc_ringbuffer.hpp:41-65 | In every run two steps that a side takes one after the other are consecutive steps of its calls: both indices loaded, then a failure, or one value moved and one index stored, then the next call. |
| SpscRing.PushedAreArguments | projects/spsc_ringbuffer/include/spsc_ringbuffer.hpp:41-52 | In every run the values pushed are the arguments of the push calls that stored, in the order of the calls. |
| SpscRing.StepKeepsInv | projects/spsc_ringbuffer/include/spsc_ringbuffer.hpp:41-65 | Every atomic step of either side, with loads as stale as coherence allows, keeps the ring invariant. |
| SpscRing.FifoSafety | projects/spsc_ringbuffer/include/spsc_ringbuffer.hpp:41-65 | In every interleaving, what has been popped is a prefix of what has been pushed, at most Capacity - 1 values are in flight, and the value about to be returned is the next in line. |
| SpscRing.SlotExclusivity | projects/spsc_ringbuffer/include/spsc_ringbuffer.hpp:41-65 | A pending write and a pending read never target the same slot. |
| SpscRing.AccessesOrdered | projects/spsc_ringbuffer/include/spsc_ringbuffer.hpp:41-65 | Accesses to a slot are ordered by the indices acquired: every earlier value of the slot about to be written was released by a head the producer has seen, and the value about to be read was published by a tail the consumer has seen. |
| SpscRing.CountingClient | projects/spsc_ringbuffer/src/main.cpp:49-75 | A client whose every push offers the number of pushes completed so far pops exactly the expected sequence, so its corruption abort is unreachable. |
| SpscRing.StepRefinesQueue | projects/spsc_ringbuffer/include/spsc_ringbuffer.hpp:41-65 | Each step is a step of, or invisible to, a bounded FIFO queue of capacity Capacity - 1. |
| SpscRing.FreshPushFailure | projects/spsc_ringbuffer/include/spsc_ringbuffer.hpp:41-46 | With loads that are not stale, a push fails only when the bounded queue is full. |
| SpscRing.FreshPopFailure | projects/spsc_ringbuffer/include/spsc_ringbuffer.hpp:54-59 | With loads that are not stale, a pop fails only when the bounded queue is empty. |
| SpscRing.RunsLinearize | projects/spsc_ringbuffer/include/spsc_ringbuffer.hpp:41-65 | Every run is linearizable: its successful calls, with the arguments they were made with, and those that fail on a fresh load, in the order they take effect, are a history of the bounded FIFO queue of capacity Capacity - 1, and leave it with what the ring holds. |
| StealingPool.StepKeepsInv | projects/workstealing_pool/include/work_stealing_thread_pool.hpp:40-146 | Every step of any submitter, worker or thief, failing try-locks included, keeps the pool invariant. |
| StealingPool.TasksConserved | projects/workstealing_pool/include/work_stealing_thread_pool.hpp:65-94 | In every interleaving each submitted job is in exactly one place: queued, held by a worker, or run; none is lost and none runs twice. |
| StealingPool.TakenByAge | projects/workstealing_pool/include/work_stealing_thread_pool.hpp:65-94 | An owner takes the newest job of its own deque; a thief takes the oldest of another worker's. |
| StealingPool.SweepsInOrder | projects/workstealing_pool/include/work_stealing_thread_pool.hpp:65-94 | In every run a worker steals only once its own deque was seen empty, and tries the deques of the others in cyclic order from the next worker; a sweep that ends in nothing has tried all of them, one that ends in a theft robs the first it has not tried. |
| StealingPool.SweepTriesEachOnce | projects/workstealing_pool/include/work_stealing_thread_pool.hpp:75-79 | In every run a sweep of steal that ends in nothing has tried every other worker exactly once and never the thief itself. |
| StealingPool.WorkerLoop | projects/workstealing_pool/include/work_stealing_thread_pool.hpp:40-63 | In every run the steps of a worker follow its loop: stop is tested first, a job taken is run and then counted down, a fruitless sweep leads to a wait, and a wait ends only with stop set or pending not zero. |
| StealingPool.SubmitsInTurn | projects/workstealing_pool/include/work_stealing_thread_pool.hpp:137-143 | In every run submits go to the deques in turn, counted at the counter's width: the job is pushed at the front of that deque and no other changes. |
| StealingPool.PendingExact | projects/workstealing_pool/include/work_stealing_thread_pool.hpp:46-55 | pending_ plus submits between push and increment equals queued jobs plus jobs taken but not yet counted down, at the counter's width. |
| StealingPool.IdleExactly | projects/workstealing_pool/include/work_stealing_thread_pool.hpp:148-151 | When wait_idle sees zero, the pool is idle if and only if no submit is between push and increment; and then all deques are empty and every submitted job has run. |
| StealingPool.IdleShowsZero | projects/workstealing_pool/include/work_stealing_thread_pool.hpp:148-151 | A pool with nothing unfinished and no submit in flight shows zero. |
| StealingPool.DestructorDrains | projects/workstealing_pool/include/work_stealing_thread_pool.hpp:113-123 | With no submit under way, from the moment the destructor's wait returns all deques stay empty and every job has run, at every later step. |
| StealingPool.ExitedAfterDraining | projects/workstealing_pool/include/work_stealing_thread_pool.hpp:113-123 | Whenever a worker has exited, the destructor's wait had returned on zero; and if no submit was under way then or since, all deques are empty, no worker has a job and every submitted job has run. |
| StealingPool.ZeroWithReturnedSubmit | projects/workstealing_pool/include/work_stealing_thread_pool.hpp:137-146 | A concrete run in which a submit has returned, its job is still queued, and pending_ is zero. |

## Left out

- Engine.LimitOrderBook.ProcessOrder: the call with a null execution list, which computes the same without recording executions, has no model of its own; `QtyT` is a number below a modulus greater than one, so every unsigned width is covered.
- Engine.LimitOrderBook.MakerFacts: the two branches for an empty head at a best level are kept as dead branches, not given a meaning, because they are proved unreachable.
- Engine.LimitOrderBook.Reset: slots and level indices are unbounded integers, so a pool or price range too large for `int32_t` is not modelled.
- Exchange.OrderBook.SubmitBid: balances, notionals and order ids are unbounded integers, so machine overflow of `Money` and of the id counter is not modelled; the growth of the order table is an append.
- Exchange.OrderBook.SubmitBid: the counters of submitted, accepted and cancelled orders are left out, each settled by one line.
- Exchange.OrderBook.constructor: the demo users and book that the constructor seeds are ordinary calls and are left out.
- Exchange.OrderBook.AddMarketBid: the named IOC entry points and `getQuote` are one call each and are left out.
- SpscRing.StepKeepsInv: the C++ memory model is reduced to atomic steps with stale monotone loads; a slot access is one step, which the ordering of accesses in `AccessesOrdered` justifies; the order itself is stated in acquired indices, not as happens-before of C++.
- SpscRing.RunsLinearize: failures on stale loads are allowed, as the code allows them; they take effect nowhere and are not bounded.
- StealingPool.StepKeepsInv: locks are reduced to atomic deque steps; futures, packaged tasks and exceptions thrown by a job are left out; construction of the pool is not interleaved with its workers.
- StealingPool.IdleExactly: fewer than 2^64 jobs have been pushed, so the counter has not wrapped around completely.
- StealingPool.DestructorDrains: no progress is claimed; notifications are sent without the mutex of the condition, so wake-ups may be lost and liveness is not guaranteed by the code.
- `empty()` and `full()` of the ring read two indices that may both be stale and promise nothing about a later step.
- The console programs, benchmarks, timing and random order streams.
