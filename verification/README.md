# Verified model of the exchange

A Dafny model of the trading system's core and of the FIX layer in front of it, with proofs that
follow the data from one price level up to whole runs of the exchange. `dafny verify dfyconfig.toml`
checks everything.

How the files build on each other:

* **Matching core.** `Orders` (orders and fill accounting), `Ladders` and `LevelQueues` (a map of
  price levels and a slot map of orders, read as one sequence in price-time order), `Matching` (the
  crossing loop and the greedy sweep), `Trading` (what an order does to a book), `Accepting` (the same
  in prices and quantities alone), `Books` (the non-matching write path), `OrderBooks` (the classes
  `PriceLevel`, `Levels` and `OrderBook`, updated in place and proved against those sequences).
* **Exchange engine.** `Filing`, `Mirrors`, `Fills`, `Steps`, `MarketData`, `TierPlans`, `Ledgers`,
  `Quoting` and `Expiry` state the invariant between the books, the sessions' own records, the report
  log, the exchange numbers, the order dates and the published snapshots, and prove each step of an
  operation keeps it. `Operations` says what each public operation does to that ledger, `Answers` and
  `QuoteAnswers` what this means in the terms of the request, `Displays` what a snapshot tells its
  reader. `Engines` is the class with the public operations; `Runs` drives every sequence of them.
* **FIX session.** `Sequencing` (the inbound reorder buffer and the reader loop), `Arrivals` (what the
  reader does with each kind of message, and asks for over a connection), `Reordering` (any
  permutation is restored), `Links` (writer, lossy wire and reader together), `WireIds` (ClOrdID
  strings), `Queues` (the outbound queue under interleaving).
* **FIX wire.** `Bytes`, `Frames` (printer and parser), `FrameRoundTrips`, `FrameStreams` (the
  incremental decoder against a whole-stream decoder), `FrameForms` (what can be received is what can
  be sent), `FrameGrammar` (the accepted frames as a grammar), `Dictionaries`, `Codec` and `Inbounds`
  (scope checks and message decoding), `AcceptedMessages` (what an accepted message must have said),
  `Conservativity` and `FieldOrder` (what extra fields and field order can change), `Outbounds`,
  `QuoteMessages`, `ExecutionReports` and `GapFills` (what the system builds its own decoder reads as
  meant). `Collections` holds the facts about sets, sequences and multisets that several of them use.

Decimals are `real`; prices and level keys are non-negative reals; counters and numbers are unbounded
naturals except where a width decides a branch (BodyLength, tags, i32 order ids). A book side is a
sequence of `Resting(level, order)`; `Prioritised` says a side is in strict price-time order (better
price first, earlier arrival first at one price), and `Uncrossed` that both sides are, hold only open
limit orders filed under their own price, and no bid reaches an ask. Dates, clock texts and library
text parsing are parameters.

## Model

| member | source | states |
|---|---|---|
| `Orders.FillConserves` | src/core/orderbook.rs:421-436 | a fill adds exactly its quantity to cum and price times quantity to avg times cum, keeps quantity = remaining + cum and every other term, and leaves the order PartialFill while something remains and Filled otherwise |
| `Ladders.FlattenPush` | src/core/orderbook.rs:203-213 | appending to a level's queue, creating the level when needed, is insertion at the right place of the price-time sequence |
| `Ladders.FlattenDrop` | src/core/orderbook.rs:373-394 | removing an order from its level, and the level when it empties, deletes exactly that order from the price-time sequence |
| `Ladders.FlattenStore` | src/core/orderbook.rs:357-369 | replacing an order inside its level changes exactly that entry of the sequence |
| `Ladders.FlattenMiss` | src/core/orderbook.rs:357-369 | a key that a level does not hold is not found in the sequence, and looking it up or removing it changes nothing |
| `Ladders.DepthOfLevel` | src/core/orderbook.rs:407-414 | the depth computed order by order has one entry per level, holding the sum of its orders |
| `LevelQueues.InOrderPush` | src/core/orderbook.rs:67-85 | storing under a key above all others appends to the FIFO order |
| `LevelQueues.InOrderAccess` | src/core/orderbook.rs:94-103 | reading, replacing or deleting one slot is the same operation at that slot's position in FIFO order |
| `LevelQueues.InOrderDistinct` | src/core/orderbook.rs:75-85 | slots with distinct identities give a queue with distinct identities |
| `Matching.MatchIsSweep` | src/core/orderbook.rs:157-267 | for every book uncrossed and in price-time priority and every order later than the opposite side, inserting it and running the crossing loop gives the same trades, opposite side and own side as a greedy sweep over the opposite orders by price then arrival |
| `Matching.TopIsSwept` | src/core/orderbook.rs:218-267 | the crossing loop with the incoming order at the top of its side is the sweep, trade by trade |
| `Trading.TradesAreSafe` | src/core/orderbook.rs:218-267 | every trade involves the incoming order, has positive quantity, executes at the resting order's limit inside the incoming limit, and successive prices only get worse for the incoming side |
| `Trading.TradesByPriority` | src/core/orderbook.rs:136-267 | the counterparties of one incoming order come in strict price-time order, and no order left on the book had priority over any of them |
| `Trading.SweepShape` | src/core/orderbook.rs:218-267 | the k-th trade is with the k-th opposite order at that order's price, for no more than either party has open, and every order traded with but the last is filled completely |
| `Trading.SweepConserves` | src/core/orderbook.rs:218-267 | traded volume is what the incoming order lost of its remaining quantity and what the opposite side lost of its open quantity |
| `Trading.SweepExhausts` | src/core/orderbook.rs:218-267 | if the incoming order still has quantity, nothing it accepts is left opposite |
| `Trading.MineKeepsIdentity` | src/core/orderbook.rs:236-262 | through all its trades the incoming order keeps its identity and terms |
| `Trading.AddKeepsUncrossed` | src/core/orderbook.rs:157-201 | after any later-arriving limit or market order the book is again uncrossed, in strict price-time priority, and holds limit orders only |
| `Trading.LastNamedExact` | src/core/orderbook.rs:187-198 | searching the trades for the last snapshot of an identity finds the incoming order's if and only if the last trade was not a purchase from that same identity; a sell order is always found |
| `Trading.CompletedExact` | src/core/orderbook.rs:218-267 | the incoming order is completed by opposite order n if and only if it accepts every price up to n and its quantity lies between what is open before n and what is open up to n |
| `Trading.ReturnedExact` | src/core/orderbook.rs:157-201 | the final state add reports is the incoming order's if and only if it is not a buy order which, as the book stands before the call, its own identity will complete |
| `Trading.ReturnedOwn` | src/core/orderbook.rs:157-201 | in particular for every sell order, and when nothing opposite carries the order's identity |
| `Trading.SelfTradeReported` | src/core/orderbook.rs:187-198 | a bid completed by a resting ask of its own identity is reported with the ask's final state |
| `Accepting.AddOutcome` | src/core/orderbook.rs:157-267 | in prices and quantities alone: a limit order accepts prices up to its limit, a market order every bid and every ask up to 9999999999999; it trades all it wants or all the book offers at accepted prices, whichever is less, every trade at an accepted price; it keeps its terms, ends Filled, Cancelled (market) or resting, and an unfinished order leaves nothing it accepts |
| `Accepting.MarketTakesAll` | src/core/order.rs:127-136 | a market order that ends with quantity left leaves no bid when it sells and only asks above 9999999999999 when it buys |
| `Accepting.TradesAllItCan` | src/core/orderbook.rs:218-267 | the quantity left is the quantity wanted minus what rests at accepted prices, and zero when there is enough |
| `Accepting.OwnSideAfter` | src/core/orderbook.rs:157-213 | the own side changes only by the remainder of a limit order, at its limit, behind everything as good and ahead of everything worse |
| `Books.InsertOutcome` | src/core/orderbook.rs:276-302 | an order rests exactly when something is open and it is not there yet, and its state says whether anything was filled |
| `Books.ExecuteOutcome` | src/core/orderbook.rs:311-355 | a fill is applied exactly when it is positive, has a positive price and fits an active order; that entry alone changes, or leaves when nothing remains |
| `Books.RemoveOutcome` | src/core/orderbook.rs:373-394 | exactly the entry with that identity at that price leaves, marked Cancelled if it was active |
| `OrderBooks.PriceLevel.PushBack` | src/core/orderbook.rs:67-85 | a new identity goes to the back of the queue and the running total stays the queue's sum |
| `OrderBooks.PriceLevel.Remove` | src/core/orderbook.rs:98-103 | exactly the order with that identity leaves the queue, order of the rest kept, total adjusted; a miss changes nothing |
| `OrderBooks.PriceLevel.UpdateFill` | src/core/orderbook.rs:104-111 | a filled order leaves the queue, a partly filled one is replaced in place, and the total stays the queue's sum |
| `OrderBooks.Levels.Push` | src/core/orderbook.rs:203-213 | the level map with per-level queues refines insertion into the price-time sequence |
| `OrderBooks.Levels.Remove` | src/core/orderbook.rs:373-394 | the same for removal, including dropping an emptied level |
| `OrderBooks.Levels.Depth` | src/core/orderbook.rs:397-414 | walking the levels best first and reading their totals gives the depth recomputed order by order |
| `OrderBooks.MatchStep` | src/core/orderbook.rs:218-267 | one pass of the loop settles the trade of the two tops on both sides, finds both orders, and leaves strictly fewer orders |
| `OrderBooks.OrderBook.MatchTrades` | src/core/orderbook.rs:218-267 | the in-place loop ends and leaves the trades and book of the crossing function |
| `OrderBooks.OrderBook.Insert` | src/core/orderbook.rs:203-213 | files the order on its side at its effective price, behind earlier ones |
| `OrderBooks.OrderBook.Add` | src/core/orderbook.rs:157-201 | on an uncrossed book a fresh later-arriving order leaves exactly the sweep's book and trades; the final state is never missing and is exactly `Trading.Returned`, which `Trading.ReturnedExact` characterises |
| `OrderBooks.OrderBook.Recover` | src/core/orderbook.rs:188-198 | the loop returns exactly the last snapshot that carries the identity, the seller's over the buyer's within one trade |
| `OrderBooks.OrderBook.Remove` | src/core/orderbook.rs:373-394 | removes the order filed at that price and marks it Cancelled if it was active; a miss changes nothing |
| `OrderBooks.OrderBook.InsertOnly` | src/core/orderbook.rs:276-302 | rests without matching, refusing an empty or duplicate order without change |
| `OrderBooks.OrderBook.Execute` | src/core/orderbook.rs:311-355 | applies one fill to the order at that price, or refuses a missing, inactive or too small order without change |
| `OrderBooks.OrderBook.BuildBook` | src/core/orderbook.rs:397-414 | reports the aggregated depth of both sides |
| `Mirrors.OnlyThere` | src/core/exchange/mod.rs:968-982 | under the agreement of books and records, a client order's identity rests on no instrument or side but the recorded one |
| `Mirrors.MirrorRemove` | src/core/exchange/mod.rs:968-982 | taking an active order off its book keeps the agreement for everybody else |
| `Mirrors.MirrorInsert` | src/core/exchange/mod.rs:905-937 | resting a recorded order restores the agreement in full |
| `Mirrors.MirrorSettle` | src/core/exchange/mod.rs:1077-1102 | a fill applied to book and record alike keeps the agreement, also when it completes the order |
| `Fills.AccountFill` | src/core/exchange/mod.rs:1077-1102 | carrying a fill into its record keeps cum equal to the reported quantities and avg times cum equal to their notional |
| `Fills.FillResting` | src/core/exchange/mod.rs:1064-1102 | one fill of a resting order keeps books, records and accounting consistent |
| `Fills.SweepFills` | src/core/exchange/mod.rs:1064-1102 | after all trades of one incoming order and their reports, books and records agree again and every fill is accounted for |
| `Steps.AddRegular` | src/core/exchange/mod.rs:459-475 | a client order through the matcher ends with book, records, accounting and reports consistent, with nothing left exempt |
| `Steps.AddQuoteLeg` | src/core/exchange/mod.rs:798-833 | a quote leg through the matcher keeps the same, and rests only as its session's current leg |
| `Steps.ReplaceOrder` | src/core/exchange/mod.rs:601-632 | a replacement inherits the exchange number and the fills, under any chain of ids |
| `Steps.TakeOut` | src/core/exchange/mod.rs:573-594 | an active record is found in its book and can be taken out |
| `MarketData.StatsAllTrades` | src/core/exchange/mod.rs:998-1030 | folding trades into the statistics keeps volume equal to what was bought and what was sold, and high and low the extreme fill prices |
| `MarketData.VolumesTrades` | src/core/exchange/mod.rs:998-1075 | the same for all instruments at once, with the trades of one instrument reported |
| `MarketData.PublishedOne` | src/core/exchange/mod.rs:1036-1060 | publishing the last version of a changed instrument makes its slot show its book |
| `Displays.DepthShows` | src/core/orderbook.rs:397-414 | a depth list holds exactly the prices somebody rests at, best first, each once, with the sum of what is open there |
| `Displays.BestShows` | src/core/exchange/mod.rs:1041-1056 | the best price is a level of the side with no better one, its quantity everything open there; both are zero exactly for an empty side |
| `Displays.ShowsDisplays` | src/core/exchange/mod.rs:1036-1060 | a snapshot with a version lists both sides truly, bids as bids and asks as asks, and names their best prices and quantities; one without shows nothing |
| `TierPlans.TierFillPlan` | src/core/exchange/mod.rs:35-62 | the loop builds the tier plan: nothing up to 100, one full fill up to 1000, one half fill up to 2000, lots of 100 up to 25600, refusal beyond |
| `TierPlans.PlanPromises` | src/core/exchange/mod.rs:35-62 | exactly the quantities 0 to 25600 get a plan; it has at most 256 positive chunks that never exceed the quantity, and sums to it on (100,1000] and (2000,25600], to nothing up to 100 and in one chunk to half of it on (1000,2000] |
| `TierPlans.LotsShape` | src/core/exchange/mod.rs:47-61 | the lots sum to the quantity, all but the last are 100, and their number is bounded |
| `TierPlans.FitsStep` | src/core/exchange/mod.rs:939-966 | each chunk of a plan fits what the earlier ones left |
| `Ledgers.SoundTake` | src/core/exchange/mod.rs:968-982 | the engine-wide invariant survives taking an active order off its book |
| `Ledgers.SoundOpen` | src/core/exchange/mod.rs:422-457 | and entering a new order under a new exchange number and date |
| `Ledgers.SoundAdd` | src/core/exchange/mod.rs:459-475 | and matching it, with all its reports |
| `Ledgers.AddedReported` | src/core/exchange/mod.rs:1064-1102 | every trade of an added order has a positive price and quantity and two parties with an exchange id, no negative filled quantity or average price, and nothing negative open |
| `Ledgers.SoundReplace` | src/core/exchange/mod.rs:601-632 | and replacing an order |
| `Ledgers.SoundRest` | src/core/exchange/mod.rs:918-937 | and resting it without matching, where it is never a duplicate |
| `Ledgers.SoundExecute` | src/core/exchange/mod.rs:939-966 | and one synthetic fill at the order's own price, which always finds its order |
| `Quoting.SoundWithdraw` | src/core/exchange/mod.rs:776-793 | and withdrawing a session's quote, both legs found or already filled |
| `Quoting.BothLegs` | src/core/exchange/mod.rs:798-842 | and placing both legs of a quote whose records and reports follow only at the end |
| `Quoting.LegReturned` | src/core/exchange/mod.rs:798-833 | a quote leg is always reported with its own final state: a bid is placed while its session has no ask on the book |
| `Quoting.SoundLeft` | src/core/exchange/mod.rs:300-337 | and removing a session whose orders and legs are off the books |
| `Quoting.OthersMeans` | src/core/exchange/mod.rs:300-337 | what remains after a departure is exactly everybody else's entries |
| `Quoting.BookedDated` | src/core/exchange/mod.rs:366-394 | every booked client order has a date, so expiry sees it |
| `Answers.CreatedReal` | src/core/exchange/mod.rs:423-497 | a new order under Real: its record has the terms of the order and a state that follows its fills; an untraded limit order is acknowledged once, a market remainder is reported Cancelled last, everything else reported is fills on its own terms; everybody else keeps his terms, and no other book changes |
| `Answers.CreatedTiered` | src/core/exchange/mod.rs:416-497 | a new order under Tiered: acknowledged as Booked, then one fill per chunk of its plan at its own price; nothing is filled up to 100, half between 1000 and 2000, else all; no other record changes at all |
| `Answers.ModifiedReal` | src/core/exchange/mod.rs:599-668 | a replacement under Real: the first report confirms it under the new id, naming the old one, with the fills so far; then only fills; the old record is gone |
| `Answers.ModifiedTiered` | src/core/exchange/mod.rs:634-683 | the same under Tiered, filled by the plan for what was still open |
| `Answers.ModifiedFilled` | src/core/exchange/mod.rs:651-658 | a replacement by what is already filled is confirmed as Filled and rests nowhere |
| `QuoteAnswers.QuotedMeans` | src/core/exchange/mod.rs:776-844 | a quote takes exactly the old legs off, runs the bid and then the ask through the matcher, reports exactly those trades, records the pair and touches nobody else's terms |
| `QuoteAnswers.WithdrawnBook` | src/core/exchange/mod.rs:776-793 | withdrawing takes exactly the session's quote entries off that book and changes no other book |
| `Expiry.TakenDeparts` | src/core/exchange/mod.rs:381-382 | taking an active record off its book leaves every side of every instrument as it was without exactly that entry, in order |
| `Expiry.SparedMeans` | src/core/exchange/mod.rs:370-394 | what is spared of a side is exactly the entries whose identity did not go |
| `Engines.Engine.constructor` | src/core/exchange/mod.rs:236-265 | an empty engine satisfies the invariant |
| `Engines.Engine.SendStatusFor` | src/core/exchange/mod.rs:1127-1144 | one numbered status report goes out and nothing else changes |
| `Engines.Engine.SendFill` | src/core/exchange/mod.rs:1077-1102 | one numbered fill report goes out and the execution figures, no other field, reach the record of a client order |
| `Engines.Engine.SendTradeReports` | src/core/exchange/mod.rs:1064-1075 | both parties of every trade are reported in order, buyer first |
| `Engines.Engine.SyncRecord` | src/core/exchange/mod.rs:1105-1116 | a client order's record becomes the given snapshot; quote legs have none |
| `Engines.Engine.RecordMarketData` | src/core/exchange/mod.rs:998-1030 | the sequence advances by one, the instrument is pending at that version, and its statistics gain exactly the trades |
| `Engines.Engine.PublishMarketData` | src/core/exchange/mod.rs:1036-1060 | nothing stays pending, every slot shows its book truly (all levels, best bid and best ask), and exactly the pending instruments got a strictly higher version |
| `Engines.Engine.TakeActive` | src/core/exchange/mod.rs:968-982 | an active order is always found in its book at its recorded price |
| `Engines.Engine.CancelOrderWithId` | src/core/exchange/mod.rs:695-747 | accepted exactly for an active order and a positive id that is not another order's; refused requests change nothing, in the order the checks are made; an accepted one takes exactly that order off its book, records it Cancelled with its fills kept and reports that once, under the request's id and naming the order |
| `Engines.Engine.CreateOrder` | src/core/exchange/mod.rs:397-497 | accepted exactly for a listed instrument, a live session, a new positive id, a positive quantity (up to 25600 in Tiered) and a positive price, or a non-negative one for a market order; refused requests change nothing; an accepted one leaves a record with the request's instrument, side, type, quantity and price, a new exchange number and date and the latest arrival, reported on those terms, and applies either the sweep or the tier plan; the invariant is kept and no book fault met |
| `Engines.Engine.TieredInsert` | src/core/exchange/mod.rs:918-937 | resting never reports a duplicate |
| `Engines.Engine.TieredFillExisting` | src/core/exchange/mod.rs:939-966 | every planned chunk finds its order at its own price and fits, so the plan is applied in full |
| `Engines.Engine.ModifyOrderWithType` | src/core/exchange/mod.rs:528-685 | accepted exactly for an active order, a positive id that is not another order's, a positive quantity not below the filled one (at most 25600 more in Tiered) and a valid price; refused requests change nothing; an accepted one leaves a record with the requested id, type, price and quantity, the rest inherited with its fills and exchange number, confirmed once and re-entered under the fill policy |
| `Engines.Engine.Quote` | src/core/exchange/mod.rs:749-844 | accepted exactly under Real for a listed instrument, a live session, non-negative prices and positive quantities where there is a price; refused requests change nothing; an accepted one withdraws the old legs and records the two requested ones, each with its price and quantity, absent at price zero, placed through the matcher bid first, and reports every fill |
| `Engines.Engine.CreateRefusals` | src/core/exchange/mod.rs:397-421 | each error of a new order is returned exactly when its cause holds and no earlier check failed |
| `Engines.Engine.ModifyRefusals` | src/core/exchange/mod.rs:528-573 | the same for a replacement |
| `Engines.Engine.CancelRefusals` | src/core/exchange/mod.rs:695-728 | the same for a cancel |
| `Engines.Engine.QuoteRefusals` | src/core/exchange/mod.rs:749-775 | the same for a quote |
| `Engines.Engine.RegisterSession` | src/core/exchange/mod.rs:282-293 | a session that is not live starts empty |
| `Engines.Engine.ExpireDayOrdersAt` | src/core/exchange/mod.rs:370-394 | exactly the overdue active orders become Expired with nothing remaining and their fills kept; every side of every book is the old one without exactly them, in order; the log grows by one Expired report for each and nothing else; afterwards nothing is overdue; with nothing overdue nothing changes; an order dated today or later keeps its record and its date |
| `Engines.Engine.SessionDisconnect` | src/core/exchange/mod.rs:300-337 | every book is left with exactly the other sessions' entries in their order; the session's records and dates are gone and every other date stays |
| `Runs.Apply` | src/core/exchange/mod.rs:397-844 | every public call keeps the invariant, leaves nothing pending, never returns BookInvariantViolation, never takes a snapshot's version back and changes a snapshot only with its version |
| `Runs.Run` | src/core/exchange/mod.rs:397-1060 | over every sequence of public calls from the empty engine, both policies: no book fault; every side is in strict price-time priority and holds active, balanced orders of its own side, instrument and level, each identity once; a client order is booked if and only if its record is active, then at its recorded price with equal fields and nowhere else; Real books are uncrossed; every record's cum and notional are the reported fills; every snapshot lists exactly the prices somebody rests at, best first, with all that is open there, and the best bid and ask; volume and extremes match the fills (volume zero in Tiered); report numbers are consecutive and every report's figures make sense |
| `Runs.InvMeans` | src/core/exchange/mod.rs:235-258 | the engine's invariant implies each of those statements |
| `Runs.RunThenExpire` | src/core/exchange/mod.rs:366-394 | after any run, expiry at a date leaves no older client order on any book, and expiring again at that date reports and changes nothing |
| `Runs.RunThenDisconnect` | src/core/exchange/mod.rs:300-337 | after any run, a disconnect removes exactly the session's entries from every book |
| `Sequencing.SequenceState.Classify` | src/fix/session.rs:385-420 | the in-place classification is the action function, and only early messages change the state |
| `Sequencing.SequenceState.Advance` | src/fix/session.rs:425-451 | the cursor moves by one or to NewSeqNo with passed messages dropped; errors change nothing |
| `Sequencing.SequenceState.TakeReady` | src/fix/session.rs:453-455 | takes exactly the queued message whose turn it is |
| `Sequencing.HandleKeeps` | src/fix/session.rs:998-1066 | any message whatever keeps queued keys at or above expected, the queue within 4096 and deliveries strictly ascending |
| `Sequencing.HandleReadyKeeps` | src/fix/session.rs:998-1066 | the same for a queued message whose turn has come, with the queue shrinking, so draining ends |
| `Sequencing.Receive` | src/fix/session.rs:998-1066 | over a whole list of arrivals deliveries only grow, stay strictly ascending and the cursor never goes back |
| `Sequencing.AsksOnce` | src/fix/session.rs:404-417 | once a resend was asked for, any number of further early messages delivers nothing, moves no cursor and asks for nothing again, so recovery rests on the answer |
| `Arrivals.AfterLogon` | src/fix/session.rs:959-968 | after a Logon numbered 1, number 2 is delivered next and another number 1 without PossDup ends the connection |
| `Arrivals.AfterLateLogon` | src/fix/session.rs:959-968 | a Logon with a later number waits its turn, and everything from 1 is asked for |
| `Arrivals.TooLowStops` | src/fix/session.rs:396-403 | an old number without PossDup ends the connection, whatever follows |
| `Arrivals.DuplicateIgnored` | src/fix/session.rs:396-399 | an old number with PossDup is passed over, unless it is a GapFill that reaches further |
| `Arrivals.EarlyAsks` | src/fix/session.rs:404-417 | an early message waits, its first copy only, and the lowest number neither delivered nor waiting is asked for, unless a request is open |
| `Arrivals.FullStops` | src/fix/session.rs:405-407 | with 4096 messages waiting a further early one ends the connection |
| `Arrivals.DueDelivered` | src/fix/session.rs:425-451 | the message whose turn it is is delivered, and a Logout ends the connection after that |
| `Arrivals.UndecodableSkipped` | src/fix/session.rs:1053-1062 | one that cannot be decoded uses up its number and nothing else |
| `Arrivals.ResetMoves` | src/fix/session.rs:387-451 | a plain reset, a due GapFill, or an old one with PossDup that reaches further moves the reader to the number it names and drops exactly what waited below; naming no later number is an error |
| `Arrivals.RequestsAscend` | src/fix/session.rs:404-451 | over a whole connection no number is asked for twice, and none beyond the first one missing |
| `Arrivals.PunctualReceive` | src/fix/session.rs:425-451 | with readable messages an open request is always for the number the reader stands at |
| `Arrivals.RequestCloses` | src/fix/session.rs:446-450 | moving on closes an open request exactly when the reader gets past the number asked for |
| `Sequencing.ReadSession` | src/fix/session.rs:959-1066 | the imperative reader, started from any Logon number, delivers what the loop function says, in strictly ascending order with the queue bounded; a bad header ends it before the message is classified, a Logout once its turn has come |
| `Reordering.AnyOrder` | src/fix/session.rs:385-456 | any permutation of up to 4097 consecutive decodable messages is delivered once each in the order sent, ending with the next number expected and an empty queue |
| `Reordering.TooManyEarly` | src/fix/session.rs:404-407 | the bound is exact: any longer run whose first message arrives last overflows the queue |
| `Reordering.Restores` | src/fix/session.rs:385-456 | from any point of a run, what is queued and what is still to come complete the delivery in order |
| `Links.Writer.Write` | src/fix/session.rs:238-276 | an ordinary message takes the next number; a resend answer is one GapFill that stands for exactly the numbers asked for and sent, or nothing, and never moves the counter |
| `Links.GapFillExact` | src/fix/session.rs:238-260 | the numbers a GapFill passes over are exactly those from 1 to the last sent that lie within the request, an end of zero being open |
| `Links.WriterLoop` | src/fix/session.rs:207-318 | the loop over the mailbox puts on the wire what the same link steps put there |
| `Links.SessionSafety` | src/fix/session.rs:207-456 | over every interleaving of sends, resend answers for any range, losses and reads: expected never exceeds the writer's last number plus one, no frame is ever too low or a GapFill an error, the reader stops only on a full queue or on a Logout that was sent, and what is delivered was sent, in order and at most once |
| `Links.GenuineHandled` | src/fix/session.rs:385-451 | a frame of this writer never faults the reader except by a full queue or as a Logout and never carries it past the frame's own reach |
| `Links.ReachableRecovers` | src/fix/session.rs:238-260 | from every reachable state with a quiet wire, one open-ended answer from any number up to expected brings the reader level with the writer and empties its queue |
| `Links.BoundedAnswer` | src/fix/session.rs:238-260 | an answer up to a number leaves the reader right behind it and drops no waiting message above it |
| `GapFills.GapFillDecodes` | src/fix/session.rs:180-265 | the GapFill message, with its PossDup header, decodes to a SequenceReset to that number in GapFill mode and carries the PossDup mark |
| `GapFills.AnswersAreReadable` | src/fix/session.rs:238-265 | every answer the writer gives to a resend request is, field by field, a message the reader decodes as the GapFill it stands for |
| `WireIds.WireIdMap.Intern` | src/fix/session.rs:126-159 | a known string keeps its id, a new one gets an unused positive id, its own number when free, and is refused only when every positive 32-bit id is taken |
| `WireIds.WireIdMap.FirstFree` | src/fix/session.rs:138-155 | the search from the cursor finds the first free id, or there is none at all |
| `WireIds.WireIdMap.FreshId` | src/fix/session.rs:1160-1166 | exactly the strings seen before are refused as duplicates |
| `WireIds.InternAll` | src/fix/session.rs:118-174 | over any list of requests, two accepted ones share an id exactly when they carry the same string, a report's id is written with the string the client sent, and a nonempty string fails only when all ids are taken |
| `WireIds.SameNumber` | src/fix/session.rs:133-137 | strings such as 7, 007 and +7 denote the same number, so the clash is real |
| `WireIds.PrintedPreferred` | src/fix/session.rs:133-137 | the plain numeral of every positive 32-bit number is preferred as that number |
| `Queues.FailClosed` | src/queue.rs:19-31 | with the engine's sends serialized and other senders and the writer interleaving freely, the reports accepted are a prefix of those generated, what the writer took a prefix of those, and the queue is within its capacity |
| `Queues.StepKept` | src/queue.rs:19-31 | every atomic step keeps it: once a report is lost the flag is up before the next one is sent |
| `Queues.Mailbox.Send` | src/queue.rs:20-28 | an uninterrupted send accepts exactly when the flag is down, the receiver lives and there is room, and otherwise raises the flag |
| `Queues.SendAll` | src/queue.rs:19-31 | uninterrupted sends are the atomic steps in a row |
| `Queues.WriterDrains` | src/queue.rs:1-31 | the writer takes items oldest first: left alone it writes exactly what is queued |
| `Queues.EngineSendGetsIn` | src/queue.rs:19-31 | an uninterrupted engine send gets its report in exactly when the flag is down, the receiver lives and there is room; otherwise the queue is left alone and the flag is up |
| `Queues.OtherSendGetsIn` | src/queue.rs:19-31 | the same for a session message of another thread |
| `Queues.FlagStays` | src/queue.rs:19-31 | the failure flag never comes down |
| `Bytes.DigitsValue` | src/fix/frame.rs:225-237 | a printed number reads back as itself |
| `Bytes.WrappingIsModulo` | src/fix/frame.rs:153-155 | summing in a wrapping byte equals the full sum modulo 256 |
| `Frames.ReadFields` | src/fix/frame.rs:186-205 | the loop over SOH-separated parts is the recursive field parser, first error first |
| `Frames.Frame` | src/fix/frame.rs:217-239 | the buffer-and-sum printer produces prefix, body and three-digit sum modulo 256 |
| `FrameRoundTrips.FieldsParse` | src/fix/frame.rs:186-205 | printed fields parse back to the same tags and values |
| `FrameRoundTrips.FrameRoundTrip` | src/fix/frame.rs:134-239 | parsing any frame printed within the limits returns the same begin string, fields and bytes |
| `FrameStreams.Source.Read` | src/fix/frame.rs:117-124 | a read gives some of the next bytes, none only at the end; interrupts and timeouts lose nothing |
| `FrameStreams.FrameReader.ReadMessage` | src/fix/frame.rs:67-128 | for every stream and every schedule of short reads, interrupts and timeouts the answer is the whole-stream decoder's; a message leaves exactly the bytes after its frame, a timeout loses no byte, and the wanted count never underflows |
| `FrameStreams.ReadAll` | src/fix/frame.rs:67-128 | a whole connection read with retries yields the whole-stream messages and ending, however the bytes are split |
| `FrameStreams.StreamRoundTrip` | src/fix/frame.rs:67-239 | a stream of printed frames decodes to exactly those messages in order and then ends |
| `FrameStreams.ReadPrinted` | src/fix/frame.rs:67-239 | the same through the incremental decoder with any split and timeouts |
| `FrameStreams.ProbeStable` | src/fix/frame.rs:69-104 | what a complete header says does not change when more bytes arrive |
| `FrameForms.DecodedIsSendable` | src/fix/frame.rs:67-239 | whatever the stream, a decoded message is one the printer can send, its raw text is the frame received, and printing it again is no longer and decodes to the same begin string and fields |
| `FrameGrammar.FormAccepted` | src/fix/frame.rs:67-205 | everything of the frame grammar is accepted at the head of any stream as the fields it spells: header of at most 64 bytes with the true body length, printable bytes, a body of parts from MsgType on without framing tags, three digits that are the sum of the bytes before them modulo 256, a megabyte at most; leading zeros allowed |
| `FrameGrammar.DecodedForm` | src/fix/frame.rs:67-205 | and every accepted frame has that form, with the fields and begin string it was read as |
| `FrameGrammar.CheckSumHolds` | src/fix/frame.rs:144-161 | an accepted frame ends in 10=, three digits and SOH, and the digits are the sum of all bytes before modulo 256 |
| `FrameGrammar.WrongSumRejected` | src/fix/frame.rs:151-161 | a frame right but for its CheckSum is rejected as a CheckSum mismatch |
| `FrameGrammar.HeaderFaults` | src/fix/frame.rs:69-104 | what is wrong with a header is named: begin string first, then the length field, then a length below 5 or beyond a megabyte |
| `FrameGrammar.LongHeaderRejected` | src/fix/frame.rs:101-104 | a header not complete within 64 bytes is rejected as too long |
| `FrameGrammar.CutShort` | src/fix/frame.rs:117-124 | a frame cut anywhere is reported as broken off, and nothing at all as the end |
| `FrameGrammar.FieldsExact` | src/fix/frame.rs:186-205 | a body parses to some fields if and only if it spells them |
| `Codec.ValidateFieldScopes` | src/fix/codec.rs:593-649 | the loop with its four variables accepts exactly when the scope walk does |
| `Codec.ValidateProfile` | src/fix/codec.rs:651-713 | accepts exactly the messages with valid scopes, unique tags, valid values, all required tags and the supported HandlInst, TimeInForce and timestamps; kinds outside the profile pass |
| `AcceptedMessages.GetIsFirst` | src/fix/codec.rs:715-720 | a lookup gives the first field with the tag, and nothing only when there is none |
| `AcceptedMessages.HeaderFirst` | src/fix/codec.rs:605-615 | in an accepted message no header field follows a body field |
| `AcceptedMessages.ShapesSay` | src/fix/codec.rs:556-592 | no length or data field is accepted, and group counters only 295 and 296 of a mass quote |
| `AcceptedMessages.EntryOrder` | src/fix/codec.rs:593-649 | the fields of a quote entry come in the order of the table, each at most once |
| `AcceptedMessages.EnumsSay` | src/fix/codec.rs:678-694 | an accepted message keeps to the codes of the enumerated fields: 373 from 0 to 11, 380 from 0 to 5, 102 from 0 to 3, 300 from 1 to 9 |
| `AcceptedMessages.OrderSays` | src/fix/codec.rs:806-816 | an accepted new order carries its id, symbol, side (1 Buy, 2 Sell), type (1 Market, 2 Limit), positive quantity and, for a limit order, positive price as read, HandlInst 1, day TimeInForce and a valid time, each tag once |
| `AcceptedMessages.ReplaceSays` | src/fix/codec.rs:828-839 | the same for a replace request, with the order it replaces |
| `AcceptedMessages.CancelSays` | src/fix/codec.rs:817-827 | and for a cancel request |
| `AcceptedMessages.QuoteSays` | src/fix/codec.rs:851-884 | an accepted mass quote is one set with one entry, 132 and 134 its bid, 133 and 135 its offer, absent values zero and none negative |
| `AcceptedMessages.ExecutionSays` | src/fix/codec.rs:898-955 | an accepted report is read field by field as it stands: OrdStatus and side by their codes, fills exactly ExecType 1 and 2, with positive last price and quantity |
| `AcceptedMessages.ResendSays` | src/fix/codec.rs:781-788 | an accepted ResendRequest starts at a positive number and ends at zero or not before it |
| `AcceptedMessages.ResetSays` | src/fix/codec.rs:795-804 | an accepted SequenceReset names a positive 64-bit number, and is a GapFill exactly with 123=Y |
| `AcceptedMessages.LogonSays` | src/fix/codec.rs:764-777 | an accepted Logon has no encryption and a positive 32-bit heartbeat interval |
| `AcceptedMessages.TestRequestSays` | src/fix/codec.rs:778-780 | an accepted TestRequest is read with its id |
| `AcceptedMessages.RejectsSay` | src/fix/codec.rs:789-794 | accepted rejects are read with their text, a session reject with the number it is about |
| `AcceptedMessages.CancelRejectSays` | src/fix/codec.rs:840-850 | an accepted cancel reject answers a cancel or a replace and names both ids and the status |
| `AcceptedMessages.DefinitionSays` | src/fix/codec.rs:885-897 | an accepted security definition is a list response with its instrument number |
| `AcceptedMessages.AcknowledgementSays` | src/fix/codec.rs:962-973 | an accepted quote acknowledgement has a status from 0 to 5 |
| `Conservativity.CustomFieldConservative` | src/fix/codec.rs:593-975 | a user-defined field put anywhere into a message of a supported kind leaves the decoded value exactly as it was if and only if it is new, nonempty, after the header and not between a MassQuote group count and its delimiter; otherwise the message is rejected |
| `Conservativity.InsertScopes` | src/fix/codec.rs:593-649 | the scope check accepts the longer message if and only if it accepted the shorter and the place admits the field |
| `Conservativity.WaitsAfterCount` | src/fix/codec.rs:600-645 | the walk waits for a delimiter exactly after a group count |
| `FieldOrder.OrderFree` | src/fix/codec.rs:593-975 | outside MassQuote any permutation of the body fields decodes to the same value or is rejected just the same |
| `FieldOrder.WalkFlat` | src/fix/codec.rs:605-640 | without groups the scope check only asks whether each body field belongs |
| `Inbounds.ExtractSame` | src/fix/codec.rs:715-975 | the decoded value depends on the kind and the first values of standard fields outside the envelope alone |
| `Outbounds.NewOrderRoundTrip` | src/fix/codec.rs:174-202 | a new order, limit or market, under any envelope decodes to the same id, symbol, side, type, price and quantity, whenever the figures it prints read back |
| `Outbounds.CancelRoundTrip` | src/fix/codec.rs:207-221 | a cancel request decodes to the same ids, symbol and side |
| `Outbounds.ReplaceRoundTrip` | src/fix/codec.rs:224-243 | a replace request decodes to the same ids and terms, whenever the figures it prints read back |
| `Outbounds.ScopedDecodes` | src/fix/codec.rs:651-975 | a body with valid scopes, unique tags, valid values and its required fields is accepted under any complete header, PossDup fields included, and means what its fields say |
| `QuoteMessages.QuoteScopes` | src/fix/codec.rs:593-649 | the quote's fields pass the set and entry scopes in table order, with both delimiters in place |
| `QuoteMessages.MassQuoteRoundTrip` | src/fix/codec.rs:245-266 | a mass quote decodes to the same id, symbol and side-by-side prices and sizes, zeros included, whenever the four figures read back |
| `ExecutionReports.BuildExecutionReport` | src/fix/codec.rs:271-367 | what the builder pushes, optional fields and last fill as it goes, is read by the client as the state reported |
| `ExecutionReports.ExecutionRoundTrip` | src/fix/codec.rs:271-367 | a report decodes to the exchange id, ids, state, side, price, quantities and last fill it was built from, with leaves zero once inactive and a fresh replacement seen as Booked, whenever those figures read back; of the average price only that its text is a non-negative number is asked |
| `ExecutionReports.ReportOverTheWire` | src/fix/session.rs:299-306 | a framed report at the head of any byte stream is the next message and is read as the state it reports |
| `ExecutionReports.RenderedSensible` | src/core/exchange/mod.rs:1077-1144 | every report with the figures the engine's invariant guarantees is one the round trip covers |
| `ExecutionReports.LoggedReportReadable` | src/core/exchange/mod.rs:1077-1144 | every report in the log of any run, rendered as a message, tells the client what happened: the exchange id, ids, symbol, side, price, quantity, what is open and the state of the logged order, for a fill its price and quantity, and the ExecType code of the event |

## Left out

- Engines.Engine.CreateOrder: the engine holds each instrument's book as the value `OrderBooks.OrderBook` is proved to implement, not as a reference to the object; the books are owned by the engine alone, so no aliasing is lost.
- Engines.Engine.ModifyOrderWithType: the branches for an original missing from its book are not written out; the invariant proves they cannot be reached.
- Engines.Engine.TieredFillExisting: the publication and error report after a failed chunk are not written out; no chunk can fail.
- Runs.Run: registering a session id that is still live is excluded, because it would drop that session's records; the acceptor's reservation of live ids rules it out (src/fix/session.rs:890-900).
- OrderBooks.OrderBook.Add: add reports the seller's final state when a buy order is completed by its own identity (Trading.SelfTradeReported); the contract states what the code does, and Trading.ReturnedExact exactly when it differs from the incoming order's state. In an engine run it does not happen: client orders have unique ids and a bid leg is placed while its session has no ask on the book (Quoting.LegReturned).
- Orders.FillConserves: Decimal rounding in the average price and in the half-fill tier is not modelled; arithmetic is exact.
- Sequencing.ReadSession: the answers sent for each message follow a turn of the loop and are not modelled; header checks and undecodable bodies are flags of a message.
- Links.SessionSafety: 64-bit saturation of sequence numbers is not modelled, nor is the time at which an answer to a resend request comes: the reader asks once (Sequencing.AsksOnce) and recovery is stated from the answer on.
- Inbounds.Decode: error texts are collapsed into one rejection, and decimal and timestamp text parsing are parameters.
- ReadMessage: an I/O error other than a timeout or an interrupt ends the connection and is not modelled.
- Builders of session messages, rejects, acknowledgements and security definitions: fixed field lists that would add only easy members.
- ExecutionReports.ExecutionRoundTrip: that the printed text of each figure in the message reads back as that figure is assumed of those figures alone; the average price, which need not have a finite decimal text, is only assumed to read as a non-negative number. Outbounds.WholeIsExact shows the assumption can be met.
- Rewriting of tags 11 and 41 in a report to the client's strings: the map lookup is proved in WireIds.InternAll, the substitution in the field list is not modelled.
- Exchange ids and trade ids as text, symbols, timestamps of snapshots and log counters are not modelled; an exchange id is a datatype.
- Instrument creation and loading: the instrument set is fixed when the engine is built, as at startup.
- modify_order, cancel_order and other wrappers that only fill in an argument.
- push_front of a price level, which only tests use.
- Sockets, threads, heartbeats, test requests, signals, logs, REST and runtime, configuration, the initiator's order views, and the memory ordering of the snapshot slots.
