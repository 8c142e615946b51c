# A verified model of the order book, the exchange and the benchmark services

This project models four parts of the repository in Dafny and proves what they promise.

**The limit order book** (`Orders`, `FlatMatcher`, `BookSpec`, `BookInvariant`, `Execution`,
`BookRuns`, `Crossing`, `Depth`, `OrderBook`, `BookShape`). The class `OrderBook` has price levels
in key order, each a queue of node objects with a cached total, and an index from ids to nodes. Its
methods change them in place, with the loops and branches of the original: skipping the taker's
own account, limit and market orders, partial fills, erasing while iterating, dropping empty
levels. They are proved against a book that is just two flat lists in price-time order, matched
by a one-pass recursive matcher; the matcher is in turn proved equal to a closed-form allocation.
Conservation, priority, crossing and undo are then proved of the flat book over every sequence of
calls. Acceptance is numbered by a ghost counter taken under the lock; it stands for time.

**The exchange around the books** (`OrderIds`, `ExchangeProtocol`, `ExchangeGuarantees`,
`ExchangeProvenance`, `ExecutionReports`, `Exchange`). POST, DELETE and snapshot handlers are a
step system: any number in flight, one critical section at a time, in any order. A ghost ledger
per id says what was executed, cancelled, and filled without a tracker entry to update. The class
`Exchange` owns the book objects, the tracker and the counter; each of its critical sections is
proved to be one step of that system, and a whole request one uninterrupted run of it. Ids,
tracker entries and resting orders are traced back to the requests they come from.

**The benchmark orchestrator** (`Schedule`, `PhaseThread`, `Orchestrator`, `BenchmarkService`).
A request determines a straight program of flag checks, phase changes, publications and waits.
Runs, start and stop requests and phase threads form a step system over that program. The classes
of `BenchmarkService` have the original's nested phase and ramp loops and are proved to perform
exactly that program while arbitrary requests are served between any two actions.

**The latency histogram** (`Histogram`). Bucket counts, the percentile walk and the iterator over
recorded buckets, against the order statistics of the recorded samples.

Four promises that a reader might expect are false of the code. Each is shown false by a concrete
case, and the exact condition is proved instead. Best bid below best ask holds over a run if and
only if no order with quantity left to rest meets its own account (`NamedAccountsCross`,
`PartedRun`). The tracker equals the books at rest if and only if no fill was applied before its
entry was made (`StaleEntry`, `QuiescentIndex`). A stopped run stays Stopped if and only if the
stop meets its thread at certain points (`StoppedIsOverwritten`, `StopStands`). A run waits no
longer than asked if and only if it lasts ten seconds or more (`OneSecondOverruns`, `RunLasts`).

`dafny verify dfyconfig.toml` checks the whole project.

## Model

| member | source | states |
|---|---|---|
| `FlatMatcher.MatchConcat` | pkg/orderbook/src/orderbook.cpp:108-153 | matching may be cut at any point up to which every price is within the limit: the two parts, the second with what the first left of the taker, give the fills, leftovers and remainder of the whole |
| `FlatMatcher.MatchIsAllocation` | pkg/orderbook/src/orderbook.cpp:116-146 | closed form of a match: each eligible maker gives the lesser of what it has and what everything eligible ahead of it left of the taker; fills, leftover side and remainder are exactly that |
| `FlatMatcher.MatchConserves` | pkg/orderbook/src/orderbook.cpp:136-138 | the fills of a match are exactly what the taker lost and exactly what the makers' side lost |
| `FlatMatcher.MaximalExecution` | pkg/orderbook/src/orderbook.cpp:103-205 | total filled is the lesser of the taker's quantity and the quantity of different-account makers within the limit |
| `FlatMatcher.BestExecution` | pkg/orderbook/src/orderbook.cpp:107-134 | once a maker gives anything, every eligible maker ahead of it gives all it had |
| `BookInvariant.BetterAreGone` | pkg/orderbook/src/orderbook.cpp:103-205 | after a fill against a maker, no eligible order with better price-time priority still rests |
| `BookInvariant.NothingEligibleLeft` | pkg/orderbook/src/orderbook.cpp:108-118 | a taker with quantity left leaves behind only makers beyond its limit or of its own account |
| `Executions.EligibleIsOnOffer` | pkg/orderbook/src/orderbook.cpp:108-122 | what is eligible is, in kinds, sides, prices and accounts: for a market order everything not of its own named account; for a limit buy that at its price or below, for a limit sell that at its price or above |
| `Executions.TradesOnOffer` | pkg/orderbook/src/orderbook.cpp:103-205 | a taker trades the lesser of its quantity and what is on offer to it, leaves nothing on offer while it has quantity left (so a market order leaves only orders of its own named account), and every fill carries its id and an order's id and price |
| `Executions.AddIsRight` | pkg/orderbook/src/orderbook.cpp:64-101 | which order is refused with which error, and for one that is taken: the id it gets, what it trades and with whom, and what of it rests |
| `BookSpec.InsertBetween` | pkg/orderbook/src/orderbook.cpp:86-97 | a new order goes behind every order of at least its price and before every worse one |
| `BookSpec.CancelUnknown` | pkg/orderbook/src/orderbook.cpp:210-213 | cancelling an id that does not rest changes nothing |
| `BookSpec.MatchKeepsIds` | pkg/orderbook/src/orderbook.cpp:116-146 | matching adds no id to a side |
| `BookInvariant.MatchKeeps` | pkg/orderbook/src/orderbook.cpp:116-146 | matching leaves a side in price-time order with distinct ids, each order left being one of the old ones, smaller or equal |
| `BookInvariant.InsertKeeps` | pkg/orderbook/src/orderbook.cpp:86-97 | putting an order to rest keeps price order and, within a price, strictly increasing acceptance numbers |
| `BookInvariant.AcceptKeeps` | pkg/orderbook/src/orderbook.cpp:84-98 | an accepted order, matched and put to rest, keeps the book invariant: priority order, distinct ids over both sides, positive quantities and prices, each order on its own side |
| `BookInvariant.AddKeeps` | pkg/orderbook/src/orderbook.cpp:64-101 | add keeps the book invariant for every order, refused ones included |
| `BookInvariant.CancelKeeps` | pkg/orderbook/src/orderbook.cpp:207-239 | cancel keeps the book invariant; each side loses the one order of that id, if it has it, and every other order keeps its place |
| `BookInvariant.AcceptUncrossed` | pkg/orderbook/src/orderbook.cpp:108-122 | an accepted order leaves no bid at or above an ask unless both belong to the same non-empty account |
| `BookInvariant.AddUncrossed` | pkg/orderbook/src/orderbook.cpp:64-101 | add keeps the crossing invariant |
| `BookInvariant.CancelUncrossed` | pkg/orderbook/src/orderbook.cpp:207-239 | cancel keeps the crossing invariant |
| `BookInvariant.AnonymousSpread` | pkg/orderbook/src/orderbook.cpp:287-297 | with empty accounts every bid is strictly below every ask, so the spread is positive and the clamp of a negative one is never taken |
| `BookRuns.RunKeeps` | pkg/orderbook/src/orderbook.cpp:64-239 | after any sequence of adds and cancels the book invariant and the crossing invariant hold |
| `BookRuns.AnonymousRun` | templates/cpp-exchange/src/main.cpp:130-136 | a run whose orders carry no account keeps every resting account empty |
| `BookRuns.NamedAccountsCross` | pkg/orderbook/src/orderbook.cpp:119-122 | a concrete run after which one account's own bid rests above its own ask |
| `Crossings.CrossesExactly` | pkg/orderbook/src/orderbook.cpp:86-122 | a book whose bids are below its asks keeps that through a valid order if and only if the order is not a limit order, larger than what it can trade with, that meets an order of its own account within its limit |
| `Crossings.PartedRun` | pkg/orderbook/src/orderbook.cpp:64-239 | every book of a run has its bids below its asks if and only if no call of the run is an accepted order of that kind |
| `Crossings.PartedIsSpread` | pkg/orderbook/src/orderbook.cpp:287-297 | with both sides occupied, bids below asks is the same as a positive difference of the best prices, so the clamp is not taken |
| `BookRuns.StepConserves` | pkg/orderbook/src/orderbook.cpp:84-98 | one call: what rests afterwards plus what was traded, cancelled and discarded is what rested before plus what was accepted, for any set of ids |
| `BookRuns.Conservation` | pkg/orderbook/src/orderbook.cpp:64-239 | the same over every run, for any set of ids: accepted equals maker fills plus taker fills plus resting plus cancelled plus discarded |
| `BookRuns.BothSidesTrade` | pkg/orderbook/src/orderbook.cpp:128-138 | over a run, quantity made and quantity taken are the same number |
| `BookRuns.WholeBookConservation` | pkg/orderbook/src/orderbook.cpp:64-239 | over a run, accepted quantity is twice the traded quantity plus resting plus cancelled plus discarded market remainder |
| `BookRuns.NoOverfill` | pkg/orderbook/src/orderbook.cpp:124-145 | for each id, maker fills, taker fills and resting quantity are non-negative and never exceed what was accepted under that id |
| `BookRuns.CancelUndoesAdd` | pkg/orderbook/src/orderbook.cpp:64-101 | cancelling an order that met nothing gives back the book it was added to |
| `BookRuns.CancelsCommute` | pkg/orderbook/src/orderbook.cpp:207-239 | cancels of two ids commute |
| `Depths.DepthExact` | pkg/orderbook/src/orderbook.cpp:248-266 | a snapshot side is strictly sorted, best price first, and each entry has the quantity and count of the orders at its price |
| `Depths.DepthComplete` | pkg/orderbook/src/orderbook.cpp:248-266 | every resting order's price has an entry |
| `Depths.DepthHead` | pkg/orderbook/src/orderbook.cpp:248-277 | the first entry of a snapshot side is at the price of its first order, the best price; a side without orders has no entry |
| `Depths.DepthCounts` | pkg/orderbook/src/orderbook.cpp:248-266 | the counts of a snapshot side add up to the number of orders on it |
| `OrderBooks.OrderNode.constructor` | pkg/orderbook/include/orderbook/orderbook.hpp:35-43 | a list node holds the order it was made from |
| `OrderBooks.LevelData.constructor` | pkg/orderbook/include/orderbook/orderbook.hpp:94-97 | a new level is empty with total zero |
| `OrderBooks.LevelData.Append` | pkg/orderbook/src/orderbook.cpp:88-90 | a node is queued at the back and the cached total stays the sum of the queue |
| `OrderBooks.LevelData.Take` | pkg/orderbook/src/orderbook.cpp:136-145 | reducing a maker by a fill changes that maker and the cached total only; used up, it is cut out of the queue, and every other node object keeps its place |
| `OrderBooks.OrderBook.constructor` | pkg/orderbook/src/orderbook.cpp:62 | a new book is empty and well formed |
| `OrderBooks.OrderBook.FillMaker` | pkg/orderbook/src/orderbook.cpp:136-145 | one fill inside a level: node, cached total and index change together; a used-up maker's entry is erased and no other index entry changes |
| `OrderBooks.OrderBook.MatchLevel` | pkg/orderbook/src/orderbook.cpp:113-146 | the inner loop over one level, erasing while iterating, makes exactly the fills of the flat matcher on that level's queue and leaves its leftover; surviving index entries are the old ones, node objects included |
| `OrderBooks.OrderBook.MatchLevelAt` | pkg/orderbook/src/orderbook.cpp:113-152 | one turn of the outer loop: the level is matched and, if empty, erased; the rest of the side is untouched |
| `OrderBooks.OrderBook.MatchTaker` | pkg/orderbook/src/orderbook.cpp:103-205 | the nested loops over levels and queues make exactly the fills of the flat matcher over the whole opposite side, in its order, and leave its leftover; the taker's own side is untouched, surviving index entries are the old ones; it terminates |
| `OrderBooks.OrderBook.LowerBound` | pkg/orderbook/include/orderbook/orderbook.hpp:99-100 | the position of a price in the key order of a side's map |
| `OrderBooks.OrderBook.LevelFor` | pkg/orderbook/src/orderbook.cpp:88 | looking up a price finds its level or makes an empty one at its place in the order, without changing the flat view |
| `OrderBooks.OrderBook.RestOrder` | pkg/orderbook/src/orderbook.cpp:86-97 | what is left of a limit order is queued, totalled and indexed, lands in the flat view where `Insert` says, and changes no other index entry |
| `OrderBooks.OrderBook.AddOrder` | pkg/orderbook/src/orderbook.cpp:64-101 | the verdict and the book of the flat specification for every order, and in plain terms: which order is refused and why, under which id it is taken, that it trades what is on offer by kind, side, price and account, and what of it rests; a refused order leaves the index alone, an accepted one adds its own entry at most, all others being old ones with the same node objects |
| `OrderBooks.OrderBook.CancelOrder` | pkg/orderbook/src/orderbook.cpp:207-239 | found exactly when the id rests; afterwards the flat view is the old one without that id, the index the old one without that entry, an empty level gone |
| `OrderBooks.OrderBook.Locate` | pkg/orderbook/src/orderbook.cpp:210-219 | an index entry leads to the level of its side and price and to the live node of its id |
| `OrderBooks.OrderBook.EraseNode` | pkg/orderbook/src/orderbook.cpp:216-235 | erasing a node removes exactly that order from the flat view, corrects the total and drops an emptied level |
| `OrderBooks.OrderBook.IndexDomain` | pkg/orderbook/src/orderbook.cpp:210-213 | the index has an entry for exactly the ids resting on either side |
| `OrderBooks.OrderBook.IdsUnique` | pkg/orderbook/src/orderbook.cpp:299-302 | no id rests twice over both sides, and the index has as many entries as there are resting orders |
| `OrderBooks.OrderBook.GetSnapshot` | pkg/orderbook/src/orderbook.cpp:241-269 | the level walk returns the depth of the flat view, both sides |
| `OrderBooks.OrderBook.BestBid` | pkg/orderbook/src/orderbook.cpp:271-277 | the price of the first bid of the flat view, if any |
| `OrderBooks.OrderBook.BestAsk` | pkg/orderbook/src/orderbook.cpp:279-285 | the price of the first ask of the flat view, if any |
| `OrderBooks.OrderBook.Spread` | pkg/orderbook/src/orderbook.cpp:287-297 | best ask minus best bid of the flat view, never below zero, and only when both exist |
| `OrderBooks.OrderBook.OrderCount` | pkg/orderbook/src/orderbook.cpp:299-302 | the size of the index is the number of resting orders |
| `OrderBooks.Replay` | pkg/orderbook/src/orderbook.cpp:64-239 | any sequence of calls on a new book object: well formed throughout, ends in the book of the specification's run, every reply as specified |
| `BookShapes.ShapeIsView` | pkg/orderbook/include/orderbook/orderbook.hpp:94-111 | prices, cached totals and queues of all levels are determined by the flat view alone |
| `BookShapes.AddThenCancel` | pkg/orderbook/src/orderbook.cpp:64-239 | on the objects: an order that met nothing, cancelled again, leaves every level, total and queue and every index entry, node objects included, as they were |
| `OrderIds.DecimalInjective` | templates/cpp-exchange/src/main.cpp:35 | different counter values print differently |
| `OrderIds.OrderIdInjective` | templates/cpp-exchange/src/main.cpp:34-36 | different counter values give different ids whatever the symbols, hyphens included, and an id determines symbol and number |
| `ExchangeProtocol.AlwaysOk` | templates/cpp-exchange/src/main.cpp:100-269 | in every interleaving of any number of handlers the system invariant holds: each entry says what rests, what fills are still to be applied, and what was lost or cancelled |
| `ExchangeProtocol.StepKeeps` | templates/cpp-exchange/src/main.cpp:100-269 | every single step of every handler keeps the system invariant |
| `ExchangeProtocol.DrawStep` | templates/cpp-exchange/src/main.cpp:34-36 | drawing an id keeps the invariant: it is new to the ledger, to the tracker and to every book |
| `ExchangeProtocol.AddStep` | templates/cpp-exchange/src/main.cpp:139 | the book call of a POST keeps the invariant: fills become pending against their makers, the taker's rest is owed by its handler |
| `ExchangeProtocol.NeverRejected` | templates/cpp-exchange/src/main.cpp:127-139 | the book never refuses a validated POST: quantity and price were checked and the id is not in it |
| `ExchangeProtocol.EntryCovers` | templates/cpp-exchange/src/main.cpp:151-161 | before a fill is applied the maker's entry covers it; if it is spent by it, nothing of the maker rests and no other fill of it is pending |
| `ExchangeProtocol.UpdateStep` | templates/cpp-exchange/src/main.cpp:151-161 | applying one fill to the tracker keeps the invariant, whether or not the entry is there |
| `ExchangeProtocol.TrackStep` | templates/cpp-exchange/src/main.cpp:172-182 | the tracker insert keeps the invariant, however many fills of the new order have already been applied |
| `ExchangeProtocol.LookupOk` | templates/cpp-exchange/src/main.cpp:219-230 | a copied entry claims as executed what was executed, less the fills still pending and those that found no entry |
| `ExchangeProtocol.CancelStep` | templates/cpp-exchange/src/main.cpp:240-241 | the book call of a DELETE keeps the invariant: the entry overstates by what was cancelled until it is erased |
| `ExchangeProtocol.EraseStep` | templates/cpp-exchange/src/main.cpp:243-247 | erasing the entry keeps the invariant: nothing of the order rests any more |
| `ExchangeGuarantees.TrackerCovers` | templates/cpp-exchange/src/main.cpp:151-182 | in every interleaving an entry's remaining quantity is resting plus pending plus lost plus cancelled, hence at least resting plus pending; it equals what rests if and only if the other three are zero |
| `ExchangeGuarantees.FillPathErasesOnlySpent` | templates/cpp-exchange/src/main.cpp:155-159 | the fill path erases the entry only of an order of which nothing rests and nothing is pending |
| `ExchangeGuarantees.RestingIsTracked` | templates/cpp-exchange/src/main.cpp:172-182 | every resting order whose POST has passed the tracking step is in the tracker under its own symbol, and the book of that symbol knows it |
| `ExchangeGuarantees.DeleteSucceeds` | templates/cpp-exchange/src/main.cpp:208-269 | an uninterrupted DELETE of such an order succeeds, reports from the entry, and leaves neither rest nor entry |
| `ExchangeGuarantees.CancelReportSound` | templates/cpp-exchange/src/main.cpp:249-260 | in every interleaving a successful cancel reports an executed quantity between zero and what was executed |
| `ExchangeGuarantees.CancelReportExact` | templates/cpp-exchange/src/main.cpp:219-260 | in every interleaving a successful cancel reports what was executed by its lookup less the fills then pending or lost; it equals what was executed in the end if and only if there were none and nothing was executed since |
| `ExchangeGuarantees.PostReachesBook` | templates/cpp-exchange/src/main.cpp:127-139 | in every interleaving the duplicate-id refusal is not reached from a POST |
| `ExchangeGuarantees.NeverCrossed` | templates/cpp-exchange/src/main.cpp:130-136 | in every interleaving and every book of the exchange each bid is below each ask and the spread is positive |
| `ExchangeGuarantees.QuiescentIndex` | templates/cpp-exchange/src/main.cpp:151-182 | with no handler in flight every resting order is tracked, and an entry equals what rests if and only if no fill of it was applied before the entry was made |
| `ExchangeGuarantees.SerialCancelExact` | templates/cpp-exchange/src/main.cpp:219-260 | when handlers run one at a time a successful cancel reports exactly what was executed |
| `ExchangeGuarantees.SerialIndexExact` | templates/cpp-exchange/src/main.cpp:151-182 | when handlers run one at a time an id is tracked if and only if it rests, with equal quantity and symbol |
| `ExchangeGuarantees.SerialIndexMirrors` | templates/cpp-exchange/src/main.cpp:151-182 | between requests served one at a time the tracker maps exactly the resting orders of all books to their quantities |
| `ExchangeGuarantees.StaleEntry` | templates/cpp-exchange/src/main.cpp:139-182 | for every quantity and price, a concrete interleaving of two POSTs that ends with nothing in flight, nothing resting, and an entry for the full quantity |
| `ExchangeProvenance.AlwaysAccounted` | templates/cpp-exchange/src/main.cpp:100-269 | in every interleaving: each handler works for the request that arrived as its own, no id is drawn twice, each tracker entry and each resting order goes back to a POST of the run |
| `ExchangeProvenance.TrackedIsPosted` | templates/cpp-exchange/src/main.cpp:172-182 | in every interleaving each tracked id was drawn by exactly one POST, which answered with it, and the entry has that request's client id, side, symbol and original quantity |
| `ExchangeProvenance.RestingIsPosted` | templates/cpp-exchange/src/main.cpp:130-139 | in every interleaving each resting order comes from one limit POST for that symbol, on its side, at its price, with at most its quantity |
| `ExchangeProvenance.BookCallTrades` | templates/cpp-exchange/src/main.cpp:130-139 | the book call carries out the request: it trades the lesser of the requested quantity and what the other side offers at prices the request admits, and what is left of a limit request rests under its id at its side and price |
| `ExchangeProvenance.AnswerHasBookCall` | templates/cpp-exchange/src/main.cpp:130-149 | in every interleaving behind each answer is one such book call of its handler, and filled and leaves add up to the quantity asked for |
| `Exchanges.Exchange.GetOrCreateBook` | templates/cpp-exchange/src/main.cpp:38-56 | afterwards the symbol has a book; one that existed is the same object with the same contents, a new one is empty; no two books share an object |
| `Exchanges.Exchange.Admit` | templates/cpp-exchange/src/main.cpp:116-127 | a request is admitted exactly with a positive quantity and, if limit, a positive price; then its symbol has a book, empty if new: one step of the step system |
| `Exchanges.Exchange.DrawId` | templates/cpp-exchange/src/main.cpp:34-36 | drawing the id is one step of the step system |
| `Exchanges.Exchange.BookOrder` | templates/cpp-exchange/src/main.cpp:130-139 | the book call on the real book object is one step of the step system, is never refused, and carries out the request: trades what is on offer to it and puts its rest to the book |
| `Exchanges.Exchange.ApplyFill` | templates/cpp-exchange/src/main.cpp:152-160 | one turn of the tracker loop is one step of the step system |
| `Exchanges.Exchange.UpdateMakers` | templates/cpp-exchange/src/main.cpp:151-161 | the loop over the fills is exactly one step per fill |
| `Exchanges.Exchange.Track` | templates/cpp-exchange/src/main.cpp:172-182 | the tracker insert is one step of the step system |
| `Exchanges.Exchange.Lookup` | templates/cpp-exchange/src/main.cpp:219-230 | the tracker lookup is one step of the step system |
| `Exchanges.Exchange.CancelBook` | templates/cpp-exchange/src/main.cpp:240-241 | the cancel on the real book object is one step of the step system, and succeeds exactly when an order of the id rests in the book of the entry's symbol |
| `Exchanges.Exchange.EraseTracker` | templates/cpp-exchange/src/main.cpp:244-247 | the tracker erase is one step of the step system |
| `Exchanges.Exchange.GetDepth` | templates/cpp-exchange/src/main.cpp:87-97 | a snapshot request returns the depth of its book at the moment it reads it and changes no order |
| `Exchanges.Exchange.PostOrder` | templates/cpp-exchange/src/main.cpp:100-205 | a whole POST is a run of the step system in which one handler arrives and advances until it is done; the report has the request's client id, symbol and side, filled is what was on offer up to its quantity, leaves the rest, status and price follow from these; any other request is refused |
| `Exchanges.Exchange.Conclude` | templates/cpp-exchange/src/main.cpp:141-202 | after the book call: totals, one tracker step per fill, the tracker insert, and the response of the reply |
| `Exchanges.Exchange.DeleteOrder` | templates/cpp-exchange/src/main.cpp:208-269 | a whole DELETE likewise: reported cancelled, with client id, symbol, side and executed quantity of the entry, exactly when the id is tracked and rests in the book of the entry's symbol; not found otherwise |
| `Exchanges.Serve` | templates/cpp-exchange/src/main.cpp:100-269 | any sequence of requests on a new exchange object: the run's arrivals are those requests in order, each response is what its handler answered, the tracker ends as an exact image of the books, every cancel reported exactly what was executed, and named the client, symbol and side of an order reported under its id |
| `Exchanges.ReportedPriceSound` | templates/cpp-exchange/src/main.cpp:139-148 | in every interleaving the reported average price honours a limit on either side, and the running value stays within quantity times the highest opposite price |
| `ExecutionReports.Totals` | templates/cpp-exchange/src/main.cpp:141-148 | the accumulating loop computes quantity, value and truncated average of all fills |
| `ExecutionReports.AverageWithin` | templates/cpp-exchange/src/main.cpp:148 | the truncated average lies between any bounds that all fill prices lie between |
| `ExecutionReports.AverageIsFloor` | templates/cpp-exchange/src/main.cpp:148 | the average is the value per unit rounded down |
| `ExecutionReports.AverageHonoursLimit` | templates/cpp-exchange/src/main.cpp:148 | the average of a limit order's fills never breaks its limit |
| `ExecutionReports.RunningValueBounded` | templates/cpp-exchange/src/main.cpp:143-146 | after every turn of the loop the value is between zero and quantity times the highest resting opposite price |
| `ExecutionReports.StatusMeans` | templates/cpp-exchange/src/main.cpp:163-170 | filled, partial, unmatched and new say exactly whether the eligible resting quantity covers the order, covers part of it, or is zero for a market or a limit order |
| `Schedules.WarmupIsATenth` | services/bot-orchestrator/src/main.cpp:291 | the warmup count is a tenth of the bots rounded up, at least one, and only that |
| `Schedules.ScheduleInFigures` | services/bot-orchestrator/src/main.cpp:290-394 | the schedule in figures: every assignment with run id, endpoint, count, duration and profile; ramp counts lie on the straight line from warmup to target; only the burst doubles bots and rate; each ramp assignment lasts at least to the next |
| `Schedules.RampClimbs` | services/bot-orchestrator/src/main.cpp:346-359 | ramp counts start at the warmup count, never decrease, stay within warmup and target, and end exactly at the target |
| `Schedules.RampFollowsLine` | services/bot-orchestrator/src/main.cpp:351-359 | at step k of n the count is a whole number nearest to the straight line from warmup to target |
| `Schedules.ReportedPhases` | services/bot-orchestrator/src/main.cpp:300-317 | the phases a run reports, in order, with their statuses |
| `Schedules.ProgramSends` | services/bot-orchestrator/src/main.cpp:309-376 | the actions of a phase thread publish exactly the schedule, and wait 800 ms per second asked for plus the ramp steps |
| `Schedules.RunLasts` | services/bot-orchestrator/src/main.cpp:290-307 | an undisturbed run waits at most its duration and less than one ramp step short of it if and only if the duration is ten seconds or more; below, it overruns |
| `Schedules.OneSecondOverruns` | services/bot-orchestrator/src/main.cpp:290-307 | a run of one second waits 2800 ms |
| `PhaseThreads.ProgramSpaced` | services/bot-orchestrator/src/main.cpp:309-376 | between two publications the thread always looks at the cancel flag; no phase sets a final status |
| `PhaseThreads.ThreadKeeps` | services/bot-orchestrator/src/main.cpp:309-344 | every action of a thread keeps: published and waited are what the schedule says up to here; Completed, Failed and Stopped mean what they should; at most one late publication |
| `PhaseThreads.LastActions` | services/bot-orchestrator/src/main.cpp:334-343 | after the loop: a run stopped in the meantime is still seen Stopped after the guarded write, any other Completed; after the second write it is Completed |
| `PhaseThreads.StopKeeps` | services/bot-orchestrator/src/main.cpp:239-256 | the critical section of a stop request keeps the same |
| `PhaseThreads.StopsSoon` | services/bot-orchestrator/src/main.cpp:407-413 | once its flag is set a thread publishes at most once more and is gone after three actions of its own, whatever fails |
| `PhaseThreads.StopOutcome` | services/bot-orchestrator/src/main.cpp:239-256 | driven on after an accepted stop, a thread ends within three actions, and the run stays Stopped if and only if the thread was gone, about to look at the flag, or had only a successful publication before that |
| `Orchestration.OverIsQuiet` | services/bot-orchestrator/src/main.cpp:206-212 | a run that is over has no active thread: Completed was left, Failed ended, Stopped has its flag set |
| `Orchestration.RegisterKeeps` | services/bot-orchestrator/src/main.cpp:206-228 | registering a run, also in place of one that is over, keeps all but the latest run of an id inactive |
| `Orchestration.StepKeeps` | services/bot-orchestrator/src/main.cpp:185-453 | every start, stop and thread action keeps the system invariant |
| `Orchestration.OneActiveThread` | services/bot-orchestrator/src/main.cpp:206-228 | under any starts, restarts, stops and failures at most one thread per run id is in its loop with its flag unset |
| `Orchestration.PublishedIsSchedule` | services/bot-orchestrator/src/main.cpp:309-344 | in every interleaving a thread has published a prefix of its schedule, all of it with the full waiting time if the run is Completed, and at most one assignment after its flag was set |
| `Orchestration.CompletedStays` | services/bot-orchestrator/src/main.cpp:246-248 | Completed is final; Failed is only ever left by a stop request |
| `Orchestration.StopTakesEffect` | services/bot-orchestrator/src/main.cpp:239-256 | from the moment the flag is set, through any further steps of anyone, the thread publishes at most once more and has at most three actions left |
| `Orchestration.RunIsDriven` | services/bot-orchestrator/src/main.cpp:309-344 | through any steps in which no stop of it is accepted, a run is what its own thread's actions make of it |
| `Orchestration.StopStands` | services/bot-orchestrator/src/main.cpp:239-256 | in every interleaving: after an accepted stop with no other stop of the run accepted, once the thread is gone, at the latest after three of its actions, the run is Stopped if and only if the stop met the thread gone, about to look at the flag, or with only a successful publication before that |
| `Orchestration.ReadyMeans` | services/bot-orchestrator/src/main.cpp:186-204 | a start request is taken if and only if it has an endpoint, bots, a duration and ratios that are all zero or near one in sum, and which error it gets otherwise; a missing rate, symbols or id come from configuration and generator, missing ratios are 0.6, 0.3 and 0.1, nothing else is replaced |
| `Orchestration.StoppedIsOverwritten` | services/bot-orchestrator/src/main.cpp:312-317 | for every request that is taken, a concrete run: stopped between the thread's first look at the flag and its first phase change, it ends reported as warming up for good, with one assignment published after the stop |
| `BenchmarkServices.Orchestrator.CheckRequest` | services/bot-orchestrator/src/main.cpp:186-204 | the checks and defaults in the order they are made give the specified verdict or request |
| `BenchmarkServices.Orchestrator.StartBenchmark` | services/bot-orchestrator/src/main.cpp:185-237 | refuses exactly the requests that are malformed, or whose id has a run that is pending, warming up, ramping, sustained or cooling down; otherwise one new run record, known under its id |
| `BenchmarkServices.Orchestrator.StopBenchmark` | services/bot-orchestrator/src/main.cpp:239-256 | accepted exactly when the id has a run that is neither Completed nor Stopped; sets flag and status of the latest run of the id, or changes nothing |
| `BenchmarkServices.Orchestrator.ExecuteRampPhase` | services/bot-orchestrator/src/main.cpp:346-376 | the ramp loop performs exactly the ramp actions of the program, with any requests served in between and any publication failing |
| `BenchmarkServices.Orchestrator.ExecutePhases` | services/bot-orchestrator/src/main.cpp:309-344 | the phase loop performs exactly the program; what it published is a prefix of the schedule, the whole if the run ends Completed; undisturbed, it completes |
| `BenchmarkServices.Orchestrator.Finish` | services/bot-orchestrator/src/main.cpp:334-343 | the guarded completion and the unguarded one after it: the status ends Completed whatever it was |
| `BenchmarkServices.Orchestrator.HandlePhaseError` | services/bot-orchestrator/src/main.cpp:445-453 | a failed publication ends the thread with status Failed |
| `BenchmarkServices.Orchestrator.WaitForPhase` | services/bot-orchestrator/src/main.cpp:407-413 | a wait goes on exactly when the flag is unset at its end |
| `BenchmarkServices.Orchestrator.Benchmark` | services/bot-orchestrator/src/main.cpp:185-237 | a start request and its thread together |
| `Histograms.FirstReaching` | services/scoring-engine/src/main.cpp:51-61 | the first bucket up to which k samples are counted is the bucket of the k-th smallest sample |
| `Histograms.KthExists` | services/scoring-engine/src/main.cpp:51-61 | every rank from one to the number of samples has an order statistic |
| `Histograms.KthUnique` | services/scoring-engine/src/main.cpp:51-61 | and only one |
| `Histograms.RankExact` | services/scoring-engine/src/main.cpp:53 | the rank is ceil(p n / 100) |
| `Histograms.AtRankExists` | services/scoring-engine/src/main.cpp:51-61 | for every percentile above 0 and up to 100 there is a sample with fewer than p percent of the samples below it and at least p percent not above it |
| `Histograms.Histogram.Record` | services/scoring-engine/src/main.cpp:41-49 | recording a value keeps counts, total, maximum, minimum and both sums those of the samples recorded so far |
| `Histograms.Histogram.Minimum` | services/scoring-engine/src/main.cpp:70 | the smallest sample, or zero when there is none below the largest 64-bit value |
| `Histograms.Histogram.Mean` | services/scoring-engine/src/main.cpp:64-67 | sum over count, zero when empty, and between any bounds on the samples |
| `Histograms.Histogram.Variance` | services/scoring-engine/src/main.cpp:72-78 | the mean of squares less the square of the mean, zero below two samples, never negative: in exact arithmetic the clamp is not taken |
| `Histograms.Histogram.ValueAtPercentile` | services/scoring-engine/src/main.cpp:51-62 | the walk returns the lower edge of the bucket of a sample with fewer than p percent of the samples below it and at least p percent not above it; zero when empty, the first edge for percentiles up to zero, the maximum for those above 100 |
| `Histograms.PercentilesOrdered` | services/scoring-engine/src/main.cpp:51-62 | percentiles are monotone |
| `Histograms.PercentileUnique` | services/scoring-engine/src/main.cpp:51-62 | the samples determine the value of a percentile |
| `Histograms.Histogram.Percentiles` | services/scoring-engine/src/main.cpp:489-491 | p50, p90 and p99 are the bucket edges of the samples at those percentiles and come out in order |
| `Histograms.RecordedIter.Next` | services/scoring-engine/src/main.cpp:94-106 | moves to the next non-empty bucket with its edges and count, or reports that there is none |
| `Histograms.Drain` | services/scoring-engine/src/main.cpp:528-536 | draining the iterator visits exactly the non-empty buckets, each once, in increasing order, with their edges, and the counts add up to the number of samples |

## Left out

- Machine integers: quantities, prices, totals and counters are unbounded; the 32-bit count of a snapshot entry and 64-bit overflow of level totals are not modelled. `RunningValueBounded` states the bound under which the value sum fits.
- Floating point: the phase factors 0.1 and 0.2 and the ramp increment are exact rationals, profile ratios and percentiles are reals.
- Histograms.Histogram.ValueAtPercentile: the bucket function and the bucket edges are any monotone functions, because the original computes them with logarithms and powers in floating point.
- Histograms.Histogram.Variance: the square root that makes it the standard deviation is not modelled, and sums are exact.
- Clocks, timestamps, generated ids: the id given to an order or run without one is a parameter.
- Red-black trees and linked lists: a side's map is a sequence of level objects in key order, a level's list a sequence of node objects with identity; the links inside the containers are not modelled.
- The two copies of the matching loop, one per side, are one method with the side as a parameter.
- The lock of a book: public methods are atomic, as the one mutex held throughout makes them. The two lookups of `get_or_create_book` under a shared and then an exclusive lock are one step.
- The five books made before the exchange listens: a snapshot request makes a book in the same way, so every run from those books is a run of the model.
- BookRuns.NoOverfill: when an id is used again after it left the book, the accepted quantities of all its uses are added up.
- The JSON text of requests and reports: defaults of missing fields, the words for side and type, and upper-casing of the symbol come before the model.
- Exchanges.Serve: requests are served one after another, because a method runs to its end; interleavings are the subject of ExchangeProtocol and ExchangeGuarantees, and every critical section of the class is one step there.
- BenchmarkServices.Orchestrator.ExecutePhases: start and stop requests interfere between any two actions, other threads do not, because they write only their own run record; their interleaving is the subject of Orchestration.
- The assignment with phase "stop" that a stop request publishes after releasing the lock: its place among the thread's assignments is not fixed by the code, so nothing is said about it.
- A publication counts as made when it returns; one that throws after the broker took the message counts as failed.
- The phase name, start and end times, error text and leaderboard notification of a run.
- HTTP, JSON, the message broker, databases, object storage, containers and the user interface.
- The bot workers and their timers, the build and submission services, composite scores and rate counters.
