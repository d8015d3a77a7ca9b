# PulseExchange: verified model of the exchange kernel and its durable protocol

This project models the deterministic core of PulseExchange and proves what its documentation
promises, for all inputs and all runs. It has four layers, joined by refinement.

1. **The matching engine.** `price_time.dfy` is the specification: a flat ledger of orders in
   creation order and a matching run that always takes the best price, then the lowest sequence.
   `matching_engine.dfy` is the engine as written (dictionaries of price levels, FIFO queues, an
   index of resting identifiers, counters, a loop), updated in place, and proved to compute exactly
   that specification and to keep every runtime invariant check passing. `queues.dfy` and
   `book_view.dfy` hold the correspondence of queues and aggregated books with the ledger.
2. **The journal and the single-writer processor.** `exchange.dfy`, `rebuild.dfy`, `market.dfy` and
   `store.dfy` relate one long-lived engine per symbol to the engine that is rebuilt from rows for
   every command. `journal.dfy` is the protocol as a step system with any number of ingest
   transactions and processors, allocation and visibility as separate steps, and a crash possible
   before or after every commit. `guarantees.dfy` states the theorems over whole runs and
   `integrity.dfy` what the diagnostic's counts mean.
   `isolation.dfy` states what symbols cannot do to each other. `processor.dfy` is the transaction body
   and the book query, step by step over the rows.
3. **Cursor-based delivery.** `delivery.dfy` is the step system of one client's market stream: lossy
   hints, a bounded queue with a resync marker, capped replay, arbitrary disconnects, the client's
   handler. `client_alone.dfy` is that handler against any messages at all. `delivery_proof.dfy`
   shows the step system's invariant inductive, `delivery_guarantees.dfy` states the theorems and
   `delivery_cuts.dfy` bounds what a truncated replay may leave out. `stream.dfy` and
   `broadcaster.dfy` are the consumer loop, the browser's handler and the fan-out, updated in place.
   `end_to_end.dfy` composes the journal with the stream: its log is the event table.
4. **The client's retry protocol and two bounded structures.** `lesson.dfy` composes the retained
   lesson submission with the acceptance transactions of layer 2; `practice_offer.dfy` does the same
   for clearing an offer. `trade_tape.dfy` is the incremental merge of the trade tape and
   `limiter.dfy` the sliding-window limiter.

Some results that are not visible in any single function:

- The engine that the processor throws away after every command is bisimilar to one long-lived
  engine. The only difference is the class of a refused cancel, and it is characterised exactly: a
  known but terminal order is "not cancellable" for the long-lived engine and "unknown" for the
  rebuilt one (`Rebuild.RefusalClass`, `Rebuild.RefusalClassCanDiffer`). So the handler's branch for
  "not cancellable" is never taken.
- The direct update path jumps the stream cursor without a replay. It loses nothing if and only if
  no durable event lies strictly between the cursor and the update
  (`DeliveryGuarantees.DirectUpdateLosesNothingIff`); two publishers out of order do lose one
  (`DeliveryGuarantees.OutOfOrderPublishersLose`). The run-level theorems therefore have one
  in-process publisher that hands events out in order, or none (the separate-processor topology).
- A journaled submission that has been processed is always completed, never rejected, and a
  processed cancellation always leaves its order over; so clearing a practice offer never ends with
  "rejected", "not found" or "still open" (`PracticeOffer.ClearingSucceeds`).
- The limiter's `Retry-After` rounds down. With no other call in between, a punctual retry that keeps
  its bucket is admitted if and only if the oldest time leaves the window within one second or after
  a whole number of seconds (`RateLimiting.PunctualRetry`); otherwise it is denied once more, as in
  `RateLimiting.RetryCanBeTooEarly`. The periodic cleanup can move a caller to
  another bucket, in exactly two cases (`RateLimiting.SweepMovesExactly`), and then it changes the
  decision if and only if the overflow bucket is full (`RateLimiting.SweepChangesDecisionIff`). Both
  cases occur (`RateLimiting.RetryCanBeMovedOut`, `RateLimiting.RetryCanBeMovedIn`).
- Other symbols' traffic changes the sequences of a symbol's orders and nothing else of its rows
  (`Isolation.RowsDependOnOwnCommands`).
- A book pushed from the engine inside a transaction agrees with the book read from the committed
  tables in levels, sequence and event id (`Guarantees.ReadModelAgrees`), and both sequences are the
  one that the stream's snapshots carry (`DeliveryGuarantees.BookSequenceIsLastSequence`). So a pushed
  and a read book of one symbol and sequence are the same book (`Processing.PushedBookIsReadBook`).

## Model

| member | source | states |
|---|---|---|
| Orders.LimitOrder.ApplyFill | backend/src/pulseexchange/engine/models.py:144-163 | a fill is accepted exactly for an active order and a positive quantity within what remains; the result is again a valid order |
| Orders.LimitOrder.Cancel | backend/src/pulseexchange/engine/models.py:165-178 | cancelling is accepted exactly for an active order, keeps everything but the status and yields a valid order |
| Orders.RehydrationRoundTrip | backend/src/pulseexchange/engine/models.py:71-134 | constructing an order again from its stored fields gives the same order exactly when it was valid |
| PriceTime.BestMakerIsFirst | backend/src/pulseexchange/engine/matching.py:272-283 | the specification's best maker outranks every other active crossing order by price, then sequence; there is none exactly when nothing crosses |
| PriceTime.BestMakerInPlainTerms | backend/src/pulseexchange/engine/matching.py:272-283 | in statuses, sides, prices and sequences alone: the best maker is open, opposite, at or below a buy's limit (at or above a sell's), none is cheaper for the taker and none as cheap is older; there is none exactly when no open opposite order is within the limit |
| PriceTime.MatchTrades | backend/src/pulseexchange/engine/matching.py:113-142 | each trade names its maker and the taker, is priced by the maker, has a positive quantity and continues the numbering |
| PriceTime.ExecutedQuantity | backend/src/pulseexchange/engine/matching.py:109-150 | one submission executes exactly the smaller of its quantity and the whole crossing depth |
| PriceTime.MatchTakesCrossing | backend/src/pulseexchange/engine/matching.py:113-142 | every maker that changes was an active opposite order at or within the taker's limit price |
| PriceTime.TradesWithinLimit | backend/src/pulseexchange/engine/matching.py:113-142 | no trade is priced above a buyer's limit or below a seller's |
| PriceTime.RestLeavesNothing | backend/src/pulseexchange/engine/matching.py:113-150 | an order with quantity left leaves no open opposite order at or within its limit |
| PriceTime.PricesGetWorse | backend/src/pulseexchange/engine/matching.py:113-142 | the makers consumed come from the cheapest for the taker to the dearest, and at one price from the oldest to the youngest |
| PriceTime.MatchInPriority | backend/src/pulseexchange/engine/matching.py:113-142 | the makers consumed come in strict price-time priority, none of them twice |
| PriceTime.MatchFillsAllButLast | backend/src/pulseexchange/engine/matching.py:113-142 | all makers but the last are filled |
| PriceTime.MatchLeavesLowerPriority | backend/src/pulseexchange/engine/matching.py:113-142 | whatever crosses and is left alone is outranked by every maker consumed: they are a prefix of the priority order |
| PriceTime.MatchStops | backend/src/pulseexchange/engine/matching.py:113-142 | the loop ends only when the taker is exhausted or nothing crosses |
| PriceTime.MatchRounds | backend/src/pulseexchange/engine/matching.py:113-142 | the loop makes at most as many rounds as there are crossing orders, one trade each |
| PriceTime.MatchSeesActiveOnly | backend/src/pulseexchange/engine/matching.py:113-142 | matching cannot tell two ledgers with the same active orders apart |
| PriceTime.MatchConservesMaker | backend/src/pulseexchange/engine/matching.py:118-136 | what each maker loses is exactly what the trades naming it say |
| PriceTime.MatchConservesTaker | backend/src/pulseexchange/engine/matching.py:118-136 | what the taker loses is exactly what the trades say, and nobody else is named |
| Matching.MatchingEngine.constructor | backend/src/pulseexchange/engine/matching.py:29-44 | a new engine is empty, valid and numbers its trades from the given sequence |
| Matching.MatchingEngine.Submit | backend/src/pulseexchange/engine/matching.py:93-150 | the in-place loop over dictionaries of queues refines the flat specification: same errors, result, ledger, counters and trades, and the returned snapshot is that of the new engine; no trade is beyond the taker's limit, and what is left of the taker leaves no open opposite order within it |
| Matching.MatchingEngine.MatchLoop | backend/src/pulseexchange/engine/matching.py:113-142 | the loop's accumulated trades and changed orders are those of the specification's whole run |
| Matching.MatchingEngine.BestCrossingOrder | backend/src/pulseexchange/engine/matching.py:272-283 | the head of the best-priced queue is the best maker of the flat specification: open, opposite, within the limit, the best price and the oldest there; nothing exactly when no open opposite order is within the limit |
| Matching.MatchingEngine.RemoveBest | backend/src/pulseexchange/engine/matching.py:285-293 | removes the maker from the head of its queue and drops a level that becomes empty; the internal check cannot fail |
| Matching.MatchingEngine.Rest | backend/src/pulseexchange/engine/matching.py:295-300 | puts an active order at the end of its level; the check for an order that already rests is a precondition, which every submission and restore meets |
| Matching.MatchingEngine.Cancel | backend/src/pulseexchange/engine/matching.py:174-196 | refines the specification: unknown, not cancellable, or cancelled in place with nothing else touched |
| Matching.MatchingEngine.Restore | backend/src/pulseexchange/engine/matching.py:46-79 | loads active orders oldest first with the errors of the specification and builds a valid engine |
| Matching.MatchingEngine.Aggregate | backend/src/pulseexchange/engine/matching.py:305-318 | the levels are exactly the prices of the side's open orders, bids falling and asks rising, each with the summed remaining quantity and the number of its open orders |
| Matching.MatchingEngine.Snapshot | backend/src/pulseexchange/engine/matching.py:219-225 | the snapshot is the book of the ledger with the last order sequence and the last trade sequence |
| Matching.MatchingEngine.InvariantsAlwaysPass | backend/src/pulseexchange/engine/matching.py:227-343 | on every valid engine the runtime check of the invariants passes; all operations keep engines valid, so it never raises |
| Queues.HeadIsBestMaker | backend/src/pulseexchange/engine/matching.py:272-283 | with queues that describe the ledger, best price and queue head are best price and lowest sequence |
| Queues.PartialFillIndexed | backend/src/pulseexchange/engine/matching.py:131-141 | a partially filled maker keeps its place: no queue changes |
| Queues.RemovalIndexed | backend/src/pulseexchange/engine/matching.py:187-195 | taking one order out of its queue keeps all queues describing the ledger |
| Exchange.SubmitAccepts | backend/src/pulseexchange/engine/matching.py:96-107 | a submission is accepted exactly when the order is fresh, its identifier new and its sequence beyond all others |
| Exchange.SubmitErrors | backend/src/pulseexchange/engine/matching.py:93-107 | which of the four errors is raised, by the order's own fields and the ledger: touched before, identifier known, sequence used, sequence not beyond the last; accepted exactly when none applies |
| Exchange.SubmitWithinLimit | backend/src/pulseexchange/engine/matching.py:93-150 | every trade of an accepted submission respects the submitted limit, and a rest means that nothing open is left within it |
| Exchange.SubmitKeepsSound | backend/src/pulseexchange/engine/matching.py:93-150 | an accepted submission keeps identifiers and sequences distinct, the book uncrossed and every other order's identity |
| Exchange.CancelKeepsSound | backend/src/pulseexchange/engine/matching.py:174-196 | a cancel changes one order's status and keeps the engine sound |
| Exchange.CancelOutcome | backend/src/pulseexchange/engine/matching.py:174-196 | unknown exactly when no order carries the identifier, not cancellable exactly when that order is no longer open, otherwise that order alone becomes cancelled |
| Exchange.RestoreAccepts | backend/src/pulseexchange/engine/matching.py:46-79 | restoring succeeds exactly for distinct, active, uncrossed orders and a positive trade sequence |
| Exchange.LoadError | backend/src/pulseexchange/engine/matching.py:60-79 | the first order that cannot be loaded decides the error: not open, identifier already loaded, or sequence already loaded |
| Exchange.RestoreError | backend/src/pulseexchange/engine/matching.py:46-79 | a bad trade sequence is reported first, then the first order that cannot be loaded, then a crossed book |
| Exchange.RestoreIgnoresInputOrder | backend/src/pulseexchange/engine/matching.py:60-66 | the order in which rows are handed to a restore decides neither whether it succeeds nor what it builds; only with two rows of one sequence can it decide which error is reported |
| Rebuild.RebuiltIsLinked | backend/src/pulseexchange/processor.py:249-283 | rebuilding an engine from its active orders never fails and is linked to the engine it replaces |
| Rebuild.RestoreBisimulation | backend/src/pulseexchange/engine/matching.py:46-79 | a rebuilt engine answers every admissible future run as the long-lived one does, up to the class of a refusal, and ends with the same active orders |
| Rebuild.RefusalClass | backend/src/pulseexchange/engine/matching.py:174-184 | the refusal classes differ exactly for identifiers that are known but terminal |
| Rebuild.RefusalClassCanDiffer | backend/src/pulseexchange/engine/matching.py:174-184 | a concrete run, a sell filled by a buy and then cancelled, for which they differ |
| BookView.BookIsUnique | backend/src/pulseexchange/engine/matching.py:219-225 | a ledger has one book |
| BookView.BookInPlainTerms | backend/src/pulseexchange/engine/matching.py:219-225 | the book shows, per side, the prices of open orders, bids falling and asks rising, each with the open quantity and the number of open orders |
| BookView.BookOfActive | backend/src/pulseexchange/market_data.py:42-92 | the book depends on active orders only |
| Market.NextIsAdmissible | backend/src/pulseexchange/processor.py:285-345 | the next journaled command is always admissible, so a validated submission always completes |
| Market.MarketConserves | backend/src/pulseexchange/engine/matching.py:118-136 | over every journal: quantity = remaining + traded for every order, both sides filled the traded total, trades are numbered 1, 2, 3, ... |
| Market.SnapshotNumbers | backend/src/pulseexchange/engine/matching.py:219-225 | over every journal: a snapshot carries the sequence of the youngest order, 0 without one, and as its trade sequence the number of trades ever made |
| Market.MarketHoldsSubmissions | backend/src/pulseexchange/processor.py:285-306 | over every journal: a symbol's ledger holds, for each of its submissions, an order with that submission's identifier, side, price, quantity and sequence, and every order is that of one of them |
| Market.MarketTradesBacked | backend/src/pulseexchange/engine/matching.py:113-142 | over every journal: each trade is between an earlier and a later order of opposite sides, at the earlier one's price and within the later one's limit |
| Isolation.MatchRenumbered | backend/src/pulseexchange/engine/matching.py:113-142 | matching a ledger whose sequences are renumbered in the same order makes the same trades |
| Isolation.RowsDependOnOwnCommands | backend/src/pulseexchange/processor.py:249-283 | between any states of any two runs: if a symbol's own terminal commands ask for the same in the same order, its stored trades are the same and its stored orders the same up to their sequences, whatever other symbols do |
| Isolation.DifferentSymbolsCommute | backend/src/pulseexchange/processor.py:249-283 | had two neighbouring commands on different symbols been accepted the other way round, every symbol would hold the same rows up to the sequences of its orders |
| Isolation.TransactionStaysInItsSymbol | backend/src/pulseexchange/processor.py:285-333 | a transaction leaves every order and trade of the other symbols as stored |
| Isolation.CancelFindsOwnRow | backend/src/pulseexchange/processor.py:301-306 | a cancel is executed exactly when an active row of its own symbol carries the identifier, and refused as unknown otherwise |
| Isolation.ForeignCancelIsRefused | backend/src/pulseexchange/processor.py:381-411 | a cancel that names an order submitted at any time under another symbol is refused as unknown and its commit changes no order and no trade |
| Store.DecideAgrees | backend/src/pulseexchange/processor.py:285-360 | deciding on restored rows never raises and decides what the long-lived engine decides |
| Store.CommitOrders | backend/src/pulseexchange/processor.py:362-379 | the written order rows are, symbol by symbol, the long-lived engine's ledger |
| Store.CommitTrades | backend/src/pulseexchange/processor.py:310-326 | the written trade rows are, symbol by symbol, all trades ever made |
| Store.CommitRefines | backend/src/pulseexchange/processor.py:285-360 | committing one transaction takes the tables from the fold of the journal to the fold with one more command |
| Processing.CommandProcessor.RestoreEngine | backend/src/pulseexchange/processor.py:249-283 | reads active rows, constructs orders and restores the engine that the specification names |
| Processing.CommandProcessor.PersistOrder | backend/src/pulseexchange/processor.py:362-379 | afterwards the order has a row; every row that was there keeps its place, symbol, identifier, side, price, quantity and sequence; only the order's own row takes the new remaining quantity and status; an order without a row gets exactly one, at the end |
| Processing.CommandProcessor.Apply | backend/src/pulseexchange/processor.py:286-308 | runs one command on the engine: a submission as an order with the command's identifier, side, price, quantity and sequence; its reply and the snapshot after it, or the error that it raises |
| Processing.CommandProcessor.ApplyCommand | backend/src/pulseexchange/processor.py:285-360 | on a freshly restored engine: all the writes of an executed command, stamped into the pushed book; or an error, with nothing written |
| Processing.CommandProcessor.RejectCommand | backend/src/pulseexchange/processor.py:381-425 | records the refusal and pushes the book of another restored engine, which is that of the one that refused |
| Processing.RestoringRaises | backend/src/pulseexchange/processor.py:214-220 | a restore that fails never raises one of the two errors that are caught, so it is never mistaken for a refused cancel |
| Processing.CommandProcessor.ProcessOnce | backend/src/pulseexchange/processor.py:195-220 | one transaction: nothing without a queued command, nothing on an escaping error, otherwise all writes for the lowest queued command, and a pushed book that agrees in levels, sequence and event id with what anybody reads from the committed tables |
| Processing.CommandProcessor.PersistIdempotently | backend/src/pulseexchange/commands.py:69-119 | existing key: the key's command if its symbol, kind and asked-for fields equal the request's, otherwise a conflict; full only at a limit; otherwise exactly one queued command is added, with the request's key, symbol and kind |
| Processing.BuildBook | backend/src/pulseexchange/market_data.py:42-92 | the book query over the tables: the one book of the symbol's ledger, its greatest terminal sequence and its newest event id |
| Processing.SameSequenceSameResponse | frontend/src/market.ts:70-75 | any two books of a symbol read in one run that carry the same sequence are equal in levels and event id |
| Processing.PushedBookIsReadBook | backend/src/pulseexchange/processor.py:80-106 | the book pushed with a commit and any book read at any moment of the run are the same if they carry the same symbol and sequence |
| Journal.NextKeepsInv | backend/src/pulseexchange/commands.py:76-109 | every step of every ingest transaction and processor, and every crash, keeps the protocol's invariant |
| Journal.CommitIngestKeepsInv | backend/src/pulseexchange/commands.py:84-109 | making an allocated sequence visible keeps the journal ordered, keys distinct and limits respected |
| Journal.CommitWorkKeepsInv | backend/src/pulseexchange/processor.py:205-220 | committing a decision keeps terminal commands a prefix with one event each |
| Journal.ResolveIsJustified | backend/src/pulseexchange/commands.py:28-48 | each answer implies its reason: the key's command asks for the same, field by field; some field differs; the key is new and a limit is reached; the key is new and neither limit is reached |
| Journal.OwnerIsAnswered | backend/src/pulseexchange/commands.py:84-87 | a key that owns a command is answered with it exactly when symbol, kind and side, price and quantity (or the order to cancel) are equal, and with a conflict exactly when one differs, whatever the limits |
| Journal.LowestQueuedIsLowest | backend/src/pulseexchange/processor.py:201-211 | the command picked is queued and no queued command has a lower sequence; none is picked exactly when none is queued |
| Guarantees.SerialRefinement | backend/src/pulseexchange/processor.py:195-235 | in every reachable state the tables are those of one sequential engine per symbol folded over the terminal commands; each event carries its command's sequence, symbol and kind, and the trade table is, row by row, what the events report |
| Guarantees.StepsAreWhole | backend/src/pulseexchange/processor.py:201-220 | one step changes the database by nothing, one queued command or one whole transaction for the lowest queued command |
| Guarantees.LaterStatesExtend | backend/src/pulseexchange/commands.py:76-109 | journal order is visibility order is event order: nothing appears at or below an observed sequence or event id, and terminal entries never change |
| Guarantees.NoPoisonCommand | backend/src/pulseexchange/processor.py:381-411 | a claimed command can always be decided and committed; only cancels are refused, as unknown, touching no order or trade |
| Guarantees.QueuedCanBeClaimed | backend/src/pulseexchange/processor.py:201-211 | whenever something is queued the lock holder can claim a command, the lowest |
| Integrity.IntegrityAlwaysHolds | backend/src/pulseexchange/diagnostics.py:108-133 | the sequence-integrity diagnostic is true in every reachable state |
| Integrity.IntegrityMeansOneEventEach | backend/src/pulseexchange/diagnostics.py:108-133 | the counts and distinct sequences that the diagnostic compares agree exactly when every terminal command has one event and no event belongs to anything else |
| Guarantees.LedgerIsConserved | backend/src/pulseexchange/processor.py:275-326 | across every rebuild stored quantities, fills and trade numbers are conserved |
| Guarantees.StoredOrdersAreSubmissions | backend/src/pulseexchange/processor.py:285-306 | in every reachable state each terminal submission has an order row with its symbol, identifier, side, price, quantity and sequence, and each order row is that of a terminal submission |
| Guarantees.StoredTradesRespectLimits | backend/src/pulseexchange/processor.py:310-326 | in every reachable state each trade row names two stored orders of its symbol on opposite sides, the older one as maker, and is priced at the maker's price and within the taker's limit |
| Guarantees.ReadModelAgrees | backend/src/pulseexchange/processor.py:80-106 | the pushed book is the read one in all it carries: the engine's levels are those of the committed rows, and the command's sequence and event id are the greatest of its symbol |
| Guarantees.CommitBookSequence | backend/src/pulseexchange/market_data.py:77-82 | once a command is committed, the book read for its symbol carries its sequence |
| Guarantees.SameSequenceSameBook | frontend/src/market.ts:70-75 | two moments whose books carry the same sequence have the same orders, trades and newest event: ignoring an equal sequence is right |
| Guarantees.TerminalOrderIsFinal | backend/src/pulseexchange/processor.py:362-379 | a stored order that is filled or cancelled never changes again |
| Guarantees.KeyOwnsOneCommand | backend/src/pulseexchange/commands.py:84-109 | a key owns at most one command, forever |
| Guarantees.RetryReturnsTheOriginal | backend/src/pulseexchange/commands.py:28-48 | a retry that equals the original in symbol, kind and every asked-for field returns the original even when the queue is full; one that differs in any of them is a conflict |
| Guarantees.AlwaysBounded | backend/src/pulseexchange/commands.py:88-104 | queued and total counts never exceed their limits |
| Delivery.RecoverMarketEvents | backend/src/pulseexchange/market_data.py:116-154 | the newest-first query, the cut and the reversal compute the replay: ascending, only events above the cursor and up to the snapshot, and exactly the limit or all of them, whichever is less |
| Delivery.RecoverKeepsNewest | backend/src/pulseexchange/market_data.py:116-154 | the replay is ascending, is the newest part of what was missed and has exactly the smaller of the limit and the number missed; truncated exactly when more than the limit was missed |
| DeliveryCuts.CutIsDeep | backend/src/pulseexchange/market_data.py:116-154 | an event that a truncated snapshot leaves out has at least as many later events below the snapshot as the limit allows to replay |
| DeliveryCuts.OnlyDeepEventsAreCut | frontend/src/App.tsx:321-328 | over every run: an event reported as cut off has at least the limit's number of later events up to the client's cursor |
| DeliveryProof.SnapshotBridges | backend/src/pulseexchange/market_data.py:157-186 | a snapshot taken with a cursor replays everything above it or says that it does not |
| DeliveryProof.OfferReaches | backend/src/pulseexchange/broadcast.py:59-71 | after an overflow the queue still leads to everything published, through the resync marker |
| DeliveryProof.ReceiveSnapshot | frontend/src/App.tsx:296-355 | the handler applies exactly the unseen part of the replay and ends at the snapshot's event id |
| DeliveryProof.NextKeepsInv | backend/src/pulseexchange/api/routes.py:361-442 | every step of recording, hinting, publishing, connecting, reading, sending, receiving and dropping keeps the delivery invariant |
| DeliveryGuarantees.StateLogOrdered | backend/src/pulseexchange/processor.py:335-345 | in every reachable journal state a symbol's events rise by id and by sequence at once |
| DeliveryGuarantees.JournalStepsRecord | backend/src/pulseexchange/processor.py:335-345 | every journal step moves a symbol's event log exactly as the delivery protocol allows for |
| DeliveryGuarantees.BookSequenceIsLastSequence | backend/src/pulseexchange/market_data.py:77-82 | in every reachable state the sequence of a read book is that of the newest event, which is what the delivery protocol's snapshots carry |
| DeliveryGuarantees.EventIdIsLastId | backend/src/pulseexchange/market_data.py:83-85 | likewise its event id |
| DeliveryGuarantees.ExactlyOnceInOrder | frontend/src/App.tsx:254-388 | the client has applied precisely the events above its first cursor, once, in id order, except those it was told were cut off |
| DeliveryGuarantees.NoNoticeNoLoss | frontend/src/App.tsx:321-328 | without a truncation notice nothing is missing |
| DeliveryGuarantees.NothingIsTakenBack | frontend/src/App.tsx:127-140 | outcomes are only appended; cursor and shown book never go back; the first cursor never moves |
| DeliveryGuarantees.OverflowNeverHidesALoss | backend/src/pulseexchange/broadcast.py:59-71 | once queue and wire are drained, everything published has been applied or was reported as cut off |
| DeliveryGuarantees.QueuesStayBounded | backend/src/pulseexchange/broadcast.py:59-71 | a queue never outgrows its size |
| DeliveryGuarantees.CatchUp | backend/src/pulseexchange/api/routes.py:383-440 | from every reachable state with an open connection the consumer can work off its queue, wait at most one heartbeat period, read at most one snapshot and deliver, and the client then stands at the newest event and book with nothing missing that was not reported |
| DeliveryGuarantees.DirectUpdateLosesNothingIff | backend/src/pulseexchange/api/routes.py:436-440 | a direct update loses nothing if and only if no event lies strictly between the cursor and it |
| DeliveryGuarantees.OutOfOrderPublishersLose | backend/src/pulseexchange/api/routes.py:436-440 | a concrete log and a client that has received its first snapshot, for which out-of-order publishing loses an event |
| EndToEnd.SystemKeepsInv | backend/src/pulseexchange/processor.py:195-235 | every state of the composed system, server steps and stream steps interleaved, satisfies the invariants of both layers with the event table as the stream's log |
| EndToEnd.TablesReachTheClient | frontend/src/App.tsx:254-388 | over every composed run: what the client has applied are stored events of terminal commands of its symbol, in id order and each once; nothing stored between its cursors is missing unless reported; its cursor and book are never ahead of the tables |
| EndToEnd.ClientCatchesUpWithTables | backend/src/pulseexchange/api/routes.py:383-440 | from every composed state with an open connection, stream and client alone can reach the newest stored event and the sequence of the newest terminal command |
| Streaming.MarketStream.SendSnapshot | backend/src/pulseexchange/api/routes.py:445-463 | sends one snapshot and moves the position to the newest event |
| Streaming.MarketStream.Wake | backend/src/pulseexchange/api/routes.py:383-440 | one turn of the consumer loop and what it sends: a heartbeat with the present position, a snapshot of the kind that the marker asks for, an update above the position, or nothing for one that is not |
| Streaming.MarketStream.Consume | backend/src/pulseexchange/api/routes.py:361-442 | the whole loop over any finite stretch of wake-ups |
| Streaming.ConsumingCatchesUp | backend/src/pulseexchange/api/routes.py:383-440 | the cursor ends at or beyond everything that any marker, heartbeat period or update made known, and within the log |
| Streaming.SignalIsProtocolSteps | backend/src/pulseexchange/api/routes.py:383-440 | waking up for a signal is one step of the delivery protocol or two, whatever happens elsewhere between waking and reading, signals that join this very queue included |
| Streaming.TimeoutIsProtocolSteps | backend/src/pulseexchange/api/routes.py:383-409 | a heartbeat period with an empty queue is an expiry, a check of the newest event and perhaps a read, with the same freedom in between |
| Streaming.MarketClient.OnMessage | frontend/src/App.tsx:269-373 | the handler's in-place updates compute the protocol's client step |
| Streaming.MarketClient.ApplyFreshBook | frontend/src/App.tsx:127-140 | a book is shown exactly when it is neither older than the last event nor than the shown book |
| Streaming.MarketClient.ApplyRecovered | frontend/src/App.tsx:296-319 | applies the unseen replayed events in id order and moves the cursor to the last of them |
| ClientAlone.AppliesWhatIsNew | frontend/src/App.tsx:296-373 | for a message of any kind and any contents: exactly the replayed events beyond the cursor and a pushed event beyond cursor and last sequence are applied |
| ClientAlone.CursorIsGreatest | frontend/src/App.tsx:269-373 | for a message of any kind: the cursor never falls and moves to the greatest of the events applied and of the event id told, which a snapshot older than the last event does not tell |
| ClientAlone.NothingTwice | frontend/src/market.ts:77-83 | whatever messages arrive in whatever order, repeated, stale or with an unsorted replay: every applied event was applied once, in id order, and the shown book is not older than the last event |
| ClientAlone.NothingBack | frontend/src/App.tsx:269-373 | whatever arrives: applied outcomes, cursor and shown book are never taken back |
| Broadcasting.MarketBroadcaster.Subscribe | backend/src/pulseexchange/broadcast.py:40-49 | refused exactly at the connection limit; otherwise a fresh empty queue joins the symbol, and no other symbol or queue changes |
| Broadcasting.MarketBroadcaster.Unsubscribe | backend/src/pulseexchange/broadcast.py:51-57 | takes this queue out and no other, and drops a symbol without subscribers |
| Broadcasting.MarketBroadcaster.ConnectionCount | backend/src/pulseexchange/broadcast.py:36-38 | the sum over symbols counts every distinct queue once |
| Broadcasting.MarketBroadcaster.Publish | backend/src/pulseexchange/broadcast.py:59-71 | each subscriber of the symbol gets the update behind what it has, or, when full, a resync marker in place of everything queued; no other queue changes |
| Broadcasting.SignalQueue.Deliver | backend/src/pulseexchange/broadcast.py:62-71 | the drain-and-mark loop of one queue: with room everything queued stays and the signal goes to the end; without, the resync marker alone is left |
| Broadcasting.SubscriptionLeavesNoTrace | backend/src/pulseexchange/broadcast.py:40-57 | subscribing and unsubscribing leaves the table exactly as it was |
| Lesson.LessonSubmission.Submit | frontend/src/lesson.ts:13-28 | a receipt is returned again without sending; a definite refusal, given by status and message, counts only while nothing was ambiguous |
| Lesson.FirstReplyEndsSilently | frontend/src/lesson.ts:13-28 | a first reply ends the submission exactly if it is an HTTP error with status 400, 401, 403, 404, 413, 422 or 429, or with 503 and the message that the queue is full |
| Lesson.DoubtRemains | frontend/src/lesson.ts:78-84 | after one ambiguous outcome no sequence of further replies ends the submission silently |
| Lesson.AnswerSaysWhy | backend/src/pulseexchange/main.py:115-130 | an answer without an insertion is the owner of the key if it asks for the same, 409 if it does not, and for a new key 503 with the message of the limit that is reached |
| Lesson.OnlyAFullQueueEndsSilently | frontend/src/lesson.ts:20-25 | of the server's own answers to a first attempt exactly one ends the lesson silently: a new key, room in the journal, none in the queue |
| Lesson.NextKeepsInv | frontend/src/lesson.ts:13-28 | sending, loss, late arrival, refusal, giving up and every step of the server keep the retry protocol's invariant |
| Lesson.AtMostOneCommand | frontend/src/lesson.ts:13-28 | one retained submission owns at most one command, which has the symbol, side, price and quantity that it asked for |
| Lesson.ReceiptIsTheCommand | frontend/src/lesson.ts:16-18 | a receipt names that command |
| Lesson.RetryFindsTheCommand | backend/src/pulseexchange/commands.py:84-87 | a retry after a lost reply gets the command back, never a conflict or a refusal |
| Lesson.SilentEndIsSafe | frontend/src/lesson.ts:78-84 | ending without resending happens only when no attempt created a command or is under way, and none ever will, even though an attempt in work or already accepted may be answered with any error that is not a refusal up front |
| PracticeOffer.Practice.Clear | frontend/src/lesson.ts:51-76 | the reads, the retained cancellation and the checks of clearing an offer |
| PracticeOffer.OnlyProcessedIsRead | frontend/src/lesson.ts:40-58 | an offer is read only when its stored command is completed, is nothing exactly when it is rejected, and is still queued exactly when the command is |
| PracticeOffer.NothingOnlyIfRejected | frontend/src/lesson.ts:51-76 | clearing answers "no order" exactly when both identifiers are there and the stored command is rejected |
| PracticeOffer.OpenOrderIsCancelled | frontend/src/lesson.ts:62-76 | an open order is always cancelled first, under the retained key; unconfirmed exactly without a reply, still queued exactly if the cancellation is, "still open" only if the last read shows it open; an order is answered only after a processed cancellation, and it is filled or cancelled |
| PracticeOffer.ReturnedOrderIsOver | frontend/src/lesson.ts:60-76 | an order that clearing returns is stored unchanged, filled or cancelled, at every later moment |
| PracticeOffer.SubmissionCompletes | backend/src/pulseexchange/processor.py:285-345 | a terminal submission is completed and its order can be read, with the symbol, identifier, side, price, quantity and sequence of the command |
| PracticeOffer.CancellationSettles | backend/src/pulseexchange/processor.py:328-333 | once a cancellation of an order is terminal the order is over, whatever the reply |
| PracticeOffer.ClearingSucceeds | frontend/src/lesson.ts:62-76 | clearing a processed offer with a processed cancellation always returns the order, and it is over |
| TradeTape.MergeTrades | frontend/src/market.ts:46-55 | the keyed collection, the sort and the cut compute the merge |
| TradeTape.MergeIsTop | frontend/src/market.ts:46-55 | one merge yields the newest trades of tape and batch together |
| TradeTape.TapeIsTop | frontend/src/market.ts:46-55 | over any history of batches the tape is the newest trades of all ever seen |
| TradeTape.BatchingDoesNotMatter | frontend/src/market.ts:46-55 | batching, order and repetition make no difference |
| RateLimiting.MutationRateLimiter.Allow | backend/src/pulseexchange/safety.py:31-53 | the in-place limiter computes the specified decision and state |
| RateLimiting.MutationRateLimiter.Cleanup | backend/src/pulseexchange/safety.py:36-41 | stale times go, and buckets that become empty go with them |
| RateLimiting.DecidedByHistory | backend/src/pulseexchange/safety.py:36-53 | each call is decided by the whole history of the bucket it falls into, as by a limiter that forgets nothing of it |
| RateLimiting.SweepMovesExactly | backend/src/pulseexchange/safety.py:35-45 | the cleanup sends a call to another bucket exactly when all times of a known key are stale and enough buckets survive, or when an unknown key had no room and gets some |
| RateLimiting.SweepKeepsDecision | backend/src/pulseexchange/safety.py:35-53 | for a call that keeps its bucket the cleanup does not change the decision |
| RateLimiting.SweepChangesDecisionIff | backend/src/pulseexchange/safety.py:35-53 | the cleanup changes a decision if and only if it moves the call and the overflow bucket is full |
| RateLimiting.RecentClientsKeepTheirBucket | backend/src/pulseexchange/safety.py:42-46 | a client admitted within the window keeps its own bucket, and any client gets its own while there is room |
| RateLimiting.WindowBound | backend/src/pulseexchange/safety.py:46-53 | no bucket admits more than the limit in any half-open window |
| RateLimiting.BucketsBounded | backend/src/pulseexchange/safety.py:42-45 | there are never more than the maximum number of keys plus one buckets |
| RateLimiting.PunctualRetry | backend/src/pulseexchange/safety.py:31-53 | a denied caller that comes back after the advised seconds, nobody else having called: unless the cleanup moves it, it is admitted if and only if the wait left was at most one second or a whole number of seconds; moved out, if and only if the overflow bucket has room; moved in, always |
| RateLimiting.RetryCanBeTooEarly | backend/src/pulseexchange/safety.py:46-51 | a concrete run in which the caller keeps its bucket, waits the advised nine of nine and a half seconds and is denied again |
| RateLimiting.RetryCanBeMovedOut | backend/src/pulseexchange/safety.py:35-51 | a concrete run in which the wait left is a whole number and the retry is denied because of the cleanup |
| RateLimiting.RetryCanBeMovedIn | backend/src/pulseexchange/safety.py:35-51 | a concrete run in which the wait left is not a whole number and the retry is admitted because of the cleanup |

## Left out

- Locks and transactions of PostgreSQL: advisory locks, identity allocation, repeatable reads and row locks are abstract steps; the SQLite variant without an ingest lock and the retry after an integrity error (unreachable under the lock) are not modelled.
- LISTEN/NOTIFY and the relay queue of `notifications.py`: they are an arbitrary source of markers, which may come, be lost, repeat or overtake each other.
- Several embedded processors that push direct updates to the same subscribers: outside the run-level delivery theorems; the exact condition and a counterexample are given.
- The maintenance reset, which truncates the journal: every run is one between two resets.
- UUID generation, wall-clock time, correlation ids and JSON payloads: fresh identifiers and monotone times are inputs; identifiers are opaque non-empty strings.
- Type checks and coercions of the order constructor (booleans, enum strings, blank identifiers) and the column width of integers: fields are typed and integers unbounded.
- `place_limit_order`, `get_order`, `active_orders` of the engine and the derived properties of results: they would only add easy members.
- Request validation, middleware, health checks, metrics, heartbeats, logging, percentiles: only the validated ranges are kept, as preconditions.
- React rendering, the chart, the guided demo, the trades that ride along with stream messages: outside the stream state machine.
- RateLimiting.MutationRateLimiter.Allow: times are real numbers, so floating-point rounding of clock readings is not modelled; the guard is held for the whole call, which never yields.
- Orders.RehydrationRoundTrip: fields are typed and identifiers opaque, so the stripping of identifiers and the coercion of enum strings in the constructor are not modelled.
- PracticeOffer.Practice.Clear: the polling loop is one read that finds the command terminal or gives up, and the request to cancel is one reply; the fifteen-second deadline is not modelled, and commands are named by sequence instead of by UUID.
- Broadcasting.MarketBroadcaster.Unsubscribe: is stated for a queue that is subscribed, which is the only way in which the context manager ends; statistics are not modelled.
- Intermediaries between browser and server: they may answer with any error at any time, also after an acceptance, except with the statuses that the server uses for a refusal up front (`Lesson.RefusesUpFront`), which are taken to mean one.
- Lesson.LessonSubmission.Submit: the exception that carries a failure is a result value; the browser runs one lesson action at a time, as its guard enforces.
- TradeTape.MergeTrades: normalisation of wire formats is not modelled; the tape's theorems hold for trades whose ids and sequences identify each other, which the exchange guarantees and the placeholder id for malformed trades does not.
- Delivery across symbols: one client, one symbol and one connection at a time; a switch of symbols starts a new client.
