/**
 What the durable protocol guarantees over whole runs, for every interleaving of ingest
 transactions and processors and every crash before or after a commit.
 */
module Guarantees {
  import opened Common
  import opened Orders
  import opened PriceTime
  import opened BookView
  import opened Exchange
  import opened Rebuild
  import opened Market
  import opened Store
  import opened Journal

  // ---------------------------------------------------------------- serial refinement

  /** One step of the database: nothing, one more queued command, or one whole transaction for
      the lowest queued command.  Nothing is half applied, nothing is applied out of turn. */
  ghost predicate WholeStep(a: Database, b: Database) {
    || b == a
    || (exists c :: b == a.(journal := a.journal + [Entry(c, Queued)])
                    && !HasKey(a.journal, c.key)
                    && forall j | 0 <= j < |a.journal| :: a.journal[j].command.sequence < c.sequence)
    || (exists w :: b == Commit(a, w) && LowestQueued(a.journal) == Some(w.command)
                    && Decide(a, w.command) == Ok(w.reply)
                    && forall j | 0 <= j < |a.events| :: a.events[j].id < w.eventId)
  }

  lemma StepsAreWhole(s: State, s': State, limits: Limits)
    requires Inv(s, limits) && Next(s, s', limits)
    ensures WholeStep(s.db, s'.db)
  {
    var a :| Enabled(s, a, limits) && s' == After(s, a, limits);
    if a.CommitIngest? {
      var c := s.ingests[a.i].command;
      assert ReadyToInsert(s, c, limits);
      assert s'.db == s.db.(journal := s.db.journal + [Entry(c, Queued)]);
    } else if a.CommitWork? {
      var w := s.processors[a.p].work;
      assert s'.db == Commit(s.db, w);
    }
  }

  lemma WholeStepReports(a: Database, b: Database)
    requires WholeStep(a, b) && a.trades == ReportedTrades(a.events)
    ensures b.trades == ReportedTrades(b.events)
  {
    if w :| b == Commit(a, w) {
      CommitReports(a, w);
    }
  }

  lemma NextReports(trace: seq<State>, limits: Limits, k: nat)
    requires IsRun(trace, limits) && k + 1 < |trace|
    requires trace[k].db.trades == ReportedTrades(trace[k].db.events)
    ensures trace[k + 1].db.trades == ReportedTrades(trace[k + 1].db.events)
  {
    RunKeepsInv(trace, limits, k);
    StepsAreWhole(trace[k], trace[k + 1], limits);
    WholeStepReports(trace[k].db, trace[k + 1].db);
  }

  /** The trade table is what the events report. */
  lemma TradesAreReported(trace: seq<State>, limits: Limits, i: nat)
    requires IsRun(trace, limits) && i < |trace|
    ensures trace[i].db.trades == ReportedTrades(trace[i].db.events)
  {
    forall k | 0 <= k < i && trace[k].db.trades == ReportedTrades(trace[k].db.events)
      ensures trace[k + 1].db.trades == ReportedTrades(trace[k + 1].db.events)
    {
      NextReports(trace, limits, k);
    }
    Along(trace, 0, i, (s: State) => s.db.trades == ReportedTrades(s.db.events));
  }

  /** In every reachable state the committed tables are those of one sequential engine per
      symbol, folded over the terminal commands in sequence order: statuses, events, orders and
      trades.  Each event carries its command's sequence, symbol and kind, and the trade table is what
      the events report, row by row under their commands' sequences. */
  lemma SerialRefinement(trace: seq<State>, limits: Limits, i: nat)
    requires IsRun(trace, limits) && i < |trace|
    ensures Journaled(Commands(trace[i].db.journal)) && EventPerTerminal(trace[i].db)
    ensures RepliesAgree(trace[i].db.events, Commands(trace[i].db.journal))
    ensures trace[i].db.trades == ReportedTrades(trace[i].db.events)
    ensures var db := trace[i].db;
            var done := Commands(db.journal)[..|db.events|];
            forall symbol ::
              && OrdersOf(db.orders, symbol) == MarketAfter(done, symbol).engine.ledger
              && TradesOf(db.trades, symbol) == MarketAfter(done, symbol).trades
  {
    RunKeepsInv(trace, limits, i);
    TradesAreReported(trace, limits, i);
  }

  // ---------------------------------------------------------------- journal, visibility and event order

  /** `b` extends `a`: commands and events only ever join at the end, beyond every older
      sequence and every older event id, and a terminal entry never changes again. */
  ghost predicate Extends(a: Database, b: Database) {
    && Commands(a.journal) <= Commands(b.journal)
    && a.events <= b.events
    && (forall i | 0 <= i < |a.journal| && a.journal[i].status.IsTerminal() :: b.journal[i] == a.journal[i])
    && (forall i, j | 0 <= i < |a.events| <= j < |b.events| ::
          a.events[i].id < b.events[j].id && a.events[i].commandSequence < b.events[j].commandSequence)
  }

  lemma CommitExtends(a: Database, w: Work)
    requires Serial(a) && LowestQueued(a.journal) == Some(w.command)
    requires forall j | 0 <= j < |a.events| :: a.events[j].id < w.eventId
    ensures Extends(a, Commit(a, w))
  {
    var k, b, cs := |a.events|, Commit(a, w), Commands(a.journal);
    var status := if w.reply.Executed? then Completed else CommandStatus.Rejected;
    WorkIsNext(a, w.command);
    MarkNext(a, w.command, status);
    assert b.journal == a.journal[k := Entry(w.command, status)];
    MarkKeepsCommands(a.journal, w.command.sequence, status);
    assert cs[k] == w.command;
    forall i | 0 <= i < k ensures a.events[i].commandSequence < w.command.sequence {
      assert cs[i].sequence < cs[k].sequence;
    }
    assert b.events == a.events + [EventOf(w)];
  }

  lemma StepExtends(a: Database, b: Database)
    requires Serial(a) && WholeStep(a, b)
    ensures Extends(a, b)
  {
    if c :| b == a.(journal := a.journal + [Entry(c, Queued)]) {
      assert Commands(b.journal) == Commands(a.journal) + [c];
    } else if b != a {
      var w :| b == Commit(a, w) && LowestQueued(a.journal) == Some(w.command)
               && Decide(a, w.command) == Ok(w.reply)
               && forall j | 0 <= j < |a.events| :: a.events[j].id < w.eventId;
      CommitExtends(a, w);
    }
  }

  lemma ExtendsTransitive(a: Database, b: Database, c: Database)
    requires Extends(a, b) && Extends(b, c)
    ensures Extends(a, c)
  {
    forall i | 0 <= i < |a.journal| && a.journal[i].status.IsTerminal() ensures c.journal[i] == a.journal[i] {
      assert b.journal[i] == a.journal[i];
    }
    forall i, j | 0 <= i < |a.events| <= j < |c.events|
      ensures a.events[i].id < c.events[j].id && a.events[i].commandSequence < c.events[j].commandSequence
    {
      assert b.events[i] == a.events[i];
      if j < |b.events| {
        assert c.events[j] == b.events[j];
      }
    }
  }

  lemma {:induction false} ExtendsAlong(trace: seq<State>, i: nat, j: nat)
    requires i <= j < |trace| && forall k | i <= k < j :: Extends(trace[k].db, trace[k + 1].db)
    ensures Extends(trace[i].db, trace[j].db)
    decreases j
  {
    if i < j {
      ExtendsAlong(trace, i, j - 1);
      ExtendsTransitive(trace[i].db, trace[j - 1].db, trace[j - 1 + 1].db);
    }
  }

  lemma NextExtends(trace: seq<State>, limits: Limits, k: nat)
    requires IsRun(trace, limits) && k + 1 < |trace|
    ensures Extends(trace[k].db, trace[k + 1].db)
  {
    RunKeepsInv(trace, limits, k);
    StepsAreWhole(trace[k], trace[k + 1], limits);
    StepExtends(trace[k].db, trace[k + 1].db);
  }

  /** Journal order is visibility order is event order: no event at or below an observed cursor
      appears later, and no command appears below an observed sequence. */
  lemma LaterStatesExtend(trace: seq<State>, limits: Limits, i: nat, j: nat)
    requires IsRun(trace, limits) && i <= j < |trace|
    ensures Extends(trace[i].db, trace[j].db)
  {
    forall k | i <= k < j ensures Extends(trace[k].db, trace[k + 1].db) {
      NextExtends(trace, limits, k);
    }
    ExtendsAlong(trace, i, j);
  }

  // ---------------------------------------------------------------- no poison command

  /** A processor that has claimed a command can always decide it and commit the decision; the
      command is then terminal.  Only a cancel is ever refused, always as unknown, and a refusal
      writes neither orders nor trades. */
  lemma NoPoisonCommand(s: State, p: nat, limits: Limits)
    requires Inv(s, limits) && p in s.processors && s.processors[p].Claimed?
    ensures Enabled(s, Prepare(p), limits)
    ensures var s1 := After(s, Prepare(p), limits);
            && Enabled(s1, CommitWork(p), limits)
            && var s2, reply := After(s1, CommitWork(p), limits), s1.processors[p].work.reply;
               && |s.db.events| < |s2.db.journal|
               && s2.db.journal[|s.db.events|].command == s.processors[p].command
               && s2.db.journal[|s.db.events|].status.IsTerminal()
               && (reply.Refused? ==>
                     && s.processors[p].command.kind.CancelOrder? && reply.error == UnknownOrder
                     && s2.db.orders == s.db.orders && s2.db.trades == s.db.trades)
  {
    var c := s.processors[p].command;
    WorkIsNext(s.db, c);
    DecideAgrees(s.db, Commands(s.db.journal)[..|s.db.events|], c);
    MarkNext(s.db, c, Completed);
    MarkNext(s.db, c, CommandStatus.Rejected);
  }

  lemma {:induction false} QueuedIsClaimable(journal: seq<Entry>, n: nat, k: nat)
    requires Journaled(Commands(journal)) && n <= |journal| && k < |journal| && journal[k].status.Queued?
    requires forall i | 0 <= i < |journal| :: journal[i].status.IsTerminal() <==> i < n
    ensures LowestQueued(journal).Some? && LowestQueued(journal).value.sequence <= journal[k].command.sequence
  {
    var cs := Commands(journal);
    forall i, j | 0 <= i < j < |journal| ensures journal[i].command.sequence < journal[j].command.sequence {
      assert cs[i].sequence < cs[j].sequence;
    }
    LowestIsFirst(journal, n);
  }

  /** Whenever a command is queued, the holder of the processor lock can claim one. */
  lemma QueuedCanBeClaimed(s: State, p: nat, k: nat, limits: Limits)
    requires Inv(s, limits) && p in s.processors && s.processors[p].Locked?
    requires k < |s.db.journal| && s.db.journal[k].status.Queued?
    ensures Enabled(s, Claim(p), limits)
    ensures LowestQueued(s.db.journal).value.sequence <= s.db.journal[k].command.sequence
  {
    QueuedIsClaimable(s.db.journal, |s.db.events|, k);
  }

  lemma EventsRise(db: Database)
    requires Serial(db)
    ensures forall i, j | 0 <= i < j < |db.events| :: db.events[i].commandSequence < db.events[j].commandSequence
  {
    var cs := Commands(db.journal);
    forall i, j | 0 <= i < j < |db.events| ensures db.events[i].commandSequence < db.events[j].commandSequence {
      assert cs[i].sequence < cs[j].sequence;
    }
  }

  // ---------------------------------------------------------------- conservation of the ledger

  /** Across every engine rebuild: each stored order's quantity is what remains plus all stored
      trades that name it, both sides have filled the traded total, and a symbol's stored trade
      sequences are exactly 1, 2, ..., n. */
  lemma {:induction false} LedgerIsConserved(trace: seq<State>, limits: Limits, i: nat, symbol: string)
    requires IsRun(trace, limits) && i < |trace|
    ensures var db := trace[i].db;
            var orders, trades := OrdersOf(db.orders, symbol), TradesOf(db.trades, symbol);
            && (forall k | 0 <= k < |orders| ::
                  orders[k].quantity == orders[k].remaining + TradedFor(trades, orders[k].id))
            && FilledOn(orders, Buy) == FilledOn(orders, Sell) == Total(trades)
            && (forall k | 0 <= k < |trades| :: trades[k].sequence == k + 1)
  {
    RunKeepsInv(trace, limits, i);
    MarketConserves(Commands(trace[i].db.journal)[..|trace[i].db.events|], symbol);
  }

  // ---------------------------------------------------------------- rows in plain terms

  /** A row under the command's symbol that is, but for remaining quantity and status, what it asks for. */
  ghost predicate HasOrderOf(db: Database, c: Command)
    requires c.kind.SubmitOrder?
  {
    exists k | 0 <= k < |db.orders| ::
      && db.orders[k].symbol == c.symbol && db.orders[k].order.id == c.kind.orderId
      && db.orders[k].order.side == c.kind.side && db.orders[k].order.price == c.kind.price
      && db.orders[k].order.quantity == c.kind.quantity && db.orders[k].order.sequence == c.sequence
  }

  ghost predicate WasSubmitted(db: Database, k: nat)
    requires k < |db.orders|
  {
    exists x | 0 <= x < |db.journal| ::
      && db.journal[x].status.IsTerminal() && db.journal[x].command.symbol == db.orders[k].symbol
      && IsSubmission(db.journal[x].command, db.orders[k].order)
  }

  lemma RowWasAsked(rows: seq<OrderRow>, done: seq<Command>, k: nat) returns (x: nat)
    requires Journaled(done) && k < |rows|
    requires OrdersOf(rows, rows[k].symbol) == MarketAfter(done, rows[k].symbol).engine.ledger
    ensures x < |done| && done[x].symbol == rows[k].symbol && IsSubmission(done[x], rows[k].order)
  {
    RowIsListed(rows, k);
    var l := MarketHoldsSubmissions(done, rows[k].symbol);
    var j :| 0 <= j < |l| && l[j] == rows[k].order;
    assert Asked(done, rows[k].symbol, l[j]);
    x :| 0 <= x < |done| && done[x].symbol == rows[k].symbol && IsSubmission(done[x], l[j]);
  }

  lemma OrderRowWasAsked(db: Database, k: nat)
    requires Serial(db) && k < |db.orders|
    ensures WasSubmitted(db, k)
  {
    JournaledPrefix(Commands(db.journal), |db.events|);
    var x := RowWasAsked(db.orders, Commands(db.journal)[..|db.events|], k);
    assert db.journal[x].status.IsTerminal();
  }

  lemma SubmissionHasRow(db: Database, x: nat) returns (k: nat)
    requires Serial(db) && x < |db.events| && db.journal[x].command.kind.SubmitOrder?
    ensures k < |db.orders| && db.orders[k].symbol == db.journal[x].command.symbol
    ensures IsSubmission(db.journal[x].command, db.orders[k].order)
  {
    var c, done := db.journal[x].command, Commands(db.journal)[..|db.events|];
    JournaledPrefix(Commands(db.journal), |db.events|);
    assert done[x] == c;
    var l := MarketHoldsSubmissions(done, c.symbol);
    assert HoldsOrderOf(l, c);
    var j :| 0 <= j < |l| && IsSubmission(c, l[j]);
    k := ListedHasRow(db.orders, c.symbol, l[j]);
  }

  /** In every reachable state the order table holds exactly the orders of the terminal submissions:
      each of them has a row with its symbol, identifier, side, price, quantity and sequence, and
      every row is one of theirs. */
  lemma StoredOrdersAreSubmissions(trace: seq<State>, limits: Limits, i: nat)
    requires IsRun(trace, limits) && i < |trace|
    ensures var db := trace[i].db;
            && (forall x | 0 <= x < |db.journal| && db.journal[x].status.IsTerminal()
                           && db.journal[x].command.kind.SubmitOrder? :: HasOrderOf(db, db.journal[x].command))
            && (forall k | 0 <= k < |db.orders| :: WasSubmitted(db, k))
  {
    RunKeepsInv(trace, limits, i);
    var db := trace[i].db;
    forall x | 0 <= x < |db.journal| && db.journal[x].status.IsTerminal()
               && db.journal[x].command.kind.SubmitOrder?
      ensures HasOrderOf(db, db.journal[x].command)
    {
      var k := SubmissionHasRow(db, x);
    }
    forall k | 0 <= k < |db.orders| ensures WasSubmitted(db, k) {
      OrderRowWasAsked(db, k);
    }
  }

  /** The maker and the taker of the trade have rows under its symbol; its price and side are the
      maker's, the taker is younger and of the other side, the price is within the taker's limit, and
      the row's command is the one that submitted the taker. */
  ghost predicate AllowedByBoth(db: Database, row: TradeRow) {
    exists m, k | 0 <= m < |db.orders| && 0 <= k < |db.orders| ::
      && db.orders[m].symbol == row.symbol && db.orders[k].symbol == row.symbol
      && db.orders[m].order.id == row.trade.maker && db.orders[k].order.id == row.trade.taker
      && db.orders[m].order.sequence < db.orders[k].order.sequence
      && row.trade.makerSide == db.orders[m].order.side && row.trade.price == db.orders[m].order.price
      && db.orders[k].order.side != db.orders[m].order.side
      && (if db.orders[k].order.side == Buy then row.trade.price <= db.orders[k].order.price
          else row.trade.price >= db.orders[k].order.price)
      && db.orders[k].order.sequence == row.commandSequence
  }

  lemma {:induction false} ReportedHasEvent(events: seq<EventRow>, row: TradeRow) returns (e: nat)
    requires row in ReportedTrades(events)
    ensures e < |events| && row in ReportedBy(events[e])
  {
    var last := events[|events| - 1];
    if row in ReportedBy(last) {
      e := |events| - 1;
    } else {
      e := ReportedHasEvent(events[..|events| - 1], row);
    }
  }

  lemma ReportedTaker(e: EventRow, c: Command, m: MarketState, row: TradeRow)
    requires Sound(m.engine) && WellFormed(c.kind) && c.sequence > 0
    requires row in ReportedBy(e) && SameUpToClass(e.reply, Advance(m, c).1)
    ensures c.kind.SubmitOrder? && row.trade.taker == c.kind.orderId
    ensures row.symbol == e.symbol && row.commandSequence == e.commandSequence
  {
    RepliesNameTheTaker(m, c);
    var i :| 0 <= i < |ReportedBy(e)| && ReportedBy(e)[i] == row;
    assert row.trade == e.reply.trades[i];
  }

  /** The market that a terminal command met, and that its event's reply is the answer of. */
  lemma EventReplied(db: Database, e: nat) returns (m: MarketState)
    requires Serial(db) && e < |db.events|
    ensures var c := db.journal[e].command;
            && Sound(m.engine) && WellFormed(c.kind) && c.sequence > 0
            && SameUpToClass(db.events[e].reply, Advance(m, c).1)
            && db.events[e].commandSequence == c.sequence
  {
    var cs := Commands(db.journal);
    assert cs[e] == db.journal[e].command;
    m := MarketAfter(cs[..e], cs[e].symbol);
    assert SameUpToClass(db.events[e].reply, ReplyTo(cs, e));
  }

  /** The row of the order that the trade's command submitted: the taker's. */
  lemma TakerRow(db: Database, x: nat) returns (k: nat)
    requires Serial(db) && db.trades == ReportedTrades(db.events) && x < |db.trades|
    ensures k < |db.orders| && db.orders[k].order.id == db.trades[x].trade.taker
    ensures db.orders[k].order.sequence == db.trades[x].commandSequence
  {
    var e := ReportedHasEvent(db.events, db.trades[x]);
    var m := EventReplied(db, e);
    ReportedTaker(db.events[e], db.journal[e].command, m, db.trades[x]);
    k := SubmissionHasRow(db, e);
  }

  lemma TradeRowIsBacked(db: Database, i: nat)
    requires Serial(db) && i < |db.trades|
    ensures Backed(db.trades[i].trade, OrdersOf(db.orders, db.trades[i].symbol))
  {
    JournaledPrefix(Commands(db.journal), |db.events|);
    TradeRowIsListed(db.trades, i);
    MarketTradesBacked(Commands(db.journal)[..|db.events|], db.trades[i].symbol);
  }

  lemma BackedTradeIsAllowed(db: Database, row: TradeRow, taker: nat)
    requires Backed(row.trade, OrdersOf(db.orders, row.symbol)) && DistinctRows(db.orders)
    requires taker < |db.orders| && db.orders[taker].order.id == row.trade.taker
    requires db.orders[taker].order.sequence == row.commandSequence
    ensures AllowedByBoth(db, row)
  {
    var t, l := row.trade, OrdersOf(db.orders, row.symbol);
    var a, b :| 0 <= a < b < |l| && l[a].id == t.maker && l[b].id == t.taker && l[a].sequence < l[b].sequence
                && t.makerSide == l[a].side && l[b].side != l[a].side && t.price == l[a].price
                && (if l[b].side == Buy then t.price <= l[b].price else t.price >= l[b].price);
    var m := ListedHasRow(db.orders, row.symbol, l[a]);
    var k := ListedHasRow(db.orders, row.symbol, l[b]);
    assert k < taker || taker < k || k == taker;
  }

  lemma {:induction false} TradeRowIsListed(rows: seq<TradeRow>, i: nat)
    requires i < |rows|
    ensures rows[i].trade in TradesOf(rows, rows[i].symbol)
  {
    if i < |rows| - 1 {
      TradeRowIsListed(rows[..|rows| - 1], i);
    }
  }

  /** Every stored trade is one that both of its orders allow. */
  lemma StoredTradesRespectLimits(trace: seq<State>, limits: Limits, i: nat)
    requires IsRun(trace, limits) && i < |trace|
    ensures forall x | 0 <= x < |trace[i].db.trades| :: AllowedByBoth(trace[i].db, trace[i].db.trades[x])
  {
    RunKeepsInv(trace, limits, i);
    TradesAreReported(trace, limits, i);
    var db := trace[i].db;
    forall x | 0 <= x < |db.trades| ensures AllowedByBoth(db, db.trades[x]) {
      TradeRowIsBacked(db, x);
      var taker := TakerRow(db, x);
      BackedTradeIsAllowed(db, db.trades[x], taker);
    }
  }

  // ---------------------------------------------------------------- the read model

  /** The engine inside a transaction after its command has been applied. */
  ghost function EngineAfter(db: Database, c: Command): Engine
    requires RestoredEngine(db, c.symbol).Ok? && Sound(RestoredEngine(db, c.symbol).value)
    requires WellFormed(c.kind) && c.sequence > 0
  {
    Step(RestoredEngine(db, c.symbol).value, OpOf(c)).0
  }

  /** The levels that a transaction publishes from its engine are those that anyone can read from
      the rows it committed. */
  lemma {:induction false} LevelsAgree(db: Database, cs: seq<Command>, w: Work, book: Book)
    requires Refines(db, cs) && Journaled(cs + [w.command]) && Decide(db, w.command) == Ok(w.reply)
    ensures WellFormed(w.command.kind) && w.command.sequence > 0
    ensures RestoredEngine(db, w.command.symbol).Ok? && Sound(RestoredEngine(db, w.command.symbol).value)
    ensures IsBook(book, EngineAfter(db, w.command).ledger)
       <==> IsBook(book, OrdersOf(Commit(db, w).orders, w.command.symbol))
  {
    var c := w.command;
    LastIsWellFormed(cs, c);
    RestoredIsLinked(db, cs, c.symbol);
    var l := MarketAfter(cs, c.symbol).engine;
    StepLinked(l, RestoredEngine(db, c.symbol).value, OpOf(c));
    CommitOrders(db, cs, w, c.symbol);
    assert (cs + [c])[..|cs|] == cs;
    BookOfActive(book, EngineAfter(db, c).ledger);
    BookOfActive(book, Step(l, OpOf(c)).0.ledger);
  }

  /** The sequence a book carries: the greatest terminal command of the symbol, or 0. */
  function BookSequence(journal: seq<Entry>, symbol: string): int {
    if journal == [] then 0
    else
      var last := journal[|journal| - 1];
      var n := BookSequence(journal[..|journal| - 1], symbol);
      if last.command.symbol == symbol && last.status.IsTerminal() then Max(n, last.command.sequence) else n
  }

  lemma {:induction false} BookSequenceBounds(journal: seq<Entry>, symbol: string)
    ensures BookSequence(journal, symbol) >= 0
    ensures forall i | 0 <= i < |journal| && journal[i].command.symbol == symbol && journal[i].status.IsTerminal() ::
              journal[i].command.sequence <= BookSequence(journal, symbol)
    ensures BookSequence(journal, symbol) > 0 ==>
              exists i | 0 <= i < |journal| :: journal[i].command.symbol == symbol && journal[i].status.IsTerminal()
                                               && journal[i].command.sequence == BookSequence(journal, symbol)
  {
    if journal != [] {
      var init := journal[..|journal| - 1];
      assert forall i | 0 <= i < |init| :: init[i] == journal[i];
      BookSequenceBounds(init, symbol);
    }
  }

  /** The event id a book carries: the newest event of the symbol, or 0. */
  function LatestEventId(events: seq<EventRow>, symbol: string): int {
    if events == [] then 0
    else
      var n := LatestEventId(events[..|events| - 1], symbol);
      if events[|events| - 1].symbol == symbol then Max(n, events[|events| - 1].id) else n
  }

  lemma {:induction false} LatestEventBelow(events: seq<EventRow>, symbol: string, bound: int)
    requires bound >= 0 && forall i | 0 <= i < |events| :: events[i].id <= bound
    ensures 0 <= LatestEventId(events, symbol) <= bound
  {
    if events != [] {
      assert forall i | 0 <= i < |events| - 1 :: events[..|events| - 1][i] == events[i];
      LatestEventBelow(events[..|events| - 1], symbol, bound);
    }
  }

  lemma {:induction false} LatestEventAfter(events: seq<EventRow>, e: EventRow)
    requires e.id > 0 && forall i | 0 <= i < |events| :: events[i].id < e.id
    ensures LatestEventId(events + [e], e.symbol) == e.id
  {
    assert (events + [e])[..|events|] == events;
    LatestEventBelow(events, e.symbol, e.id - 1);
  }

  /** Once a command is terminal, the book of its symbol carries its sequence. */
  lemma CommitBookSequence(db: Database, w: Work)
    requires Serial(db) && LowestQueued(db.journal) == Some(w.command)
    ensures BookSequence(Commit(db, w).journal, w.command.symbol) == w.command.sequence
  {
    var status := if w.reply.Executed? then Completed else CommandStatus.Rejected;
    WorkIsNext(db, w.command);
    MarkNext(db, w.command, status);
    CommittedSequence(db.journal, |db.events|, Entry(w.command, status));
  }

  lemma CommittedSequence(journal: seq<Entry>, k: nat, e: Entry)
    requires Journaled(Commands(journal)) && k < |journal| && journal[k].command == e.command && e.status.IsTerminal()
    requires forall i | 0 <= i < |journal| :: journal[i].status.IsTerminal() <==> i < k
    ensures BookSequence(journal[k := e], e.command.symbol) == e.command.sequence
  {
    var after := journal[k := e];
    BookSequenceBounds(after, e.command.symbol);
    assert after[k] == e;
    forall i | 0 <= i <= k ensures after[i].command.sequence <= e.command.sequence {
      assert Commands(journal)[i].sequence <= Commands(journal)[k].sequence;
    }
    assert e.command.sequence > 0 by {
      assert Commands(journal)[k].sequence > 0;
    }
  }

  /** The book that a processor pushes agrees with the read model in all it carries: its levels, its
      sequence, which is the command's own, and its event id. */
  lemma ReadModelAgrees(db: Database, w: Work, book: Book)
    requires Serial(db) && LowestQueued(db.journal) == Some(w.command) && Decide(db, w.command) == Ok(w.reply)
    requires w.eventId > 0 && forall i | 0 <= i < |db.events| :: db.events[i].id < w.eventId
    ensures WellFormed(w.command.kind) && w.command.sequence > 0
    ensures RestoredEngine(db, w.command.symbol).Ok? && Sound(RestoredEngine(db, w.command.symbol).value)
    ensures IsBook(book, EngineAfter(db, w.command).ledger)
       <==> IsBook(book, OrdersOf(Commit(db, w).orders, w.command.symbol))
    ensures BookSequence(Commit(db, w).journal, w.command.symbol) == w.command.sequence
    ensures LatestEventId(Commit(db, w).events, w.command.symbol) == w.eventId
  {
    WorkIsNext(db, w.command);
    LevelsAgree(db, Commands(db.journal)[..|db.events|], w, book);
    CommitBookSequence(db, w);
    LatestEventAfter(db.events, EventOf(w));
  }

  /** Commands of other symbols leave a market as it is. */
  lemma {:induction false} QuietMarket(cs: seq<Command>, n: nat, symbol: string)
    requires AllWellFormed(cs) && n <= |cs|
    requires forall i | n <= i < |cs| :: cs[i].symbol != symbol
    ensures AllWellFormed(cs[..n])
    ensures MarketAfter(cs, symbol) == MarketAfter(cs[..n], symbol)
    decreases |cs|
  {
    if n == |cs| {
      assert cs[..n] == cs;
    } else {
      var init := cs[..|cs| - 1];
      QuietMarket(init, n, symbol);
      assert init[..n] == cs[..n];
    }
  }

  ghost predicate InOrder(db: Database) {
    Journaled(Commands(db.journal)) && EventPerTerminal(db)
  }

  /** Equal book sequences leave no terminal command of the symbol in between. */
  lemma {:induction false} NothingInBetween(a: Database, b: Database, symbol: string, k: nat)
    requires InOrder(a) && InOrder(b) && Extends(a, b) && |a.events| <= k < |b.events|
    requires BookSequence(a.journal, symbol) == BookSequence(b.journal, symbol)
    ensures Commands(b.journal)[k].symbol != symbol
  {
    var cs := Commands(b.journal);
    BookSequenceBounds(a.journal, symbol);
    BookSequenceBounds(b.journal, symbol);
    assert cs[k] == b.journal[k].command;
    assert cs[k].sequence > BookSequence(a.journal, symbol) by {
      if BookSequence(a.journal, symbol) > 0 {
        var x :| 0 <= x < |a.journal| && a.journal[x].command.symbol == symbol && a.journal[x].status.IsTerminal()
                 && a.journal[x].command.sequence == BookSequence(a.journal, symbol);
        assert Commands(a.journal)[x] == cs[x];
        assert cs[x].sequence < cs[k].sequence;
      }
    }
  }

  lemma {:induction false} SameMarket(a: Database, b: Database, symbol: string)
    requires InOrder(a) && InOrder(b) && Extends(a, b)
    requires BookSequence(a.journal, symbol) == BookSequence(b.journal, symbol)
    ensures AllWellFormed(Commands(a.journal)[..|a.events|]) && AllWellFormed(Commands(b.journal)[..|b.events|])
    ensures MarketAfter(Commands(a.journal)[..|a.events|], symbol)
         == MarketAfter(Commands(b.journal)[..|b.events|], symbol)
  {
    var done := Commands(b.journal)[..|b.events|];
    forall k | |a.events| <= k < |b.events| ensures done[k].symbol != symbol {
      NothingInBetween(a, b, symbol, k);
    }
    assert done[..|a.events|] == Commands(a.journal)[..|a.events|];
    QuietMarket(done, |a.events|, symbol);
  }

  lemma {:induction false} LatestEventQuiet(events: seq<EventRow>, n: nat, symbol: string)
    requires n <= |events| && forall i | n <= i < |events| :: events[i].symbol != symbol
    ensures LatestEventId(events, symbol) == LatestEventId(events[..n], symbol)
    decreases |events|
  {
    if n == |events| {
      assert events[..n] == events;
    } else {
      var init := events[..|events| - 1];
      LatestEventQuiet(init, n, symbol);
      assert init[..n] == events[..n];
    }
  }

  lemma {:induction false} NoEventInBetween(a: Database, b: Database, symbol: string, k: nat)
    requires InOrder(a) && InOrder(b) && Extends(a, b) && |a.events| <= k < |b.events|
    requires BookSequence(a.journal, symbol) == BookSequence(b.journal, symbol)
    ensures b.events[k].symbol != symbol
  {
    NothingInBetween(a, b, symbol, k);
    assert Commands(b.journal)[k] == b.journal[k].command;
  }

  lemma {:induction false} SameLatestEvent(a: Database, b: Database, symbol: string)
    requires InOrder(a) && InOrder(b) && Extends(a, b)
    requires BookSequence(a.journal, symbol) == BookSequence(b.journal, symbol)
    ensures LatestEventId(a.events, symbol) == LatestEventId(b.events, symbol)
  {
    forall k | |a.events| <= k < |b.events| ensures b.events[k].symbol != symbol {
      NoEventInBetween(a, b, symbol, k);
    }
    LatestEventQuiet(b.events, |a.events|, symbol);
    assert b.events[..|a.events|] == a.events;
  }

  /** Two states of a run whose books of a symbol carry the same sequence have the same orders,
      hence the same book, and the same newest event: ignoring an equal-sequence book loses nothing. */
  lemma {:induction false} SameSequenceSameBook(trace: seq<State>, limits: Limits, i: nat, j: nat, symbol: string)
    requires IsRun(trace, limits) && i <= j < |trace|
    requires BookSequence(trace[i].db.journal, symbol) == BookSequence(trace[j].db.journal, symbol)
    ensures OrdersOf(trace[i].db.orders, symbol) == OrdersOf(trace[j].db.orders, symbol)
    ensures TradesOf(trace[i].db.trades, symbol) == TradesOf(trace[j].db.trades, symbol)
    ensures LatestEventId(trace[i].db.events, symbol) == LatestEventId(trace[j].db.events, symbol)
  {
    RunKeepsInv(trace, limits, i);
    RunKeepsInv(trace, limits, j);
    LaterStatesExtend(trace, limits, i, j);
    SameMarket(trace[i].db, trace[j].db, symbol);
    SameLatestEvent(trace[i].db, trace[j].db, symbol);
  }

  // ---------------------------------------------------------------- terminal orders stay terminal

  lemma {:induction false} MatchKeepsTerminal(l: Ledger, taker: LimitOrder, next: int, k: nat)
    requires Tidy(l) && taker.Valid() && k < |l| && !l[k].IsActive()
    ensures |Match(l, taker, next).ledger| == |l| && Match(l, taker, next).ledger[k] == l[k]
    decreases taker.remaining
  {
    if taker.remaining == 0 || BestMaker(l, taker).None? {
      MatchDone(l, taker, next);
    } else {
      var p, q := MatchStep(l, taker, next);
      MatchKeepsTerminal(l[p := l[p].Filled(q)], taker.Filled(q), next + 1, k);
    }
  }

  lemma AdvanceKeepsTerminal(m: MarketState, c: Command, k: nat)
    requires Sound(m.engine) && WellFormed(c.kind) && c.sequence > 0
    requires k < |m.engine.ledger| && !m.engine.ledger[k].IsActive()
    ensures |Advance(m, c).0.engine.ledger| >= |m.engine.ledger|
    ensures Advance(m, c).0.engine.ledger[k] == m.engine.ledger[k]
  {
    if c.kind.SubmitOrder? {
      if Submit(m.engine, OrderOf(c)).Ok? {
        AdvanceSubmit(m, c);
        var ex := SubmitExecutes(m.engine, OrderOf(c));
        MatchKeepsTerminal(m.engine.ledger, OrderOf(c), m.engine.next, k);
      }
    } else {
      AdvanceCancel(m, c);
      if Cancel(m.engine, c.kind.orderId).Ok? {
        CancelKeepsSound(m.engine, c.kind.orderId);
      }
    }
  }

  lemma {:induction false} MarketKeepsTerminal(cs: seq<Command>, n: nat, symbol: string, o: LimitOrder)
    requires AllWellFormed(cs) && n <= |cs| && !o.IsActive()
    requires AllWellFormed(cs[..n]) && o in MarketAfter(cs[..n], symbol).engine.ledger
    ensures o in MarketAfter(cs, symbol).engine.ledger
    decreases |cs|
  {
    if n == |cs| {
      assert cs[..n] == cs;
    } else {
      var init, c := cs[..|cs| - 1], cs[|cs| - 1];
      assert init[..n] == cs[..n];
      MarketKeepsTerminal(init, n, symbol, o);
      var m := MarketAfter(init, symbol);
      var k :| 0 <= k < |m.engine.ledger| && m.engine.ledger[k] == o;
      if c.symbol == symbol {
        AdvanceKeepsTerminal(m, c, k);
      }
    }
  }

  lemma TerminalRowStays(a: Database, b: Database, row: OrderRow)
    requires Serial(a) && Serial(b) && Extends(a, b)
    requires row in a.orders && !row.order.IsActive()
    ensures row in b.orders
  {
    var k :| 0 <= k < |a.orders| && a.orders[k] == row;
    RowIsListed(a.orders, k);
    var cs := Commands(b.journal);
    assert cs[..|b.events|][..|a.events|] == Commands(a.journal)[..|a.events|];
    MarketKeepsTerminal(cs[..|b.events|], |a.events|, row.symbol, row.order);
    var x := ListedHasRow(b.orders, row.symbol, row.order);
  }

  /** Once stored as filled or cancelled, an order's row never changes again. */
  lemma TerminalOrderIsFinal(trace: seq<State>, limits: Limits, i: nat, j: nat, row: OrderRow)
    requires IsRun(trace, limits) && i <= j < |trace|
    requires row in trace[i].db.orders && !row.order.IsActive()
    ensures row in trace[j].db.orders
  {
    RunKeepsInv(trace, limits, i);
    RunKeepsInv(trace, limits, j);
    LaterStatesExtend(trace, limits, i, j);
    TerminalRowStays(trace[i].db, trace[j].db, row);
  }

  // ---------------------------------------------------------------- idempotent, bounded acceptance

  /** A key owns at most one command, in one state or across states of a run. */
  lemma KeyOwnsOneCommand(trace: seq<State>, limits: Limits, i: nat, j: nat, x: nat, y: nat)
    requires IsRun(trace, limits) && i <= j < |trace|
    requires x < |trace[i].db.journal| && y < |trace[j].db.journal|
    requires trace[i].db.journal[x].command.key == trace[j].db.journal[y].command.key
    ensures x == y && trace[i].db.journal[x].command == trace[j].db.journal[y].command
  {
    RunKeepsInv(trace, limits, j);
    LaterStatesExtend(trace, limits, i, j);
    assert Commands(trace[i].db.journal)[x] == Commands(trace[j].db.journal)[x];
    assert x < y || y < x || x == y;
  }

  /** A retry with the same meaning returns the original command at any later time, even when the
      queue is full; a reuse of the key with another meaning is a conflict. */
  lemma RetryReturnsTheOriginal(trace: seq<State>, limits: Limits, i: nat, j: nat, x: nat, r: Request, any: Limits)
    requires IsRun(trace, limits) && i <= j < |trace|
    requires x < |trace[i].db.journal| && trace[i].db.journal[x].command.key == r.key
    ensures Resolve(trace[j].db.journal, r, any)
         == if AsksTheSame(trace[i].db.journal[x].command, r) then Existing(trace[i].db.journal[x].command)
            else Conflict
  {
    LaterStatesExtend(trace, limits, i, j);
    RunKeepsInv(trace, limits, j);
    var later := trace[j].db.journal;
    assert Commands(trace[i].db.journal)[x] == Commands(later)[x];
    OwnerIsAnswered(later, r, any, x);
  }

  /** The queue and the journal never outgrow their limits. */
  lemma AlwaysBounded(trace: seq<State>, limits: Limits, i: nat)
    requires IsRun(trace, limits) && i < |trace|
    ensures limits.total.Some? ==> |trace[i].db.journal| <= limits.total.value
    ensures limits.queued.Some? ==> CountQueued(trace[i].db.journal) <= limits.queued.value
  {
    RunKeepsInv(trace, limits, i);
  }
}
