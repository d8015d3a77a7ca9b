/**
 The command processor and the book query, step by step over the stored rows.  One call of
 `ProcessOnce` is the body of one transaction; it is proved to commit what `Store` specifies,
 using the imperative matching engine.
 */
module Processing {
  import opened Common
  import opened Orders
  import opened PriceTime
  import opened BookView
  import opened Rebuild
  import opened Market
  import opened Store
  import opened Matching
  import Exchange
  import Journal
  import Guarantees

  class CommandProcessor {
    var journal: seq<Entry>
    var orders: seq<OrderRow>
    var trades: seq<TradeRow>
    var events: seq<EventRow>
    var nextEvent: int

    function Db(): Database
      reads this
    {
      Database(journal, orders, trades, events)
    }

    /** Reads the symbol's active rows, constructs each order again and restores an engine. */
    method RestoreEngine(symbol: string) returns (r: Result<MatchingEngine, EngineError>)
      ensures match RestoredEngine(Db(), symbol)
              case Err(e) => r == Err(e)
              case Ok(v) => r.Ok? && fresh(r.value) && r.value.Valid() && r.value.View() == v
    {
      var active: Ledger := [];
      var ledger := OrdersOf(orders, symbol);
      var rows := Active(ledger);
      for i := 0 to |rows|
        invariant active == rows[..i] && AllValid(active)
      {
        var o := rows[i];
        var made := NewOrder(o.id, o.side, o.price, o.quantity, o.sequence, Some(o.remaining), Some(o.status));
        RehydrationRoundTrip(o);
        if made.Err? {
          return Err(made.error);
        }
        active := active + [made.value];
      }
      assert rows[..|rows|] == rows;
      r := MatchingEngine.Restore(active, MaxTradeSequence(trades, symbol) + 1);
    }

    /** Updates the row of an order that is stored already, or adds one. */
    method PersistOrder(symbol: string, o: LimitOrder)
      modifies this`orders
      ensures Persisted(old(orders), orders, symbol, o)
    {
      if HasRow(orders, o.id) {
        orders := UpdateRow(orders, o);
      } else {
        orders := orders + [OrderRow(symbol, o)];
      }
      PersistedIsPersist(old(orders), orders, symbol, o);
    }

    method PersistOrders(symbol: string, changed: seq<LimitOrder>)
      modifies this`orders
      ensures orders == PersistAll(old(orders), symbol, changed)
    {
      var i := 0;
      assert changed[0..] == changed;
      while i < |changed|
        invariant 0 <= i <= |changed|
        invariant PersistAll(old(orders), symbol, changed) == PersistAll(orders, symbol, changed[i..])
      {
        assert changed[i..][0] == changed[i] && changed[i..][1..] == changed[i + 1..];
        ghost var before := orders;
        PersistOrder(symbol, changed[i]);
        PersistedIsPersist(before, orders, symbol, changed[i]);
        i := i + 1;
      }
    }

    /** Applies the command to an engine; every refusal is raised. */
    static method Apply(engine: MatchingEngine, c: Command) returns (r: Result<(Reply, BookSnapshot), EngineError>)
      requires engine.Valid() && WellFormed(c.kind) && c.sequence > 0
      modifies engine
      ensures engine.Valid()
      ensures var (after, reply) := Step(old(engine.View()), OpOf(c));
              && engine.View() == after
              && if reply.Refused? then r == Err(reply.error)
                 else r.Ok? && r.value.0 == reply && Exchange.IsSnapshot(r.value.1, after)
    {
      if c.kind.SubmitOrder? {
        var incoming := FreshOrder(c.kind.orderId, c.kind.side, c.kind.price, c.kind.quantity, c.sequence);
        var submission :- engine.Submit(incoming.value);
        var result := submission.result;
        return Ok((Executed(result.changed + [result.order], result.trades), submission.snapshot));
      }
      var cancelled :- engine.Cancel(c.kind.orderId);
      var snapshot := engine.Snapshot();
      r := Ok((Executed([cancelled], []), snapshot));
    }

    /** All the writes of an executed command. */
    method RecordExecution(c: Command, reply: Reply)
      requires reply.Executed?
      modifies this
      ensures Db() == Commit(old(Db()), Work(c, reply, old(nextEvent)))
      ensures nextEvent == old(nextEvent) + 1
    {
      PersistOrders(c.symbol, reply.changed);
      trades := trades + TradeRows(c, reply.trades);
      events := events + [EventOf(Work(c, reply, nextEvent))];
      nextEvent := nextEvent + 1;
      journal := Mark(journal, c.sequence, Completed);
    }

    /** Applies the command to a restored engine and writes all it changes, or raises before
        anything is written. */
    method ApplyCommand(c: Command) returns (r: Result<BookResponse, EngineError>)
      requires WellFormed(c.kind) && c.sequence > 0
      modifies this
      ensures match RestoredEngine(old(Db()), c.symbol)
              case Err(e) => r == Err(e) && unchanged(this)
              case Ok(engine) =>
                && Exchange.Sound(engine)
                && var reply := Step(engine, OpOf(c)).1;
                   if reply.Refused? then r == Err(reply.error) && unchanged(this)
                   else
                     && Db() == Commit(old(Db()), Work(c, reply, old(nextEvent)))
                     && nextEvent == old(nextEvent) + 1
                     && r.Ok? && IsPushed(r.value, old(Db()), c, old(nextEvent))
    {
      var engine :- RestoreEngine(c.symbol);
      var applied :- Apply(engine, c);
      var (reply, snapshot) := applied;
      r := Ok(BookFromEngine(c.symbol, c.sequence, nextEvent, snapshot));
      assert IsPushed(r.value, Db(), c, nextEvent);
      RecordExecution(c, reply);
    }

    /** Records a refusal.  The engine that refused is gone, so the book is that of another one. */
    method RejectCommand(c: Command, error: EngineError) returns (r: BookResponse)
      requires WellFormed(c.kind) && c.sequence > 0
      requires RestoredEngine(Db(), c.symbol).Ok? && Exchange.Sound(RestoredEngine(Db(), c.symbol).value)
      requires Step(RestoredEngine(Db(), c.symbol).value, OpOf(c)).1 == Refused(error)
      modifies this
      ensures Db() == Commit(old(Db()), Work(c, Refused(error), old(nextEvent)))
      ensures nextEvent == old(nextEvent) + 1
      ensures IsPushed(r, old(Db()), c, old(nextEvent))
    {
      ghost var before := Db();
      RefusedKeepsEngine(before, c);
      var eventId := nextEvent;
      journal := Mark(journal, c.sequence, CommandStatus.Rejected);
      events := events + [EventOf(Work(c, Refused(error), eventId))];
      nextEvent := nextEvent + 1;
      RestoredFromTables(before, Db(), c.symbol);
      var engine := RestoreEngine(c.symbol);
      var snapshot := engine.value.Snapshot();
      r := BookFromEngine(c.symbol, c.sequence, eventId, snapshot);
    }

    /** One transaction: the lowest queued command is applied and all its writes are made, or
        an exception escapes and nothing is written. */
    method ProcessOnce() returns (claimed: Option<Command>, r: Result<Option<BookResponse>, EngineError>)
      requires forall i | 0 <= i < |journal| :: WellFormed(journal[i].command.kind) && journal[i].command.sequence > 0
      modifies this
      ensures claimed == Journal.LowestQueued(old(journal))
      ensures claimed == None ==> Db() == old(Db()) && r == Ok(None)
      ensures claimed.Some? ==>
                match Decide(old(Db()), claimed.value)
                case Err(e) => r == Err(e) && Db() == old(Db())
                case Ok(reply) =>
                  var w := Work(claimed.value, reply, old(nextEvent));
                  && Db() == Commit(old(Db()), w)
                  && nextEvent == old(nextEvent) + 1
                  && r.Ok? && r.value.Some?
                  && Publishable(r.value.value, old(Db()), w)
    {
      claimed := Journal.LowestQueued(journal);
      if claimed.None? {
        return claimed, Ok(None);
      }
      var c := claimed.value;
      ghost var before, eventId := Db(), nextEvent;
      DecideIsStep(before, c);
      var update := ApplyCommand(c);
      if update.Err? && IsCaught(update.error) {
        var rejected := RejectCommand(c, update.error);
        update := Ok(rejected);
      }
      if update.Err? {
        return claimed, Err(update.error);
      }
      PushedIsPublishable(before, Work(c, Decide(before, c).value, eventId), update.value);
      r := Ok(Some(update.value));
    }

    /** The acceptance transaction: an existing key answers or conflicts, a full queue refuses,
        otherwise one queued command joins the journal. */
    method PersistIdempotently(request: Journal.Request, sequence: int, limits: Journal.Limits)
      returns (answer: Journal.Answer)
      modifies this`journal
      ensures answer == Journal.Resolve(old(journal), request, limits)
      ensures Journal.Justified(answer, old(journal), request, limits)
      ensures journal == if answer.Insert?
                         then old(journal)
                              + [Entry(Command(sequence, request.key, request.symbol, request.kind), Queued)]
                         else old(journal)
    {
      Journal.ResolveIsJustified(journal, request, limits);
      var existing := Journal.FindKey(journal, request.key);
      if existing.Some? {
        var same := Journal.SameMeaning(existing.value, request);
        return if same then Journal.Existing(existing.value) else Journal.Conflict;
      }
      if limits.total.Some? && |journal| >= limits.total.value {
        return Journal.Full;
      }
      if limits.queued.Some? {
        var queued := Journal.CountQueued(journal);
        if queued >= limits.queued.value {
          return Journal.Full;
        }
      }
      journal := journal + [Entry(Journal.CommandOf(request, sequence), Queued)];
      answer := Journal.Insert;
    }
  }

  /** The rows after one order has been persisted: every row that was there keeps its place and all
      its columns, except that the order's own row takes the new remaining quantity and status; an
      order without a row gets one at the end. */
  ghost predicate Persisted(before: seq<OrderRow>, after: seq<OrderRow>, symbol: string, o: LimitOrder) {
    && HasRow(after, o.id)
    && |after| == |before| + (if HasRow(before, o.id) then 0 else 1)
    && SameRows(before, after[..|before|])
    && (forall i | 0 <= i < |before| && before[i].order.id != o.id :: after[i] == before[i])
    && (forall i | 0 <= i < |after| && after[i].order.id == o.id ::
          after[i].order.remaining == o.remaining && after[i].order.status == o.status)
    && (!HasRow(before, o.id) ==> after[|before|] == OrderRow(symbol, o))
  }

  lemma PersistedIsPersist(before: seq<OrderRow>, after: seq<OrderRow>, symbol: string, o: LimitOrder)
    ensures Persisted(before, after, symbol, o) <==> after == Persist(before, symbol, o)
  {
    var rows := Persist(before, symbol, o);
    if HasRow(before, o.id) {
      var k :| 0 <= k < |before| && before[k].order.id == o.id;
      assert rows[k].order.id == o.id;
    } else {
      assert rows[|before|].order.id == o.id;
    }
    if Persisted(before, after, symbol, o) {
      forall i | 0 <= i < |after| ensures after[i] == rows[i] {
        if i < |before| {
          assert after[..|before|][i] == after[i];
        }
      }
    }
  }

  lemma DecideIsStep(db: Database, c: Command)
    requires WellFormed(c.kind) && c.sequence > 0
    ensures match RestoredEngine(db, c.symbol)
            case Err(e) => Decide(db, c) == Err(e) && !IsCaught(e)
            case Ok(engine) =>
              Exchange.Sound(engine) ==>
                var reply := Step(engine, OpOf(c)).1;
                Decide(db, c) == if reply.Refused? && !IsCaught(reply.error) then Err(reply.error) else Ok(reply)
  {
    RestoringRaises(db, c.symbol);
  }

  lemma {:induction false} LoadingRaises(e: Exchange.Engine, orders: Ledger)
    requires Exchange.Load(e, orders).Err?
    ensures !IsCaught(Exchange.Load(e, orders).error)
    decreases |orders|
  {
    if orders[0].IsActive() && !HasId(e.ledger, orders[0].id) && !Exchange.HasSequence(e.ledger, orders[0].sequence) {
      LoadingRaises(Exchange.Engine(e.ledger + [orders[0]], Max(e.last, orders[0].sequence), e.next), orders[1..]);
    }
  }

  /** A failing restore is never mistaken for a refused cancel: its errors are not the caught ones. */
  lemma RestoringRaises(db: Database, symbol: string)
    ensures RestoredEngine(db, symbol).Err? ==> !IsCaught(RestoredEngine(db, symbol).error)
  {
    var active, next := Active(OrdersOf(db.orders, symbol)), MaxTradeSequence(db.trades, symbol) + 1;
    var loaded := Exchange.Load(Exchange.Engine([], 0, next), Exchange.SortBySequence(active));
    if loaded.Err? {
      LoadingRaises(Exchange.Engine([], 0, next), Exchange.SortBySequence(active));
    }
  }

  /** Restoring reads the order and trade tables only. */
  lemma RestoredFromTables(a: Database, b: Database, symbol: string)
    requires a.orders == b.orders && a.trades == b.trades
    ensures RestoredEngine(a, symbol) == RestoredEngine(b, symbol)
  {
  }

  lemma RefusedKeepsEngine(db: Database, c: Command)
    requires WellFormed(c.kind) && c.sequence > 0
    requires RestoredEngine(db, c.symbol).Ok? && Exchange.Sound(RestoredEngine(db, c.symbol).value)
    requires Step(RestoredEngine(db, c.symbol).value, OpOf(c)).1.Refused?
    ensures Guarantees.EngineAfter(db, c) == RestoredEngine(db, c.symbol).value
  {
  }

  // ---------------------------------------------------------------- books that leave the server

  /** A symbol's book as it is sent out: its levels, and the command and event that it reflects. */
  datatype BookResponse = BookResponse(symbol: string, sequence: int, eventId: int, book: Book)

  function BookFromEngine(symbol: string, sequence: int, eventId: int, snapshot: BookSnapshot): BookResponse {
    BookResponse(symbol, sequence, eventId, snapshot.book)
  }

  /** The book that anybody reads from the tables. */
  ghost predicate IsResponse(r: BookResponse, db: Database, symbol: string) {
    && r.symbol == symbol
    && r.sequence == Guarantees.BookSequence(db.journal, symbol)
    && r.eventId == Guarantees.LatestEventId(db.events, symbol)
    && IsBook(r.book, OrdersOf(db.orders, symbol))
  }

  /** A book taken from the engine inside the transaction, stamped with the command and its event. */
  ghost predicate IsPushed(r: BookResponse, before: Database, c: Command, eventId: int)
    requires RestoredEngine(before, c.symbol).Ok? && Exchange.Sound(RestoredEngine(before, c.symbol).value)
    requires WellFormed(c.kind) && c.sequence > 0
  {
    && r.symbol == c.symbol && r.sequence == c.sequence && r.eventId == eventId
    && IsBook(r.book, Guarantees.EngineAfter(before, c).ledger)
  }

  ghost predicate NewestEvent(events: seq<EventRow>, id: int) {
    id > 0 && forall i | 0 <= i < |events| :: events[i].id < id
  }

  /** What goes out with a command is what anybody reads from the tables once it is committed,
      whenever the tables were those of the serial reference and the event id is the newest. */
  ghost predicate Publishable(r: BookResponse, before: Database, w: Work) {
    Journal.Serial(before) && NewestEvent(before.events, w.eventId) ==>
      IsResponse(r, Commit(before, w), w.command.symbol)
  }

  lemma PushedIsPublishable(db: Database, w: Work, r: BookResponse)
    requires Journal.LowestQueued(db.journal) == Some(w.command) && Decide(db, w.command) == Ok(w.reply)
    requires WellFormed(w.command.kind) && w.command.sequence > 0
    requires RestoredEngine(db, w.command.symbol).Ok?
    requires Exchange.Sound(RestoredEngine(db, w.command.symbol).value)
    requires IsPushed(r, db, w.command, w.eventId)
    ensures Publishable(r, db, w)
  {
    if Journal.Serial(db) && NewestEvent(db.events, w.eventId) {
      Guarantees.ReadModelAgrees(db, w, r.book);
    }
  }

  /** Any two books of a symbol that are read from states of one run and carry the same sequence are
      the same in everything. */
  lemma SameSequenceSameResponse(trace: seq<Journal.State>, limits: Journal.Limits, i: nat, j: nat, symbol: string,
                                 a: BookResponse, b: BookResponse)
    requires Journal.IsRun(trace, limits) && i < |trace| && j < |trace|
    requires IsResponse(a, trace[i].db, symbol) && IsResponse(b, trace[j].db, symbol) && a.sequence == b.sequence
    ensures a == b
  {
    if i <= j {
      Guarantees.SameSequenceSameBook(trace, limits, i, j, symbol);
    } else {
      Guarantees.SameSequenceSameBook(trace, limits, j, i, symbol);
    }
    BookIsUnique(a.book, b.book, OrdersOf(trace[i].db.orders, symbol));
  }

  lemma PreparedIsNewest(s: Journal.State, p: nat)
    requires Journal.ProcessorsSafe(s) && p in s.processors && s.processors[p].Prepared?
    ensures NewestEvent(s.db.events, s.processors[p].work.eventId)
  {
  }

  lemma CommitsItsWork(s: Journal.State, limits: Journal.Limits, p: nat)
    requires p in s.processors && s.processors[p].Prepared?
    ensures Journal.After(s, Journal.CommitWork(p), limits).db == Commit(s.db, s.processors[p].work)
  {
  }

  lemma CommittedIsResponse(trace: seq<Journal.State>, limits: Journal.Limits, i: nat, p: nat, pushed: BookResponse)
    requires Journal.IsRun(trace, limits) && i + 1 < |trace|
    requires p in trace[i].processors && trace[i].processors[p].Prepared?
    requires trace[i + 1] == Journal.After(trace[i], Journal.CommitWork(p), limits)
    requires Publishable(pushed, trace[i].db, trace[i].processors[p].work)
    ensures IsResponse(pushed, trace[i + 1].db, trace[i].processors[p].work.command.symbol)
  {
    Journal.RunKeepsInv(trace, limits, i);
    PreparedIsNewest(trace[i], p);
    CommitsItsWork(trace[i], limits, p);
  }

  /** The book that a processor pushes when it commits, and any book that is read from the tables at
      any moment of the run, are the same if they carry the same symbol and sequence. */
  lemma PushedBookIsReadBook(trace: seq<Journal.State>, limits: Journal.Limits, i: nat, p: nat, pushed: BookResponse,
                             j: nat, read: BookResponse)
    requires Journal.IsRun(trace, limits) && i + 1 < |trace| && j < |trace|
    requires p in trace[i].processors && trace[i].processors[p].Prepared?
    requires trace[i + 1] == Journal.After(trace[i], Journal.CommitWork(p), limits)
    requires Publishable(pushed, trace[i].db, trace[i].processors[p].work)
    requires IsResponse(read, trace[j].db, pushed.symbol) && read.sequence == pushed.sequence
    ensures read == pushed
  {
    CommittedIsResponse(trace, limits, i, p, pushed);
    SameSequenceSameResponse(trace, limits, j, i + 1, pushed.symbol, read, pushed);
  }

  // ---------------------------------------------------------------- the book query

  /** The grouped sums of the query: remaining quantity and number of active rows. */
  function GroupQuantity(rows: seq<OrderRow>, symbol: string, side: Side, price: int): int {
    if rows == [] then 0
    else
      var last := rows[|rows| - 1];
      GroupQuantity(rows[..|rows| - 1], symbol, side, price)
      + (if last.symbol == symbol && At(last.order, side, price) then last.order.remaining else 0)
  }

  function GroupCount(rows: seq<OrderRow>, symbol: string, side: Side, price: int): int {
    if rows == [] then 0
    else
      var last := rows[|rows| - 1];
      GroupCount(rows[..|rows| - 1], symbol, side, price)
      + (if last.symbol == symbol && At(last.order, side, price) then 1 else 0)
  }

  lemma {:induction false} GroupQuantityIsSum(rows: seq<OrderRow>, symbol: string, side: Side, price: int)
    ensures GroupQuantity(rows, symbol, side, price) == Sum(OrdersOf(rows, symbol), QuantityAt(side, price))
  {
    if rows != [] {
      GroupQuantityIsSum(rows[..|rows| - 1], symbol, side, price);
      if rows[|rows| - 1].symbol == symbol {
        SumAppend(OrdersOf(rows[..|rows| - 1], symbol), rows[|rows| - 1].order, QuantityAt(side, price));
      }
    }
  }

  lemma {:induction false} GroupCountIsSum(rows: seq<OrderRow>, symbol: string, side: Side, price: int)
    ensures GroupCount(rows, symbol, side, price) == Sum(OrdersOf(rows, symbol), CountAt(side, price))
  {
    if rows != [] {
      GroupCountIsSum(rows[..|rows| - 1], symbol, side, price);
      if rows[|rows| - 1].symbol == symbol {
        SumAppend(OrdersOf(rows[..|rows| - 1], symbol), rows[|rows| - 1].order, CountAt(side, price));
      }
    }
  }

  function GroupPrices(rows: seq<OrderRow>, symbol: string, side: Side): set<int> {
    set i | 0 <= i < |rows| && rows[i].symbol == symbol && At(rows[i].order, side, rows[i].order.price)
      :: rows[i].order.price
  }

  lemma {:induction false} GroupPricesAreQuoted(rows: seq<OrderRow>, symbol: string, side: Side, price: int)
    ensures price in GroupPrices(rows, symbol, side) <==> Quoted(OrdersOf(rows, symbol), side, price)
  {
    var l := OrdersOf(rows, symbol);
    if price in GroupPrices(rows, symbol, side) {
      var i :| 0 <= i < |rows| && rows[i].symbol == symbol && At(rows[i].order, side, price);
      RowIsListed(rows, i);
      var k :| 0 <= k < |l| && l[k] == rows[i].order;
      assert At(l[k], side, price);
    }
    if Quoted(l, side, price) {
      var k :| 0 <= k < |l| && At(l[k], side, price);
      var i := ListedHasRow(rows, symbol, l[k]);
      assert rows[i].order.price == price;
    }
  }

  method BuildSide(rows: seq<OrderRow>, symbol: string, side: Side) returns (levels: seq<PriceLevel>)
    ensures IsSide(levels, OrdersOf(rows, symbol), side)
  {
    var prices := GroupPrices(rows, symbol, side);
    var todo := prices;
    ghost var l := OrdersOf(rows, symbol);
    levels := [];
    while todo != {}
      invariant todo <= prices
      invariant Listed(levels, l, side, prices - todo, todo)
      decreases todo
    {
      BestExists(todo, side.Opposite());
      var price :| price in todo && forall p | p in todo :: !BetterPrice(side.Opposite(), p, price);
      GroupQuantityIsSum(rows, symbol, side, price);
      GroupCountIsSum(rows, symbol, side, price);
      var level := PriceLevel(price, GroupQuantity(rows, symbol, side, price), GroupCount(rows, symbol, side, price));
      ListNext(levels, l, side, prices - todo, todo, level);
      levels := levels + [level];
      assert prices - todo + {price} == prices - (todo - {price});
      todo := todo - {price};
    }
    forall p ensures p in prices <==> Quoted(l, side, p) {
      GroupPricesAreQuoted(rows, symbol, side, p);
    }
  }

  /** The book query: grouped sums over the symbol's active rows, its greatest terminal command and
      its newest event.  Its levels are the one book that an engine's snapshot can be
      (`BookIsUnique`). */
  method BuildBook(db: Database, symbol: string) returns (r: BookResponse)
    ensures IsResponse(r, db, symbol)
  {
    var bids := BuildSide(db.orders, symbol, Buy);
    var asks := BuildSide(db.orders, symbol, Sell);
    var sequence := Guarantees.BookSequence(db.journal, symbol);
    var eventId := Guarantees.LatestEventId(db.events, symbol);
    r := BookResponse(symbol, sequence, eventId, Book(bids, asks));
  }
}
