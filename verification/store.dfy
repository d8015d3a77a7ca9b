/**
 The durable tables, and the transaction that processes one command: restore an engine from the
 symbol's active rows, apply the command, and write orders, trades, one event and the status.
 The transaction is shown to write exactly what the serial reference computes.
 */
module Store {
  import opened Common
  import opened Orders
  import opened PriceTime
  import opened BookView
  import opened Exchange
  import opened Rebuild
  import opened Market

  datatype CommandStatus = Queued | Completed | Rejected {
    predicate IsTerminal() {
      Completed? || Rejected?
    }
  }

  datatype Entry = Entry(command: Command, status: CommandStatus)

  datatype OrderRow = OrderRow(symbol: string, order: LimitOrder)

  datatype TradeRow = TradeRow(symbol: string, commandSequence: int, trade: Trade)

  datatype EventType = OrderAccepted | OrderCancelled | CommandRejected

  datatype EventRow = EventRow(id: int, commandSequence: int, symbol: string, kind: EventType, reply: Reply)

  datatype Database = Database(
    journal: seq<Entry>,
    orders: seq<OrderRow>,
    trades: seq<TradeRow>,
    events: seq<EventRow>
  )

  // ---------------------------------------------------------------- reading rows of one symbol

  function OrdersOf(rows: seq<OrderRow>, symbol: string): Ledger {
    if rows == [] then []
    else if rows[|rows| - 1].symbol == symbol then OrdersOf(rows[..|rows| - 1], symbol) + [rows[|rows| - 1].order]
    else OrdersOf(rows[..|rows| - 1], symbol)
  }

  function TradesOf(rows: seq<TradeRow>, symbol: string): seq<Trade> {
    if rows == [] then []
    else if rows[|rows| - 1].symbol == symbol then TradesOf(rows[..|rows| - 1], symbol) + [rows[|rows| - 1].trade]
    else TradesOf(rows[..|rows| - 1], symbol)
  }

  /** The greatest stored trade sequence of a symbol, 0 when there is none. */
  function MaxTradeSequence(rows: seq<TradeRow>, symbol: string): int {
    if rows == [] then 0
    else
      var m := MaxTradeSequence(rows[..|rows| - 1], symbol);
      if rows[|rows| - 1].symbol == symbol then Max(m, rows[|rows| - 1].trade.sequence) else m
  }

  // ---------------------------------------------------------------- writing rows

  predicate HasRow(rows: seq<OrderRow>, id: string) {
    exists i | 0 <= i < |rows| :: rows[i].order.id == id
  }

  /** Overwrites the two mutable columns of the row with this identifier. */
  function UpdateRow(rows: seq<OrderRow>, o: LimitOrder): (r: seq<OrderRow>)
    ensures |r| == |rows|
    ensures forall i | 0 <= i < |rows| ::
              r[i] == if rows[i].order.id == o.id
                      then rows[i].(order := rows[i].order.(remaining := o.remaining, status := o.status))
                      else rows[i]
  {
    if rows == [] then []
    else
      var last := rows[|rows| - 1];
      UpdateRow(rows[..|rows| - 1], o) +
      [if last.order.id == o.id
       then last.(order := last.order.(remaining := o.remaining, status := o.status))
       else last]
  }

  function Persist(rows: seq<OrderRow>, symbol: string, o: LimitOrder): seq<OrderRow> {
    if HasRow(rows, o.id) then UpdateRow(rows, o) else rows + [OrderRow(symbol, o)]
  }

  function PersistAll(rows: seq<OrderRow>, symbol: string, os: seq<LimitOrder>): seq<OrderRow>
    decreases |os|
  {
    if os == [] then rows else PersistAll(Persist(rows, symbol, os[0]), symbol, os[1..])
  }

  function TradeRows(c: Command, ts: seq<Trade>): (r: seq<TradeRow>)
    ensures |r| == |ts| && forall i | 0 <= i < |ts| :: r[i] == TradeRow(c.symbol, c.sequence, ts[i])
  {
    seq(|ts|, i requires 0 <= i < |ts| => TradeRow(c.symbol, c.sequence, ts[i]))
  }

  /** Sets the status of the command with this sequence. */
  function Mark(journal: seq<Entry>, sequence: int, status: CommandStatus): (r: seq<Entry>)
    ensures |r| == |journal|
    ensures forall i | 0 <= i < |journal| ::
              r[i] == if journal[i].command.sequence == sequence then Entry(journal[i].command, status) else journal[i]
  {
    seq(|journal|, i requires 0 <= i < |journal| =>
      if journal[i].command.sequence == sequence then Entry(journal[i].command, status) else journal[i])
  }

  // ---------------------------------------------------------------- one transaction

  predicate IsCaught(e: EngineError) {
    e == UnknownOrder || e == OrderNotCancellable
  }

  /** The engine a transaction works with: rebuilt from the active rows of the symbol and the
      greatest trade sequence stored.  A row that is not a valid order cannot be constructed
      (`RehydrationRoundTrip`). */
  ghost function RestoredEngine(db: Database, symbol: string): (r: Result<Engine, EngineError>)
    ensures r.Ok? ==> AllValid(r.value.ledger)
  {
    var active, next := Active(OrdersOf(db.orders, symbol)), MaxTradeSequence(db.trades, symbol) + 1;
    if !AllValid(active) then Err(InvalidOrder)
    else
      RestoreAccepts(active, next);
      Restore(active, next)
  }

  /** What applying a command decides.  An error here is an exception that escapes, so that the
      transaction rolls back; the two cancel errors are caught and become a refusal. */
  ghost function Decide(db: Database, c: Command): Result<Reply, EngineError>
  {
    var engine :- RestoredEngine(db, c.symbol);
    if c.kind.SubmitOrder? then
      var o :- FreshOrder(c.kind.orderId, c.kind.side, c.kind.price, c.kind.quantity, c.sequence);
      match Submit(engine, o)
      case Err(e) => if IsCaught(e) then Ok(Refused(e)) else Err(e)
      case Ok((_, r)) => Ok(Executed(r.changed + [r.order], r.trades))
    else
      match Cancel(engine, c.kind.orderId)
      case Err(e) => if IsCaught(e) then Ok(Refused(e)) else Err(e)
      case Ok((_, o)) => Ok(Executed([o], []))
  }

  datatype Work = Work(command: Command, reply: Reply, eventId: int)

  function EventTypeOf(c: Command, reply: Reply): EventType {
    if reply.Refused? then CommandRejected
    else if c.kind.SubmitOrder? then OrderAccepted
    else OrderCancelled
  }

  function EventOf(w: Work): EventRow {
    EventRow(w.eventId, w.command.sequence, w.command.symbol, EventTypeOf(w.command, w.reply), w.reply)
  }

  /** The trade rows that an event reports, under its symbol and its command's sequence. */
  function ReportedBy(e: EventRow): (r: seq<TradeRow>)
    ensures forall i | 0 <= i < |r| :: r[i].symbol == e.symbol && r[i].commandSequence == e.commandSequence
  {
    match e.reply
    case Executed(_, ts) => seq(|ts|, i requires 0 <= i < |ts| => TradeRow(e.symbol, e.commandSequence, ts[i]))
    case Refused(_) => []
  }

  function ReportedTrades(events: seq<EventRow>): seq<TradeRow> {
    if events == [] then [] else ReportedTrades(events[..|events| - 1]) + ReportedBy(events[|events| - 1])
  }

  /** All the writes of one transaction become visible together. */
  function Commit(db: Database, w: Work): Database {
    match w.reply
    case Executed(changed, trades) =>
      Database(Mark(db.journal, w.command.sequence, Completed),
               PersistAll(db.orders, w.command.symbol, changed),
               db.trades + TradeRows(w.command, trades),
               db.events + [EventOf(w)])
    case Refused(_) =>
      Database(Mark(db.journal, w.command.sequence, Rejected), db.orders, db.trades, db.events + [EventOf(w)])
  }

  /** A transaction adds the trade rows that its event reports. */
  lemma CommitReports(db: Database, w: Work)
    requires db.trades == ReportedTrades(db.events)
    ensures Commit(db, w).trades == ReportedTrades(Commit(db, w).events)
  {
    assert (db.events + [EventOf(w)])[..|db.events|] == db.events;
    assert w.reply.Executed? ==> TradeRows(w.command, w.reply.trades) == ReportedBy(EventOf(w));
  }

  // ---------------------------------------------------------------- the tables are the fold

  ghost predicate DistinctRows(rows: seq<OrderRow>) {
    forall i, j | 0 <= i < j < |rows| :: rows[i].order.id != rows[j].order.id
  }

  /** Symbol by symbol, the order and trade tables hold what the serial reference holds. */
  ghost predicate Refines(db: Database, cs: seq<Command>) {
    && AllWellFormed(cs)
    && DistinctRows(db.orders)
    && (forall symbol :: OrdersOf(db.orders, symbol) == MarketAfter(cs, symbol).engine.ledger)
    && (forall symbol :: TradesOf(db.trades, symbol) == MarketAfter(cs, symbol).trades)
  }

  lemma {:induction false} RowIsListed(rows: seq<OrderRow>, k: nat)
    requires k < |rows|
    ensures rows[k].order in OrdersOf(rows, rows[k].symbol)
  {
    if k < |rows| - 1 {
      RowIsListed(rows[..|rows| - 1], k);
    }
  }

  lemma {:induction false} ListedHasRow(rows: seq<OrderRow>, symbol: string, o: LimitOrder) returns (k: nat)
    requires o in OrdersOf(rows, symbol)
    ensures k < |rows| && rows[k] == OrderRow(symbol, o)
  {
    var last := rows[|rows| - 1];
    if last == OrderRow(symbol, o) {
      k := |rows| - 1;
    } else {
      k := ListedHasRow(rows[..|rows| - 1], symbol, o);
    }
  }

  lemma {:induction false} TradeCount(rows: seq<TradeRow>, symbol: string)
    requires forall i | 0 <= i < |TradesOf(rows, symbol)| :: TradesOf(rows, symbol)[i].sequence == i + 1
    ensures MaxTradeSequence(rows, symbol) == |TradesOf(rows, symbol)|
  {
    if rows != [] {
      var init := rows[..|rows| - 1];
      var ts := TradesOf(rows, symbol);
      forall i | 0 <= i < |TradesOf(init, symbol)| ensures TradesOf(init, symbol)[i].sequence == i + 1 {
        assert TradesOf(init, symbol)[i] == ts[i];
      }
      TradeCount(init, symbol);
      if rows[|rows| - 1].symbol == symbol {
        assert ts[|ts| - 1].sequence == |ts|;
      }
    }
  }

  /** The engine a transaction restores is the rebuilt form of the long-lived one. */
  lemma {:induction false} RestoredIsLinked(db: Database, cs: seq<Command>, symbol: string)
    requires Refines(db, cs)
    ensures RestoredEngine(db, symbol).Ok?
    ensures Linked(MarketAfter(cs, symbol).engine, RestoredEngine(db, symbol).value)
    ensures RestoredEngine(db, symbol).value.ledger == Active(OrdersOf(db.orders, symbol))
  {
    var m := MarketAfter(cs, symbol);
    MarketConserves(cs, symbol);
    TradeCount(db.trades, symbol);
    ActiveIsTidy(m.engine.ledger);
    RebuiltIsLinked(m.engine);
  }

  lemma DecideSubmit(db: Database, l: Engine, c: Command)
    requires RestoredEngine(db, c.symbol).Ok? && Linked(l, RestoredEngine(db, c.symbol).value)
    requires WellFormed(c.kind) && c.sequence > 0 && c.kind.SubmitOrder? && Admissible(l, OpOf(c))
    ensures Submit(l, OrderOf(c)).Ok?
    ensures var r := Submit(l, OrderOf(c)).value.1;
            Decide(db, c) == Ok(Executed(r.changed + [r.order], r.trades))
  {
    SubmitAgrees(l, RestoredEngine(db, c.symbol).value, OrderOf(c));
  }

  lemma DecideCancel(db: Database, l: Engine, c: Command)
    requires RestoredEngine(db, c.symbol).Ok? && Linked(l, RestoredEngine(db, c.symbol).value)
    requires RestoredEngine(db, c.symbol).value.ledger == Active(OrdersOf(db.orders, c.symbol))
    requires c.kind.CancelOrder?
    ensures var r := Cancel(l, c.kind.orderId);
            Decide(db, c) == if r.Err? then Ok(Refused(UnknownOrder)) else Ok(Executed([r.value.1], []))
  {
    var r := RestoredEngine(db, c.symbol).value;
    CancelAgrees(l, r, c.kind.orderId);
    forall i | 0 <= i < |r.ledger| ensures r.ledger[i].IsActive() {
      ActiveMembers(OrdersOf(db.orders, c.symbol), r.ledger[i]);
    }
  }

  lemma {:induction false} LastIsWellFormed(cs: seq<Command>, c: Command)
    requires Journaled(cs + [c])
    ensures AllWellFormed(cs) && WellFormed(c.kind) && c.sequence > 0
    ensures Admissible(MarketAfter(cs, c.symbol).engine, OpOf(c))
    ensures forall i | 0 <= i < |cs| :: cs[i].sequence < c.sequence
  {
    var next := cs + [c];
    assert next[..|cs|] == cs && next[|cs|] == c;
    forall i | 0 <= i < |cs| ensures WellFormed(cs[i].kind) && 0 < cs[i].sequence < c.sequence {
      assert next[i] == cs[i];
    }
    NextIsAdmissible(next);
  }

  /** Deciding never raises, and decides what the serial reference decides: the same execution,
      or a refusal (whose class alone may differ). */
  lemma {:induction false} DecideAgrees(db: Database, cs: seq<Command>, c: Command)
    requires Refines(db, cs) && Journaled(cs + [c])
    ensures AllWellFormed(cs) && WellFormed(c.kind) && c.sequence > 0
    ensures Decide(db, c).Ok?
    ensures SameUpToClass(Decide(db, c).value, Advance(MarketAfter(cs, c.symbol), c).1)
    ensures c.kind.SubmitOrder? ==> Decide(db, c).value.Executed?
    ensures Decide(db, c).value.Refused? ==> Decide(db, c).value.error == UnknownOrder
  {
    var m := MarketAfter(cs, c.symbol);
    LastIsWellFormed(cs, c);
    RestoredIsLinked(db, cs, c.symbol);
    if c.kind.SubmitOrder? {
      DecideSubmit(db, m.engine, c);
      AdvanceSubmit(m, c);
    } else {
      DecideCancel(db, m.engine, c);
      AdvanceCancel(m, c);
    }
  }

  // ---------------------------------------------------------------- what the writes do to the tables

  lemma {:induction false} OrdersOfUpdated(rows: seq<OrderRow>, symbol: string, o: LimitOrder, t: string)
    requires forall i | 0 <= i < |rows| && rows[i].order.id == o.id ::
               rows[i].symbol == symbol && SameOrder(rows[i].order, o)
    ensures OrdersOf(UpdateRow(rows, o), t)
         == if t == symbol then Replace(OrdersOf(rows, t), o) else OrdersOf(rows, t)
  {
    if rows != [] {
      var init, last := rows[..|rows| - 1], rows[|rows| - 1];
      assert forall i | 0 <= i < |init| :: init[i] == rows[i];
      OrdersOfUpdated(init, symbol, o, t);
      assert UpdateRow(rows, o)[..|rows| - 1] == UpdateRow(init, o);
      var l := OrdersOf(rows, t);
      if last.symbol == t {
        assert l[..|l| - 1] == OrdersOf(init, t);
      }
      if t != symbol {
        assert last.symbol == t ==> last.order.id != o.id;
      }
    }
  }

  /** The rows hold an earlier state of each changed order, and only under this symbol. */
  ghost predicate Holds(rows: seq<OrderRow>, symbol: string, o: LimitOrder) {
    && HasRow(rows, o.id)
    && forall i | 0 <= i < |rows| && rows[i].order.id == o.id :: rows[i].symbol == symbol && SameOrder(rows[i].order, o)
  }

  ghost predicate SameRows(a: seq<OrderRow>, b: seq<OrderRow>) {
    |a| == |b| && forall i | 0 <= i < |a| :: a[i].symbol == b[i].symbol && SameOrder(a[i].order, b[i].order)
  }

  lemma HoldsLater(a: seq<OrderRow>, b: seq<OrderRow>, symbol: string, o: LimitOrder)
    requires SameRows(a, b) && Holds(a, symbol, o)
    ensures Holds(b, symbol, o)
  {
    var i :| 0 <= i < |a| && a[i].order.id == o.id;
    assert b[i].order.id == o.id;
  }

  lemma {:induction false} PersistExisting(rows: seq<OrderRow>, symbol: string, os: seq<LimitOrder>, t: string)
    requires forall i | 0 <= i < |os| :: Holds(rows, symbol, os[i])
    ensures SameRows(rows, PersistAll(rows, symbol, os))
    ensures OrdersOf(PersistAll(rows, symbol, os), t)
         == if t == symbol then ReplaceAll(OrdersOf(rows, t), os) else OrdersOf(rows, t)
    decreases |os|
  {
    if os != [] {
      var next := Persist(rows, symbol, os[0]);
      OrdersOfUpdated(rows, symbol, os[0], t);
      assert SameRows(rows, next);
      forall i | 0 <= i < |os[1..]| ensures Holds(next, symbol, os[1..][i]) {
        HoldsLater(rows, next, symbol, os[i + 1]);
      }
      PersistExisting(next, symbol, os[1..], t);
    }
  }

  lemma {:induction false} PersistAppend(rows: seq<OrderRow>, symbol: string, os: seq<LimitOrder>, o: LimitOrder)
    ensures PersistAll(rows, symbol, os + [o]) == Persist(PersistAll(rows, symbol, os), symbol, o)
    decreases |os|
  {
    if os == [] {
      assert os + [o] == [o];
    } else {
      assert (os + [o])[1..] == os[1..] + [o];
      PersistAppend(Persist(rows, symbol, os[0]), symbol, os[1..], o);
    }
  }

  lemma {:induction false} TradesOfConcat(a: seq<TradeRow>, b: seq<TradeRow>, t: string)
    ensures TradesOf(a + b, t) == TradesOf(a, t) + TradesOf(b, t)
    decreases |b|
  {
    if b == [] {
      assert a + b == a;
    } else {
      var init := b[..|b| - 1];
      assert (a + b)[..|a + b| - 1] == a + init;
      TradesOfConcat(a, init, t);
    }
  }

  lemma TradeRowsInit(c: Command, ts: seq<Trade>)
    requires ts != []
    ensures TradeRows(c, ts)[..|ts| - 1] == TradeRows(c, ts[..|ts| - 1])
  {
  }

  lemma {:induction false} TradesOfRows(c: Command, ts: seq<Trade>, t: string)
    ensures TradesOf(TradeRows(c, ts), t) == if t == c.symbol then ts else []
  {
    if ts != [] {
      TradeRowsInit(c, ts);
      TradesOfRows(c, ts[..|ts| - 1], t);
      assert ts == ts[..|ts| - 1] + [ts[|ts| - 1]];
    }
  }

  lemma {:induction false} TradesOfAppend(rows: seq<TradeRow>, c: Command, ts: seq<Trade>, t: string)
    ensures TradesOf(rows + TradeRows(c, ts), t)
         == if t == c.symbol then TradesOf(rows, t) + ts else TradesOf(rows, t)
  {
    TradesOfConcat(rows, TradeRows(c, ts), t);
    TradesOfRows(c, ts, t);
  }

  /** An active order of the symbol's ledger is held by the rows, in every later state. */
  lemma {:induction false} ActiveIsHeld(rows: seq<OrderRow>, symbol: string, a: LimitOrder, o: LimitOrder)
    requires DistinctRows(rows) && a in OrdersOf(rows, symbol) && SameOrder(a, o)
    ensures Holds(rows, symbol, o)
  {
    var k := ListedHasRow(rows, symbol, a);
    assert rows[k].order.id == o.id;
    forall i | 0 <= i < |rows| && rows[i].order.id == o.id ensures i == k {
      assert i < k || i == k || k < i;
    }
  }

  lemma {:induction false} ChangedAreHeld(db: Database, e: Engine, symbol: string, o: LimitOrder)
    requires DistinctRows(db.orders) && OrdersOf(db.orders, symbol) == e.ledger
    requires Sound(e) && o.Valid() && Submit(e, o).Ok?
    ensures var c := Submit(e, o).value.1.changed; forall i | 0 <= i < |c| :: Holds(db.orders, symbol, c[i])
  {
    var c := Match(e.ledger, o, e.next).changed;
    MatchTakesCrossing(e.ledger, o, e.next);
    forall i | 0 <= i < |c| ensures Holds(db.orders, symbol, c[i]) {
      var k :| 0 <= k < |e.ledger| && Crosses(o, e.ledger[k]) && SameOrder(e.ledger[k], c[i]);
      ActiveIsHeld(db.orders, symbol, e.ledger[k], c[i]);
    }
  }

  lemma {:induction false} CommitSubmit(db: Database, cs: seq<Command>, c: Command, t: string)
    requires Refines(db, cs) && Journaled(cs + [c]) && c.kind.SubmitOrder?
    requires WellFormed(c.kind) && c.sequence > 0 && Submit(MarketAfter(cs, c.symbol).engine, OrderOf(c)).Ok?
    ensures var (e', r) := Submit(MarketAfter(cs, c.symbol).engine, OrderOf(c)).value;
            var rows := PersistAll(db.orders, c.symbol, r.changed + [r.order]);
            && DistinctRows(rows)
            && OrdersOf(rows, t) == if t == c.symbol then e'.ledger else OrdersOf(db.orders, t)
  {
    var e := MarketAfter(cs, c.symbol).engine;
    var (e', r) := Submit(e, OrderOf(c)).value;
    SubmitKeepsSound(e, OrderOf(c));
    ChangedAreHeld(db, e, c.symbol, OrderOf(c));
    PersistExisting(db.orders, c.symbol, r.changed, t);
    PersistAppend(db.orders, c.symbol, r.changed, r.order);
    NewRow(db, cs, c);
    AppendRow(db.orders, PersistAll(db.orders, c.symbol, r.changed), c.symbol, r.order, t);
  }

  lemma {:induction false} AppendRow(before: seq<OrderRow>, rows: seq<OrderRow>, symbol: string, o: LimitOrder,
        t: string)
    requires SameRows(before, rows) && DistinctRows(before) && !HasRow(before, o.id)
    ensures DistinctRows(Persist(rows, symbol, o))
    ensures OrdersOf(Persist(rows, symbol, o), t)
         == if t == symbol then OrdersOf(rows, t) + [o] else OrdersOf(rows, t)
  {
    assert !HasRow(rows, o.id);
    assert (rows + [OrderRow(symbol, o)])[..|rows|] == rows;
  }

  /** A newly submitted identifier has no row yet, under any symbol. */
  lemma NewRow(db: Database, cs: seq<Command>, c: Command)
    requires Refines(db, cs) && Journaled(cs + [c]) && c.kind.SubmitOrder?
    ensures !HasRow(db.orders, c.kind.orderId)
  {
    forall k | 0 <= k < |db.orders| ensures db.orders[k].order.id != c.kind.orderId {
      var s := db.orders[k].symbol;
      RowIsListed(db.orders, k);
      var bound := c.sequence;
      forall i | 0 <= i < |cs| ensures cs[i].sequence <= bound {
        assert (cs + [c])[i] == cs[i] && (cs + [c])[|cs|] == c;
      }
      MarketKnowsItsOrders(cs, s, bound);
      var j :| 0 <= j < |OrdersOf(db.orders, s)| && OrdersOf(db.orders, s)[j] == db.orders[k].order;
      var i :| 0 <= i < |cs| && cs[i].symbol == s && cs[i].kind.SubmitOrder?
               && cs[i].kind.orderId == db.orders[k].order.id;
      assert (cs + [c])[i] == cs[i] && (cs + [c])[|cs|] == c;
    }
  }

  lemma {:induction false} ReplaceOne(l: Ledger, o: LimitOrder)
    ensures ReplaceAll(l, [o]) == Replace(l, o)
  {
    assert [o][1..] == [];
  }

  lemma SameRowsAreDistinct(a: seq<OrderRow>, b: seq<OrderRow>)
    requires SameRows(a, b) && DistinctRows(a)
    ensures DistinctRows(b)
  {
  }

  lemma {:induction false} CancelRows(rows: seq<OrderRow>, symbol: string, e: Engine, id: string, t: string)
    requires DistinctRows(rows) && OrdersOf(rows, symbol) == e.ledger && Sound(e) && Cancel(e, id).Ok?
    ensures var (e', o) := Cancel(e, id).value;
            var next := PersistAll(rows, symbol, [o]);
            && DistinctRows(next)
            && OrdersOf(next, t) == if t == symbol then e'.ledger else OrdersOf(rows, t)
  {
    var o := Cancel(e, id).value.1;
    CancelKeepsSound(e, id);
    ActiveIsHeld(rows, symbol, e.ledger[Find(e.ledger, id)], o);
    PersistExisting(rows, symbol, [o], t);
    SameRowsAreDistinct(rows, PersistAll(rows, symbol, [o]));
    ReplaceOne(e.ledger, o);
  }

  lemma {:induction false} CommitCancel(db: Database, cs: seq<Command>, c: Command, t: string)
    requires Refines(db, cs) && c.kind.CancelOrder?
    requires Cancel(MarketAfter(cs, c.symbol).engine, c.kind.orderId).Ok?
    ensures var (e', o) := Cancel(MarketAfter(cs, c.symbol).engine, c.kind.orderId).value;
            var rows := PersistAll(db.orders, c.symbol, [o]);
            && DistinctRows(rows)
            && OrdersOf(rows, t) == if t == c.symbol then e'.ledger else OrdersOf(db.orders, t)
  {
    CancelRows(db.orders, c.symbol, MarketAfter(cs, c.symbol).engine, c.kind.orderId, t);
  }

  lemma {:induction false} CommitSubmitOrders(db: Database, cs: seq<Command>, w: Work, t: string)
    requires Refines(db, cs) && Journaled(cs + [w.command]) && Decide(db, w.command) == Ok(w.reply)
    requires w.command.kind.SubmitOrder?
    ensures WellFormed(w.command.kind) && w.command.sequence > 0
    ensures DistinctRows(Commit(db, w).orders)
    ensures OrdersOf(Commit(db, w).orders, t)
         == if t == w.command.symbol then Advance(MarketAfter(cs, t), w.command).0.engine.ledger
            else OrdersOf(db.orders, t)
  {
    var c := w.command;
    var m := MarketAfter(cs, c.symbol);
    LastIsWellFormed(cs, c);
    RestoredIsLinked(db, cs, c.symbol);
    DecideSubmit(db, m.engine, c);
    AdvanceSubmit(m, c);
    CommitSubmit(db, cs, c, t);
  }

  lemma {:induction false} CommitCancelOrders(db: Database, cs: seq<Command>, w: Work, t: string)
    requires Refines(db, cs) && Journaled(cs + [w.command]) && Decide(db, w.command) == Ok(w.reply)
    requires w.command.kind.CancelOrder?
    ensures WellFormed(w.command.kind) && w.command.sequence > 0
    ensures DistinctRows(Commit(db, w).orders)
    ensures OrdersOf(Commit(db, w).orders, t)
         == if t == w.command.symbol then Advance(MarketAfter(cs, t), w.command).0.engine.ledger
            else OrdersOf(db.orders, t)
  {
    var c := w.command;
    var m := MarketAfter(cs, c.symbol);
    LastIsWellFormed(cs, c);
    RestoredIsLinked(db, cs, c.symbol);
    DecideCancel(db, m.engine, c);
    AdvanceCancel(m, c);
    if Cancel(m.engine, c.kind.orderId).Ok? {
      CommitCancel(db, cs, c, t);
    }
  }

  lemma {:induction false} CommitOrders(db: Database, cs: seq<Command>, w: Work, t: string)
    requires Refines(db, cs) && Journaled(cs + [w.command]) && Decide(db, w.command) == Ok(w.reply)
    ensures AllWellFormed(cs + [w.command])
    ensures DistinctRows(Commit(db, w).orders)
    ensures OrdersOf(Commit(db, w).orders, t) == MarketAfter(cs + [w.command], t).engine.ledger
  {
    LastIsWellFormed(cs, w.command);
    if w.command.kind.SubmitOrder? {
      CommitSubmitOrders(db, cs, w, t);
    } else {
      CommitCancelOrders(db, cs, w, t);
    }
    MarketNext(cs, w.command, t);
  }

  lemma {:induction false} CommittedTrades(db: Database, cs: seq<Command>, w: Work, t: string)
    requires Refines(db, cs) && Journaled(cs + [w.command]) && Decide(db, w.command) == Ok(w.reply)
    ensures WellFormed(w.command.kind) && w.command.sequence > 0
    ensures TradesOf(Commit(db, w).trades, t)
         == if t == w.command.symbol then Advance(MarketAfter(cs, t), w.command).0.trades else TradesOf(db.trades, t)
  {
    var c := w.command;
    var m := MarketAfter(cs, c.symbol);
    LastIsWellFormed(cs, c);
    RestoredIsLinked(db, cs, c.symbol);
    if c.kind.SubmitOrder? {
      DecideSubmit(db, m.engine, c);
      AdvanceSubmit(m, c);
      TradesOfAppend(db.trades, c, w.reply.trades, t);
    } else {
      DecideCancel(db, m.engine, c);
      AdvanceCancel(m, c);
      if w.reply.Executed? {
        TradesOfAppend(db.trades, c, [], t);
        assert m.trades + [] == m.trades;
      }
    }
  }

  lemma {:induction false} CommitTrades(db: Database, cs: seq<Command>, w: Work, t: string)
    requires Refines(db, cs) && Journaled(cs + [w.command]) && Decide(db, w.command) == Ok(w.reply)
    ensures AllWellFormed(cs + [w.command])
    ensures TradesOf(Commit(db, w).trades, t) == MarketAfter(cs + [w.command], t).trades
  {
    LastIsWellFormed(cs, w.command);
    CommittedTrades(db, cs, w, t);
    MarketNext(cs, w.command, t);
  }

  /** Committing the decision for the next command moves the tables one step along the fold. */
  lemma CommitRefines(db: Database, cs: seq<Command>, w: Work)
    requires Refines(db, cs) && Journaled(cs + [w.command])
    requires Decide(db, w.command) == Ok(w.reply)
    ensures Refines(Commit(db, w), cs + [w.command])
  {
    CommitOrders(db, cs, w, w.command.symbol);
    forall t
      ensures OrdersOf(Commit(db, w).orders, t) == MarketAfter(cs + [w.command], t).engine.ledger
      ensures TradesOf(Commit(db, w).trades, t) == MarketAfter(cs + [w.command], t).trades
    {
      CommitOrders(db, cs, w, t);
      CommitTrades(db, cs, w, t);
    }
  }
}
