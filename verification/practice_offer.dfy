/**
 Clearing a practice offer: the browser waits for the submission, reads the order, cancels it if it
 is still open, waits for the cancellation and reads the order again.  Each read sees the database
 of some later moment of the same run.
 */
module PracticeOffer {
  import opened Common
  import opened Orders
  import opened PriceTime
  import opened Exchange
  import opened Rebuild
  import opened Market
  import opened Store
  import opened Journal
  import opened Guarantees

  // ---------------------------------------------------------------- reading

  /** The command row with this sequence. */
  function GetCommand(journal: seq<Entry>, sequence: int): (r: Option<Entry>)
    ensures r.Some? ==> r.value in journal && r.value.command.sequence == sequence
    ensures r.None? ==> forall i | 0 <= i < |journal| :: journal[i].command.sequence != sequence
  {
    if journal == [] then None
    else if journal[|journal| - 1].command.sequence == sequence then Some(journal[|journal| - 1])
    else
      var r := GetCommand(journal[..|journal| - 1], sequence);
      assert forall i | 0 <= i < |journal| - 1 :: journal[i] == journal[..|journal| - 1][i];
      r
  }

  /** The order row with this identifier. */
  function GetOrder(rows: seq<OrderRow>, id: string): (r: Option<OrderRow>)
    ensures r.Some? ==> r.value in rows && r.value.order.id == id
    ensures r.None? ==> forall i | 0 <= i < |rows| :: rows[i].order.id != id
  {
    if rows == [] then None
    else if rows[|rows| - 1].order.id == id then Some(rows[|rows| - 1])
    else
      var r := GetOrder(rows[..|rows| - 1], id);
      assert forall i | 0 <= i < |rows| - 1 :: rows[i] == rows[..|rows| - 1][i];
      r
  }

  datatype Problem = NoIdentifiers | StillQueued | NotFound | CancellationUnconfirmed | StillOpen

  /** A command that is still queued when the patience of the client runs out is a failure. */
  function WaitForCommand(journal: seq<Entry>, sequence: int): Result<Entry, Problem> {
    match GetCommand(journal, sequence)
    case None => Err(NotFound)
    case Some(e) => if e.status.Queued? then Err(StillQueued) else Ok(e)
  }

  function ReadOrder(rows: seq<OrderRow>, id: string): Result<OrderRow, Problem> {
    match GetOrder(rows, id)
    case None => Err(NotFound)
    case Some(row) => Ok(row)
  }

  // ---------------------------------------------------------------- the retained offer

  datatype OfferReceipt = OfferReceipt(command: Option<int>, orderId: Option<string>)

  datatype Cancellation = Cancellation(key: string, command: Option<int>)

  datatype Offer = Offer(receipt: OfferReceipt, cancellation: Option<Cancellation>)

  /** What the four reads and the one call find: the databases they see, the key that a first
      cancellation would take, and the reply to the cancel request if it is sent. */
  datatype World = World(
    atCommand: Database,
    atOrder: Database,
    newKey: string,
    cancelReply: Option<int>,
    atCancel: Database,
    atEnd: Database
  )

  function ReadPracticeOffer(f: Offer, atCommand: Database, atOrder: Database): Result<Option<OrderRow>, Problem> {
    if f.receipt.command.None? || f.receipt.orderId.None? then Err(NoIdentifiers)
    else
      var e :- WaitForCommand(atCommand.journal, f.receipt.command.value);
      if e.status.Rejected? then Ok(None)
      else
        var row :- ReadOrder(atOrder.orders, f.receipt.orderId.value);
        Ok(Some(row))
  }

  /** The key is chosen once; a confirmed cancellation is not sent again. */
  function WithCancellation(f: Offer, w: World): Offer {
    var c := if f.cancellation.Some? then f.cancellation.value else Cancellation(w.newKey, None);
    f.(cancellation := Some(if c.command.Some? then c else c.(command := w.cancelReply)))
  }

  function ClearPracticeOffer(f: Offer, w: World): (Offer, Result<Option<OrderRow>, Problem>) {
    match ReadPracticeOffer(f, w.atCommand, w.atOrder)
    case Err(p) => (f, Err(p))
    case Ok(None) => (f, Ok(None))
    case Ok(Some(row)) =>
      if !row.order.IsActive() then (f, Ok(Some(row)))
      else
        var f' := WithCancellation(f, w);
        (f', FinishClearing(f', row.order.id, w))
  }

  function FinishClearing(f: Offer, id: string, w: World): Result<Option<OrderRow>, Problem> {
    if f.cancellation.None? || f.cancellation.value.command.None? then Err(CancellationUnconfirmed)
    else
      var _ :- WaitForCommand(w.atCancel.journal, f.cancellation.value.command.value);
      var current :- ReadOrder(w.atEnd.orders, id);
      if current.order.IsActive() then Err(StillOpen) else Ok(Some(current))
  }

  class Practice {
    var receipt: OfferReceipt
    var cancellation: Option<Cancellation>

    constructor (receipt: OfferReceipt)
      ensures View() == Offer(receipt, None)
    {
      this.receipt := receipt;
      cancellation := None;
    }

    function View(): Offer
      reads this
    {
      Offer(receipt, cancellation)
    }

    method Clear(w: World) returns (r: Result<Option<OrderRow>, Problem>)
      modifies this
      ensures (View(), r) == ClearPracticeOffer(old(View()), w)
    {
      var order :- ReadPracticeOffer(View(), w.atCommand, w.atOrder);
      if order.None? {
        return Ok(None);
      }
      var row := order.value;
      if !row.order.IsActive() {
        return Ok(Some(row));
      }
      if cancellation.None? {
        cancellation := Some(Cancellation(w.newKey, None));
      }
      if cancellation.value.command.None? {
        cancellation := Some(cancellation.value.(command := w.cancelReply));
      }
      if cancellation.value.command.None? {
        return Err(CancellationUnconfirmed);
      }
      var command :- WaitForCommand(w.atCancel.journal, cancellation.value.command.value);
      var current :- ReadOrder(w.atEnd.orders, row.order.id);
      if current.order.IsActive() {
        return Err(StillOpen);
      }
      return Ok(Some(current));
    }
  }

  // ---------------------------------------------------------------- what is returned is over

  /** The reads see the databases of later and later moments of one run. */
  ghost predicate Sees(w: World, trace: seq<State>, limits: Limits, a: nat, b: nat, c: nat, d: nat) {
    && IsRun(trace, limits) && a <= b <= c <= d < |trace|
    && w.atCommand == trace[a].db && w.atOrder == trace[b].db && w.atCancel == trace[c].db && w.atEnd == trace[d].db
  }

  lemma {:induction false} TheRow(rows: seq<OrderRow>, row: OrderRow)
    requires DistinctRows(rows) && row in rows
    ensures GetOrder(rows, row.order.id) == Some(row)
  {
  }

  lemma ClearedIsNotActive(f: Offer, w: World)
    requires ClearPracticeOffer(f, w).1.Ok? && ClearPracticeOffer(f, w).1.value.Some?
    ensures var row := ClearPracticeOffer(f, w).1.value.value;
            !row.order.IsActive() && (row in w.atOrder.orders || row in w.atEnd.orders)
  {
  }

  /** The offer is read only once its submission is processed; a queued one is waited for. */
  lemma OnlyProcessedIsRead(f: Offer, journal: Database, orders: Database)
    requires f.receipt.command.Some? && f.receipt.orderId.Some?
    ensures var e, r := GetCommand(journal.journal, f.receipt.command.value), ReadPracticeOffer(f, journal, orders);
            && (r == Err(StillQueued) <==> e.Some? && e.value.status.Queued?)
            && (r == Ok(None) <==> e.Some? && e.value.status.Rejected?)
            && (r.Ok? && r.value.Some? ==>
                  && e.Some? && e.value.status.Completed?
                  && r.value == GetOrder(orders.orders, f.receipt.orderId.value))
  {
  }

  /** Nothing to clear is reported for one reason only: the first read finds the submission rejected. */
  lemma NothingOnlyIfRejected(f: Offer, w: World)
    ensures ClearPracticeOffer(f, w).1 == Ok(None) <==>
              && f.receipt.command.Some? && f.receipt.orderId.Some?
              && GetCommand(w.atCommand.journal, f.receipt.command.value).Some?
              && GetCommand(w.atCommand.journal, f.receipt.command.value).value.status == CommandStatus.Rejected
  {
  }

  /** When the first read finds the order open, it is cancelled under a key that is chosen once, and a
      cancellation that was confirmed before is not asked for again.  Then the outcome is one of four:
      unconfirmed, still being processed or not found, still open, or the order as it is at the end. */
  lemma OpenOrderIsCancelled(f: Offer, w: World, row: OrderRow)
    requires ReadPracticeOffer(f, w.atCommand, w.atOrder) == Ok(Some(row))
    requires row.order.status == Open || row.order.status == PartiallyFilled
    ensures var (f', r) := ClearPracticeOffer(f, w);
            && f'.receipt == f.receipt && f'.cancellation.Some?
            && f'.cancellation.value.key == (if f.cancellation.Some? then f.cancellation.value.key else w.newKey)
            && f'.cancellation.value.command == (if f.cancellation.Some? && f.cancellation.value.command.Some?
                                                 then f.cancellation.value.command else w.cancelReply)
            && (r == Err(CancellationUnconfirmed) <==> f'.cancellation.value.command.None?)
            && (r == Err(StillOpen) ==> GetOrder(w.atEnd.orders, row.order.id).Some?
                                        && GetOrder(w.atEnd.orders, row.order.id).value.order.IsActive())
            && (r.Ok? ==> r.value == GetOrder(w.atEnd.orders, row.order.id) && r.value.Some?
                          && r.value.value.order.status in {Filled, Cancelled})
            && (f'.cancellation.value.command.Some? ==>
                  var e := GetCommand(w.atCancel.journal, f'.cancellation.value.command.value);
                  && (r == Err(StillQueued) <==> e.Some? && e.value.status.Queued?)
                  && (r.Ok? ==> e.Some? && !e.value.status.Queued?))
  {
  }

  /** An order that clearing returns can never rest again: at every later moment of the run it is
      stored exactly as it was returned, filled or cancelled. */
  lemma ReturnedOrderIsOver(f: Offer, w: World, trace: seq<State>, limits: Limits,
                            a: nat, b: nat, c: nat, d: nat, later: nat)
    requires Sees(w, trace, limits, a, b, c, d) && d <= later < |trace|
    requires ClearPracticeOffer(f, w).1.Ok? && ClearPracticeOffer(f, w).1.value.Some?
    ensures var row := ClearPracticeOffer(f, w).1.value.value;
            !row.order.IsActive() && GetOrder(trace[later].db.orders, row.order.id) == Some(row)
  {
    var row := ClearPracticeOffer(f, w).1.value.value;
    ClearedIsNotActive(f, w);
    TerminalOrderIsFinal(trace, limits, if row in w.atOrder.orders then b else d, later, row);
    StoredRowsDistinct(trace, limits, later);
    TheRow(trace[later].db.orders, row);
  }

  lemma StoredRowsDistinct(trace: seq<State>, limits: Limits, i: nat)
    requires IsRun(trace, limits) && i < |trace|
    ensures DistinctRows(trace[i].db.orders)
  {
    RunKeepsInv(trace, limits, i);
  }

  // ---------------------------------------------------------------- clearing always gets there

  /** A submitted order stays in its market for good. */
  lemma {:induction false} MarketKeepsId(cs: seq<Command>, n: nat, symbol: string, id: string)
    requires AllWellFormed(cs) && n <= |cs|
    requires AllWellFormed(cs[..n]) && HasId(MarketAfter(cs[..n], symbol).engine.ledger, id)
    ensures HasId(MarketAfter(cs, symbol).engine.ledger, id)
    decreases |cs|
  {
    if n == |cs| {
      assert cs[..n] == cs;
    } else {
      var init, c := cs[..|cs| - 1], cs[|cs| - 1];
      assert init[..n] == cs[..n];
      MarketKeepsId(init, n, symbol, id);
      if c.symbol == symbol {
        AdvanceKeepsId(MarketAfter(init, symbol), c, id);
      }
    }
  }

  lemma AdvanceKeepsId(m: MarketState, c: Command, id: string)
    requires Sound(m.engine) && WellFormed(c.kind) && c.sequence > 0 && HasId(m.engine.ledger, id)
    ensures HasId(Advance(m, c).0.engine.ledger, id)
  {
    var k :| 0 <= k < |m.engine.ledger| && m.engine.ledger[k].id == id;
    if c.kind.SubmitOrder? {
      if Submit(m.engine, OrderOf(c)).Ok? {
        AdvanceSubmit(m, c);
        SubmitGrows(m.engine, OrderOf(c));
        assert Advance(m, c).0.engine.ledger[k].id == id;
      }
    } else {
      AdvanceCancel(m, c);
      if Cancel(m.engine, c.kind.orderId).Ok? {
        CancelKeepsSound(m.engine, c.kind.orderId);
        assert Advance(m, c).0.engine.ledger[k].id == id;
      }
    }
  }

  /** A journaled submission is executed, and its order is in its market ever after. */
  lemma {:induction false} SubmittedIsListed(cs: seq<Command>, x: nat)
    requires Journaled(cs) && x < |cs| && cs[x].kind.SubmitOrder?
    ensures ReplyTo(cs, x).Executed?
    ensures HasId(MarketAfter(cs, cs[x].symbol).engine.ledger, cs[x].kind.orderId)
  {
    var upto, c := cs[..x + 1], cs[x];
    JournaledPrefix(cs, x + 1);
    NextIsAdmissible(upto);
    assert upto[..x] == cs[..x];
    var m := MarketAfter(cs[..x], c.symbol);
    AdvanceSubmit(m, c);
    SubmitGrows(m.engine, OrderOf(c));
    assert Advance(m, c).0.engine.ledger[|m.engine.ledger|].id == c.kind.orderId;
    MarketKeepsId(cs, x + 1, c.symbol, c.kind.orderId);
  }

  /** After a cancel that names a listed order, whatever its reply, the order is not active. */
  lemma CancelSettlesInMarket(m: MarketState, c: Command) returns (o: LimitOrder)
    requires Sound(m.engine) && c.kind.CancelOrder? && c.sequence > 0 && HasId(m.engine.ledger, c.kind.orderId)
    ensures o in Advance(m, c).0.engine.ledger && o.id == c.kind.orderId && !o.IsActive()
  {
    AdvanceCancel(m, c);
    var k := Find(m.engine.ledger, c.kind.orderId);
    o := m.engine.ledger[k];
    if Cancel(m.engine, c.kind.orderId).Ok? {
      CancelKeepsSound(m.engine, c.kind.orderId);
      o := Cancel(m.engine, c.kind.orderId).value.1;
      assert Advance(m, c).0.engine.ledger[k] == o;
    }
  }

  lemma {:induction false} LastCancelSettles(before: seq<Command>, c: Command, x: nat) returns (o: LimitOrder)
    requires Journaled(before) && WellFormed(c.kind) && c.sequence > 0
    requires x < |before| && before[x].kind.SubmitOrder?
    requires c.kind == CancelOrder(before[x].kind.orderId) && c.symbol == before[x].symbol
    ensures AllWellFormed(before + [c])
    ensures o in MarketAfter(before + [c], c.symbol).engine.ledger && o.id == before[x].kind.orderId && !o.IsActive()
  {
    SubmittedIsListed(before, x);
    o := CancelSettlesInMarket(MarketAfter(before, c.symbol), c);
    assert (before + [c])[..|before|] == before;
  }

  lemma {:induction false} CancelledIsOver(cs: seq<Command>, x: nat, y: nat) returns (o: LimitOrder)
    requires Journaled(cs) && x < y < |cs| && cs[x].kind.SubmitOrder?
    requires cs[y].kind == CancelOrder(cs[x].kind.orderId) && cs[y].symbol == cs[x].symbol
    ensures o in MarketAfter(cs, cs[x].symbol).engine.ledger && o.id == cs[x].kind.orderId && !o.IsActive()
  {
    JournaledPrefix(cs, y);
    o := LastCancelSettles(cs[..y], cs[y], x);
    assert cs[..y + 1] == cs[..y] + [cs[y]];
    MarketKeepsTerminal(cs, y + 1, cs[x].symbol, o);
  }

  /** Where the x-th command stands once it is terminal. */
  lemma TerminalIsDone(trace: seq<State>, limits: Limits, i: nat, x: nat) returns (done: seq<Command>)
    requires IsRun(trace, limits) && i < |trace|
    requires x < |trace[i].db.journal| && trace[i].db.journal[x].status.IsTerminal()
    ensures done <= Commands(trace[i].db.journal)
    ensures var db := trace[i].db;
            && x < |done| && done[x] == db.journal[x].command && Journaled(done)
            && (db.journal[x].status.Completed? <==> ReplyTo(done, x).Executed?)
            && (forall symbol :: OrdersOf(db.orders, symbol) == MarketAfter(done, symbol).engine.ledger)
            && DistinctRows(db.orders)
  {
    RunKeepsInv(trace, limits, i);
    var db := trace[i].db;
    var cs := Commands(db.journal);
    JournaledPrefix(cs, |db.events|);
    done := cs[..|db.events|];
    assert done[..x] == cs[..x];
    assert SameUpToClass(db.events[x].reply, ReplyTo(cs, x));
  }

  /** A terminal submission is always completed, never rejected, and its order can be read. */
  lemma SubmissionCompletes(trace: seq<State>, limits: Limits, i: nat, x: nat)
    requires IsRun(trace, limits) && i < |trace|
    requires x < |trace[i].db.journal| && trace[i].db.journal[x].status.IsTerminal()
    requires trace[i].db.journal[x].command.kind.SubmitOrder?
    ensures trace[i].db.journal[x].status.Completed?
    ensures var c := trace[i].db.journal[x].command;
            && GetOrder(trace[i].db.orders, c.kind.orderId).Some?
            && GetOrder(trace[i].db.orders, c.kind.orderId).value.symbol == c.symbol
            && IsSubmission(c, GetOrder(trace[i].db.orders, c.kind.orderId).value.order)
  {
    var done := TerminalIsDone(trace, limits, i, x);
    var db := trace[i].db;
    SubmittedIsListed(done, x);
    TheSubmittedRow(trace, limits, i, x);
  }

  lemma TheSubmittedRow(trace: seq<State>, limits: Limits, i: nat, x: nat)
    requires IsRun(trace, limits) && i < |trace|
    requires x < |trace[i].db.journal| && trace[i].db.journal[x].status.IsTerminal()
    requires trace[i].db.journal[x].command.kind.SubmitOrder?
    ensures var c := trace[i].db.journal[x].command;
            && GetOrder(trace[i].db.orders, c.kind.orderId).Some?
            && GetOrder(trace[i].db.orders, c.kind.orderId).value.symbol == c.symbol
            && IsSubmission(c, GetOrder(trace[i].db.orders, c.kind.orderId).value.order)
  {
    RunKeepsInv(trace, limits, i);
    var k := SubmissionHasRow(trace[i].db, x);
    TheRow(trace[i].db.orders, trace[i].db.orders[k]);
  }

  /** Once a cancellation that names an order of its symbol is terminal, the order is not active:
      it was cancelled, or something else had ended it before. */
  lemma CancellationSettles(trace: seq<State>, limits: Limits, i: nat, x: nat, y: nat)
    requires IsRun(trace, limits) && i < |trace| && x < y < |trace[i].db.journal|
    requires trace[i].db.journal[y].status.IsTerminal()
    requires var journal := trace[i].db.journal;
             && journal[x].command.kind.SubmitOrder? && journal[x].command.symbol == journal[y].command.symbol
             && journal[y].command.kind == CancelOrder(journal[x].command.kind.orderId)
    ensures var row := GetOrder(trace[i].db.orders, trace[i].db.journal[x].command.kind.orderId);
            row.Some? && !row.value.order.IsActive()
  {
    var done := TerminalIsDone(trace, limits, i, y);
    var db := trace[i].db;
    assert done[x] == Commands(db.journal)[x] == db.journal[x].command;
    var o := CancelledIsOver(done, x, y);
    var k := ListedHasRow(db.orders, done[x].symbol, o);
    TheRow(db.orders, db.orders[k]);
  }

  lemma TheCommand(trace: seq<State>, limits: Limits, i: nat, x: nat)
    requires IsRun(trace, limits) && i < |trace| && x < |trace[i].db.journal|
    ensures GetCommand(trace[i].db.journal, trace[i].db.journal[x].command.sequence) == Some(trace[i].db.journal[x])
  {
    RunKeepsInv(trace, limits, i);
    var journal := trace[i].db.journal;
    var found := GetCommand(journal, journal[x].command.sequence).value;
    var k :| 0 <= k < |journal| && journal[k] == found;
    assert Commands(journal)[k].sequence == Commands(journal)[x].sequence;
    assert k < x || x < k || k == x;
  }

  /** The order that was readable at one moment is readable, under its symbol, at every later one. */
  lemma StaysReadable(trace: seq<State>, limits: Limits, i: nat, j: nat, x: nat)
    requires IsRun(trace, limits) && i <= j < |trace|
    requires x < |trace[i].db.journal| && trace[i].db.journal[x].status.IsTerminal()
    requires trace[i].db.journal[x].command.kind.SubmitOrder?
    ensures x < |trace[j].db.journal| && trace[j].db.journal[x] == trace[i].db.journal[x]
    ensures GetOrder(trace[j].db.orders, trace[i].db.journal[x].command.kind.orderId).Some?
  {
    LaterStatesExtend(trace, limits, i, j);
    assert Commands(trace[i].db.journal)[x] == Commands(trace[j].db.journal)[x];
    SubmissionCompletes(trace, limits, j, x);
  }

  /** The receipt is that of the x-th command, which the first wait has seen terminal. */
  ghost predicate Receipted(f: Offer, journal: seq<Entry>, x: nat) {
    && x < |journal| && journal[x].status.IsTerminal() && journal[x].command.kind.SubmitOrder?
    && f.receipt == OfferReceipt(Some(journal[x].command.sequence), Some(journal[x].command.kind.orderId))
  }

  /** The confirmed cancellation is the y-th command, which the second wait has seen terminal. */
  ghost predicate Confirmed(f: Offer, w: World, x: nat, y: nat) {
    var journal := w.atCancel.journal;
    && x < y < |journal| && journal[y].status.IsTerminal() && journal[x].command.kind.SubmitOrder?
    && journal[y].command.symbol == journal[x].command.symbol
    && journal[y].command.kind == CancelOrder(journal[x].command.kind.orderId)
    && WithCancellation(f, w).cancellation.value.command == Some(journal[y].command.sequence)
  }

  lemma ReadingSucceeds(f: Offer, w: World, trace: seq<State>, limits: Limits, a: nat, b: nat, c: nat, d: nat, x: nat)
    requires Sees(w, trace, limits, a, b, c, d) && Receipted(f, w.atCommand.journal, x)
    ensures var r := ReadPracticeOffer(f, w.atCommand, w.atOrder);
            r.Ok? && r.value.Some? && r.value.value.order.id == f.receipt.orderId.value
  {
    TheCommand(trace, limits, a, x);
    SubmissionCompletes(trace, limits, a, x);
    StaysReadable(trace, limits, a, b, x);
  }

  /** At the end the order is over, because it was when the cancellation had been processed. */
  lemma CancelledStaysOver(w: World, trace: seq<State>, limits: Limits, a: nat, b: nat, c: nat, d: nat, x: nat, y: nat)
    requires Sees(w, trace, limits, a, b, c, d)
    requires var journal := w.atCancel.journal;
             && x < y < |journal| && journal[y].status.IsTerminal() && journal[x].command.kind.SubmitOrder?
             && journal[y].command.symbol == journal[x].command.symbol
             && journal[y].command.kind == CancelOrder(journal[x].command.kind.orderId)
    ensures var row := GetOrder(w.atEnd.orders, w.atCancel.journal[x].command.kind.orderId);
            row.Some? && !row.value.order.IsActive()
  {
    CancellationSettles(trace, limits, c, x, y);
    var row := GetOrder(w.atCancel.orders, w.atCancel.journal[x].command.kind.orderId).value;
    TerminalOrderIsFinal(trace, limits, c, d, row);
    StoredRowsDistinct(trace, limits, d);
    TheRow(w.atEnd.orders, row);
  }

  lemma FinishingSucceeds(f: Offer, w: World, trace: seq<State>, limits: Limits,
                          a: nat, b: nat, c: nat, d: nat, x: nat, y: nat)
    requires Sees(w, trace, limits, a, b, c, d) && Confirmed(f, w, x, y)
    ensures var r := FinishClearing(WithCancellation(f, w), w.atCancel.journal[x].command.kind.orderId, w);
            r.Ok? && r.value.Some?
  {
    TheCommand(trace, limits, c, y);
    CancelledStaysOver(w, trace, limits, a, b, c, d, x, y);
  }

  /** Does the first read find the order open? */
  predicate Resting(f: Offer, w: World) {
    var r := ReadPracticeOffer(f, w.atCommand, w.atOrder);
    r.Ok? && r.value.Some? && r.value.value.order.IsActive()
  }

  /** Clearing a receipted offer never ends with "rejected", "not found" or "still open": once the
      submission and, if it takes one, the confirmed cancellation have been processed, the order is
      returned, and it is over. */
  lemma ClearingSucceeds(f: Offer, w: World, trace: seq<State>, limits: Limits,
                         a: nat, b: nat, c: nat, d: nat, x: nat, y: nat)
    requires Sees(w, trace, limits, a, b, c, d) && Receipted(f, w.atCommand.journal, x)
    requires Resting(f, w) ==> Confirmed(f, w, x, y)
    ensures var r := ClearPracticeOffer(f, w).1;
            r.Ok? && r.value.Some? && !r.value.value.order.IsActive()
            && r.value.value.order.id == f.receipt.orderId.value
  {
    ReadingSucceeds(f, w, trace, limits, a, b, c, d, x);
    if Resting(f, w) {
      StaysReadable(trace, limits, a, c, x);
      FinishingSucceeds(f, w, trace, limits, a, b, c, d, x, y);
    }
  }
}
