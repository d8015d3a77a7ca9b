/**
 What symbols cannot do to each other, stated of the stored rows of reachable databases.  The
 traffic of other symbols moves a command's sequence but nothing else: a symbol's orders and trades
 depend on the kinds of its own commands, in their order.
 */
module Isolation {
  import opened Common
  import opened Orders
  import opened PriceTime
  import opened Exchange
  import opened Rebuild
  import opened Market
  import opened Store
  import opened Journal

  /** The terminal commands: those that the tables reflect. */
  function Done(db: Database): seq<Command>
    requires |db.events| <= |db.journal|
  {
    Commands(db.journal)[..|db.events|]
  }

  // ---------------------------------------------------------------- orders up to renumbering

  /** The same order but for its creation sequence. */
  predicate SameButNumber(a: LimitOrder, b: LimitOrder) {
    b == a.(sequence := b.sequence)
  }

  ghost predicate Renumbered(l: Ledger, r: Ledger) {
    |l| == |r| && forall i | 0 <= i < |l| :: SameButNumber(l[i], r[i])
  }

  /** The best maker's position: nothing that crosses is better priced, or equally priced and older. */
  ghost predicate BestAt(l: Ledger, taker: LimitOrder, k: nat) {
    && k < |l| && Crosses(taker, l[k])
    && forall i | 0 <= i < |l| && Crosses(taker, l[i]) ::
         BetterPrice(taker.side, l[k].price, l[i].price) || (l[i].price == l[k].price && k <= i)
  }

  lemma {:induction false} BestMakerAt(l: Ledger, taker: LimitOrder, k: nat)
    requires Tidy(l) && k < |l|
    ensures BestMaker(l, taker) == Some(l[k]) <==> BestAt(l, taker, k)
  {
    BestMakerIsFirst(l, taker);
    if BestAt(l, taker, k) {
      var best := BestMaker(l, taker).value;
      var j :| 0 <= j < |l| && l[j] == best;
      assert Crosses(taker, l[j]);
      assert k == j || k < j || j < k;
    }
    if BestMaker(l, taker) == Some(l[k]) {
      forall i | 0 <= i < |l| && Crosses(taker, l[i])
        ensures BetterPrice(taker.side, l[k].price, l[i].price) || (l[i].price == l[k].price && k <= i)
      {
        assert i < k || i == k || k < i;
      }
    }
  }

  /** Renumbering that keeps the order of the ledger does not change who is first in line. */
  lemma {:induction false} SameBestMaker(l: Ledger, r: Ledger, t: LimitOrder, u: LimitOrder, k: nat)
    requires Tidy(l) && Tidy(r) && Renumbered(l, r) && SameButNumber(t, u) && k < |l|
    ensures BestMaker(l, t) == Some(l[k]) <==> BestMaker(r, u) == Some(r[k])
  {
    BestMakerAt(l, t, k);
    BestMakerAt(r, u, k);
    forall i | 0 <= i < |l| ensures Crosses(t, l[i]) <==> Crosses(u, r[i]) {}
  }

  lemma {:induction false} SameNothing(l: Ledger, r: Ledger, t: LimitOrder, u: LimitOrder)
    requires Tidy(l) && Tidy(r) && Renumbered(l, r) && SameButNumber(t, u)
    ensures BestMaker(l, t).None? <==> BestMaker(r, u).None?
  {
    BestMakerIsFirst(l, t);
    BestMakerIsFirst(r, u);
    forall i | 0 <= i < |l| ensures Crosses(t, l[i]) <==> Crosses(u, r[i]) {}
  }

  ghost predicate SameExecution(a: Execution, b: Execution) {
    && Renumbered(a.ledger, b.ledger) && SameButNumber(a.taker, b.taker)
    && a.trades == b.trades && Renumbered(a.changed, b.changed)
  }

  lemma OneMoreFill(a: Execution, b: Execution, x: LimitOrder, y: LimitOrder, t: Trade)
    requires SameExecution(a, b) && SameButNumber(x, y)
    ensures SameExecution(Execution(a.ledger, a.taker, [t] + a.trades, [x] + a.changed),
                          Execution(b.ledger, b.taker, [t] + b.trades, [y] + b.changed))
  {
  }

  lemma FillRenumbered(l: Ledger, r: Ledger, k: nat, q: int)
    requires Renumbered(l, r) && k < |l|
    ensures Renumbered(l[k := l[k].Filled(q)], r[k := r[k].Filled(q)])
  {
  }

  /** One round of matching picks the same position and the same quantity in both ledgers. */
  lemma {:induction false} SameStep(l: Ledger, r: Ledger, t: LimitOrder, u: LimitOrder, next: int)
      returns (l': Ledger, r': Ledger, q: int, x: LimitOrder, y: LimitOrder, trade: Trade)
    requires Tidy(l) && Tidy(r) && Renumbered(l, r) && t.Valid() && u.Valid() && SameButNumber(t, u)
    requires t.remaining > 0 && BestMaker(l, t).Some?
    ensures Tidy(l') && Tidy(r') && Renumbered(l', r') && SameButNumber(x, y)
    ensures 0 < q <= t.remaining && t.Filled(q).Valid() && u.Filled(q).Valid()
    ensures var a := Match(l', t.Filled(q), next + 1);
            Match(l, t, next) == Execution(a.ledger, a.taker, [trade] + a.trades, [x] + a.changed)
    ensures var b := Match(r', u.Filled(q), next + 1);
            Match(r, u, next) == Execution(b.ledger, b.taker, [trade] + b.trades, [y] + b.changed)
  {
    SameNothing(l, r, t, u);
    var k, n := MatchStep(l, t, next);
    var j, p := MatchStep(r, u, next);
    SameBestMaker(l, r, t, u, k);
    assert j == k;
    FillRenumbered(l, r, k, n);
    l', r', q := l[k := l[k].Filled(n)], r[j := r[j].Filled(p)], n;
    x, y, trade := l[k].Filled(n), r[j].Filled(p), TradeOf(l[k], t, n, next);
  }

  /** Matching makes the same trades against a renumbered ledger. */
  lemma {:induction false} MatchRenumbered(l: Ledger, r: Ledger, t: LimitOrder, u: LimitOrder, next: int)
    requires Tidy(l) && Tidy(r) && Renumbered(l, r) && t.Valid() && u.Valid() && SameButNumber(t, u)
    ensures SameExecution(Match(l, t, next), Match(r, u, next))
    decreases t.remaining
  {
    if t.remaining == 0 || BestMaker(l, t).None? {
      SameNothing(l, r, t, u);
      MatchDone(l, t, next);
      MatchDone(r, u, next);
    } else {
      var l', r', q, x, y, trade := SameStep(l, r, t, u, next);
      MatchRenumbered(l', r', t.Filled(q), u.Filled(q), next + 1);
      OneMoreFill(Match(l', t.Filled(q), next + 1), Match(r', u.Filled(q), next + 1), x, y, trade);
    }
  }

  // ---------------------------------------------------------------- markets up to renumbering

  ghost predicate SameMarket(m: MarketState, n: MarketState) {
    && Renumbered(m.engine.ledger, n.engine.ledger)
    && m.engine.next == n.engine.next
    && m.trades == n.trades
  }

  predicate AlikeCommand(c: Command, d: Command) {
    c.symbol == d.symbol && c.kind == d.kind
  }

  /** The same commands in the same order; sequences and keys may differ. */
  ghost predicate Alike(cs: seq<Command>, ds: seq<Command>) {
    |cs| == |ds| && forall i | 0 <= i < |cs| :: AlikeCommand(cs[i], ds[i])
  }

  lemma SubmitRenumbered(m: MarketState, n: MarketState, c: Command, d: Command)
    requires Sound(m.engine) && Sound(n.engine) && SameMarket(m, n) && AlikeCommand(c, d)
    requires WellFormed(c.kind) && c.sequence > 0 && d.sequence > 0 && c.kind.SubmitOrder?
    requires Submit(m.engine, OrderOf(c)).Ok? && Submit(n.engine, OrderOf(d)).Ok?
    ensures SameMarket(Advance(m, c).0, Advance(n, d).0)
  {
    MatchRenumbered(m.engine.ledger, n.engine.ledger, OrderOf(c), OrderOf(d), m.engine.next);
    AdvanceSubmit(m, c);
    AdvanceSubmit(n, d);
  }

  lemma {:induction false} SameFind(l: Ledger, r: Ledger, id: string)
    requires Tidy(l) && Renumbered(l, r)
    ensures Find(l, id) == Find(r, id)
  {
    var i, j := Find(l, id), Find(r, id);
    if i >= 0 {
      assert r[i].id == id;
    }
    if j >= 0 {
      assert l[j].id == id;
    }
  }

  lemma {:induction false} ReplaceRenumbered(l: Ledger, r: Ledger, x: LimitOrder, y: LimitOrder)
    requires Renumbered(l, r) && SameButNumber(x, y)
    ensures Renumbered(Replace(l, x), Replace(r, y))
  {
  }

  lemma CancelRenumbered(m: MarketState, n: MarketState, c: Command, d: Command)
    requires Sound(m.engine) && Sound(n.engine) && SameMarket(m, n) && AlikeCommand(c, d)
    requires WellFormed(c.kind) && c.sequence > 0 && d.sequence > 0 && c.kind.CancelOrder?
    ensures SameMarket(Advance(m, c).0, Advance(n, d).0)
  {
    var l, r, id := m.engine.ledger, n.engine.ledger, c.kind.orderId;
    SameFind(l, r, id);
    AdvanceCancel(m, c);
    AdvanceCancel(n, d);
    if Cancel(m.engine, id).Ok? {
      var k := Find(l, id);
      ReplaceRenumbered(l, r, l[k].(status := Cancelled), r[k].(status := Cancelled));
    }
  }

  /** Alike journals lead to the same market, up to the sequences that orders carry. */
  lemma {:induction false} MarketRenumbered(cs: seq<Command>, ds: seq<Command>, symbol: string)
    requires Journaled(cs) && Journaled(ds) && Alike(cs, ds)
    ensures SameMarket(MarketAfter(cs, symbol), MarketAfter(ds, symbol))
  {
    if cs != [] {
      var k := |cs| - 1;
      JournaledPrefix(cs, k);
      JournaledPrefix(ds, k);
      assert AlikeCommand(cs[k], ds[k]);
      MarketRenumbered(cs[..k], ds[..k], symbol);
      if cs[k].symbol == symbol {
        NextIsAdmissible(cs);
        NextIsAdmissible(ds);
        var m, n := MarketAfter(cs[..k], symbol), MarketAfter(ds[..k], symbol);
        if cs[k].kind.SubmitOrder? {
          SubmitRenumbered(m, n, cs[k], ds[k]);
        } else {
          CancelRenumbered(m, n, cs[k], ds[k]);
        }
      }
    }
  }

  // ---------------------------------------------------------------- a symbol's own commands

  lemma {:induction false} ProjectMembers(cs: seq<Command>, symbol: string, c: Command)
    ensures c in Project(cs, symbol) <==> c in cs && c.symbol == symbol
  {
    if cs != [] {
      ProjectMembers(cs[..|cs| - 1], symbol, c);
      assert cs == cs[..|cs| - 1] + [cs[|cs| - 1]];
    }
  }

  lemma AppendJournaled(cs: seq<Command>, c: Command)
    requires Journaled(cs) && WellFormed(c.kind) && c.sequence > 0
    requires forall x | x in cs :: x.sequence < c.sequence
    requires forall x | x in cs && x.kind.SubmitOrder? && c.kind.SubmitOrder? :: x.kind.orderId != c.kind.orderId
    ensures Journaled(cs + [c])
  {
  }

  lemma {:induction false} ProjectJournaled(cs: seq<Command>, symbol: string)
    requires Journaled(cs)
    ensures Journaled(Project(cs, symbol))
  {
    if cs != [] {
      var init, last := cs[..|cs| - 1], cs[|cs| - 1];
      JournaledPrefix(cs, |cs| - 1);
      ProjectJournaled(init, symbol);
      if last.symbol == symbol {
        forall x | x in Project(init, symbol)
          ensures x.sequence < last.sequence
          ensures x.kind.SubmitOrder? && last.kind.SubmitOrder? ==> x.kind.orderId != last.kind.orderId
        {
          ProjectMembers(init, symbol, x);
          var i :| 0 <= i < |init| && init[i] == x;
          assert cs[i] == x;
        }
        AppendJournaled(Project(init, symbol), last);
      }
    }
  }

  lemma {:induction false} ProjectConcat(a: seq<Command>, b: seq<Command>, symbol: string)
    ensures Project(a + b, symbol) == Project(a, symbol) + Project(b, symbol)
    decreases |b|
  {
    if b == [] {
      assert a + b == a;
    } else {
      var init := b[..|b| - 1];
      assert (a + b)[..|a + b| - 1] == a + init;
      ProjectConcat(a, init, symbol);
    }
  }

  lemma {:induction false} ProjectAlike(cs: seq<Command>, ds: seq<Command>, symbol: string)
    requires Alike(cs, ds)
    ensures Alike(Project(cs, symbol), Project(ds, symbol))
  {
    if cs != [] {
      assert AlikeCommand(cs[|cs| - 1], ds[|ds| - 1]);
      ProjectAlike(cs[..|cs| - 1], ds[..|ds| - 1], symbol);
    }
  }

  // ---------------------------------------------------------------- rows of reachable databases

  /** Two databases hold the same of a symbol: the very same trades, and the same orders up to the
      sequence that each was submitted with. */
  ghost predicate SameRowsOf(a: Database, b: Database, symbol: string) {
    && TradesOf(a.trades, symbol) == TradesOf(b.trades, symbol)
    && Renumbered(OrdersOf(a.orders, symbol), OrdersOf(b.orders, symbol))
  }

  lemma {:induction false} TablesAreTheFold(db: Database, symbol: string)
    requires Serial(db)
    ensures Journaled(Done(db)) && Journaled(Project(Done(db), symbol))
    ensures var m := MarketAfter(Project(Done(db), symbol), symbol);
            OrdersOf(db.orders, symbol) == m.engine.ledger && TradesOf(db.trades, symbol) == m.trades
  {
    JournaledPrefix(Commands(db.journal), |db.events|);
    ProjectJournaled(Done(db), symbol);
    SymbolIsolation(Done(db), symbol);
  }

  /** In any two runs, whatever the other symbols do: if a symbol's own terminal commands ask for
      the same in the same order, its stored trades are the same and its stored orders are the same
      up to their sequences; if the commands are the very same, so are the rows. */
  lemma {:induction false} RowsDependOnOwnCommands(one: seq<State>, l1: Limits, i: nat,
        two: seq<State>, l2: Limits, j: nat, symbol: string)
    requires IsRun(one, l1) && i < |one| && IsRun(two, l2) && j < |two|
    ensures EventPerTerminal(one[i].db) && EventPerTerminal(two[j].db)
    ensures Alike(Project(Done(one[i].db), symbol), Project(Done(two[j].db), symbol)) ==>
              SameRowsOf(one[i].db, two[j].db, symbol)
    ensures Project(Done(one[i].db), symbol) == Project(Done(two[j].db), symbol) ==>
              OrdersOf(one[i].db.orders, symbol) == OrdersOf(two[j].db.orders, symbol)
  {
    RunKeepsInv(one, l1, i);
    RunKeepsInv(two, l2, j);
    TablesAreTheFold(one[i].db, symbol);
    TablesAreTheFold(two[j].db, symbol);
    var cs, ds := Project(Done(one[i].db), symbol), Project(Done(two[j].db), symbol);
    if Alike(cs, ds) {
      MarketRenumbered(cs, ds, symbol);
    }
  }

  lemma AlikeConcat(a: seq<Command>, b: seq<Command>, x: seq<Command>, y: seq<Command>)
    requires Alike(a, x) && Alike(b, y)
    ensures Alike(a + b, x + y)
  {
  }

  lemma {:induction false} SwappedPair(a: Command, b: Command, x: Command, y: Command, symbol: string)
    requires AlikeCommand(a, x) && AlikeCommand(b, y) && a.symbol != b.symbol
    ensures Alike(Project([a, b], symbol), Project([y, x], symbol))
  {
    ProjectConcat([a], [b], symbol);
    ProjectConcat([y], [x], symbol);
    assert [a] + [b] == [a, b] && [y] + [x] == [y, x];
    ProjectOne(a, symbol);
    ProjectOne(b, symbol);
    ProjectOne(x, symbol);
    ProjectOne(y, symbol);
  }

  lemma {:induction false} SwappedProject(cs: seq<Command>, a: Command, b: Command, rest: seq<Command>,
                       ds: seq<Command>, x: Command, y: Command, tail: seq<Command>, symbol: string)
    requires Alike(cs, ds) && AlikeCommand(a, x) && AlikeCommand(b, y) && Alike(rest, tail) && a.symbol != b.symbol
    ensures Alike(Project(cs + [a, b] + rest, symbol), Project(ds + [y, x] + tail, symbol))
  {
    ProjectConcat(cs + [a, b], rest, symbol);
    ProjectConcat(cs, [a, b], symbol);
    ProjectConcat(ds + [y, x], tail, symbol);
    ProjectConcat(ds, [y, x], symbol);
    ProjectAlike(cs, ds, symbol);
    ProjectAlike(rest, tail, symbol);
    SwappedPair(a, b, x, y, symbol);
    AlikeConcat(Project(cs, symbol), Project([a, b], symbol), Project(ds, symbol), Project([y, x], symbol));
    AlikeConcat(Project(cs, symbol) + Project([a, b], symbol), Project(rest, symbol),
                Project(ds, symbol) + Project([y, x], symbol), Project(tail, symbol));
  }

  lemma {:induction false} ProjectOne(c: Command, symbol: string)
    ensures Project([c], symbol) == if c.symbol == symbol then [c] else []
  {
    assert [c][..0] == [];
    assert Project([], symbol) == [];
  }

  /** Commands on different symbols commute: had two neighbours been accepted the other way round,
      every symbol would hold the same trades, and the same orders up to their sequences. */
  lemma DifferentSymbolsCommute(one: seq<State>, l1: Limits, i: nat, two: seq<State>, l2: Limits, j: nat,
                                cs: seq<Command>, a: Command, b: Command, rest: seq<Command>,
                                ds: seq<Command>, x: Command, y: Command, tail: seq<Command>, symbol: string)
    requires IsRun(one, l1) && i < |one| && IsRun(two, l2) && j < |two|
    requires EventPerTerminal(one[i].db) && Done(one[i].db) == cs + [a, b] + rest
    requires EventPerTerminal(two[j].db) && Done(two[j].db) == ds + [y, x] + tail
    requires Alike(cs, ds) && AlikeCommand(a, x) && AlikeCommand(b, y) && Alike(rest, tail) && a.symbol != b.symbol
    ensures SameRowsOf(one[i].db, two[j].db, symbol)
  {
    SwappedProject(cs, a, b, rest, ds, x, y, tail, symbol);
    RowsDependOnOwnCommands(one, l1, i, two, l2, j, symbol);
  }

  // ---------------------------------------------------------------- one transaction

  /** A transaction leaves every row of the other symbols as it is. */
  lemma {:induction false} TransactionStaysInItsSymbol(trace: seq<State>, limits: Limits, i: nat, w: Work,
        other: string)
    requires IsRun(trace, limits) && i < |trace| && other != w.command.symbol
    requires LowestQueued(trace[i].db.journal) == Some(w.command)
    requires Decide(trace[i].db, w.command) == Ok(w.reply)
    ensures OrdersOf(Commit(trace[i].db, w).orders, other) == OrdersOf(trace[i].db.orders, other)
    ensures TradesOf(Commit(trace[i].db, w).trades, other) == TradesOf(trace[i].db.trades, other)
  {
    RunKeepsInv(trace, limits, i);
    var db := trace[i].db;
    WorkIsNext(db, w.command);
    CommitOrders(db, Done(db), w, other);
    CommitTrades(db, Done(db), w, other);
    assert (Done(db) + [w.command])[..|Done(db)|] == Done(db);
  }

  ghost predicate ActiveRow(rows: seq<OrderRow>, symbol: string, id: string) {
    exists k | 0 <= k < |rows| :: rows[k].symbol == symbol && rows[k].order.id == id && rows[k].order.IsActive()
  }

  lemma {:induction false} ActiveRowIsListed(rows: seq<OrderRow>, symbol: string, id: string)
    requires Tidy(OrdersOf(rows, symbol))
    ensures var l := OrdersOf(rows, symbol);
            ActiveRow(rows, symbol, id) <==> Find(l, id) >= 0 && l[Find(l, id)].IsActive()
  {
    var l := OrdersOf(rows, symbol);
    if ActiveRow(rows, symbol, id) {
      var k :| 0 <= k < |rows| && rows[k].symbol == symbol && rows[k].order.id == id && rows[k].order.IsActive();
      RowIsListed(rows, k);
      var i :| 0 <= i < |l| && l[i] == rows[k].order;
      assert HasId(l, id) && i == Find(l, id);
    }
    if Find(l, id) >= 0 && l[Find(l, id)].IsActive() {
      var k := ListedHasRow(rows, symbol, l[Find(l, id)]);
    }
  }

  /** A cancel is executed exactly when an active row of its own symbol carries the identifier, and
      refused as unknown otherwise. */
  lemma {:induction false} CancelFindsOwnRow(db: Database, c: Command)
    requires Serial(db) && LowestQueued(db.journal) == Some(c) && c.kind.CancelOrder?
    ensures Decide(db, c).Ok?
    ensures Decide(db, c).value.Executed? <==> ActiveRow(db.orders, c.symbol, c.kind.orderId)
    ensures Decide(db, c).value.Refused? ==> Decide(db, c).value.error == UnknownOrder
  {
    WorkIsNext(db, c);
    RestoredIsLinked(db, Done(db), c.symbol);
    DecideCancel(db, MarketAfter(Done(db), c.symbol).engine, c);
    ActiveRowIsListed(db.orders, c.symbol, c.kind.orderId);
  }

  lemma OwnRowWasSubmitted(db: Database, symbol: string, id: string)
    requires Serial(db) && ActiveRow(db.orders, symbol, id)
    ensures SubmittedIn(Commands(db.journal), symbol, id)
  {
    var k :| 0 <= k < |db.orders| && db.orders[k].symbol == symbol && db.orders[k].order.id == id;
    var cs := Commands(db.journal);
    RowIsListed(db.orders, k);
    MarketKnowsItsOrders(Done(db), symbol, LastSequence(cs));
    var l := OrdersOf(db.orders, symbol);
    var i :| 0 <= i < |l| && l[i] == db.orders[k].order;
    assert SubmittedIn(Done(db), symbol, l[i].id);
    SubmittedInPrefix(cs, |db.events|, symbol, id);
  }

  function LastSequence(cs: seq<Command>): (n: int)
    ensures Journaled(cs) ==> n >= 0 && forall i | 0 <= i < |cs| :: cs[i].sequence <= n
  {
    if cs == [] then 0 else cs[|cs| - 1].sequence
  }

  /** A cancel that names an order submitted under another symbol, at any time, is refused as
      unknown, and its transaction writes neither orders nor trades. */
  lemma ForeignCancelIsRefused(trace: seq<State>, limits: Limits, i: nat, c: Command, other: string, eventId: int)
    requires IsRun(trace, limits) && i < |trace|
    requires LowestQueued(trace[i].db.journal) == Some(c) && c.kind.CancelOrder? && c.symbol != other
    requires SubmittedIn(Commands(trace[i].db.journal), other, c.kind.orderId)
    ensures Decide(trace[i].db, c) == Ok(Refused(UnknownOrder))
    ensures var after := Commit(trace[i].db, Work(c, Refused(UnknownOrder), eventId));
            after.orders == trace[i].db.orders && after.trades == trace[i].db.trades
  {
    RunKeepsInv(trace, limits, i);
    var db, id := trace[i].db, c.kind.orderId;
    CancelFindsOwnRow(db, c);
    if ActiveRow(db.orders, c.symbol, id) {
      OwnRowWasSubmitted(db, c.symbol, id);
      SubmittedOnce(Commands(db.journal), c.symbol, other, id);
    }
  }

  lemma SubmittedOnce(cs: seq<Command>, a: string, b: string, id: string)
    requires Journaled(cs) && SubmittedIn(cs, a, id) && SubmittedIn(cs, b, id)
    ensures a == b
  {
    var i :| 0 <= i < |cs| && cs[i].symbol == a && cs[i].kind.SubmitOrder? && cs[i].kind.orderId == id;
    var j :| 0 <= j < |cs| && cs[j].symbol == b && cs[j].kind.SubmitOrder? && cs[j].kind.orderId == id;
    assert i < j || j < i || i == j;
  }
}
