/**
 The serial reference: one long-lived engine per symbol, folded over the journal in order.
 The durable protocol is later shown to commit exactly what this fold computes.
 */
module Market {
  import opened Common
  import opened Orders
  import opened PriceTime
  import opened BookView
  import opened Exchange
  import opened Rebuild

  datatype Kind =
    | SubmitOrder(orderId: string, side: Side, price: int, quantity: int)
    | CancelOrder(orderId: string)

  datatype Command = Command(sequence: int, key: string, symbol: string, kind: Kind)

  /** The ranges that request validation lets through. */
  predicate WellFormed(k: Kind) {
    k.SubmitOrder? ==> k.orderId != "" && k.price > 0 && k.quantity > 0
  }

  ghost predicate AllWellFormed(cs: seq<Command>) {
    forall i | 0 <= i < |cs| :: WellFormed(cs[i].kind) && cs[i].sequence > 0
  }

  /** A symbol's long-lived engine, and every trade it has made. */
  datatype MarketState = MarketState(engine: Engine, trades: seq<Trade>)

  /** Is the order what the command asks for? */
  predicate IsSubmission(c: Command, o: LimitOrder) {
    && c.kind.SubmitOrder?
    && o.id == c.kind.orderId && o.side == c.kind.side && o.price == c.kind.price
    && o.quantity == c.kind.quantity && o.sequence == c.sequence
  }

  function OrderOf(c: Command): (o: LimitOrder)
    requires c.kind.SubmitOrder? && WellFormed(c.kind) && c.sequence > 0
    ensures o.Valid() && Fresh(o) && IsSubmission(c, o)
    ensures FreshOrder(c.kind.orderId, c.kind.side, c.kind.price, c.kind.quantity, c.sequence) == Ok(o)
  {
    FreshOrder(c.kind.orderId, c.kind.side, c.kind.price, c.kind.quantity, c.sequence).value
  }

  function OpOf(c: Command): (op: Op)
    requires WellFormed(c.kind) && c.sequence > 0
    ensures op.SubmitOp? ==> op.order.Valid()
  {
    if c.kind.SubmitOrder? then SubmitOp(OrderOf(c)) else CancelOp(c.kind.orderId)
  }

  ghost function Advance(m: MarketState, c: Command): (r: (MarketState, Reply))
    requires Sound(m.engine) && WellFormed(c.kind) && c.sequence > 0
    ensures Sound(r.0.engine)
  {
    var (engine, reply) := Step(m.engine, OpOf(c));
    (MarketState(engine, if reply.Executed? then m.trades + reply.trades else m.trades), reply)
  }

  ghost function MarketAfter(cs: seq<Command>, symbol: string): (m: MarketState)
    requires AllWellFormed(cs)
    ensures Sound(m.engine)
  {
    if cs == [] then MarketState(Engine([], 0, 1), [])
    else
      var m := MarketAfter(cs[..|cs| - 1], symbol);
      if cs[|cs| - 1].symbol == symbol then Advance(m, cs[|cs| - 1]).0 else m
  }

  lemma {:induction false} MarketNext(cs: seq<Command>, c: Command, symbol: string)
    requires AllWellFormed(cs) && WellFormed(c.kind) && c.sequence > 0
    ensures AllWellFormed(cs + [c])
    ensures MarketAfter(cs + [c], symbol)
         == if c.symbol == symbol then Advance(MarketAfter(cs, symbol), c).0 else MarketAfter(cs, symbol)
  {
    assert (cs + [c])[..|cs|] == cs;
  }

  /** What the serial reference answers to the i-th command. */
  ghost function ReplyTo(cs: seq<Command>, i: nat): Reply
    requires AllWellFormed(cs) && i < |cs|
  {
    Advance(MarketAfter(cs[..i], cs[i].symbol), cs[i]).1
  }

  /** What the journal guarantees: rising sequences and distinct new order identifiers. */
  ghost predicate Journaled(cs: seq<Command>) {
    && AllWellFormed(cs)
    && (forall i, j | 0 <= i < j < |cs| :: cs[i].sequence < cs[j].sequence)
    && (forall i, j | 0 <= i < j < |cs| && cs[i].kind.SubmitOrder? && cs[j].kind.SubmitOrder? ::
          cs[i].kind.orderId != cs[j].kind.orderId)
  }

  ghost predicate SubmittedIn(cs: seq<Command>, symbol: string, id: string) {
    exists i | 0 <= i < |cs| :: cs[i].symbol == symbol && cs[i].kind.SubmitOrder? && cs[i].kind.orderId == id
  }

  lemma SubmittedInPrefix(cs: seq<Command>, n: nat, symbol: string, id: string)
    requires n <= |cs| && SubmittedIn(cs[..n], symbol, id)
    ensures SubmittedIn(cs, symbol, id)
  {
  }

  // ---------------------------------------------------------------- every submission is accepted

  lemma AdvanceSubmit(m: MarketState, c: Command)
    requires Sound(m.engine) && WellFormed(c.kind) && c.sequence > 0 && c.kind.SubmitOrder?
    requires Submit(m.engine, OrderOf(c)).Ok?
    ensures var (e', r) := Submit(m.engine, OrderOf(c)).value;
            && Advance(m, c) == (MarketState(e', m.trades + r.trades), Executed(r.changed + [r.order], r.trades))
  {
  }

  lemma AdvanceCancel(m: MarketState, c: Command)
    requires Sound(m.engine) && WellFormed(c.kind) && c.sequence > 0 && c.kind.CancelOrder?
    ensures match Cancel(m.engine, c.kind.orderId)
            case Err(error) => Advance(m, c) == (m, Refused(error))
            case Ok((e', o)) => Advance(m, c) == (MarketState(e', m.trades), Executed([o], []))
  {
    assert m.trades + [] == m.trades;
  }

  /** A market holds only orders that its own commands submitted, none beyond the journal's end. */
  lemma {:induction false} MarketKnowsItsOrders(cs: seq<Command>, symbol: string, bound: int)
    requires AllWellFormed(cs) && bound >= 0 && forall i | 0 <= i < |cs| :: cs[i].sequence <= bound
    ensures var e := MarketAfter(cs, symbol).engine;
            && e.last <= bound
            && forall k | 0 <= k < |e.ledger| :: SubmittedIn(cs, symbol, e.ledger[k].id)
  {
    if cs != [] {
      var init, c := cs[..|cs| - 1], cs[|cs| - 1];
      MarketKnowsItsOrders(init, symbol, bound);
      var m, e' := MarketAfter(init, symbol), MarketAfter(cs, symbol).engine;
      forall k | 0 <= k < |m.engine.ledger| ensures SubmittedIn(cs, symbol, m.engine.ledger[k].id) {
        SubmittedInPrefix(cs, |cs| - 1, symbol, m.engine.ledger[k].id);
      }
      if c.symbol == symbol {
        if c.kind.SubmitOrder? && Submit(m.engine, OrderOf(c)).Ok? {
          AdvanceSubmit(m, c);
          SubmitGrows(m.engine, OrderOf(c));
          assert cs[|cs| - 1].kind.orderId == e'.ledger[|m.engine.ledger|].id;
        } else if c.kind.CancelOrder? && Cancel(m.engine, c.kind.orderId).Ok? {
          AdvanceCancel(m, c);
          CancelStays(m.engine, c.kind.orderId);
        }
      }
    }
  }

  /** The next journaled command is admissible for its market, so a submission always completes. */
  lemma NextIsAdmissible(cs: seq<Command>)
    requires Journaled(cs) && cs != []
    ensures var c := cs[|cs| - 1];
            var m := MarketAfter(cs[..|cs| - 1], c.symbol);
            && Admissible(m.engine, OpOf(c))
            && (c.kind.SubmitOrder? ==> Submit(m.engine, OrderOf(c)).Ok?)
  {
    var init, c := cs[..|cs| - 1], cs[|cs| - 1];
    MarketKnowsItsOrders(init, c.symbol, c.sequence - 1);
    var e := MarketAfter(init, c.symbol).engine;
    if c.kind.SubmitOrder? {
      forall k | 0 <= k < |e.ledger| ensures e.ledger[k].id != c.kind.orderId {
        assert SubmittedIn(init, c.symbol, e.ledger[k].id);
        var i :| 0 <= i < |init| && init[i].symbol == c.symbol && init[i].kind.SubmitOrder?
                 && init[i].kind.orderId == e.ledger[k].id;
        assert cs[i] == init[i];
      }
      SubmitAccepts(e, OrderOf(c));
    }
  }

  // ---------------------------------------------------------------- orders are what was asked for

  ghost predicate Asked(cs: seq<Command>, symbol: string, o: LimitOrder) {
    exists i | 0 <= i < |cs| :: cs[i].symbol == symbol && IsSubmission(cs[i], o)
  }

  ghost predicate HoldsOrderOf(l: Ledger, c: Command) {
    exists k | 0 <= k < |l| :: IsSubmission(c, l[k])
  }

  lemma AskedLater(cs: seq<Command>, c: Command, symbol: string, o: LimitOrder, o': LimitOrder)
    requires Asked(cs, symbol, o) && SameOrder(o, o')
    ensures Asked(cs + [c], symbol, o')
  {
    var i :| 0 <= i < |cs| && cs[i].symbol == symbol && IsSubmission(cs[i], o);
    assert (cs + [c])[i] == cs[i];
  }

  lemma HeldLater(l: Ledger, l': Ledger, c: Command)
    requires HoldsOrderOf(l, c) && |l| <= |l'| && forall k | 0 <= k < |l| :: SameOrder(l[k], l'[k])
    ensures HoldsOrderOf(l', c)
  {
    var k :| 0 <= k < |l| && IsSubmission(c, l[k]);
    assert IsSubmission(c, l'[k]);
  }

  /** A command leaves every order of its market the order it was, and a submission that is executed
      adds the one it asks for. */
  lemma AdvanceKeepsOrders(m: MarketState, c: Command)
    requires Sound(m.engine) && WellFormed(c.kind) && c.sequence > 0
    ensures var l, l' := m.engine.ledger, Advance(m, c).0.engine.ledger;
            && |l| <= |l'| <= |l| + 1
            && (forall k | 0 <= k < |l| :: SameOrder(l[k], l'[k]))
            && (|l'| > |l| ==> IsSubmission(c, l'[|l|]))
            && (c.kind.SubmitOrder? && Submit(m.engine, OrderOf(c)).Ok? ==> |l'| > |l|)
  {
    if c.kind.SubmitOrder? {
      if Submit(m.engine, OrderOf(c)).Ok? {
        AdvanceSubmit(m, c);
        SubmitKeepsSound(m.engine, OrderOf(c));
      }
    } else {
      AdvanceCancel(m, c);
      if Cancel(m.engine, c.kind.orderId).Ok? {
        CancelKeepsSound(m.engine, c.kind.orderId);
      }
    }
  }

  /** What one more command makes of a market's ledger. */
  lemma LedgerNext(cs: seq<Command>, c: Command, symbol: string) returns (l: Ledger, l': Ledger)
    requires Journaled(cs + [c])
    ensures AllWellFormed(cs) && l == MarketAfter(cs, symbol).engine.ledger
    ensures l' == MarketAfter(cs + [c], symbol).engine.ledger
    ensures |l| <= |l'| <= |l| + 1 && forall k | 0 <= k < |l| :: SameOrder(l[k], l'[k])
    ensures |l'| > |l| ==> c.symbol == symbol && IsSubmission(c, l'[|l|])
    ensures c.symbol == symbol && c.kind.SubmitOrder? ==> |l'| > |l|
  {
    assert (cs + [c])[..|cs|] == cs && (cs + [c])[|cs|] == c;
    assert AllWellFormed(cs) by {
      assert forall i | 0 <= i < |cs| :: (cs + [c])[i] == cs[i];
    }
    NextIsAdmissible(cs + [c]);
    MarketNext(cs, c, symbol);
    l, l' := MarketAfter(cs, symbol).engine.ledger, MarketAfter(cs + [c], symbol).engine.ledger;
    if c.symbol == symbol {
      AdvanceKeepsOrders(MarketAfter(cs, symbol), c);
    }
  }

  ghost predicate AreSubmissions(l: Ledger, cs: seq<Command>, symbol: string) {
    && (forall k | 0 <= k < |l| :: Asked(cs, symbol, l[k]))
    && (forall i | 0 <= i < |cs| && cs[i].symbol == symbol && cs[i].kind.SubmitOrder? :: HoldsOrderOf(l, cs[i]))
  }

  /** A market holds exactly what its commands have submitted: every order is, but for its remaining
      quantity and status, what one of them asked for, and each of them finds its order there. */
  lemma {:induction false} MarketHoldsSubmissions(cs: seq<Command>, symbol: string) returns (l: Ledger)
    requires Journaled(cs)
    ensures l == MarketAfter(cs, symbol).engine.ledger && AreSubmissions(l, cs, symbol)
  {
    if cs == [] {
      l := [];
    } else {
      var init, c := cs[..|cs| - 1], cs[|cs| - 1];
      assert cs == init + [c];
      var known := MarketHoldsSubmissions(init, symbol);
      var before, after := LedgerNext(init, c, symbol);
      OneMoreHeld(init, c, symbol, before, after);
      l := after;
    }
  }

  lemma OneMoreHeld(cs: seq<Command>, c: Command, symbol: string, l: Ledger, l': Ledger)
    requires AreSubmissions(l, cs, symbol)
    requires |l| <= |l'| <= |l| + 1 && forall k | 0 <= k < |l| :: SameOrder(l[k], l'[k])
    requires |l'| > |l| ==> c.symbol == symbol && IsSubmission(c, l'[|l|])
    requires c.symbol == symbol && c.kind.SubmitOrder? ==> |l'| > |l|
    ensures AreSubmissions(l', cs + [c], symbol)
  {
    forall k | 0 <= k < |l'| ensures Asked(cs + [c], symbol, l'[k]) {
      if k < |l| {
        AskedLater(cs, c, symbol, l[k], l'[k]);
      } else {
        assert (cs + [c])[|cs|] == c;
      }
    }
    forall i | 0 <= i < |cs + [c]| && (cs + [c])[i].symbol == symbol && (cs + [c])[i].kind.SubmitOrder?
      ensures HoldsOrderOf(l', (cs + [c])[i])
    {
      if i < |cs| {
        HeldLater(l, l', cs[i]);
      }
    }
  }

  // ---------------------------------------------------------------- trades are what their orders allow

  /** Both orders of the trade are in the ledger: an older maker whose price and side it has, and a
      younger taker of the other side whose limit it respects. */
  ghost predicate Backed(t: Trade, l: Ledger) {
    exists m, k | 0 <= m < k < |l| ::
      && l[m].id == t.maker && l[k].id == t.taker && l[m].sequence < l[k].sequence
      && t.makerSide == l[m].side && l[k].side != l[m].side && t.price == l[m].price
      && (if l[k].side == Buy then t.price <= l[k].price else t.price >= l[k].price)
  }

  lemma BackedLater(t: Trade, l: Ledger, l': Ledger)
    requires Backed(t, l) && |l| <= |l'| && forall k | 0 <= k < |l| :: SameOrder(l[k], l'[k])
    ensures Backed(t, l')
  {
    var m, k :| 0 <= m < k < |l| && l[m].id == t.maker && l[k].id == t.taker && l[m].sequence < l[k].sequence
                && t.makerSide == l[m].side && l[k].side != l[m].side && t.price == l[m].price
                && (if l[k].side == Buy then t.price <= l[k].price else t.price >= l[k].price);
    assert SameOrder(l[m], l'[m]) && SameOrder(l[k], l'[k]);
  }

  lemma {:induction false} NewTradeIsBacked(e: Engine, o: LimitOrder, ex: Execution, i: nat)
    requires Sound(e) && o.Valid() && Fresh(o) && ex == Match(e.ledger, o, e.next) && i < |ex.trades|
    requires o.sequence > e.last
    ensures Backed(ex.trades[i], ex.ledger + [ex.taker])
  {
    MatchTrades(e.ledger, o, e.next);
    MatchTakesCrossing(e.ledger, o, e.next);
    MatchKeepsTidy(e.ledger, o, e.next);
    TradesWithinLimit(e.ledger, o, e.next);
    assert IsTradeOf(ex.trades[i], o, ex.changed[i]) && TakenFrom(e.ledger, o, ex.changed[i]);
    var m :| 0 <= m < |e.ledger| && Crosses(o, e.ledger[m]) && SameOrder(e.ledger[m], ex.changed[i]);
    var l' := ex.ledger + [ex.taker];
    assert SameOrder(e.ledger[m], l'[m]) && l'[|e.ledger|] == ex.taker && SameOrder(o, ex.taker);
  }

  /** A command's trades have the order that it submits as their taker; a cancel makes none. */
  lemma {:induction false} RepliesNameTheTaker(m: MarketState, c: Command)
    requires Sound(m.engine) && WellFormed(c.kind) && c.sequence > 0
    ensures var reply := Advance(m, c).1;
            reply.Executed? ==> forall i | 0 <= i < |reply.trades| ::
              c.kind.SubmitOrder? && reply.trades[i].taker == c.kind.orderId
  {
    if c.kind.SubmitOrder? {
      if Submit(m.engine, OrderOf(c)).Ok? {
        AdvanceSubmit(m, c);
        MatchTrades(m.engine.ledger, OrderOf(c), m.engine.next);
        var ex := SubmitExecutes(m.engine, OrderOf(c));
        forall i | 0 <= i < |ex.trades| ensures ex.trades[i].taker == c.kind.orderId {
          assert IsTradeOf(ex.trades[i], OrderOf(c), ex.changed[i]);
        }
      }
    } else {
      AdvanceCancel(m, c);
    }
  }

  ghost predicate AllBacked(ts: seq<Trade>, l: Ledger) {
    forall i | 0 <= i < |ts| :: Backed(ts[i], l)
  }

  lemma AdvanceKeepsBacked(m: MarketState, c: Command)
    requires Sound(m.engine) && WellFormed(c.kind) && c.sequence > 0 && AllBacked(m.trades, m.engine.ledger)
    ensures AllBacked(Advance(m, c).0.trades, Advance(m, c).0.engine.ledger)
  {
    var l, l' := m.engine.ledger, Advance(m, c).0.engine.ledger;
    AdvanceKeepsOrders(m, c);
    forall i | 0 <= i < |m.trades| ensures Backed(m.trades[i], l') {
      BackedLater(m.trades[i], l, l');
    }
    if c.kind.SubmitOrder? {
      if Submit(m.engine, OrderOf(c)).Ok? {
        AdvanceSubmit(m, c);
        var ex := SubmitExecutes(m.engine, OrderOf(c));
        forall i | 0 <= i < |ex.trades| ensures Backed(ex.trades[i], l') {
          NewTradeIsBacked(m.engine, OrderOf(c), ex, i);
        }
      }
    } else {
      AdvanceCancel(m, c);
    }
  }

  /** Every trade ever made in a market respects the limits of the two orders it names. */
  lemma {:induction false} MarketTradesBacked(cs: seq<Command>, symbol: string)
    requires AllWellFormed(cs)
    ensures AllBacked(MarketAfter(cs, symbol).trades, MarketAfter(cs, symbol).engine.ledger)
  {
    if cs != [] {
      MarketTradesBacked(cs[..|cs| - 1], symbol);
      if cs[|cs| - 1].symbol == symbol {
        AdvanceKeepsBacked(MarketAfter(cs[..|cs| - 1], symbol), cs[|cs| - 1]);
      }
    }
  }

  // ---------------------------------------------------------------- conservation

  ghost predicate Conserved(m: MarketState) {
    && m.engine.next == |m.trades| + 1
    && (forall i | 0 <= i < |m.trades| :: m.trades[i].sequence == i + 1)
    && (forall k | 0 <= k < |m.engine.ledger| ::
          m.engine.ledger[k].quantity
          == m.engine.ledger[k].remaining + TradedFor(m.trades, m.engine.ledger[k].id))
    && (forall id | !HasId(m.engine.ledger, id) :: TradedFor(m.trades, id) == 0)
    && FilledOn(m.engine.ledger, Buy) == Total(m.trades)
    && FilledOn(m.engine.ledger, Sell) == Total(m.trades)
  }

  lemma {:induction false} TotalConcat(a: seq<Trade>, b: seq<Trade>)
    ensures Total(a + b) == Total(a) + Total(b)
  {
    if a == [] {
      assert a + b == b;
    } else {
      TotalConcat(a[1..], b);
      assert (a + b)[1..] == a[1..] + b;
    }
  }

  lemma {:induction false} TradedForConcat(a: seq<Trade>, b: seq<Trade>, id: string)
    ensures TradedFor(a + b, id) == TradedFor(a, id) + TradedFor(b, id)
  {
    if a == [] {
      assert a + b == b;
    } else {
      TradedForConcat(a[1..], b, id);
      assert (a + b)[1..] == a[1..] + b;
    }
  }

  lemma {:induction false} MakerStaysConserved(m: MarketState, o: LimitOrder, ex: Execution, k: nat)
    requires Conserved(m) && Tidy(m.engine.ledger) && o.Valid() && !HasId(m.engine.ledger, o.id)
    requires ex == Match(m.engine.ledger, o, m.engine.next) && k < |m.engine.ledger| == |ex.ledger|
    requires SameOrder(m.engine.ledger[k], ex.ledger[k])
    ensures ex.ledger[k].quantity == ex.ledger[k].remaining + TradedFor(m.trades + ex.trades, ex.ledger[k].id)
  {
    TradedForConcat(m.trades, ex.trades, ex.ledger[k].id);
    MatchConservesMaker(m.engine.ledger, o, m.engine.next, k);
  }

  lemma {:induction false} TakerIsConserved(m: MarketState, o: LimitOrder, ex: Execution)
    requires Conserved(m) && Tidy(m.engine.ledger) && o.Valid() && !HasId(m.engine.ledger, o.id)
    requires ex == Match(m.engine.ledger, o, m.engine.next) && SameOrder(o, ex.taker) && Fresh(o)
    ensures ex.taker.quantity == ex.taker.remaining + TradedFor(m.trades + ex.trades, ex.taker.id)
  {
    TradedForConcat(m.trades, ex.trades, o.id);
    MatchConservesTaker(m.engine.ledger, o, m.engine.next, o.id);
  }

  lemma SubmitConservesOrders(m: MarketState, o: LimitOrder)
    requires Conserved(m) && Sound(m.engine) && o.Valid() && Submit(m.engine, o).Ok?
    ensures var (e', r) := Submit(m.engine, o).value;
            forall k | 0 <= k < |e'.ledger| ::
              e'.ledger[k].quantity == e'.ledger[k].remaining + TradedFor(m.trades + r.trades, e'.ledger[k].id)
  {
    var ex := SubmitExecutes(m.engine, o);
    MatchOutcome(m.engine.ledger, o, m.engine.next, ex);
    var l := ex.ledger + [ex.taker];
    forall k | 0 <= k < |l| ensures l[k].quantity == l[k].remaining + TradedFor(m.trades + ex.trades, l[k].id) {
      if k < |ex.ledger| {
        MakerStaysConserved(m, o, ex, k);
      } else {
        TakerIsConserved(m, o, ex);
      }
    }
  }

  lemma SubmitConservesNumbers(m: MarketState, o: LimitOrder)
    requires Conserved(m) && Sound(m.engine) && o.Valid() && Submit(m.engine, o).Ok?
    ensures var (e', r) := Submit(m.engine, o).value;
            && e'.next == |m.trades + r.trades| + 1
            && forall i | 0 <= i < |m.trades + r.trades| :: (m.trades + r.trades)[i].sequence == i + 1
  {
    SubmitGrows(m.engine, o);
    SubmitNumbersTrades(m.engine, o);
    Continued(m.trades, Submit(m.engine, o).value.1.trades);
  }

  lemma Continued(a: seq<Trade>, b: seq<Trade>)
    requires forall i | 0 <= i < |a| :: a[i].sequence == i + 1
    requires forall i | 0 <= i < |b| :: b[i].sequence == |a| + 1 + i
    ensures forall i | 0 <= i < |a + b| :: (a + b)[i].sequence == i + 1
  {
  }

  lemma UnknownAfterSubmit(e: Engine, o: LimitOrder, id: string)
    requires Sound(e) && o.Valid() && Submit(e, o).Ok? && !HasId(Submit(e, o).value.0.ledger, id)
    ensures !HasId(e.ledger, id) && id != o.id
  {
    var e' := Submit(e, o).value.0;
    SubmitGrows(e, o);
    assert e'.ledger[|e.ledger|].id == o.id;
    forall i | 0 <= i < |e.ledger| ensures e.ledger[i].id != id {
      assert e'.ledger[i].id == e.ledger[i].id;
    }
  }

  lemma {:induction false} SubmitConservesUnknown(m: MarketState, o: LimitOrder, id: string)
    requires Conserved(m) && Sound(m.engine) && o.Valid() && Submit(m.engine, o).Ok?
    requires !HasId(Submit(m.engine, o).value.0.ledger, id)
    ensures TradedFor(m.trades + Submit(m.engine, o).value.1.trades, id) == 0
  {
    UnknownAfterSubmit(m.engine, o, id);
    var ex := SubmitExecutes(m.engine, o);
    TradedForConcat(m.trades, ex.trades, id);
    MatchConservesTaker(m.engine.ledger, o, m.engine.next, id);
  }

  lemma TakerConservesSides(ex: Execution, o: LimitOrder, side: Side, made: int)
    requires SameOrder(o, ex.taker) && o.remaining == o.quantity && ex.taker.remaining == o.remaining - made
    ensures FilledOn(ex.ledger + [ex.taker], side) == FilledOn(ex.ledger, side) + if side == o.side then made else 0
  {
    SumAppend(ex.ledger, ex.taker, FilledWeight(side));
  }

  lemma {:induction false} ExecutionConservesSides(e: Engine, o: LimitOrder, ex: Execution, side: Side)
    requires Sound(e) && o.Valid() && Fresh(o) && ex == Match(e.ledger, o, e.next)
    ensures FilledOn(ex.ledger + [ex.taker], side) == FilledOn(e.ledger, side) + Total(ex.trades)
  {
    MatchConservesSides(e.ledger, o, e.next, side);
    MatchKeepsTidy(e.ledger, o, e.next);
    ExecutedQuantity(e.ledger, o, e.next);
    TakerConservesSides(ex, o, side, Total(ex.trades));
  }

  lemma SubmitConservesSides(m: MarketState, o: LimitOrder, side: Side)
    requires Sound(m.engine) && o.Valid() && Submit(m.engine, o).Ok?
    requires FilledOn(m.engine.ledger, side) == Total(m.trades)
    ensures var (e', r) := Submit(m.engine, o).value;
            FilledOn(e'.ledger, side) == Total(m.trades + r.trades)
  {
    var ex := SubmitExecutes(m.engine, o);
    ExecutionConservesSides(m.engine, o, ex, side);
    TotalConcat(m.trades, ex.trades);
  }

  lemma CancelConservesSides(e: Engine, id: string, side: Side)
    requires Sound(e) && Cancel(e, id).Ok?
    ensures FilledOn(Cancel(e, id).value.0.ledger, side) == FilledOn(e.ledger, side)
  {
    CancelKeepsSound(e, id);
    SumUpdate(e.ledger, Find(e.ledger, id), Cancel(e, id).value.1, FilledWeight(side));
  }

  lemma CancelKeepsIds(e: Engine, id: string, x: string)
    requires Sound(e) && Cancel(e, id).Ok?
    ensures HasId(Cancel(e, id).value.0.ledger, x) <==> HasId(e.ledger, x)
  {
  }

  lemma CancelConservesOrders(m: MarketState, id: string)
    requires Conserved(m) && Sound(m.engine) && Cancel(m.engine, id).Ok?
    ensures var e' := Cancel(m.engine, id).value.0;
            && e'.next == m.engine.next && |e'.ledger| == |m.engine.ledger|
            && forall k | 0 <= k < |e'.ledger| ::
                 e'.ledger[k].quantity == e'.ledger[k].remaining + TradedFor(m.trades, e'.ledger[k].id)
  {
    CancelKeepsSound(m.engine, id);
  }

  lemma CancelConserves(m: MarketState, id: string)
    requires Conserved(m) && Sound(m.engine) && Cancel(m.engine, id).Ok?
    ensures Conserved(MarketState(Cancel(m.engine, id).value.0, m.trades))
  {
    CancelConservesOrders(m, id);
    CancelConservesSides(m.engine, id, Buy);
    CancelConservesSides(m.engine, id, Sell);
    forall x ensures HasId(Cancel(m.engine, id).value.0.ledger, x) <==> HasId(m.engine.ledger, x) {
      CancelKeepsIds(m.engine, id, x);
    }
  }

  lemma AdvanceConserves(m: MarketState, c: Command)
    requires Conserved(m) && Sound(m.engine) && WellFormed(c.kind) && c.sequence > 0
    ensures Conserved(Advance(m, c).0)
  {
    if c.kind.SubmitOrder? {
      if Submit(m.engine, OrderOf(c)).Ok? {
        AdvanceSubmit(m, c);
        SubmitConservesOrders(m, OrderOf(c));
        SubmitConservesNumbers(m, OrderOf(c));
        forall id | !HasId(Submit(m.engine, OrderOf(c)).value.0.ledger, id)
          ensures TradedFor(m.trades + Submit(m.engine, OrderOf(c)).value.1.trades, id) == 0
        {
          SubmitConservesUnknown(m, OrderOf(c), id);
        }
        SubmitConservesSides(m, OrderOf(c), Buy);
        SubmitConservesSides(m, OrderOf(c), Sell);
      }
    } else {
      AdvanceCancel(m, c);
      if Cancel(m.engine, c.kind.orderId).Ok? {
        CancelConserves(m, c.kind.orderId);
      }
    }
  }

  /** Over every journal: each order's quantity is what remains plus what was traded for it, both
      sides have filled exactly the traded total, and trades are numbered 1, 2, 3, ... */
  lemma {:induction false} MarketConserves(cs: seq<Command>, symbol: string)
    requires AllWellFormed(cs)
    ensures Conserved(MarketAfter(cs, symbol))
  {
    if cs != [] {
      MarketConserves(cs[..|cs| - 1], symbol);
      if cs[|cs| - 1].symbol == symbol {
        AdvanceConserves(MarketAfter(cs[..|cs| - 1], symbol), cs[|cs| - 1]);
      }
    }
  }

  /** The sequence of the youngest order, 0 when there is none. */
  function LastOrderSequence(l: Ledger): int {
    if l == [] then 0 else l[|l| - 1].sequence
  }

  lemma StepKeepsLast(e: Engine, op: Op)
    requires Sound(e) && (op.SubmitOp? ==> op.order.Valid()) && e.last == LastOrderSequence(e.ledger)
    ensures Step(e, op).0.last == LastOrderSequence(Step(e, op).0.ledger)
  {
    match op
    case SubmitOp(o) =>
      if Submit(e, o).Ok? {
        SubmitKeepsSound(e, o);
      }
    case CancelOp(id) =>
      if Cancel(e, id).Ok? {
        CancelKeepsSound(e, id);
      }
  }

  lemma {:induction false} MarketLast(cs: seq<Command>, symbol: string)
    requires AllWellFormed(cs)
    ensures MarketAfter(cs, symbol).engine.last == LastOrderSequence(MarketAfter(cs, symbol).engine.ledger)
  {
    if cs != [] {
      var init, c := cs[..|cs| - 1], cs[|cs| - 1];
      MarketLast(init, symbol);
      if c.symbol == symbol {
        StepKeepsLast(MarketAfter(init, symbol).engine, OpOf(c));
      }
    }
  }

  /** Over every journal: a snapshot carries the sequence of the youngest order ever accepted and the
      number of trades ever made, which is the sequence of the last one. */
  lemma {:induction false} SnapshotNumbers(cs: seq<Command>, symbol: string, s: BookSnapshot)
    requires AllWellFormed(cs) && IsSnapshot(s, MarketAfter(cs, symbol).engine)
    ensures var m := MarketAfter(cs, symbol);
            && s.lastOrder == (if m.engine.ledger == [] then 0 else m.engine.ledger[|m.engine.ledger| - 1].sequence)
            && s.lastTrade == |m.trades|
            && (m.trades != [] ==> m.trades[|m.trades| - 1].sequence == s.lastTrade)
  {
    MarketLast(cs, symbol);
    MarketConserves(cs, symbol);
  }

  // ---------------------------------------------------------------- symbols do not interfere

  function Project(cs: seq<Command>, symbol: string): seq<Command> {
    if cs == [] then []
    else if cs[|cs| - 1].symbol == symbol then Project(cs[..|cs| - 1], symbol) + [cs[|cs| - 1]]
    else Project(cs[..|cs| - 1], symbol)
  }

  lemma {:induction false} ProjectWellFormed(cs: seq<Command>, symbol: string)
    requires AllWellFormed(cs)
    ensures AllWellFormed(Project(cs, symbol))
  {
    if cs != [] {
      ProjectWellFormed(cs[..|cs| - 1], symbol);
    }
  }

  /** A symbol's market depends only on that symbol's own subsequence of commands. */
  lemma {:induction false} SymbolIsolation(cs: seq<Command>, symbol: string)
    requires AllWellFormed(cs)
    ensures AllWellFormed(Project(cs, symbol))
    ensures MarketAfter(cs, symbol) == MarketAfter(Project(cs, symbol), symbol)
  {
    ProjectWellFormed(cs, symbol);
    if cs != [] {
      var init, c := cs[..|cs| - 1], cs[|cs| - 1];
      ProjectWellFormed(init, symbol);
      SymbolIsolation(init, symbol);
      if c.symbol == symbol {
        assert Project(cs, symbol)[..|Project(cs, symbol)| - 1] == Project(init, symbol);
      }
    }
  }
}
