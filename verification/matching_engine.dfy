/**
 The imperative matching engine: a dictionary of orders, two dictionaries of FIFO price queues,
 an index of resting identifiers and counters, updated in place.  Every method is proved against
 the flat specification in `Exchange`.
 */
module Matching {
  import opened Common
  import opened Orders
  import opened PriceTime
  import opened BookView
  import opened Queues
  import Exchange

  datatype EngineState = EngineState(
    index: Index,
    used: set<int>,
    view: Exchange.Engine,
    trades: seq<Trade>
  )

  /** What a submission returns: the result of matching and the book after it. */
  datatype Submission = Submission(result: Exchange.MatchResult, snapshot: BookSnapshot)

  ghost predicate IsCoherent(s: EngineState) {
    Indexes(s.index, s.view.ledger) && AreSequencesOf(s.used, s.view.ledger)
  }

  ghost predicate IsValid(s: EngineState) {
    IsCoherent(s) && Exchange.Sound(s.view) && Numbered(s.trades, s.view.next)
  }

  /** Trade sequences rise and stay below the next one. */
  ghost predicate Numbered(trades: seq<Trade>, next: int) {
    && (forall i, j | 0 <= i < j < |trades| :: trades[i].sequence < trades[j].sequence)
    && (forall i | 0 <= i < |trades| :: trades[i].sequence < next)
  }

  class MatchingEngine {
    var orders: map<string, LimitOrder>
    var bids: Levels
    var asks: Levels
    var restingIds: set<string>
    var usedSequences: set<int>
    var trades: seq<Trade>
    var lastSequence: int
    var nextTrade: int
    ghost var ledger: Ledger  // the orders, in the order in which they were added

    ghost function View(): Exchange.Engine
      reads this
    {
      Exchange.Engine(ledger, lastSequence, nextTrade)
    }

    /** All the fields, as one value. */
    ghost function State(): EngineState
      reads this
    {
      EngineState(Index(orders, bids, asks, restingIds), usedSequences, View(), trades)
    }

    /** The dictionaries, queues and sets all describe the ledger. */
    ghost predicate Coherent()
      reads this
    {
      IsCoherent(State())
    }

    ghost predicate Valid()
      reads this
    {
      IsValid(State())
    }

    /** An engine without orders; `Restore` checks the first trade sequence. */
    constructor (next: int)
      requires next > 0
      ensures Valid() && View() == Exchange.Engine([], 0, next) && trades == []
    {
      orders, bids, asks := map[], map[], map[];
      restingIds, usedSequences := {}, {};
      trades := [];
      lastSequence, nextTrade := 0, next;
      ledger := [];
    }

    // -------------------------------------------------------------- reading

    method BestPrice(book: Levels, side: Side) returns (price: int)
      requires book != map[]
      ensures price in book && forall p | p in book :: !BetterPrice(side, p, price)
    {
      BestExists(book.Keys, side);
      price :| price in book.Keys && forall p | p in book.Keys :: !BetterPrice(side, p, price);
    }

    /** The maker at the head of the best-priced opposite queue, if its price crosses. */
    method BestCrossingOrder(taker: LimitOrder) returns (maker: Option<LimitOrder>)
      requires Coherent() && Tidy(ledger)
      ensures maker == BestMaker(ledger, taker)
      ensures maker.None? <==> NothingWithinLimit(ledger, taker.side, taker.price)
      ensures maker.Some? ==>
                && maker.value.side != taker.side
                && (if taker.side == Buy then maker.value.price <= taker.price else maker.value.price >= taker.price)
    {
      BestMakerInPlainTerms(ledger, taker);
      var makers := if taker.side.Buy? then asks else bids;
      if makers == map[] {
        NothingToMatch(State().index, ledger, taker);
        return None;
      }
      var price := BestPrice(makers, taker.side);
      HeadIsBestMaker(State().index, ledger, taker, price);
      if !PriceCrosses(taker, price) {
        return None;
      }
      return Some(orders[makers[price][0]]);
    }

    /** One side of the book, best price first, each level summed over its queue. */
    method Aggregate(side: Side) returns (levels: seq<PriceLevel>)
      requires Coherent()
      ensures IsSide(levels, ledger, side) && ShowsSide(levels, ledger, side)
    {
      var book := if side.Buy? then bids else asks;
      var todo := book.Keys;
      ghost var x, l := State().index, ledger;
      levels := [];
      while todo != {}
        invariant todo <= book.Keys
        invariant Listed(levels, l, side, book.Keys - todo, todo)
        decreases todo
      {
        BestExists(todo, side.Opposite());
        var price :| price in todo && forall p | p in todo :: !BetterPrice(side.Opposite(), p, price);
        ListLevel(x, levels, l, side, todo, price);
        levels := levels + [PriceLevel(price, QueuedQuantity(orders, book[price]), |book[price]|)];
        todo := todo - {price};
      }
      AllListed(x, levels, l, side);
      SideInPlainTerms(levels, l, side);
    }

    method Snapshot() returns (snapshot: BookSnapshot)
      requires Coherent()
      ensures Exchange.IsSnapshot(snapshot, View())
    {
      var b := Aggregate(Buy);
      var a := Aggregate(Sell);
      snapshot := BookSnapshot(Book(b, a), lastSequence, nextTrade - 1);
    }

    // -------------------------------------------------------------- updating

    /** Executes one fill of `taker` against the best maker. */
    method Execute(taker: LimitOrder, maker: LimitOrder) returns (trade: Trade, updated: LimitOrder)
      requires HeadsItsQueue(State().index, maker)
      requires maker.Valid() && maker.IsActive() && taker.remaining > 0 && maker.remaining > 0
      modifies this`orders, this`bids, this`asks, this`restingIds, this`trades, this`nextTrade, this`ledger
      ensures updated == maker.Filled(Min(taker.remaining, maker.remaining))
      ensures trade == TradeOf(maker, taker, Min(taker.remaining, maker.remaining), old(nextTrade))
      ensures State() == AfterExecute(old(State()), taker, maker)
    {
      var quantity := Min(taker.remaining, maker.remaining);
      updated := maker.ApplyFill(quantity).value;
      trade := TradeOf(maker, taker, quantity, nextTrade);
      nextTrade := nextTrade + 1;
      trades := trades + [trade];
      orders := orders[maker.id := updated];
      ghost var x := old(State().index);
      assert State().index == x.(orders := x.orders[maker.id := updated]);
      if updated.status == Filled {
        RemoveBest(maker);
      }
      assert State().index == AfterFill(x, maker, updated);
      ledger := Replace(ledger, updated);
    }

    /** Takes the maker off the head of its queue. */
    method RemoveBest(maker: LimitOrder)
      requires HeadsItsQueue(State().index, maker)
      modifies this`bids, this`asks, this`restingIds
      ensures State().index == AfterRemoval(old(State().index), maker)
    {
      var book := if maker.side.Buy? then bids else asks;
      Unrest(maker, book[maker.price][1..]);
    }

    /** Leaves `queue` at the order's level, dropping a level that becomes empty. */
    method Unrest(order: LimitOrder, queue: seq<string>)
      modifies this`bids, this`asks, this`restingIds
      ensures State().index == AfterUnrest(old(State().index), order, queue)
    {
      if order.side.Buy? {
        bids := Dequeue(bids, order.price, queue);
      } else {
        asks := Dequeue(asks, order.price, queue);
      }
      restingIds := restingIds - {order.id};
    }

    /** Puts an order that does not rest yet at the end of its level. */
    method Rest(order: LimitOrder)
      requires order.id !in restingIds
      modifies this`bids, this`asks, this`restingIds
      ensures State().index == AfterRest(old(State().index), order)
    {
      if order.side.Buy? {
        bids := Enqueue(bids, order.price, order.id);
      } else {
        asks := Enqueue(asks, order.price, order.id);
      }
      restingIds := restingIds + {order.id};
    }

    /** Records an order and rests it while it is active. */
    method Admit(order: LimitOrder, last: int)
      requires Coherent() && !HasId(ledger, order.id)
      modifies this`orders, this`bids, this`asks, this`restingIds, this`usedSequences, this`lastSequence, this`ledger
      ensures Coherent()
      ensures View() == Exchange.Engine(old(ledger) + [order], last, nextTrade)
    {
      ghost var s := State();
      AdmitIsCoherent(s, order, last);
      NewDoesNotRest(s.index, ledger, order.id);
      orders := orders[order.id := order];
      usedSequences := usedSequences + {order.sequence};
      lastSequence := last;
      if order.IsActive() {
        Rest(order);
      }
      ledger := ledger + [order];
      assert State() == AfterAdmit(s, order, last);
    }

    /** One round of the matching loop. */
    method FillBest(taker: LimitOrder, maker: LimitOrder) returns (trade: Trade, updated: LimitOrder)
      requires Coherent() && Tidy(ledger) && taker.Valid() && taker.remaining > 0
      requires BestMaker(ledger, taker) == Some(maker)
      modifies this`orders, this`bids, this`asks, this`restingIds, this`trades, this`nextTrade, this`ledger
      ensures Coherent() && Tidy(ledger)
      ensures 0 < Min(taker.remaining, maker.remaining)
      ensures updated == maker.Filled(Min(taker.remaining, maker.remaining))
      ensures trade == TradeOf(maker, taker, Min(taker.remaining, maker.remaining), old(nextTrade))
      ensures ledger == Replace(old(ledger), updated)
      ensures nextTrade == old(nextTrade) + 1 && trades == old(trades) + [trade]
    {
      ghost var s := State();
      ExecuteIsCoherent(s, taker, maker);
      trade, updated := Execute(taker, maker);
      assert State() == AfterExecute(s, taker, maker);
    }

    /** One round, with the loop's accumulators: what remains to be done is still the same run. */
    method MatchOnce(order: LimitOrder, maker: LimitOrder, made: seq<Trade>, changed: seq<LimitOrder>,
                     ghost whole: Execution)
      returns (current: LimitOrder, trade: Trade, updated: LimitOrder)
      requires Coherent() && Tidy(ledger) && order.Valid() && order.IsActive() && order.remaining > 0
      requires BestMaker(ledger, order) == Some(maker)
      requires whole == Whole(ledger, order, nextTrade, made, changed)
      modifies this`orders, this`bids, this`asks, this`restingIds, this`trades, this`nextTrade, this`ledger
      ensures Coherent() && Tidy(ledger) && current.Valid() && (current.remaining > 0 ==> current.IsActive())
      ensures current.remaining < order.remaining
      ensures whole == Whole(ledger, current, nextTrade, made + [trade], changed + [updated])
      ensures nextTrade == old(nextTrade) + 1 && trades == old(trades) + [trade]
    {
      ghost var n := nextTrade + 1;
      ghost var l, c, m, u := LoopStep(whole, ledger, order, nextTrade, made, changed, maker);
      trade, updated := FillBest(order, maker);
      current := order.ApplyFill(trade.quantity).value;
      assert ledger == l && current == c && made + [trade] == m && changed + [updated] == u && nextTrade == n;
    }

    /** The matching loop: fills `order` against the best maker until one of them is exhausted
        or nothing crosses, leaving what the flat specification's whole run leaves. */
    method MatchLoop(order: LimitOrder, ghost whole: Execution)
      returns (current: LimitOrder, made: seq<Trade>, changed: seq<LimitOrder>)
      requires Coherent() && Tidy(ledger) && order.Valid() && order.IsActive()
      requires whole == Whole(ledger, order, nextTrade, [], [])
      modifies this`orders, this`bids, this`asks, this`restingIds, this`trades, this`nextTrade, this`ledger
      ensures Coherent()
      ensures whole == Execution(ledger, current, made, changed)
      ensures nextTrade == old(nextTrade) + |made| && trades == old(trades) + made
    {
      current, made, changed := order, [], [];
      while current.remaining > 0
        invariant Coherent() && Tidy(ledger)
        invariant current.Valid() && (current.remaining > 0 ==> current.IsActive())
        invariant whole == Whole(ledger, current, nextTrade, made, changed)
        invariant nextTrade == old(nextTrade) + |made| && trades == old(trades) + made
        decreases current.remaining
      {
        var maker := BestCrossingOrder(current);
        if maker.None? {
          break;
        }
        var trade, updated;
        current, trade, updated := MatchOnce(current, maker.value, made, changed, whole);
        Concat(old(trades), made, [trade]);
        made, changed := made + [trade], changed + [updated];
      }
      WholeAtEnd(ledger, current, nextTrade, made, changed);
    }

    /** Accepts and matches one fresh order, exactly as the flat specification does. */
    method Submit(order: LimitOrder) returns (r: Result<Submission, EngineError>)
      requires Valid() && order.Valid()
      modifies this
      ensures Valid()
      ensures match Exchange.Submit(old(View()), order)
              case Err(error) => r == Err(error) && unchanged(this)
              case Ok((view, result)) =>
                && r.Ok? && r.value.result == result && Exchange.IsSnapshot(r.value.snapshot, view)
                && View() == view && trades == old(trades) + result.trades
      ensures r.Ok? ==>
                && (forall t | t in r.value.result.trades ::
                      if order.side == Buy then t.price <= order.price else t.price >= order.price)
                && (r.value.result.order.remaining > 0 ==> NothingWithinLimit(ledger, order.side, order.price))
    {
      KnownIds(order.id);
      if order.status != Open || order.remaining != order.quantity {
        return Err(InvalidOrder);
      }
      if order.id in orders {
        return Err(DuplicateOrder);
      }
      if order.sequence in usedSequences {
        return Err(DuplicateSequence);
      }
      if order.sequence <= lastSequence {
        return Err(OutOfSequence);
      }
      AcceptIsValid(View(), trades, order);
      Exchange.SubmitWithinLimit(View(), order);
      var result := Accept(order);
      var snapshot := Snapshot();
      r := Ok(Submission(result, snapshot));
    }

    /** The rest of a submission, once its checks have passed. */
    method Accept(order: LimitOrder) returns (r: Exchange.MatchResult)
      requires Coherent() && Tidy(ledger) && order.Valid() && order.IsActive() && !HasId(ledger, order.id)
      modifies this
      ensures Coherent()
      ensures var ex := Match(old(ledger), order, old(nextTrade));
              && r == Exchange.MatchResult(ex.taker, ex.trades, ex.changed)
              && View() == Exchange.Engine(ex.ledger + [ex.taker], ex.taker.sequence, old(nextTrade) + |ex.trades|)
              && trades == old(trades) + ex.trades
    {
      MatchKeepsNewId(ledger, order, nextTrade);
      WholeAtStart(ledger, order, nextTrade);
      var current, made, changed := MatchLoop(order, Match(ledger, order, nextTrade));
      Admit(current, current.sequence);
      r := Exchange.MatchResult(current, made, changed);
    }

    lemma {:induction false} KnownIds(id: string)
      requires Coherent()
      ensures id in orders <==> HasId(ledger, id)
      ensures id in orders ==> Find(ledger, id) >= 0 && orders[id] == ledger[Find(ledger, id)]
    {
    }

    /** Cancels an active resting order, exactly as the flat specification does. */
    method Cancel(id: string) returns (r: Result<LimitOrder, EngineError>)
      requires Valid()
      modifies this
      ensures Valid()
      ensures match Exchange.Cancel(old(View()), id)
              case Err(error) => r == Err(error) && unchanged(this)
              case Ok((view, cancelled)) => r == Ok(cancelled) && View() == view && trades == old(trades)
    {
      KnownIds(id);
      if id !in orders {
        return Err(UnknownOrder);
      }
      var order := orders[id];
      if !order.IsActive() {
        return Err(OrderNotCancellable);
      }
      var cancelled := Withdraw(order);
      r := Ok(cancelled);
    }

    /** The rest of a cancellation, once its checks have passed. */
    method Withdraw(order: LimitOrder) returns (cancelled: LimitOrder)
      requires Valid() && Exchange.Cancel(View(), order.id).Ok?
      requires order.id in orders && orders[order.id] == order
      modifies this
      ensures Valid() && trades == old(trades)
      ensures Exchange.Cancel(old(View()), order.id) == Ok((View(), cancelled))
    {
      KnownIds(order.id);
      CancelIsValid(State(), order.id);
      cancelled := order.Cancel().value;
      TakeOut(cancelled);
    }

    /** Takes an order out of its queue, wherever it stands there, and records its last state. */
    method TakeOut(cancelled: LimitOrder)
      requires cancelled.price in State().index.BookFor(cancelled.side)
      modifies this`orders, this`bids, this`asks, this`restingIds, this`ledger
      ensures State() == AfterCancel(old(State()), cancelled)
    {
      ghost var x := State().index;
      var book := if cancelled.side.Buy? then bids else asks;
      var queue := RemoveFirst(book[cancelled.price], cancelled.id);
      Unrest(cancelled, queue);
      orders := orders[cancelled.id := cancelled];
      ledger := Replace(ledger, cancelled);
      UnrestKeepsOrders(x, cancelled, queue, orders);
    }

    /** Adds stored orders one by one, oldest first. */
    method LoadAll(sorted: Ledger) returns (error: Option<EngineError>)
      requires Coherent()
      modifies this
      ensures Coherent() && trades == old(trades)
      ensures match Exchange.Load(old(View()), sorted)
              case Err(e) => error == Some(e)
              case Ok(view) => error == None && View() == view
    {
      var i := 0;
      assert sorted[0..] == sorted;
      while i < |sorted|
        invariant 0 <= i <= |sorted|
        invariant Coherent() && trades == old(trades)
        invariant Exchange.Load(old(View()), sorted) == Exchange.Load(View(), sorted[i..])
      {
        var order := sorted[i];
        KnownIds(order.id);
        assert sorted[i..][0] == order && sorted[i..][1..] == sorted[i + 1..];
        if !order.IsActive() {
          return Some(InvalidOrder);
        }
        if order.id in orders {
          return Some(DuplicateOrder);
        }
        if order.sequence in usedSequences {
          return Some(DuplicateSequence);
        }
        Admit(order, Max(lastSequence, order.sequence));
        i := i + 1;
      }
      assert sorted[i..] == [];
      error := None;
    }

    /** Rebuilds an engine from stored active orders, in any order. */
    static method Restore(active: seq<LimitOrder>, next: int) returns (r: Result<MatchingEngine, EngineError>)
      requires AllValid(active)
      ensures match Exchange.Restore(active, next)
              case Err(error) => r == Err(error)
              case Ok(view) =>
                r.Ok? && fresh(r.value) && r.value.Valid() && r.value.View() == view && r.value.trades == []
    {
      if next <= 0 {
        return Err(InvalidOrder);
      }
      var engine := new MatchingEngine(next);
      var error := engine.LoadAll(Exchange.SortBySequence(active));
      if error.Some? {
        return Err(error.value);
      }
      CrossedPrices(engine.State().index, engine.ledger);
      if exists p, q | p in engine.bids && q in engine.asks :: p >= q {
        return Err(BookInvariant);
      }
      Exchange.RestoreAccepts(active, next);
      r := Ok(engine);
    }

    // -------------------------------------------------------------- the runtime check

    /** What the runtime check of the invariants tests of one side of the book. */
    ghost predicate SidePasses(book: Levels, side: Side)
      reads this
    {
      forall p | p in book ::
        && book[p] != []
        && (forall i | 0 <= i < |book[p]| ::
              && book[p][i] in orders
              && orders[book[p][i]].IsActive()
              && orders[book[p][i]].side == side
              && orders[book[p][i]].price == p)
        && (forall i, j | 0 <= i < j < |book[p]| :: orders[book[p][i]].sequence <= orders[book[p][j]].sequence)
    }

    ghost predicate Seen(id: string)
      reads this
    {
      || (exists p, i :: p in bids && 0 <= i < |bids[p]| && bids[p][i] == id)
      || (exists p, i :: p in asks && 0 <= i < |asks[p]| && asks[p][i] == id)
    }

    /** No identifier is seen twice, in one queue, in two queues or on both sides. */
    ghost predicate SeenOnce()
      reads this
    {
      && (forall p, q, i, j | p in bids && q in bids && 0 <= i < |bids[p]| && 0 <= j < |bids[q]| ::
            bids[p][i] == bids[q][j] ==> p == q && i == j)
      && (forall p, q, i, j | p in asks && q in asks && 0 <= i < |asks[p]| && 0 <= j < |asks[q]| ::
            asks[p][i] == asks[q][j] ==> p == q && i == j)
      && (forall p, q, i, j | p in bids && q in asks && 0 <= i < |bids[p]| && 0 <= j < |asks[q]| ::
            bids[p][i] != asks[q][j])
    }

    /** Every condition under which the runtime check of the invariants does not raise. */
    ghost predicate InvariantsPass()
      reads this
    {
      && (forall a, b | a in orders && b in orders && a != b :: orders[a].sequence != orders[b].sequence)
      && (forall a | a in orders ::
            orders[a].remaining >= 0 && (orders[a].IsActive() ==> orders[a].remaining > 0))
      && SidePasses(bids, Buy) && SidePasses(asks, Sell)
      && SeenOnce()
      && (forall id :: Seen(id) <==> id in restingIds)
      && (forall id :: Seen(id) <==> id in orders && orders[id].IsActive())
      && (forall p, q | p in bids && q in asks :: p < q)
      && (forall i | 0 <= i < |trades| - 1 :: trades[i].sequence < trades[i + 1].sequence)
    }

    /** The runtime check of the invariants never raises on a valid engine. */
    lemma InvariantsAlwaysPass()
      requires Valid()
      ensures InvariantsPass()
    {
      OrdersPass();
      SidePassesIn(bids, Buy);
      SidePassesIn(asks, Sell);
      assert SeenOnce();
      forall id ensures Seen(id) <==> Rests(ledger, id) {
        SeenIsResting(id);
      }
      CrossedPrices(State().index, ledger);
    }

    lemma OrdersPass()
      requires Valid()
      ensures forall a, b | a in orders && b in orders && a != b :: orders[a].sequence != orders[b].sequence
      ensures forall a | a in orders :: orders[a].Valid() && orders[a].id == a
      ensures forall id :: Rests(ledger, id) <==> id in orders && orders[id].IsActive()
    {
    }

    lemma SidePassesIn(book: Levels, side: Side)
      requires Valid() && QueuesOf(book, ledger, side)
      ensures SidePasses(book, side)
      ensures forall p, i, j | p in book && 0 <= i < j < |book[p]| :: book[p][i] != book[p][j]
    {
      forall p | p in book
        ensures forall i | 0 <= i < |book[p]| ::
                  book[p][i] in orders && At(orders[book[p][i]], side, p)
        ensures forall i, j | 0 <= i < j < |book[p]| ::
                  book[p][i] != book[p][j]
                  && orders[book[p][i]].sequence <= orders[book[p][j]].sequence
      {
        LevelSequences(ledger, side, p);
        forall i | 0 <= i < |book[p]| ensures book[p][i] in orders && At(orders[book[p][i]], side, p) {
          LevelMembers(ledger, side, p, book[p][i]);
        }
        forall i, j | 0 <= i < j < |book[p]|
          ensures orders[book[p][i]].sequence <= orders[book[p][j]].sequence
        {
          var a := Find(ledger, book[p][i]);
          var b := Find(ledger, book[p][j]);
          KnownIds(book[p][i]);
          KnownIds(book[p][j]);
          assert a < b;
        }
      }
    }

    lemma SeenAtIsResting(id: string, side: Side, price: int, i: nat)
      requires Valid()
      requires var book := State().index.BookFor(side); price in book && i < |book[price]| && book[price][i] == id
      ensures Rests(ledger, id)
    {
      LevelMembers(ledger, side, price, id);
    }

    lemma RestingIsSeen(id: string)
      requires Valid() && Rests(ledger, id)
      ensures Seen(id)
    {
      var k :| 0 <= k < |ledger| && ledger[k].id == id && ledger[k].IsActive();
      var side, price := ledger[k].side, ledger[k].price;
      assert At(ledger[k], side, price);
      LevelMembers(ledger, side, price, id);
      var book := State().index.BookFor(side);
      var i :| 0 <= i < |book[price]| && book[price][i] == id;
    }

    lemma SeenIsResting(id: string)
      requires Valid()
      ensures Seen(id) <==> Rests(ledger, id)
    {
      if Rests(ledger, id) {
        RestingIsSeen(id);
      } else if p, i :| p in bids && 0 <= i < |bids[p]| && bids[p][i] == id {
        SeenAtIsResting(id, Buy, p, i);
      } else if p, i :| p in asks && 0 <= i < |asks[p]| && asks[p][i] == id {
        SeenAtIsResting(id, Sell, p, i);
      }
    }
  }

  // ---------------------------------------------------------------- helpers

  lemma {:induction false} BestExists(prices: set<int>, side: Side)
    requires prices != {}
    ensures exists p :: p in prices && forall q | q in prices :: !BetterPrice(side, q, p)
    decreases |prices|
  {
    var p := Inhabited(prices);
    if better :| better in prices && BetterPrice(side, better, p) {
      var rest := prices - {p};
      assert better in rest;
      BestExists(rest, side);
      var b :| b in rest && forall q | q in rest :: !BetterPrice(side, q, b);
      assert b in prices && forall q | q in prices :: !BetterPrice(side, q, b);
    }
  }

  ghost predicate AreSequencesOf(used: set<int>, l: Ledger) {
    forall n :: n in used <==> Exchange.HasSequence(l, n)
  }

  lemma SequencesGrow(used: set<int>, l: Ledger, o: LimitOrder)
    requires AreSequencesOf(used, l)
    ensures AreSequencesOf(used + {o.sequence}, l + [o])
  {
    forall n ensures Exchange.HasSequence(l + [o], n) <==> Exchange.HasSequence(l, n) || n == o.sequence {
      assert (l + [o])[|l|] == o;
      if i :| 0 <= i < |l| && l[i].sequence == n {
        assert (l + [o])[i] == l[i];
      }
    }
  }

  lemma SequencesKept(used: set<int>, l: Ledger, k: nat, o: LimitOrder)
    requires k < |l| && o.sequence == l[k].sequence && AreSequencesOf(used, l)
    ensures AreSequencesOf(used, l[k := o])
  {
    forall i | 0 <= i < |l| ensures l[k := o][i].sequence == l[i].sequence {}
  }

  /** The accumulated trades and changed orders, followed by what matching still has to do. */
  ghost function Whole(l: Ledger, current: LimitOrder, next: int, made: seq<Trade>, changed: seq<LimitOrder>)
    : Execution
    requires AllValid(l) && current.Valid()
  {
    var rest := Match(l, current, next);
    Execution(rest.ledger, rest.taker, made + rest.trades, changed + rest.changed)
  }

  lemma {:induction false} WholeAtStart(l: Ledger, order: LimitOrder, next: int)
    requires AllValid(l) && order.Valid()
    ensures Whole(l, order, next, [], []) == Match(l, order, next)
  {
  }

  lemma {:induction false} WholeAtEnd(l: Ledger, current: LimitOrder, next: int, made: seq<Trade>,
        changed: seq<LimitOrder>)
    requires AllValid(l) && current.Valid()
    requires current.remaining == 0 || BestMaker(l, current).None?
    ensures Whole(l, current, next, made, changed) == Execution(l, current, made, changed)
  {
  }

  lemma Concat<T>(a: seq<T>, b: seq<T>, c: seq<T>)
    ensures (a + b) + c == a + (b + c)
  {
  }

  lemma Regroup<T>(a: seq<T>, x: T, b: seq<T>)
    ensures (a + [x]) + b == a + ([x] + b)
  {
  }

  lemma {:induction false} WholeStep(l: Ledger, current: LimitOrder, next: int,
                  made: seq<Trade>, changed: seq<LimitOrder>, m: LimitOrder, q: int)
    requires Tidy(l) && current.Valid() && current.remaining > 0 && BestMaker(l, current) == Some(m)
    requires q == Min(current.remaining, m.remaining)
    ensures current.Filled(q).Valid() && AllValid(Replace(l, m.Filled(q)))
    ensures Whole(l, current, next, made, changed)
         == Whole(Replace(l, m.Filled(q)), current.Filled(q), next + 1,
                  made + [TradeOf(m, current, q, next)], changed + [m.Filled(q)])
  {
    var k, q' := MatchStep(l, current, next);
    var rest := Match(l[k := l[k].Filled(q)], current.Filled(q), next + 1);
    Regroup(made, TradeOf(l[k], current, q, next), rest.trades);
    Regroup(changed, l[k].Filled(q), rest.changed);
  }

  lemma LoopStep(whole: Execution, l: Ledger, current: LimitOrder, next: int,
                    made: seq<Trade>, changed: seq<LimitOrder>, m: LimitOrder)
      returns (l': Ledger, current': LimitOrder, made': seq<Trade>, changed': seq<LimitOrder>)
    requires Tidy(l) && current.Valid() && current.IsActive() && whole == Whole(l, current, next, made, changed)
    requires current.remaining > 0 && BestMaker(l, current) == Some(m)
    ensures var q := Min(current.remaining, m.remaining);
            && q > 0 && current.ApplyFill(q) == Ok(current')
            && l' == Replace(l, m.Filled(q)) && current' == current.Filled(q)
            && made' == made + [TradeOf(m, current, q, next)] && changed' == changed + [m.Filled(q)]
    ensures Tidy(l') && current'.Valid() && (current'.remaining > 0 ==> current'.IsActive())
    ensures whole == Whole(l', current', next + 1, made', changed')
  {
    var k, q := MatchStep(l, current, next);
    WholeStep(l, current, next, made, changed, m, q);
    l', current' := Replace(l, m.Filled(q)), current.Filled(q);
    made', changed' := made + [TradeOf(m, current, q, next)], changed + [m.Filled(q)];
  }

  /** `levels` lists exactly the prices `done`, best first and correctly summed, all of them
      better than the prices `todo`. */
  ghost predicate Listed(levels: seq<PriceLevel>, l: Ledger, side: Side, done: set<int>, todo: set<int>) {
    && BestFirst(PricesOf(levels), side)
    && (forall p :: p in PricesOf(levels) <==> p in done)
    && (forall p, q | p in done && q in todo :: BetterPrice(side.Opposite(), p, q))
    && forall i | 0 <= i < |levels| ::
         && levels[i].quantity == Sum(l, QuantityAt(side, levels[i].price))
         && levels[i].count == Sum(l, CountAt(side, levels[i].price))
  }

  lemma {:induction false} ListNext(levels: seq<PriceLevel>, l: Ledger, side: Side, done: set<int>,
        todo: set<int>, level: PriceLevel)
    requires Listed(levels, l, side, done, todo)
    requires level.price in todo && forall p | p in todo :: !BetterPrice(side.Opposite(), p, level.price)
    requires level.quantity == Sum(l, QuantityAt(side, level.price))
    requires level.count == Sum(l, CountAt(side, level.price))
    ensures Listed(levels + [level], l, side, done + {level.price}, todo - {level.price})
  {
    var before, after := PricesOf(levels), PricesOf(levels + [level]);
    assert after == before + [level.price];
    forall i | 0 <= i < |before| ensures BetterPrice(side.Opposite(), before[i], level.price) {
      assert before[i] in before;
    }
  }

  /** The next level, summed over its queue through the order map, is the next one to list. */
  lemma {:induction false} ListLevel(x: Index, levels: seq<PriceLevel>, l: Ledger, side: Side, todo: set<int>,
        price: int)
    requires Indexes(x, l) && todo <= x.BookFor(side).Keys
    requires Listed(levels, l, side, x.BookFor(side).Keys - todo, todo)
    requires price in todo && forall p | p in todo :: !BetterPrice(side.Opposite(), p, price)
    ensures var book := x.BookFor(side);
            && (forall i | 0 <= i < |book[price]| :: book[price][i] in x.orders)
            && Listed(levels + [PriceLevel(price, QueuedQuantity(x.orders, book[price]), |book[price]|)],
                      l, side, book.Keys - (todo - {price}), todo - {price})
  {
    var book := x.BookFor(side);
    LevelTotals(l, x.orders, side, price);
    assert book[price] == LevelOf(l, side, price);
    ListNext(levels, l, side, book.Keys - todo, todo,
             PriceLevel(price, QueuedQuantity(x.orders, book[price]), |book[price]|));
    assert book.Keys - todo + {price} == book.Keys - (todo - {price});
  }

  lemma AllListed(x: Index, levels: seq<PriceLevel>, l: Ledger, side: Side)
    requires Indexes(x, l) && Listed(levels, l, side, x.BookFor(side).Keys, {})
    ensures IsSide(levels, l, side)
  {
    forall p ensures p in x.BookFor(side).Keys <==> Quoted(l, side, p) {
      PricesAreQuoted(x, l, side, p);
    }
  }

  // ---------------------------------------------------------------- the index after each update

  ghost predicate HeadsItsQueue(x: Index, maker: LimitOrder) {
    var book := x.BookFor(maker.side);
    maker.price in book && book[maker.price] != [] && book[maker.price][0] == maker.id
  }

  ghost function AfterUnrest(x: Index, o: LimitOrder, queue: seq<string>): Index {
    x.(resting := x.resting - {o.id}).WithBook(o.side, Dequeue(x.BookFor(o.side), o.price, queue))
  }

  lemma UnrestKeepsOrders(x: Index, o: LimitOrder, queue: seq<string>, orders: map<string, LimitOrder>)
    ensures AfterUnrest(x, o, queue).(orders := orders) == AfterUnrest(x.(orders := orders), o, queue)
  {
  }

  ghost function AfterRemoval(x: Index, maker: LimitOrder): Index
    requires HeadsItsQueue(x, maker)
  {
    AfterUnrest(x, maker, x.BookFor(maker.side)[maker.price][1..])
  }

  ghost function AfterFill(x: Index, maker: LimitOrder, updated: LimitOrder): Index
    requires HeadsItsQueue(x, maker)
  {
    var y := x.(orders := x.orders[maker.id := updated]);
    if updated.status == Filled then AfterRemoval(y, maker) else y
  }

  /** The best maker is the oldest order of its level. */
  lemma {:induction false} BestMakerIsOldest(l: Ledger, taker: LimitOrder, k: nat)
    requires Tidy(l) && k < |l| && BestMaker(l, taker) == Some(l[k])
    ensures LevelOf(l, l[k].side, l[k].price) != [] && LevelOf(l, l[k].side, l[k].price)[0] == l[k].id
  {
    var side, price := l[k].side, l[k].price;
    assert At(l[k], side, price);
    LevelMembers(l, side, price, l[k].id);
    var h := LevelHead(l, side, price);
    BestMakerIsFirst(l, taker);
    assert Crosses(taker, l[h]);
    assert h == k;
  }

  /** The best maker sits at the head of its own queue, so taking it off can never fail. */
  lemma {:induction false} BestMakerHeadsItsQueue(x: Index, l: Ledger, taker: LimitOrder, k: nat)
    requires Indexes(x, l) && Tidy(l) && k < |l| && BestMaker(l, taker) == Some(l[k])
    ensures HeadsItsQueue(x, l[k])
    ensures var q := x.BookFor(l[k].side)[l[k].price]; Without(q, l[k].id) == q[1..]
  {
    var q := LevelOf(l, l[k].side, l[k].price);
    BestMakerIsOldest(l, taker, k);
    LevelSequences(l, l[k].side, l[k].price);
    assert x.BookFor(l[k].side)[l[k].price] == q;
    WithoutHead(q);
  }

  lemma {:induction false} WithoutHead(q: seq<string>)
    requires q != [] && forall i, j | 0 <= i < j < |q| :: q[i] != q[j]
    ensures Without(q, q[0]) == q[1..]
  {
    WithoutAt(q, 0);
    assert q[..0] + q[1..] == q[1..];
  }

  ghost function AfterExecute(s: EngineState, taker: LimitOrder, maker: LimitOrder): EngineState
    requires HeadsItsQueue(s.index, maker)
  {
    var q := Min(taker.remaining, maker.remaining);
    EngineState(AfterFill(s.index, maker, maker.Filled(q)), s.used,
                s.view.(ledger := Replace(s.view.ledger, maker.Filled(q)), next := s.view.next + 1),
                s.trades + [TradeOf(maker, taker, q, s.view.next)])
  }

  lemma {:induction false} ExecuteIsCoherent(s: EngineState, taker: LimitOrder, maker: LimitOrder)
    requires IsCoherent(s) && Tidy(s.view.ledger) && taker.Valid() && taker.remaining > 0
    requires BestMaker(s.view.ledger, taker) == Some(maker)
    ensures maker.Valid() && maker.IsActive() && maker.remaining > 0 && HeadsItsQueue(s.index, maker)
    ensures IsCoherent(AfterExecute(s, taker, maker)) && Tidy(AfterExecute(s, taker, maker).view.ledger)
  {
    var l := s.view.ledger;
    var k, q := MatchStep(l, taker, 0);
    BestMakerHeadsItsQueue(s.index, l, taker, k);
    SequencesKept(s.used, l, k, l[k].Filled(q));
    if q == l[k].remaining {
      RemovalIndexed(s.index, l, k, l[k].Filled(q));
    } else {
      PartialFillIndexed(s.index, l, k, l[k].Filled(q));
    }
  }

  ghost function AfterRest(x: Index, o: LimitOrder): Index {
    x.(resting := x.resting + {o.id}).WithBook(o.side, Enqueue(x.BookFor(o.side), o.price, o.id))
  }

  ghost function AfterAdmit(s: EngineState, o: LimitOrder, last: int): EngineState {
    var kept := s.index.(orders := s.index.orders[o.id := o]);
    EngineState(if o.IsActive() then AfterRest(kept, o) else kept, s.used + {o.sequence},
                s.view.(ledger := s.view.ledger + [o], last := last), s.trades)
  }

  /** An identifier that the ledger does not know rests nowhere. */
  lemma NewDoesNotRest(x: Index, l: Ledger, id: string)
    requires Indexes(x, l) && !HasId(l, id)
    ensures id !in x.resting
  {
  }

  lemma AdmitIsCoherent(s: EngineState, o: LimitOrder, last: int)
    requires IsCoherent(s) && !HasId(s.view.ledger, o.id)
    ensures IsCoherent(AfterAdmit(s, o, last))
  {
    ArrivalIndexed(s.index, s.view.ledger, o);
    SequencesGrow(s.used, s.view.ledger, o);
  }

  ghost function AfterCancel(s: EngineState, cancelled: LimitOrder): EngineState
    requires cancelled.price in s.index.BookFor(cancelled.side)
  {
    var queue := RemoveFirst(s.index.BookFor(cancelled.side)[cancelled.price], cancelled.id);
    EngineState(AfterUnrest(s.index.(orders := s.index.orders[cancelled.id := cancelled]), cancelled, queue),
                s.used, s.view.(ledger := Replace(s.view.ledger, cancelled)), s.trades)
  }

  /** An active order is found in its queue, and taking it out keeps the engine valid. */
  lemma CancelIsValid(s: EngineState, id: string)
    requires IsValid(s) && Exchange.Cancel(s.view, id).Ok?
    ensures var cancelled := Exchange.Cancel(s.view, id).value.1;
            && cancelled.id == id
            && cancelled.price in s.index.BookFor(cancelled.side)
            && id in s.index.BookFor(cancelled.side)[cancelled.price]
            && IsValid(AfterCancel(s, cancelled))
            && AfterCancel(s, cancelled).view == Exchange.Cancel(s.view, id).value.0
  {
    var l := s.view.ledger;
    var k := Find(l, id);
    var cancelled := l[k].(status := Cancelled);
    Exchange.CancelKeepsSound(s.view, id);
    RemovalIndexed(s.index, l, k, cancelled);
    LevelSequences(l, cancelled.side, cancelled.price);
    assert s.index.BookFor(cancelled.side)[cancelled.price] == LevelOf(l, cancelled.side, cancelled.price);
    RemoveFirstIsWithout(LevelOf(l, cancelled.side, cancelled.price), cancelled.id);
    SequencesKept(s.used, l, k, cancelled);
  }

  lemma {:induction false} AcceptIsValid(e: Exchange.Engine, trades: seq<Trade>, order: LimitOrder)
    requires Exchange.Sound(e) && Numbered(trades, e.next) && order.Valid() && Exchange.Submit(e, order).Ok?
    ensures var ex := Match(e.ledger, order, e.next);
            && Exchange.Sound(Exchange.Engine(ex.ledger + [ex.taker], order.sequence, e.next + |ex.trades|))
            && Numbered(trades + ex.trades, e.next + |ex.trades|)
            && !HasId(ex.ledger, ex.taker.id) && ex.taker.sequence == order.sequence
  {
    var ex := Match(e.ledger, order, e.next);
    Exchange.SubmitKeepsSound(e, order);
    assert Exchange.Submit(e, order).value.0
        == Exchange.Engine(ex.ledger + [ex.taker], order.sequence, e.next + |ex.trades|);
    Exchange.SubmitNumbersTrades(e, order);
    MatchKeepsNewId(e.ledger, order, e.next);
    AppendNumbered(trades, e.next, Match(e.ledger, order, e.next).trades);
  }

  lemma AppendNumbered(trades: seq<Trade>, next: int, made: seq<Trade>)
    requires Numbered(trades, next)
    requires forall i | 0 <= i < |made| :: made[i].sequence == next + i
    ensures Numbered(trades + made, next + |made|)
  {
  }

  /** Removes the first occurrence of an identifier. */
  function RemoveFirst(q: seq<string>, id: string): seq<string> {
    if q == [] then [] else if q[0] == id then q[1..] else [q[0]] + RemoveFirst(q[1..], id)
  }

  lemma {:induction false} RemoveFirstAt(q: seq<string>, k: nat)
    requires k < |q| && q[k] !in q[..k]
    ensures RemoveFirst(q, q[k]) == q[..k] + q[k + 1..]
  {
    if k > 0 {
      assert q[0] in q[..k];
      assert q[1..][..k - 1] == q[..k][1..];
      assert forall x | x in q[..k][1..] :: x in q[..k];
      RemoveFirstAt(q[1..], k - 1);
      assert q[..k] + q[k + 1..] == [q[0]] + (q[1..][..k - 1] + q[1..][k..]);
    }
  }

  lemma {:induction false} RemoveFirstIsWithout(q: seq<string>, id: string)
    requires id in q && forall i, j | 0 <= i < j < |q| :: q[i] != q[j]
    ensures RemoveFirst(q, id) == Without(q, id)
  {
    var k :| 0 <= k < |q| && q[k] == id;
    RemoveFirstAt(q, k);
    WithoutAt(q, k);
  }
}
