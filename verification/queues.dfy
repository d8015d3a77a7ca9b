/**
 The engine's index over its orders: an order map, two dictionaries from price to a FIFO queue
 of identifiers, and the set of resting identifiers.  Each queue is a function of the flat
 ledger, so first-in-first-out order never has to be assumed separately.
 */
module Queues {
  import opened Common
  import opened Orders
  import opened PriceTime
  import opened BookView

  type Levels = map<int, seq<string>>

  datatype Index = Index(orders: map<string, LimitOrder>, bids: Levels, asks: Levels, resting: set<string>) {
    function BookFor(side: Side): Levels {
      if side.Buy? then bids else asks
    }

    function WithBook(side: Side, book: Levels): Index {
      if side.Buy? then this.(bids := book) else this.(asks := book)
    }
  }

  /** The identifiers of the active orders at one price of one side, oldest first. */
  ghost function LevelOf(l: Ledger, side: Side, price: int): seq<string> {
    if l == [] then []
    else if At(l[|l| - 1], side, price) then LevelOf(l[..|l| - 1], side, price) + [l[|l| - 1].id]
    else LevelOf(l[..|l| - 1], side, price)
  }

  ghost predicate OrdersOf(orders: map<string, LimitOrder>, l: Ledger) {
    && (forall i | 0 <= i < |l| :: l[i].id in orders && orders[l[i].id] == l[i])
    && (forall id | id in orders :: HasId(l, id))
  }

  ghost predicate QueuesOf(book: Levels, l: Ledger, side: Side) {
    forall p :: (p in book <==> LevelOf(l, side, p) != []) && (p in book ==> book[p] == LevelOf(l, side, p))
  }

  ghost predicate Rests(l: Ledger, id: string) {
    exists i | 0 <= i < |l| :: l[i].id == id && l[i].IsActive()
  }

  ghost predicate Indexes(x: Index, l: Ledger) {
    && OrdersOf(x.orders, l)
    && QueuesOf(x.bids, l, Buy)
    && QueuesOf(x.asks, l, Sell)
    && (forall id :: id in x.resting <==> Rests(l, id))
  }

  // ---------------------------------------------------------------- one level of the ledger

  lemma {:induction false} LevelMembers(l: Ledger, side: Side, price: int, id: string)
    ensures id in LevelOf(l, side, price) <==> exists i | 0 <= i < |l| :: At(l[i], side, price) && l[i].id == id
  {
    if l != [] {
      var init, last := l[..|l| - 1], l[|l| - 1];
      LevelMembers(init, side, price, id);
      if i :| 0 <= i < |init| && At(init[i], side, price) && init[i].id == id {
        assert l[i] == init[i];
      }
      if i :| 0 <= i < |l| && At(l[i], side, price) && l[i].id == id {
        assert i == |l| - 1 || l[i] == init[i];
      }
    }
  }

  /** The head of a level is its oldest active order. */
  lemma {:induction false} LevelHead(l: Ledger, side: Side, price: int) returns (k: nat)
    requires LevelOf(l, side, price) != []
    ensures k < |l| && At(l[k], side, price) && l[k].id == LevelOf(l, side, price)[0]
    ensures forall i | 0 <= i < k :: !At(l[i], side, price)
  {
    var init, last := l[..|l| - 1], l[|l| - 1];
    if LevelOf(init, side, price) != [] {
      k := LevelHead(init, side, price);
      assert forall i | 0 <= i < k :: l[i] == init[i];
    } else {
      k := |l| - 1;
      forall i | 0 <= i < k ensures !At(l[i], side, price) {
        LevelMembers(init, side, price, l[i].id);
        assert l[i] == init[i];
      }
    }
  }

  lemma {:induction false} LevelSequences(l: Ledger, side: Side, price: int)
    requires Sequenced(l) && DistinctIds(l)
    ensures var q := LevelOf(l, side, price);
            && (forall i, j | 0 <= i < j < |q| :: q[i] != q[j])
            && forall i, j, a, b | 0 <= i < j < |q| && 0 <= a < |l| && 0 <= b < |l|
                                   && l[a].id == q[i] && l[b].id == q[j] :: a < b
  {
    if l != [] {
      var init, last := l[..|l| - 1], l[|l| - 1];
      var q := LevelOf(init, side, price);
      LevelSequences(init, side, price);
      forall i | 0 <= i < |q| ensures q[i] != last.id {
        LevelMembers(init, side, price, q[i]);
        var a :| 0 <= a < |init| && init[a].id == q[i];
        assert l[a].id == q[i];
      }
      forall i, j, a, b | 0 <= i < j < |LevelOf(l, side, price)| && 0 <= a < |l| && 0 <= b < |l|
                          && l[a].id == LevelOf(l, side, price)[i] && l[b].id == LevelOf(l, side, price)[j]
        ensures a < b
      {
        if j < |q| {
          LevelMembers(init, side, price, q[i]);
          LevelMembers(init, side, price, q[j]);
          assert init[..][a] == l[a] && init[..][b] == l[b];
        }
      }
    }
  }

  /** An order that stays active keeps its place in its level. */
  lemma {:induction false} LevelKeepsPlace(l: Ledger, k: nat, o: LimitOrder, side: Side, price: int)
    requires k < |l| && SameOrder(l[k], o) && l[k].IsActive() && o.IsActive()
    ensures LevelOf(l[k := o], side, price) == LevelOf(l, side, price)
  {
    var init := l[..|l| - 1];
    if k == |l| - 1 {
      assert l[k := o][..|l| - 1] == init;
    } else {
      LevelKeepsPlace(init, k, o, side, price);
      assert l[k := o][..|l| - 1] == init[k := o];
    }
  }

  function Without(q: seq<string>, id: string): seq<string> {
    if q == [] then []
    else if q[|q| - 1] == id then Without(q[..|q| - 1], id)
    else Without(q[..|q| - 1], id) + [q[|q| - 1]]
  }

  lemma {:induction false} WithoutAbsent(q: seq<string>, id: string)
    requires id !in q
    ensures Without(q, id) == q
  {
    if q != [] {
      assert forall x | x in q[..|q| - 1] :: x in q;
      WithoutAbsent(q[..|q| - 1], id);
    }
  }

  /** Removing the entry at one position of a queue without repetitions. */
  lemma {:induction false} WithoutAt(q: seq<string>, k: nat)
    requires k < |q| && forall i, j | 0 <= i < j < |q| :: q[i] != q[j]
    ensures Without(q, q[k]) == q[..k] + q[k + 1..]
  {
    var init := q[..|q| - 1];
    if k == |q| - 1 {
      assert q[k] !in init;
      WithoutAbsent(init, q[k]);
      assert q[..k] + q[k + 1..] == init;
    } else {
      assert init[k] == q[k];
      WithoutAt(init, k);
      assert q[..k] + q[k + 1..] == init[..k] + init[k + 1..] + [q[|q| - 1]];
    }
  }

  /** An order that becomes terminal leaves its level; the others keep their places. */
  lemma {:induction false} LevelLosesOne(l: Ledger, k: nat, o: LimitOrder, side: Side, price: int)
    requires k < |l| && SameOrder(l[k], o) && l[k].IsActive() && !o.IsActive() && DistinctIds(l)
    ensures LevelOf(l[k := o], side, price) == Without(LevelOf(l, side, price), o.id)
  {
    var init, last := l[..|l| - 1], l[|l| - 1];
    if k == |l| - 1 {
      assert l[k := o][..|l| - 1] == init;
      LevelMembers(init, side, price, o.id);
      forall i | 0 <= i < |init| ensures init[i].id != o.id {
        assert l[i].id != l[k].id;
      }
      WithoutAbsent(LevelOf(init, side, price), o.id);
    } else {
      LevelLosesOne(init, k, o, side, price);
      assert l[k := o][..|l| - 1] == init[k := o];
      assert last.id != l[k].id;
    }
  }

  lemma {:induction false} WithoutElsewhere(l: Ledger, k: nat, side: Side, price: int)
    requires k < |l| && !At(l[k], side, price) && DistinctIds(l)
    ensures Without(LevelOf(l, side, price), l[k].id) == LevelOf(l, side, price)
  {
    LevelMembers(l, side, price, l[k].id);
    forall i | 0 <= i < |l| && l[i].id == l[k].id ensures i == k {
      assert i == k || i < k || k < i;
    }
    WithoutAbsent(LevelOf(l, side, price), l[k].id);
  }

  // ---------------------------------------------------------------- the index under each change

  /** Dropping one identifier from its queue; an empty queue disappears from the dictionary. */
  function Dequeue(book: Levels, price: int, rest: seq<string>): Levels {
    if rest == [] then book - {price} else book[price := rest]
  }

  function Enqueue(book: Levels, price: int, id: string): Levels {
    book[price := (if price in book then book[price] else []) + [id]]
  }

  lemma OrdersAfterUpdate(orders: map<string, LimitOrder>, l: Ledger, k: nat, o: LimitOrder)
    requires OrdersOf(orders, l) && k < |l| && o.id == l[k].id && DistinctIds(l)
    ensures OrdersOf(orders[o.id := o], l[k := o])
  {
    var l' := l[k := o];
    forall i | 0 <= i < |l'| ensures l'[i].id in orders[o.id := o] && orders[o.id := o][l'[i].id] == l'[i] {
      assert i < k || k < i || i == k;
    }
    forall id | id in orders[o.id := o] ensures HasId(l', id) {
      assert l'[k].id == o.id;
      if id != o.id {
        var i :| 0 <= i < |l| && l[i].id == id;
        assert l'[i].id == id;
      }
    }
  }

  lemma RestsAfterUpdate(l: Ledger, k: nat, o: LimitOrder, id: string)
    requires k < |l| && SameOrder(l[k], o) && l[k].IsActive() && DistinctIds(l)
    ensures Rests(l[k := o], id) <==> Rests(l, id) && (id != o.id || o.IsActive())
  {
    var l' := l[k := o];
    if i :| 0 <= i < |l| && l[i].id == id && l[i].IsActive() {
      assert l'[i].id == id;
    }
    if i :| 0 <= i < |l'| && l'[i].id == id && l'[i].IsActive() {
      assert l[i].id == id;
      assert i == k || i < k || k < i;
    }
  }

  lemma PartialFillIndexed(x: Index, l: Ledger, k: nat, o: LimitOrder)
    requires Indexes(x, l) && DistinctIds(l)
    requires k < |l| && SameOrder(l[k], o) && l[k].IsActive() && o.IsActive()
    ensures Indexes(x.(orders := x.orders[o.id := o]), l[k := o])
  {
    OrdersAfterUpdate(x.orders, l, k, o);
    forall id ensures Rests(l[k := o], id) <==> Rests(l, id) {
      RestsAfterUpdate(l, k, o, id);
    }
    forall side, p ensures LevelOf(l[k := o], side, p) == LevelOf(l, side, p) {
      LevelKeepsPlace(l, k, o, side, p);
    }
  }

  lemma QueuesAfterRemoval(book: Levels, l: Ledger, k: nat, o: LimitOrder, side: Side)
    requires QueuesOf(book, l, side) && DistinctIds(l)
    requires k < |l| && SameOrder(l[k], o) && l[k].IsActive() && !o.IsActive()
    ensures o.side == side ==>
              && o.price in book && o.id in book[o.price]
              && QueuesOf(Dequeue(book, o.price, Without(book[o.price], o.id)), l[k := o], side)
    ensures o.side != side ==> QueuesOf(book, l[k := o], side)
  {
    assert At(l[k], o.side, o.price);
    LevelMembers(l, o.side, o.price, o.id);
    forall p ensures LevelOf(l[k := o], side, p)
                  == if At(l[k], side, p) then Without(LevelOf(l, side, p), o.id) else LevelOf(l, side, p) {
      LevelLosesOne(l, k, o, side, p);
      if !At(l[k], side, p) {
        WithoutElsewhere(l, k, side, p);
      }
    }
  }

  /** An order leaves: it is overwritten in the map, removed from its queue and from the set. */
  lemma RemovalIndexed(x: Index, l: Ledger, k: nat, o: LimitOrder)
    requires Indexes(x, l) && DistinctIds(l)
    requires k < |l| && SameOrder(l[k], o) && l[k].IsActive() && !o.IsActive()
    ensures o.price in x.BookFor(o.side) && o.id in x.BookFor(o.side)[o.price] && o.id in x.resting
    ensures var book := x.BookFor(o.side);
            Indexes(x.(orders := x.orders[o.id := o], resting := x.resting - {o.id})
                     .WithBook(o.side, Dequeue(book, o.price, Without(book[o.price], o.id))), l[k := o])
  {
    OrdersAfterUpdate(x.orders, l, k, o);
    QueuesAfterRemoval(x.bids, l, k, o, Buy);
    QueuesAfterRemoval(x.asks, l, k, o, Sell);
    assert Rests(l, o.id);
    forall id ensures Rests(l[k := o], id) <==> Rests(l, id) && id != o.id {
      RestsAfterUpdate(l, k, o, id);
    }
  }

  lemma QueuesAfterArrival(book: Levels, l: Ledger, o: LimitOrder, side: Side)
    requires QueuesOf(book, l, side)
    ensures QueuesOf(if o.IsActive() && o.side == side then Enqueue(book, o.price, o.id) else book, l + [o], side)
  {
  }

  lemma OrdersAfterArrival(orders: map<string, LimitOrder>, l: Ledger, o: LimitOrder)
    requires OrdersOf(orders, l) && !HasId(l, o.id)
    ensures OrdersOf(orders[o.id := o], l + [o])
  {
    var l' := l + [o];
    forall id | id in orders[o.id := o] ensures HasId(l', id) {
      assert l'[|l|].id == o.id;
      if id != o.id {
        var i :| 0 <= i < |l| && l[i].id == id;
        assert l'[i].id == id;
      }
    }
  }

  lemma RestsAfterArrival(l: Ledger, o: LimitOrder, id: string)
    ensures Rests(l + [o], id) <==> Rests(l, id) || (id == o.id && o.IsActive())
  {
    var l' := l + [o];
    assert l'[|l|] == o;
    if i :| 0 <= i < |l| && l[i].id == id && l[i].IsActive() {
      assert l'[i] == l[i];
    }
  }

  /** A new order arrives; if it is active it joins the end of its queue. */
  lemma ArrivalIndexed(x: Index, l: Ledger, o: LimitOrder)
    requires Indexes(x, l) && !HasId(l, o.id)
    ensures var kept := x.(orders := x.orders[o.id := o]);
            Indexes(if o.IsActive()
                    then kept.(resting := x.resting + {o.id})
                             .WithBook(o.side, Enqueue(x.BookFor(o.side), o.price, o.id))
                    else kept, l + [o])
  {
    OrdersAfterArrival(x.orders, l, o);
    QueuesAfterArrival(x.bids, l, o, Buy);
    QueuesAfterArrival(x.asks, l, o, Sell);
    forall id ensures Rests(l + [o], id) <==> Rests(l, id) || (id == o.id && o.IsActive()) {
      RestsAfterArrival(l, o, id);
    }
  }

  // ---------------------------------------------------------------- reading the index

  /** The head of the best-priced queue is the flat specification's best maker. */
  lemma {:induction false} HeadIsBestMaker(x: Index, l: Ledger, taker: LimitOrder, price: int)
    requires Indexes(x, l) && Tidy(l)
    requires var book := x.BookFor(taker.side.Opposite());
             price in book && forall p | p in book :: !BetterPrice(taker.side, p, price)
    ensures !PriceCrosses(taker, price) ==> BestMaker(l, taker).None?
    ensures PriceCrosses(taker, price) ==>
              var book := x.BookFor(taker.side.Opposite());
              && |book[price]| > 0 && book[price][0] in x.orders
              && BestMaker(l, taker) == Some(x.orders[book[price][0]])
  {
    var side := taker.side.Opposite();
    BestMakerIsFirst(l, taker);
    var best := BestMaker(l, taker);
    if best.Some? {
      var m := best.value;
      var i :| 0 <= i < |l| && l[i] == m;
      assert At(m, side, m.price);
      LevelMembers(l, side, m.price, m.id);
      assert m.price in x.BookFor(side);
    }
    if PriceCrosses(taker, price) {
      var k := LevelHead(l, side, price);
      assert Crosses(taker, l[k]);
      var m := best.value;
      var i :| 0 <= i < |l| && l[i] == m;
      assert m.price == price && m.sequence <= l[k].sequence;
      assert At(l[i], side, price) && k <= i;
      assert k == i;
    }
  }

  lemma {:induction false} NothingToMatch(x: Index, l: Ledger, taker: LimitOrder)
    requires Indexes(x, l) && Sequenced(l) && x.BookFor(taker.side.Opposite()) == map[]
    ensures BestMaker(l, taker).None?
  {
    BestMakerIsFirst(l, taker);
    if BestMaker(l, taker).Some? {
      var m := BestMaker(l, taker).value;
      var i :| 0 <= i < |l| && l[i] == m;
      assert At(l[i], m.side, m.price);
      LevelMembers(l, m.side, m.price, m.id);
    }
  }

  /** The quantity queued at a level, summed through the order map. */
  function QueuedQuantity(orders: map<string, LimitOrder>, q: seq<string>): int
    requires forall i | 0 <= i < |q| :: q[i] in orders
  {
    if q == [] then 0
    else QueuedQuantity(orders, q[..|q| - 1]) + orders[q[|q| - 1]].remaining
  }

  lemma {:induction false} LevelCount(l: Ledger, side: Side, price: int)
    ensures |LevelOf(l, side, price)| == Sum(l, CountAt(side, price))
  {
    if l != [] {
      LevelCount(l[..|l| - 1], side, price);
    }
  }

  ghost predicate Known(l: Ledger, orders: map<string, LimitOrder>) {
    forall i | 0 <= i < |l| :: l[i].id in orders && orders[l[i].id] == l[i]
  }

  lemma KnownInit(l: Ledger, orders: map<string, LimitOrder>)
    requires Known(l, orders) && l != []
    ensures Known(l[..|l| - 1], orders) && l[|l| - 1].id in orders && orders[l[|l| - 1].id] == l[|l| - 1]
  {
  }

  lemma {:induction false} LevelKnown(l: Ledger, orders: map<string, LimitOrder>, side: Side, price: int)
    requires Known(l, orders)
    ensures forall i | 0 <= i < |LevelOf(l, side, price)| :: LevelOf(l, side, price)[i] in orders
  {
    if l != [] {
      KnownInit(l, orders);
      LevelKnown(l[..|l| - 1], orders, side, price);
    }
  }

  lemma {:induction false} QueuedQuantityAppend(orders: map<string, LimitOrder>, q: seq<string>, id: string)
    requires (forall i | 0 <= i < |q| :: q[i] in orders) && id in orders
    ensures forall i | 0 <= i < |q + [id]| :: (q + [id])[i] in orders
    ensures QueuedQuantity(orders, q + [id]) == QueuedQuantity(orders, q) + orders[id].remaining
  {
  }

  lemma {:induction false} LevelQuantity(l: Ledger, orders: map<string, LimitOrder>, side: Side, price: int)
    requires Known(l, orders)
    ensures forall i | 0 <= i < |LevelOf(l, side, price)| :: LevelOf(l, side, price)[i] in orders
    ensures QueuedQuantity(orders, LevelOf(l, side, price)) == Sum(l, QuantityAt(side, price))
  {
    LevelKnown(l, orders, side, price);
    if l != [] {
      KnownInit(l, orders);
      LevelQuantity(l[..|l| - 1], orders, side, price);
      if At(l[|l| - 1], side, price) {
        QueuedQuantityAppend(orders, LevelOf(l[..|l| - 1], side, price), l[|l| - 1].id);
      }
    }
  }

  lemma {:induction false} LevelTotals(l: Ledger, orders: map<string, LimitOrder>, side: Side, price: int)
    requires Known(l, orders)
    ensures var q := LevelOf(l, side, price);
            && (forall i | 0 <= i < |q| :: q[i] in orders)
            && QueuedQuantity(orders, q) == Sum(l, QuantityAt(side, price))
            && |q| == Sum(l, CountAt(side, price))
  {
    LevelCount(l, side, price);
    LevelQuantity(l, orders, side, price);
  }

  lemma PricesAreQuoted(x: Index, l: Ledger, side: Side, price: int)
    requires Indexes(x, l)
    ensures price in x.BookFor(side) <==> Quoted(l, side, price)
  {
    if Quoted(l, side, price) {
      var i :| 0 <= i < |l| && At(l[i], side, price);
      LevelMembers(l, side, price, l[i].id);
    }
    if price in x.BookFor(side) {
      var k := LevelHead(l, side, price);
    }
  }

  /** The book crosses exactly when some bid price reaches some ask price. */
  lemma CrossedPrices(x: Index, l: Ledger)
    requires Indexes(x, l)
    ensures Uncrossed(l) <==> forall p, q | p in x.bids && q in x.asks :: p < q
  {
    forall p ensures p in x.bids <==> Quoted(l, Buy, p) {
      PricesAreQuoted(x, l, Buy, p);
    }
    forall p ensures p in x.asks <==> Quoted(l, Sell, p) {
      PricesAreQuoted(x, l, Sell, p);
    }
    if forall p, q | p in x.bids && q in x.asks :: p < q {
      forall i, j | 0 <= i < |l| && 0 <= j < |l| && l[i].IsActive() && l[j].IsActive()
                    && l[i].side.Buy? && l[j].side.Sell?
        ensures l[i].price < l[j].price
      {
        assert At(l[i], Buy, l[i].price) && At(l[j], Sell, l[j].price);
        assert l[i].price in x.bids && l[j].price in x.asks;
      }
    }
    if Uncrossed(l) {
      forall p, q | p in x.bids && q in x.asks ensures p < q {
        var i :| 0 <= i < |l| && At(l[i], Buy, p);
        var j :| 0 <= j < |l| && At(l[j], Sell, q);
      }
    }
  }
}
