/**
 The aggregated book: what a list of price levels must be for a ledger.  The relation pins the
 list down completely, so every implementation of it (the engine's queues, the grouped query
 over stored rows) yields the same list.
 */
module BookView {
  import opened Common
  import opened Orders
  import opened PriceTime

  datatype PriceLevel = PriceLevel(price: int, quantity: int, count: int)

  datatype Book = Book(bids: seq<PriceLevel>, asks: seq<PriceLevel>)

  /** What the engine hands out: its book and the last order and trade sequences behind it. */
  datatype BookSnapshot = BookSnapshot(book: Book, lastOrder: int, lastTrade: int)

  predicate At(o: LimitOrder, side: Side, price: int) {
    o.IsActive() && o.side == side && o.price == price
  }

  ghost function QuantityAt(side: Side, price: int): LimitOrder -> int {
    (o: LimitOrder) => if At(o, side, price) then o.remaining else 0
  }

  ghost function CountAt(side: Side, price: int): LimitOrder -> int {
    (o: LimitOrder) => if At(o, side, price) then 1 else 0
  }

  ghost predicate Quoted(l: Ledger, side: Side, price: int) {
    exists i | 0 <= i < |l| :: At(l[i], side, price)
  }

  /** Best price first: descending for bids, ascending for asks. */
  ghost predicate BestFirst(prices: seq<int>, side: Side) {
    forall i, j | 0 <= i < j < |prices| :: BetterPrice(side.Opposite(), prices[i], prices[j])
  }

  function PricesOf(levels: seq<PriceLevel>): (r: seq<int>)
    ensures |r| == |levels| && forall i | 0 <= i < |levels| :: r[i] == levels[i].price
  {
    seq(|levels|, i requires 0 <= i < |levels| => levels[i].price)
  }

  ghost predicate IsSide(levels: seq<PriceLevel>, l: Ledger, side: Side) {
    && BestFirst(PricesOf(levels), side)
    && (forall p :: p in PricesOf(levels) <==> Quoted(l, side, p))
    && forall i | 0 <= i < |levels| ::
         && levels[i].quantity == Sum(l, QuantityAt(side, levels[i].price))
         && levels[i].count == Sum(l, CountAt(side, levels[i].price))
  }

  ghost predicate IsBook(b: Book, l: Ledger) {
    IsSide(b.bids, l, Buy) && IsSide(b.asks, l, Sell)
  }

  lemma {:induction false} BestFirstIsUnique(a: seq<int>, b: seq<int>, side: Side)
    requires BestFirst(a, side) && BestFirst(b, side)
    requires forall p :: p in a <==> p in b
    ensures a == b
  {
    assert a == [] <==> b == [] by {
      assert |a| > 0 ==> a[0] in a && a[0] in b;
      assert |b| > 0 ==> b[0] in b && b[0] in a;
    }
    if a != [] {
      assert a[0] in b && b[0] in a;
      forall p ensures p in a[1..] <==> p in b[1..] {
        assert p in a[1..] <==> p in a && p != a[0];
        assert p in b[1..] <==> p in b && p != b[0];
      }
      BestFirstIsUnique(a[1..], b[1..], side);
    }
  }

  /** A ledger has exactly one aggregated book. */
  lemma BookIsUnique(a: Book, b: Book, l: Ledger)
    requires IsBook(a, l) && IsBook(b, l)
    ensures a == b
  {
    SideIsUnique(a.bids, b.bids, l, Buy);
    SideIsUnique(a.asks, b.asks, l, Sell);
  }

  lemma SideIsUnique(a: seq<PriceLevel>, b: seq<PriceLevel>, l: Ledger, side: Side)
    requires IsSide(a, l, side) && IsSide(b, l, side)
    ensures a == b
  {
    BestFirstIsUnique(PricesOf(a), PricesOf(b), side);
    forall i | 0 <= i < |a| ensures a[i] == b[i] {
      assert PricesOf(a)[i] == PricesOf(b)[i];
    }
  }

  /** Only active orders show: filtering the ledger first gives the same book. */
  lemma {:induction false} BookOfActive(b: Book, l: Ledger)
    ensures IsBook(b, Active(l)) <==> IsBook(b, l)
  {
    SideOfActive(b.bids, l, Buy);
    SideOfActive(b.asks, l, Sell);
  }

  lemma {:induction false} SideOfActive(levels: seq<PriceLevel>, l: Ledger, side: Side)
    ensures IsSide(levels, Active(l), side) <==> IsSide(levels, l, side)
  {
    forall p ensures Quoted(Active(l), side, p) <==> Quoted(l, side, p) {
      if Quoted(l, side, p) {
        var i :| 0 <= i < |l| && At(l[i], side, p);
        ActiveMembers(l, l[i]);
        var j :| 0 <= j < |Active(l)| && Active(l)[j] == l[i];
        assert At(Active(l)[j], side, p);
      }
      if Quoted(Active(l), side, p) {
        var i :| 0 <= i < |Active(l)| && At(Active(l)[i], side, p);
        ActiveMembers(l, Active(l)[i]);
        var j :| 0 <= j < |l| && l[j] == Active(l)[i];
        assert At(l[j], side, p);
      }
    }
    forall p ensures Sum(Active(l), QuantityAt(side, p)) == Sum(l, QuantityAt(side, p)) {
      SumOfActive(l, QuantityAt(side, p));
    }
    forall p ensures Sum(Active(l), CountAt(side, p)) == Sum(l, CountAt(side, p)) {
      SumOfActive(l, CountAt(side, p));
    }
  }

  /** What one side of a book shows, in plain terms: bids fall and asks rise, every level is a price
      at which an order of the side is open, and sums up the open orders at it. */
  ghost predicate ShowsSide(levels: seq<PriceLevel>, l: Ledger, side: Side) {
    && (forall i, j | 0 <= i < j < |levels| ::
          if side == Buy then levels[i].price > levels[j].price else levels[i].price < levels[j].price)
    && (forall k | 0 <= k < |l| && l[k].side == side && (l[k].status == Open || l[k].status == PartiallyFilled) ::
          exists i | 0 <= i < |levels| :: levels[i].price == l[k].price)
    && (forall i | 0 <= i < |levels| ::
          && (exists k | 0 <= k < |l| :: l[k].side == side && l[k].price == levels[i].price
                                         && (l[k].status == Open || l[k].status == PartiallyFilled))
          && levels[i].quantity == Sum(l, OpenQuantity(side, levels[i].price))
          && levels[i].count == Sum(l, OpenCount(side, levels[i].price)))
  }

  ghost function OpenQuantity(side: Side, price: int): LimitOrder -> int {
    (o: LimitOrder) =>
      if o.side == side && o.price == price && (o.status == Open || o.status == PartiallyFilled)
      then o.remaining else 0
  }

  ghost function OpenCount(side: Side, price: int): LimitOrder -> int {
    (o: LimitOrder) =>
      if o.side == side && o.price == price && (o.status == Open || o.status == PartiallyFilled) then 1 else 0
  }

  lemma LevelsAreOrdered(levels: seq<PriceLevel>, l: Ledger, side: Side, i: nat, j: nat)
    requires IsSide(levels, l, side) && i < j < |levels|
    ensures if side == Buy then levels[i].price > levels[j].price else levels[i].price < levels[j].price
  {
    assert BetterPrice(side.Opposite(), PricesOf(levels)[i], PricesOf(levels)[j]);
  }

  lemma OpenOrderIsShown(levels: seq<PriceLevel>, l: Ledger, side: Side, k: nat)
    requires IsSide(levels, l, side)
    requires k < |l| && l[k].side == side && (l[k].status == Open || l[k].status == PartiallyFilled)
    ensures exists i | 0 <= i < |levels| :: levels[i].price == l[k].price
  {
    var prices := PricesOf(levels);
    assert At(l[k], side, l[k].price);
    assert l[k].price in prices;
    var i :| 0 <= i < |prices| && prices[i] == l[k].price;
    assert levels[i].price == l[k].price;
  }

  lemma {:induction false} LevelSumsUp(levels: seq<PriceLevel>, l: Ledger, side: Side, i: nat)
    requires IsSide(levels, l, side) && i < |levels|
    ensures exists k | 0 <= k < |l| :: l[k].side == side && l[k].price == levels[i].price
                                       && (l[k].status == Open || l[k].status == PartiallyFilled)
    ensures levels[i].quantity == Sum(l, OpenQuantity(side, levels[i].price))
    ensures levels[i].count == Sum(l, OpenCount(side, levels[i].price))
  {
    assert PricesOf(levels)[i] in PricesOf(levels);
    SumAgree(l, QuantityAt(side, levels[i].price), OpenQuantity(side, levels[i].price));
    SumAgree(l, CountAt(side, levels[i].price), OpenCount(side, levels[i].price));
  }

  lemma SideInPlainTerms(levels: seq<PriceLevel>, l: Ledger, side: Side)
    requires IsSide(levels, l, side)
    ensures ShowsSide(levels, l, side)
  {
    forall i, j | 0 <= i < j < |levels|
      ensures if side == Buy then levels[i].price > levels[j].price else levels[i].price < levels[j].price
    {
      LevelsAreOrdered(levels, l, side, i, j);
    }
    forall k | 0 <= k < |l| && l[k].side == side && (l[k].status == Open || l[k].status == PartiallyFilled)
      ensures exists i | 0 <= i < |levels| :: levels[i].price == l[k].price
    {
      OpenOrderIsShown(levels, l, side, k);
    }
    forall i | 0 <= i < |levels|
      ensures exists k | 0 <= k < |l| :: l[k].side == side && l[k].price == levels[i].price
                                         && (l[k].status == Open || l[k].status == PartiallyFilled)
      ensures levels[i].quantity == Sum(l, OpenQuantity(side, levels[i].price))
      ensures levels[i].count == Sum(l, OpenCount(side, levels[i].price))
    {
      LevelSumsUp(levels, l, side, i);
    }
  }

  /** A book in plain terms. */
  lemma BookInPlainTerms(b: Book, l: Ledger)
    requires IsBook(b, l)
    ensures ShowsSide(b.bids, l, Buy) && ShowsSide(b.asks, l, Sell)
  {
    SideInPlainTerms(b.bids, l, Buy);
    SideInPlainTerms(b.asks, l, Sell);
  }
}
