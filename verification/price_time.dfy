/**
 The reference specification of matching: a flat ledger of orders in creation-sequence order,
 no price levels, no queues.  One execution step picks, among all active crossing opposite
 orders, the best price and then the lowest sequence.
 */
module PriceTime {
  import opened Common
  import opened Orders

  type Ledger = seq<LimitOrder>

  ghost predicate AllValid(l: Ledger) {
    forall i | 0 <= i < |l| :: l[i].Valid()
  }

  ghost predicate Sequenced(l: Ledger) {
    forall i, j | 0 <= i < j < |l| :: l[i].sequence < l[j].sequence
  }

  ghost predicate DistinctIds(l: Ledger) {
    forall i, j | 0 <= i < j < |l| :: l[i].id != l[j].id
  }

  /** What every reachable ledger satisfies, crossing apart. */
  ghost predicate Tidy(l: Ledger) {
    AllValid(l) && Sequenced(l) && DistinctIds(l)
  }

  ghost predicate Uncrossed(l: Ledger) {
    forall i, j | 0 <= i < |l| && 0 <= j < |l| ::
      l[i].IsActive() && l[j].IsActive() && l[i].side.Buy? && l[j].side.Sell? ==> l[i].price < l[j].price
  }

  predicate HasId(l: Ledger, id: string) {
    exists i | 0 <= i < |l| :: l[i].id == id
  }

  /** The position of an identifier, or -1. */
  function Find(l: Ledger, id: string): (k: int)
    ensures -1 <= k < |l|
    ensures k >= 0 ==> l[k].id == id && forall i | k < i < |l| :: l[i].id != id
    ensures k < 0 <==> !HasId(l, id)
  {
    if l == [] then -1
    else if l[|l| - 1].id == id then |l| - 1
    else
      var k := Find(l[..|l| - 1], id);
      assert forall i | 0 <= i < |l| - 1 :: l[i] == l[..|l| - 1][i];
      k
  }

  /** Overwrites the order that carries the identifier of `o`. */
  function Replace(l: Ledger, o: LimitOrder): (r: Ledger)
    ensures |r| == |l|
    ensures forall i | 0 <= i < |l| :: r[i] == if l[i].id == o.id then o else l[i]
  {
    if l == [] then []
    else Replace(l[..|l| - 1], o) + [if l[|l| - 1].id == o.id then o else l[|l| - 1]]
  }

  function ReplaceAll(l: Ledger, os: seq<LimitOrder>): (r: Ledger)
    ensures |r| == |l|
    decreases |os|
  {
    if os == [] then l else ReplaceAll(Replace(l, os[0]), os[1..])
  }

  /** The active orders, in ledger order. */
  function Active(l: Ledger): (r: Ledger) {
    if l == [] then []
    else if l[|l| - 1].IsActive() then Active(l[..|l| - 1]) + [l[|l| - 1]]
    else Active(l[..|l| - 1])
  }

  predicate PriceCrosses(taker: LimitOrder, price: int) {
    if taker.side.Buy? then price <= taker.price else price >= taker.price
  }

  /** May `taker` execute against `m`? */
  predicate Crosses(taker: LimitOrder, m: LimitOrder) {
    m.IsActive() && m.side != taker.side && PriceCrosses(taker, m.price)
  }

  predicate BetterPrice(side: Side, a: int, b: int) {
    if side.Buy? then a < b else a > b
  }

  /** Strict price-time priority among makers, as seen by a taker on `side`. */
  predicate Outranks(side: Side, a: LimitOrder, b: LimitOrder) {
    BetterPrice(side, a.price, b.price) || (a.price == b.price && a.sequence < b.sequence)
  }

  function BestMaker(l: Ledger, taker: LimitOrder): (r: Option<LimitOrder>)
    ensures r.Some? ==> r.value in l && Crosses(taker, r.value)
  {
    if l == [] then None
    else
      var last := l[|l| - 1];
      var best := BestMaker(l[..|l| - 1], taker);
      if !Crosses(taker, last) then best
      else if best.None? || Outranks(taker.side, last, best.value) then Some(last)
      else best
  }

  datatype Execution = Execution(
    ledger: Ledger,
    taker: LimitOrder,
    trades: seq<Trade>,
    changed: seq<LimitOrder>
  )

  function TradeOf(m: LimitOrder, taker: LimitOrder, quantity: int, sequence: int): Trade {
    Trade(sequence, m.id, taker.id, m.price, quantity, m.side)
  }

  /** Matching to completion: repeatedly execute against the best maker. */
  function Match(l: Ledger, taker: LimitOrder, next: int): Execution
    requires AllValid(l) && taker.Valid()
    decreases taker.remaining
  {
    var best := BestMaker(l, taker);
    if taker.remaining == 0 || best.None? then Execution(l, taker, [], [])
    else
      var m := best.value;
      var q := Min(taker.remaining, m.remaining);
      FillIsValid(taker, m);
      var rest := Match(Replace(l, m.Filled(q)), taker.Filled(q), next + 1);
      Execution(rest.ledger, rest.taker,
                [TradeOf(m, taker, q, next)] + rest.trades, [m.Filled(q)] + rest.changed)
  }

  /** The two halves of one execution are valid orders again. */
  lemma FillIsValid(taker: LimitOrder, m: LimitOrder)
    requires taker.Valid() && m.Valid() && m.IsActive() && taker.remaining > 0
    ensures var q := Min(taker.remaining, m.remaining);
            0 < q && m.Filled(q).Valid() && taker.Filled(q).Valid()
  {
  }

  // ---------------------------------------------------------------- structure of the ledger

  lemma {:induction false} ReplaceKeepsTidy(l: Ledger, k: nat, o: LimitOrder)
    requires Tidy(l) && k < |l| && o.Valid() && o.id == l[k].id && o.sequence == l[k].sequence
    ensures Tidy(Replace(l, o))
    ensures Replace(l, o) == l[k := o]
  {
    forall i | 0 <= i < |l| && i != k ensures l[i].id != o.id {
      assert i < k || k < i;
    }
  }

  /** Only an active entry may be overwritten for the active view to follow. */
  ghost predicate OnlyActive(l: Ledger, id: string) {
    forall i | 0 <= i < |l| :: l[i].id == id ==> l[i].IsActive()
  }

  lemma {:induction false} ActiveOfReplace(l: Ledger, o: LimitOrder)
    requires OnlyActive(l, o.id)
    ensures Active(Replace(l, o)) == Active(Replace(Active(l), o))
  {
    if l != [] {
      var init, last := l[..|l| - 1], l[|l| - 1];
      ActiveOfReplace(init, o);
      assert Replace(l, o)[..|l| - 1] == Replace(init, o);
      if last.IsActive() {
        assert Active(l)[..|Active(l)| - 1] == Active(init);
        assert Replace(Active(l), o)[..|Active(l)| - 1] == Replace(Active(init), o);
      } else {
        assert Active(l) == Active(init);
      }
    }
  }

  lemma {:induction false} ActiveAppend(l: Ledger, o: LimitOrder)
    ensures Active(l + [o]) == if o.IsActive() then Active(l) + [o] else Active(l)
  {
  }

  lemma {:induction false} ActiveMembers(l: Ledger, o: LimitOrder)
    ensures o in Active(l) <==> o in l && o.IsActive()
  {
    if l != [] {
      ActiveMembers(l[..|l| - 1], o);
      assert l == l[..|l| - 1] + [l[|l| - 1]];
    }
  }

  lemma {:induction false} ActiveKeepsTidy(l: Ledger)
    requires Tidy(l)
    ensures Tidy(Active(l))
  {
    if l != [] {
      var init, last := l[..|l| - 1], l[|l| - 1];
      ActiveKeepsTidy(init);
      forall i | 0 <= i < |Active(init)|
        ensures Active(init)[i].sequence < last.sequence && Active(init)[i].id != last.id
      {
        ActiveMembers(init, Active(init)[i]);
        var k :| 0 <= k < |init| && init[k] == Active(init)[i];
        assert l[k] == init[k];
      }
    }
  }

  lemma {:induction false} ActiveTwice(l: Ledger)
    ensures Active(Active(l)) == Active(l)
  {
    if l != [] {
      ActiveTwice(l[..|l| - 1]);
      if l[|l| - 1].IsActive() {
        ActiveAppend(Active(l[..|l| - 1]), l[|l| - 1]);
      }
    }
  }

  /** Filtering keeps a tidy ledger tidy, and filtering twice changes nothing. */
  lemma {:induction false} ActiveIsTidy(l: Ledger)
    requires Tidy(l)
    ensures Tidy(Active(l)) && Active(Active(l)) == Active(l)
    ensures Uncrossed(l) ==> Uncrossed(Active(l))
  {
    ActiveKeepsTidy(l);
    ActiveTwice(l);
    forall i | 0 <= i < |Active(l)| ensures Active(l)[i] in l {
      ActiveMembers(l, Active(l)[i]);
    }
  }

  lemma {:induction false} BestMakerSeesActiveOnly(l: Ledger, taker: LimitOrder)
    ensures BestMaker(Active(l), taker) == BestMaker(l, taker)
  {
    if l != [] {
      var init, last := l[..|l| - 1], l[|l| - 1];
      BestMakerSeesActiveOnly(init, taker);
      if last.IsActive() {
        assert Active(l)[..|Active(l)| - 1] == Active(init);
      }
    }
  }

  lemma {:induction false} MakerFillKeepsTidy(l: Ledger, m: LimitOrder, q: int)
    requires Tidy(l) && m in l && m.IsActive() && 0 < q <= m.remaining
    ensures OnlyActive(l, m.id) && m.Filled(q).Valid()
    ensures Tidy(Replace(l, m.Filled(q)))
    ensures exists k | 0 <= k < |l| :: l[k] == m && Replace(l, m.Filled(q)) == l[k := m.Filled(q)]
  {
    var k :| 0 <= k < |l| && l[k] == m;
    ReplaceKeepsTidy(l, k, m.Filled(q));
    assert forall i | 0 <= i < |l| && l[i].id == m.id :: i == k;
  }

  // ---------------------------------------------------------------- the best maker is the best

  /** The maker chosen is the unique first one in price-time priority; none is chosen
      exactly when nothing crosses. */
  lemma {:induction false} BestMakerIsFirst(l: Ledger, taker: LimitOrder)
    requires Sequenced(l)
    ensures var best := BestMaker(l, taker);
            && (best.None? <==> forall i | 0 <= i < |l| :: !Crosses(taker, l[i]))
            && (best.Some? ==> forall i | 0 <= i < |l| && Crosses(taker, l[i]) ::
                  l[i] == best.value || Outranks(taker.side, best.value, l[i]))
  {
    if l != [] {
      var init, last := l[..|l| - 1], l[|l| - 1];
      BestMakerIsFirst(init, taker);
      forall i | 0 <= i < |l| ensures l[i] == if i < |l| - 1 then init[i] else last {}
      var best := BestMaker(init, taker);
      if best.Some? {
        var k :| 0 <= k < |init| && init[k] == best.value;
        assert l[k].sequence < last.sequence;
      }
    }
  }

  // ---------------------------------------------------------------- sums over the ledger

  ghost function Sum(l: Ledger, weight: LimitOrder -> int): int {
    if l == [] then 0 else Sum(l[..|l| - 1], weight) + weight(l[|l| - 1])
  }

  lemma {:induction false} SumAppend(l: Ledger, o: LimitOrder, weight: LimitOrder -> int)
    ensures Sum(l + [o], weight) == Sum(l, weight) + weight(o)
  {
  }

  lemma {:induction false} SumUpdate(l: Ledger, k: nat, o: LimitOrder, weight: LimitOrder -> int)
    requires k < |l|
    ensures Sum(l[k := o], weight) == Sum(l, weight) - weight(l[k]) + weight(o)
  {
    var init := l[..|l| - 1];
    if k == |l| - 1 {
      assert l[k := o][..|l| - 1] == init;
    } else {
      SumUpdate(init, k, o, weight);
      assert l[k := o][..|l| - 1] == init[k := o];
    }
  }

  lemma {:induction false} SumAgree(l: Ledger, f: LimitOrder -> int, g: LimitOrder -> int)
    requires forall i | 0 <= i < |l| :: f(l[i]) == g(l[i])
    ensures Sum(l, f) == Sum(l, g)
  {
    if l != [] {
      assert forall i | 0 <= i < |l| - 1 :: l[..|l| - 1][i] == l[i];
      SumAgree(l[..|l| - 1], f, g);
    }
  }

  lemma {:induction false} SumNonNegative(l: Ledger, f: LimitOrder -> int)
    requires forall i | 0 <= i < |l| :: f(l[i]) >= 0
    ensures Sum(l, f) >= 0
    ensures forall i | 0 <= i < |l| :: Sum(l, f) >= f(l[i])
  {
    if l != [] {
      assert forall i | 0 <= i < |l| - 1 :: l[..|l| - 1][i] == l[i];
      SumNonNegative(l[..|l| - 1], f);
    }
  }

  /** A weight that ignores inactive orders sums to the same over the active ones. */
  lemma {:induction false} SumOfActive(l: Ledger, f: LimitOrder -> int)
    requires forall o: LimitOrder :: !o.IsActive() ==> f(o) == 0
    ensures Sum(Active(l), f) == Sum(l, f)
  {
    if l != [] {
      SumOfActive(l[..|l| - 1], f);
      if l[|l| - 1].IsActive() {
        SumAppend(Active(l[..|l| - 1]), l[|l| - 1], f);
      } else {
        assert f(l[|l| - 1]) == 0;
      }
    }
  }

  // ---------------------------------------------------------------- what one matching run does

  /** `b` is `a` at a later moment: only the remaining quantity and the status may differ. */
  predicate SameOrder(a: LimitOrder, b: LimitOrder) {
    b == a.(remaining := b.remaining, status := b.status)
  }

  ghost predicate SameOrders(l: Ledger, r: Ledger) {
    |l| == |r| && forall i | 0 <= i < |l| :: SameOrder(l[i], r[i])
  }

  /** One unfolding of `Match`: the best maker sits at some position and is overwritten there. */
  lemma MatchStep(l: Ledger, taker: LimitOrder, next: int) returns (k: nat, q: int)
    requires Tidy(l) && taker.Valid() && taker.remaining > 0 && BestMaker(l, taker).Some?
    ensures k < |l| && BestMaker(l, taker) == Some(l[k]) && Crosses(taker, l[k])
    ensures q == Min(taker.remaining, l[k].remaining) && q > 0
    ensures l[k].Filled(q).Valid() && taker.Filled(q).Valid()
    ensures Tidy(l[k := l[k].Filled(q)]) && Replace(l, l[k].Filled(q)) == l[k := l[k].Filled(q)]
    ensures Match(l, taker, next) ==
            var rest := Match(l[k := l[k].Filled(q)], taker.Filled(q), next + 1);
            Execution(rest.ledger, rest.taker,
                      [TradeOf(l[k], taker, q, next)] + rest.trades, [l[k].Filled(q)] + rest.changed)
  {
    var m := BestMaker(l, taker).value;
    q := Min(taker.remaining, m.remaining);
    FillIsValid(taker, m);
    MakerFillKeepsTidy(l, m, q);
    k :| 0 <= k < |l| && l[k] == m && Replace(l, m.Filled(q)) == l[k := m.Filled(q)];
  }

  /** Overwriting the same active order in two ledgers with the same active view. */
  lemma {:induction false} SameActiveStep(l: Ledger, r: Ledger, m: LimitOrder, q: int)
    requires Tidy(l) && Tidy(r) && Active(l) == Active(r)
    requires m in l && m in r && m.IsActive() && 0 < q <= m.remaining
    ensures Active(Replace(l, m.Filled(q))) == Active(Replace(r, m.Filled(q)))
  {
    MakerFillKeepsTidy(l, m, q);
    MakerFillKeepsTidy(r, m, q);
    ActiveOfReplace(l, m.Filled(q));
    ActiveOfReplace(r, m.Filled(q));
  }

  /** Matching cannot tell two ledgers with the same active orders apart. */
  lemma {:induction false} MatchSeesActiveOnly(l: Ledger, r: Ledger, taker: LimitOrder, next: int)
    requires Tidy(l) && Tidy(r) && taker.Valid()
    requires Active(l) == Active(r)
    ensures var a, b := Match(l, taker, next), Match(r, taker, next);
            && a.taker == b.taker && a.trades == b.trades && a.changed == b.changed
            && Active(a.ledger) == Active(b.ledger)
    decreases taker.remaining
  {
    BestMakerSeesActiveOnly(l, taker);
    BestMakerSeesActiveOnly(r, taker);
    if taker.remaining != 0 && BestMaker(l, taker).Some? {
      var k, q := MatchStep(l, taker, next);
      var j, p := MatchStep(r, taker, next);
      SameActiveStep(l, r, l[k], q);
      MatchSeesActiveOnly(l[k := l[k].Filled(q)], r[j := r[j].Filled(q)], taker.Filled(q), next + 1);
    }
  }

  /** Matching rewrites the ledger only through the changed makers that it reports. */
  lemma {:induction false} MatchReplaces(l: Ledger, taker: LimitOrder, next: int)
    requires Tidy(l) && taker.Valid()
    ensures var ex := Match(l, taker, next); ex.ledger == ReplaceAll(l, ex.changed)
    decreases taker.remaining
  {
    if taker.remaining != 0 && BestMaker(l, taker).Some? {
      var k, q := MatchStep(l, taker, next);
      MatchReplaces(l[k := l[k].Filled(q)], taker.Filled(q), next + 1);
    }
  }

  /** Matching keeps the ledger tidy and the identity of every order. */
  lemma {:induction false} MatchKeepsTidy(l: Ledger, taker: LimitOrder, next: int)
    requires Tidy(l) && taker.Valid()
    ensures var ex := Match(l, taker, next);
            && Tidy(ex.ledger) && SameOrders(l, ex.ledger)
            && ex.taker.Valid() && SameOrder(taker, ex.taker)
            && (taker.IsActive() && ex.taker.remaining > 0 ==> ex.taker.IsActive())
    decreases taker.remaining
  {
    if taker.remaining != 0 && BestMaker(l, taker).Some? {
      var k, q := MatchStep(l, taker, next);
      MatchKeepsTidy(l[k := l[k].Filled(q)], taker.Filled(q), next + 1);
    }
  }

  lemma {:induction false} MatchKeepsNewId(l: Ledger, taker: LimitOrder, next: int)
    requires Tidy(l) && taker.Valid() && !HasId(l, taker.id)
    ensures !HasId(Match(l, taker, next).ledger, Match(l, taker, next).taker.id)
  {
    MatchKeepsTidy(l, taker, next);
  }

  lemma {:induction false} MatchKeepsUncrossed(l: Ledger, taker: LimitOrder, next: int)
    requires Tidy(l) && taker.Valid() && Uncrossed(l)
    ensures Uncrossed(Match(l, taker, next).ledger)
    decreases taker.remaining
  {
    if taker.remaining != 0 && BestMaker(l, taker).Some? {
      var k, q := MatchStep(l, taker, next);
      FillKeepsUncrossed(l, k, l[k].Filled(q));
      MatchKeepsUncrossed(l[k := l[k].Filled(q)], taker.Filled(q), next + 1);
    }
  }

  lemma FillKeepsUncrossed(l: Ledger, k: nat, o: LimitOrder)
    requires Uncrossed(l) && k < |l| && SameOrder(l[k], o) && l[k].IsActive()
    ensures Uncrossed(l[k := o])
  {
  }

  /** Matching stops only when the taker is exhausted or when nothing crosses any more. */
  lemma {:induction false} MatchStops(l: Ledger, taker: LimitOrder, next: int)
    requires Tidy(l) && taker.Valid()
    ensures var ex := Match(l, taker, next);
            ex.taker.remaining == 0 || BestMaker(ex.ledger, taker).None?
    decreases taker.remaining
  {
    if taker.remaining != 0 && BestMaker(l, taker).Some? {
      var k, q := MatchStep(l, taker, next);
      MatchStops(l[k := l[k].Filled(q)], taker.Filled(q), next + 1);
      SameTakerSameMaker(Match(l, taker, next).ledger, taker, taker.Filled(q));
    }
  }

  lemma {:induction false} SameTakerSameMaker(l: Ledger, a: LimitOrder, b: LimitOrder)
    requires SameOrder(a, b)
    ensures BestMaker(l, a) == BestMaker(l, b)
  {
    if l != [] {
      SameTakerSameMaker(l[..|l| - 1], a, b);
    }
  }

  /** A trade that names its maker and the taker and is priced by the maker. */
  predicate IsTradeOf(t: Trade, taker: LimitOrder, maker: LimitOrder) {
    && t.quantity > 0
    && t.taker == taker.id && t.maker == maker.id
    && t.price == maker.price && t.makerSide == maker.side
    && t.makerSide != taker.side
    && maker.Valid()
  }

  ghost predicate AreTradesOf(ts: seq<Trade>, taker: LimitOrder, makers: seq<LimitOrder>, next: int) {
    && |ts| == |makers|
    && forall i | 0 <= i < |ts| :: ts[i].sequence == next + i && IsTradeOf(ts[i], taker, makers[i])
  }

  lemma OneMoreTrade(t: Trade, ts: seq<Trade>, m: LimitOrder, makers: seq<LimitOrder>,
                     taker: LimitOrder, later: LimitOrder, next: int)
    requires AreTradesOf(ts, later, makers, next + 1) && SameOrder(taker, later)
    requires t.sequence == next && IsTradeOf(t, taker, m)
    ensures AreTradesOf([t] + ts, taker, [m] + makers, next)
  {
  }

  /** Every trade names its maker and the taker, is priced by the maker and numbered without gaps. */
  lemma {:induction false} MatchTrades(l: Ledger, taker: LimitOrder, next: int)
    requires Tidy(l) && taker.Valid()
    ensures AreTradesOf(Match(l, taker, next).trades, taker, Match(l, taker, next).changed, next)
    decreases taker.remaining
  {
    if taker.remaining != 0 && BestMaker(l, taker).Some? {
      var k, q := MatchStep(l, taker, next);
      var rest := Match(l[k := l[k].Filled(q)], taker.Filled(q), next + 1);
      MatchTrades(l[k := l[k].Filled(q)], taker.Filled(q), next + 1);
      OneMoreTrade(TradeOf(l[k], taker, q, next), rest.trades, l[k].Filled(q), rest.changed,
                   taker, taker.Filled(q), next);
    }
  }

  function Total(ts: seq<Trade>): int {
    if ts == [] then 0 else ts[0].quantity + Total(ts[1..])
  }

  /** The quantity that trades execute for one order, as maker or as taker. */
  function TradedFor(ts: seq<Trade>, id: string): int {
    if ts == [] then 0
    else (if ts[0].maker == id || ts[0].taker == id then ts[0].quantity else 0) + TradedFor(ts[1..], id)
  }

  ghost function CrossingWeight(taker: LimitOrder): LimitOrder -> int {
    (o: LimitOrder) => if Crosses(taker, o) then o.remaining else 0
  }

  /** All the quantity that `taker` could execute against. */
  ghost function CrossingDepth(l: Ledger, taker: LimitOrder): int {
    Sum(l, CrossingWeight(taker))
  }

  lemma DepthIsNatural(l: Ledger, taker: LimitOrder)
    requires AllValid(l)
    ensures CrossingDepth(l, taker) >= 0
  {
    SumNonNegative(l, CrossingWeight(taker));
  }

  lemma {:induction false} NothingCrosses(l: Ledger, taker: LimitOrder)
    requires Sequenced(l) && BestMaker(l, taker).None?
    ensures CrossingDepth(l, taker) == 0
  {
    BestMakerIsFirst(l, taker);
    SumAgree(l, CrossingWeight(taker), (o: LimitOrder) => 0);
    SumZero(l);
  }

  lemma {:induction false} TotalFirst(t: Trade, ts: seq<Trade>)
    ensures Total([t] + ts) == t.quantity + Total(ts)
  {
  }

  lemma {:induction false} NothingExecuted(l: Ledger, taker: LimitOrder, next: int)
    requires Tidy(l) && taker.Valid() && (taker.remaining == 0 || BestMaker(l, taker).None?)
    ensures Match(l, taker, next) == Execution(l, taker, [], [])
    ensures Min(taker.remaining, CrossingDepth(l, taker)) == 0
  {
    DepthIsNatural(l, taker);
    MatchDone(l, taker, next);
    if BestMaker(l, taker).None? {
      NothingCrosses(l, taker);
    }
  }

  /** One round trades off some quantity, and depth and taker give up just that. */
  lemma {:induction false} ExecutedStep(l: Ledger, taker: LimitOrder, next: int, ex: Execution)
      returns (l': Ledger, taker': LimitOrder, rest: Execution, depth: int, q: int)
    requires Tidy(l) && taker.Valid() && taker.remaining > 0 && BestMaker(l, taker).Some?
    requires ex == Match(l, taker, next)
    ensures Tidy(l') && taker'.Valid() && rest == Match(l', taker', next + 1) && depth == CrossingDepth(l', taker')
    ensures 0 < q == taker.remaining - taker'.remaining == CrossingDepth(l, taker) - depth
    ensures Total(ex.trades) == q + Total(rest.trades) && ex.taker == rest.taker
  {
    var k, n := MatchStep(l, taker, next);
    DepthAfterFill(l, k, taker, n);
    l', taker', q := l[k := l[k].Filled(n)], taker.Filled(n), n;
    rest, depth := Match(l', taker', next + 1), CrossingDepth(l', taker');
    TotalFirst(TradeOf(l[k], taker, n, next), rest.trades);
  }

  lemma {:induction false} ExecutedBy(l: Ledger, taker: LimitOrder, next: int, ex: Execution, depth: int)
      returns (total: int)
    requires Tidy(l) && taker.Valid() && ex == Match(l, taker, next) && depth == CrossingDepth(l, taker)
    ensures total == Total(ex.trades) == Min(taker.remaining, depth)
    ensures ex.taker.remaining == taker.remaining - total
    decreases taker.remaining
  {
    if taker.remaining == 0 || BestMaker(l, taker).None? {
      NothingExecuted(l, taker, next);
      total := 0;
    } else {
      var l', taker', rest, depth', q := ExecutedStep(l, taker, next, ex);
      total := ExecutedBy(l', taker', next + 1, rest, depth');
      total := q + total;
    }
  }

  /** A submission executes exactly the smaller of its own quantity and the crossing depth. */
  lemma {:induction false} ExecutedQuantity(l: Ledger, taker: LimitOrder, next: int)
    requires Tidy(l) && taker.Valid()
    ensures var ex := Match(l, taker, next);
            && Total(ex.trades) == Min(taker.remaining, CrossingDepth(l, taker))
            && ex.taker.remaining == taker.remaining - Total(ex.trades)
  {
    var total := ExecutedBy(l, taker, next, Match(l, taker, next), CrossingDepth(l, taker));
  }

  ghost function CrossingOne(taker: LimitOrder): LimitOrder -> int {
    (o: LimitOrder) => if Crosses(taker, o) then 1 else 0
  }

  /** How many orders `taker` could execute against. */
  ghost function CrossingCount(l: Ledger, taker: LimitOrder): int {
    Sum(l, CrossingOne(taker))
  }

  lemma CountAfterFill(l: Ledger, k: nat, taker: LimitOrder, q: int)
    requires k < |l| && Crosses(taker, l[k])
    ensures CrossingCount(l, taker) >= 1
    ensures q == l[k].remaining ==>
              CrossingCount(l[k := l[k].Filled(q)], taker.Filled(q)) == CrossingCount(l, taker) - 1
  {
    SumNonNegative(l, CrossingOne(taker));
    SumUpdate(l, k, l[k].Filled(q), CrossingOne(taker));
    SumAgree(l[k := l[k].Filled(q)], CrossingOne(taker), CrossingOne(taker.Filled(q)));
    assert CrossingOne(taker)(l[k]) == 1;
  }

  /** The matching loop makes at most as many rounds as there are crossing orders, one trade each. */
  lemma {:induction false} MatchRounds(l: Ledger, taker: LimitOrder, next: int)
    requires Tidy(l) && taker.Valid()
    ensures var ex := Match(l, taker, next);
            |ex.trades| == |ex.changed| <= CrossingCount(l, taker)
    decreases taker.remaining
  {
    if taker.remaining == 0 || BestMaker(l, taker).None? {
      MatchDone(l, taker, next);
      SumNonNegative(l, CrossingOne(taker));
    } else {
      var k, q := MatchStep(l, taker, next);
      var l', taker' := l[k := l[k].Filled(q)], taker.Filled(q);
      CountAfterFill(l, k, taker, q);
      if taker'.remaining == 0 {
        MatchDone(l', taker', next + 1);
      } else {
        MatchRounds(l', taker', next + 1);
      }
    }
  }

  lemma DepthAfterFill(l: Ledger, k: nat, taker: LimitOrder, q: int)
    requires Tidy(l) && k < |l| && Crosses(taker, l[k]) && 0 < q <= l[k].remaining
    ensures CrossingDepth(l[k := l[k].Filled(q)], taker.Filled(q)) == CrossingDepth(l, taker) - q
    ensures CrossingDepth(l, taker) >= l[k].remaining
  {
    SumNonNegative(l, CrossingWeight(taker));
    SumUpdate(l, k, l[k].Filled(q), CrossingWeight(taker));
    SumAgree(l[k := l[k].Filled(q)], CrossingWeight(taker), CrossingWeight(taker.Filled(q)));
    assert CrossingWeight(taker)(l[k]) == l[k].remaining;
  }

  lemma {:induction false} SumZero(l: Ledger)
    ensures Sum(l, (o: LimitOrder) => 0) == 0
  {
    if l != [] {
      SumZero(l[..|l| - 1]);
    }
  }

  lemma {:induction false} MatchDone(l: Ledger, taker: LimitOrder, next: int)
    requires AllValid(l) && taker.Valid()
    requires taker.remaining == 0 || BestMaker(l, taker).None?
    ensures Match(l, taker, next) == Execution(l, taker, [], [])
  {
  }

  /** `c` is a later state of an order of the ledger that crosses. */
  ghost predicate TakenFrom(l: Ledger, taker: LimitOrder, c: LimitOrder) {
    exists k | 0 <= k < |l| :: Crosses(taker, l[k]) && SameOrder(l[k], c)
  }

  lemma TakenBeforeFill(l: Ledger, k: nat, taker: LimitOrder, q: int, c: LimitOrder)
    requires Tidy(l) && k < |l| && 0 < q <= l[k].remaining && Crosses(taker, l[k])
    requires TakenFrom(l[k := l[k].Filled(q)], taker.Filled(q), c)
    ensures TakenFrom(l, taker, c)
    ensures q == l[k].remaining ==> TakenElsewhere(l, k, taker, c)
  {
  }

  ghost predicate TakenElsewhere(l: Ledger, k: nat, taker: LimitOrder, c: LimitOrder) {
    exists p | 0 <= p < |l| && p != k :: Crosses(taker, l[p]) && SameOrder(l[p], c)
  }

  ghost predicate AllTakenFrom(l: Ledger, taker: LimitOrder, c: seq<LimitOrder>) {
    forall i | 0 <= i < |c| :: TakenFrom(l, taker, c[i])
  }

  lemma OneMoreTaken(l: Ledger, k: nat, taker: LimitOrder, q: int, rest: seq<LimitOrder>)
    requires Tidy(l) && k < |l| && 0 < q <= l[k].remaining && Crosses(taker, l[k])
    requires AllTakenFrom(l[k := l[k].Filled(q)], taker.Filled(q), rest)
    ensures AllTakenFrom(l, taker, [l[k].Filled(q)] + rest)
  {
  }

  lemma {:induction false} MatchTakesCrossing(l: Ledger, taker: LimitOrder, next: int)
    requires Tidy(l) && taker.Valid()
    ensures AllTakenFrom(l, taker, Match(l, taker, next).changed)
    decreases taker.remaining
  {
    if taker.remaining == 0 || BestMaker(l, taker).None? {
      MatchDone(l, taker, next);
    } else {
      var k, q := MatchStep(l, taker, next);
      MatchTakesCrossing(l[k := l[k].Filled(q)], taker.Filled(q), next + 1);
      OneMoreTaken(l, k, taker, q, Match(l[k := l[k].Filled(q)], taker.Filled(q), next + 1).changed);
    }
  }

  ghost predicate InPriority(side: Side, c: seq<LimitOrder>) {
    forall i, j | 0 <= i < j < |c| :: Outranks(side, c[i], c[j]) && c[i].id != c[j].id
  }

  /** The makers consumed come in strict price-time priority, each at most once. */
  lemma {:induction false} MatchInPriority(l: Ledger, taker: LimitOrder, next: int)
    requires Tidy(l) && taker.Valid()
    ensures InPriority(taker.side, Match(l, taker, next).changed)
    decreases taker.remaining
  {
    if taker.remaining == 0 || BestMaker(l, taker).None? {
      MatchDone(l, taker, next);
    } else {
      var k, q := MatchStep(l, taker, next);
      var l', taker' := l[k := l[k].Filled(q)], taker.Filled(q);
      var rest := Match(l', taker', next + 1).changed;
      MatchInPriority(l', taker', next + 1);
      if taker'.remaining == 0 {
        MatchDone(l', taker', next + 1);
      } else {
        MatchTakesCrossing(l', taker', next + 1);
        forall j | 0 <= j < |rest| ensures Outranks(taker.side, l[k], rest[j]) && l[k].id != rest[j].id {
          TakenBeforeFill(l, k, taker, q, rest[j]);
          HeadOutranks(l, k, taker, rest[j]);
        }
        PriorityCons(taker.side, l[k].Filled(q), rest);
      }
    }
  }

  lemma PriorityCons(side: Side, head: LimitOrder, c: seq<LimitOrder>)
    requires InPriority(side, c)
    requires forall j | 0 <= j < |c| :: Outranks(side, head, c[j]) && head.id != c[j].id
    ensures InPriority(side, [head] + c)
  {
  }

  lemma {:induction false} HeadOutranks(l: Ledger, k: nat, taker: LimitOrder, c: LimitOrder)
    requires Tidy(l) && k < |l| && BestMaker(l, taker) == Some(l[k]) && TakenElsewhere(l, k, taker, c)
    ensures Outranks(taker.side, l[k], c) && l[k].id != c.id
  {
    BestMakerIsFirst(l, taker);
    var p :| 0 <= p < |l| && p != k && Crosses(taker, l[p]) && SameOrder(l[p], c);
    assert l[p].id != l[k].id by {
      assert p < k || k < p;
    }
  }

  /** All of them are filled, but the last one perhaps if the taker ran out. */
  ghost predicate FilledInTurn(changed: seq<LimitOrder>, left: int) {
    forall i | 0 <= i < |changed| :: i < |changed| - 1 || left > 0 ==> changed[i].status == Filled
  }

  lemma FilledInTurnCons(head: LimitOrder, changed: seq<LimitOrder>, left: int)
    requires FilledInTurn(changed, left) && (head.status == Filled || (changed == [] && left == 0))
    ensures FilledInTurn([head] + changed, left)
  {
  }

  /** Every maker consumed but the last is filled, and the last one too unless the taker ran out. */
  lemma {:induction false} MatchFillsAllButLast(l: Ledger, taker: LimitOrder, next: int)
    requires Tidy(l) && taker.Valid()
    ensures FilledInTurn(Match(l, taker, next).changed, Match(l, taker, next).taker.remaining)
    decreases taker.remaining
  {
    if taker.remaining == 0 || BestMaker(l, taker).None? {
      MatchDone(l, taker, next);
    } else {
      var k, q := MatchStep(l, taker, next);
      var l', taker' := l[k := l[k].Filled(q)], taker.Filled(q);
      MatchFillsAllButLast(l', taker', next + 1);
      if taker'.remaining == 0 {
        MatchDone(l', taker', next + 1);
      }
      var rest := Match(l', taker', next + 1);
      FilledInTurnCons(l[k].Filled(q), rest.changed, rest.taker.remaining);
    }
  }

  ghost predicate Consumed(changed: seq<LimitOrder>, m: LimitOrder) {
    exists i | 0 <= i < |changed| :: changed[i].id == m.id
  }

  ghost predicate OutrankedByAll(side: Side, c: seq<LimitOrder>, m: LimitOrder) {
    forall i | 0 <= i < |c| :: Outranks(side, c[i], m)
  }

  /** A crossing order is left alone only by an exhausted taker, and only behind every maker
      consumed: with `MatchInPriority`, the makers consumed are a prefix of priority order. */
  lemma {:induction false} MatchLeavesLowerPriority(l: Ledger, taker: LimitOrder, next: int, p: nat)
    requires Tidy(l) && taker.Valid() && p < |l| && Crosses(taker, l[p])
    ensures var ex := Match(l, taker, next);
            Consumed(ex.changed, l[p]) ||
            (ex.taker.remaining == 0 && OutrankedByAll(taker.side, ex.changed, l[p]))
    decreases taker.remaining
  {
    BestMakerIsFirst(l, taker);
    if taker.remaining == 0 {
      MatchDone(l, taker, next);
    } else {
      var k, q := MatchStep(l, taker, next);
      var l', taker' := l[k := l[k].Filled(q)], taker.Filled(q);
      var rest := Match(l', taker', next + 1).changed;
      if p != k {
        MatchLeavesLowerPriority(l', taker', next + 1, p);
      }
      LeftAloneCons(taker.side, l[k].Filled(q), rest, l[p]);
    }
  }

  lemma LeftAloneCons(side: Side, head: LimitOrder, c: seq<LimitOrder>, m: LimitOrder)
    ensures head.id == m.id || Consumed(c, m) ==> Consumed([head] + c, m)
    ensures Outranks(side, head, m) && OutrankedByAll(side, c, m) ==> OutrankedByAll(side, [head] + c, m)
  {
    var all := [head] + c;
    if head.id == m.id {
      assert all[0].id == m.id;
    } else if Consumed(c, m) {
      var i :| 0 <= i < |c| && c[i].id == m.id;
      assert all[i + 1].id == m.id;
    }
  }

  // ---------------------------------------------------------------- conservation

  ghost function FilledWeight(side: Side): LimitOrder -> int {
    (o: LimitOrder) => if o.side == side then o.quantity - o.remaining else 0
  }

  ghost function FilledOn(l: Ledger, side: Side): int {
    Sum(l, FilledWeight(side))
  }

  lemma UpdateKeepsIds(l: Ledger, k: nat, o: LimitOrder, id: string)
    requires k < |l| && o.id == l[k].id
    ensures HasId(l[k := o], id) <==> HasId(l, id)
  {
    forall i | 0 <= i < |l| ensures l[k := o][i].id == l[i].id {}
  }

  /** Each unit executed for a resting order leaves its remaining quantity, and nothing else does. */
  lemma {:induction false} MatchConservesMaker(l: Ledger, taker: LimitOrder, next: int, i: nat)
    requires Tidy(l) && taker.Valid() && !HasId(l, taker.id) && i < |l|
    ensures var ex := Match(l, taker, next);
            && |ex.ledger| == |l|
            && ex.ledger[i].remaining + TradedFor(ex.trades, l[i].id) == l[i].remaining
    decreases taker.remaining
  {
    if taker.remaining != 0 && BestMaker(l, taker).Some? {
      var k, q := MatchStep(l, taker, next);
      var l' := l[k := l[k].Filled(q)];
      UpdateKeepsIds(l, k, l[k].Filled(q), taker.id);
      MatchConservesMaker(l', taker.Filled(q), next + 1, i);
      TradedForHead(TradeOf(l[k], taker, q, next), Match(l', taker.Filled(q), next + 1).trades, l[i].id);
    }
  }

  lemma {:induction false} TradedForHead(t: Trade, ts: seq<Trade>, id: string)
    ensures TradedFor([t] + ts, id) == (if t.maker == id || t.taker == id then t.quantity else 0) + TradedFor(ts, id)
  {
  }

  /** The taker gives up exactly what was traded; identifiers from elsewhere are not traded. */
  lemma {:induction false} MatchConservesTaker(l: Ledger, taker: LimitOrder, next: int, id: string)
    requires Tidy(l) && taker.Valid() && !HasId(l, id)
    ensures var ex := Match(l, taker, next);
            TradedFor(ex.trades, id) == if id == taker.id then taker.remaining - ex.taker.remaining else 0
    decreases taker.remaining
  {
    if taker.remaining != 0 && BestMaker(l, taker).Some? {
      var k, q := MatchStep(l, taker, next);
      var l' := l[k := l[k].Filled(q)];
      UpdateKeepsIds(l, k, l[k].Filled(q), id);
      MatchConservesTaker(l', taker.Filled(q), next + 1, id);
      TradedForHead(TradeOf(l[k], taker, q, next), Match(l', taker.Filled(q), next + 1).trades, id);
      assert l[k].id != id;
    }
  }

  /** The filled quantity of the makers' side grows by what was traded; the taker's side is
      touched only by the taker itself. */
  lemma {:induction false} MatchConservesSides(l: Ledger, taker: LimitOrder, next: int, side: Side)
    requires Tidy(l) && taker.Valid()
    ensures var ex := Match(l, taker, next);
            FilledOn(ex.ledger, side) == FilledOn(l, side) + if side == taker.side then 0 else Total(ex.trades)
    decreases taker.remaining
  {
    if taker.remaining != 0 && BestMaker(l, taker).Some? {
      var k, q := MatchStep(l, taker, next);
      SumUpdate(l, k, l[k].Filled(q), FilledWeight(side));
      MatchConservesSides(l[k := l[k].Filled(q)], taker.Filled(q), next + 1, side);
    }
  }

  // ---------------------------------------------------------------- in plain terms

  /** Neither an open nor a partially filled order of the other side within the limit: the limit of a
      buy is the most it pays, that of a sell the least it takes. */
  ghost predicate NothingWithinLimit(l: Ledger, side: Side, limit: int) {
    forall i | 0 <= i < |l| && (l[i].status == Open || l[i].status == PartiallyFilled) && l[i].side != side ::
      if side == Buy then l[i].price > limit else l[i].price < limit
  }

  /** The best maker is open, of the other side and within the taker's limit, and of all open orders
      of that side none is cheaper for the taker, and none as cheap is older; there is none exactly
      when no open order of the other side is within the limit. */
  lemma {:induction false} BestMakerInPlainTerms(l: Ledger, taker: LimitOrder)
    requires Sequenced(l)
    ensures BestMaker(l, taker).None? <==> NothingWithinLimit(l, taker.side, taker.price)
    ensures BestMaker(l, taker).Some? ==>
              var m := BestMaker(l, taker).value;
              && m in l && (m.status == Open || m.status == PartiallyFilled) && m.side != taker.side
              && (if taker.side == Buy then m.price <= taker.price else m.price >= taker.price)
              && forall i | 0 <= i < |l| && (l[i].status == Open || l[i].status == PartiallyFilled)
                            && l[i].side != taker.side ::
                   && (if taker.side == Buy then m.price <= l[i].price else m.price >= l[i].price)
                   && (l[i].price == m.price ==> m.sequence <= l[i].sequence)
  {
    BestMakerIsFirst(l, taker);
  }

  /** No trade is worse for the taker than its limit. */
  lemma {:induction false} TradesWithinLimit(l: Ledger, taker: LimitOrder, next: int)
    requires Tidy(l) && taker.Valid()
    ensures forall i | 0 <= i < |Match(l, taker, next).trades| ::
              var price := Match(l, taker, next).trades[i].price;
              if taker.side == Buy then price <= taker.price else price >= taker.price
  {
    MatchTrades(l, taker, next);
    MatchTakesCrossing(l, taker, next);
    var ex := Match(l, taker, next);
    forall i | 0 <= i < |ex.trades|
      ensures if taker.side == Buy then ex.trades[i].price <= taker.price else ex.trades[i].price >= taker.price
    {
      TakenWithinLimit(l, taker, ex.changed[i]);
    }
  }

  lemma TakenWithinLimit(l: Ledger, taker: LimitOrder, c: LimitOrder)
    requires TakenFrom(l, taker, c)
    ensures c.side != taker.side
    ensures if taker.side == Buy then c.price <= taker.price else c.price >= taker.price
  {
  }

  /** A taker with something left leaves nothing within its limit. */
  lemma {:induction false} RestLeavesNothing(l: Ledger, taker: LimitOrder, next: int)
    requires Tidy(l) && taker.Valid() && Match(l, taker, next).taker.remaining > 0
    ensures NothingWithinLimit(Match(l, taker, next).ledger, taker.side, taker.price)
  {
    MatchStops(l, taker, next);
    MatchKeepsTidy(l, taker, next);
    BestMakerInPlainTerms(Match(l, taker, next).ledger, taker);
  }

  /** The prices that a taker pays only get worse, and at one price older orders come first. */
  lemma {:induction false} PricesGetWorse(l: Ledger, taker: LimitOrder, next: int)
    requires Tidy(l) && taker.Valid()
    ensures var c := Match(l, taker, next).changed;
            forall i, j | 0 <= i < j < |c| ::
              && (if taker.side == Buy then c[i].price <= c[j].price else c[i].price >= c[j].price)
              && (c[i].price == c[j].price ==> c[i].sequence < c[j].sequence)
  {
    MatchInPriority(l, taker, next);
    var c := Match(l, taker, next).changed;
    forall i, j | 0 <= i < j < |c| ensures Outranks(taker.side, c[i], c[j]) {}
  }
}
