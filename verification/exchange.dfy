/**
 The engine as a value: a flat ledger, the last accepted order sequence and the next trade
 sequence.  `Submit`, `Cancel` and `Restore` follow the engine's branches and errors; the
 imperative engine is proved against them, and the durable protocol is stated with them.
 */
module Exchange {
  import opened Common
  import opened Orders
  import opened PriceTime
  import opened BookView

  datatype Engine = Engine(ledger: Ledger, last: int, next: int)

  datatype MatchResult = MatchResult(order: LimitOrder, trades: seq<Trade>, changed: seq<LimitOrder>)

  ghost predicate Sound(e: Engine) {
    && Tidy(e.ledger)
    && Uncrossed(e.ledger)
    && (forall i | 0 <= i < |e.ledger| :: e.ledger[i].sequence <= e.last)
    && e.last >= 0
    && e.next >= 1
  }

  ghost predicate IsSnapshot(s: BookSnapshot, e: Engine) {
    IsBook(s.book, e.ledger) && s.lastOrder == e.last && s.lastTrade == e.next - 1
  }

  predicate Fresh(o: LimitOrder) {
    o.status == Open && o.remaining == o.quantity
  }

  predicate HasSequence(l: Ledger, sequence: int) {
    exists i | 0 <= i < |l| :: l[i].sequence == sequence
  }

  function Submit(e: Engine, o: LimitOrder): Result<(Engine, MatchResult), EngineError>
    requires AllValid(e.ledger) && o.Valid()
  {
    if !Fresh(o) then Err(InvalidOrder)
    else if HasId(e.ledger, o.id) then Err(DuplicateOrder)
    else if HasSequence(e.ledger, o.sequence) then Err(DuplicateSequence)
    else if o.sequence <= e.last then Err(OutOfSequence)
    else
      var ex := Match(e.ledger, o, e.next);
      Ok((Engine(ex.ledger + [ex.taker], o.sequence, e.next + |ex.trades|),
          MatchResult(ex.taker, ex.trades, ex.changed)))
  }

  function Cancel(e: Engine, id: string): Result<(Engine, LimitOrder), EngineError> {
    var k := Find(e.ledger, id);
    if k < 0 then Err(UnknownOrder)
    else if !e.ledger[k].IsActive() then Err(OrderNotCancellable)
    else
      var cancelled := e.ledger[k].(status := Cancelled);
      Ok((e.(ledger := Replace(e.ledger, cancelled)), cancelled))
  }

  // ---------------------------------------------------------------- inductive invariant

  /** On a sound engine a valid order is accepted exactly when it is fresh, its identifier is
      new and its sequence lies beyond every accepted one. */
  lemma SubmitAccepts(e: Engine, o: LimitOrder)
    requires Sound(e) && o.Valid()
    ensures Submit(e, o).Ok? <==> Fresh(o) && !HasId(e.ledger, o.id) && o.sequence > e.last
  {
  }

  lemma SameOrdersAppend(l: Ledger, r: Ledger, o: LimitOrder)
    requires SameOrders(l, r)
    ensures |r + [o]| == |l| + 1 && forall i | 0 <= i < |l| :: SameOrder(l[i], (r + [o])[i])
  {
  }

  lemma TakerStatus(o: LimitOrder)
    requires o.Valid() && (o.remaining > 0 ==> o.IsActive())
    ensures o.IsActive() <==> o.remaining > 0
  {
  }

  /** What an accepted submission does to the counters and to every order. */
  ghost predicate Shape(e: Engine, o: LimitOrder, e': Engine, r: MatchResult) {
    && e'.last == o.sequence && e'.next == e.next + |r.trades|
    && e'.ledger == ReplaceAll(e.ledger, r.changed) + [r.order]
    && |e'.ledger| == |e.ledger| + 1
    && (forall i | 0 <= i < |e.ledger| :: SameOrder(e.ledger[i], e'.ledger[i]))
    && r.order.Valid() && SameOrder(o, r.order)
    && (r.order.IsActive() <==> r.order.remaining > 0)
  }

  lemma ExecutionShape(e: Engine, o: LimitOrder, ex: Execution)
    requires ex.ledger == ReplaceAll(e.ledger, ex.changed) && SameOrders(e.ledger, ex.ledger)
    requires ex.taker.Valid() && SameOrder(o, ex.taker) && (ex.taker.remaining > 0 ==> ex.taker.IsActive())
    ensures Shape(e, o, Engine(ex.ledger + [ex.taker], o.sequence, e.next + |ex.trades|),
                  MatchResult(ex.taker, ex.trades, ex.changed))
  {
    SameOrdersAppend(e.ledger, ex.ledger, ex.taker);
    TakerStatus(ex.taker);
  }

  lemma {:induction false} MatchOutcome(l: Ledger, o: LimitOrder, next: int, ex: Execution)
    requires Tidy(l) && o.Valid() && Fresh(o) && ex == Match(l, o, next)
    ensures ex.ledger == ReplaceAll(l, ex.changed) && SameOrders(l, ex.ledger)
    ensures ex.taker.Valid() && SameOrder(o, ex.taker) && (ex.taker.remaining > 0 ==> ex.taker.IsActive())
  {
    MatchReplaces(l, o, next);
    MatchKeepsTidy(l, o, next);
  }

  lemma SubmitExecutes(e: Engine, o: LimitOrder) returns (ex: Execution)
    requires AllValid(e.ledger) && o.Valid() && Submit(e, o).Ok?
    ensures Fresh(o) && ex == Match(e.ledger, o, e.next)
    ensures Submit(e, o).value == (Engine(ex.ledger + [ex.taker], o.sequence, e.next + |ex.trades|),
                                   MatchResult(ex.taker, ex.trades, ex.changed))
  {
    ex := Match(e.ledger, o, e.next);
  }

  lemma SubmitShape(e: Engine, o: LimitOrder)
    requires Tidy(e.ledger) && o.Valid() && Submit(e, o).Ok?
    ensures Shape(e, o, Submit(e, o).value.0, Submit(e, o).value.1)
  {
    var ex := SubmitExecutes(e, o);
    MatchOutcome(e.ledger, o, e.next, ex);
    ExecutionShape(e, o, ex);
  }

  /** Which error a submission meets: the first of four that applies. */
  lemma SubmitErrors(e: Engine, o: LimitOrder)
    requires AllValid(e.ledger) && o.Valid()
    ensures var untouched := o.status == Open && o.remaining == o.quantity;
            var known := exists i | 0 <= i < |e.ledger| :: e.ledger[i].id == o.id;
            var used := exists i | 0 <= i < |e.ledger| :: e.ledger[i].sequence == o.sequence;
            && (Submit(e, o) == Err(InvalidOrder) <==> !untouched)
            && (Submit(e, o) == Err(DuplicateOrder) <==> untouched && known)
            && (Submit(e, o) == Err(DuplicateSequence) <==> untouched && !known && used)
            && (Submit(e, o) == Err(OutOfSequence) <==> untouched && !known && !used && o.sequence <= e.last)
            && (Submit(e, o).Ok? <==> untouched && !known && !used && o.sequence > e.last)
  {
  }

  /** Which error a cancel meets, and what it does otherwise. */
  lemma CancelOutcome(e: Engine, id: string, k: nat)
    requires DistinctIds(e.ledger)
    ensures Cancel(e, id) == Err(UnknownOrder) <==> forall i | 0 <= i < |e.ledger| :: e.ledger[i].id != id
    ensures k < |e.ledger| && e.ledger[k].id == id ==>
              var open := e.ledger[k].status == Open || e.ledger[k].status == PartiallyFilled;
              && (Cancel(e, id) == Err(OrderNotCancellable) <==> !open)
              && (open ==> Cancel(e, id) == Ok((e.(ledger := e.ledger[k := e.ledger[k].(status := Cancelled)]),
                                                e.ledger[k].(status := Cancelled))))
  {
    if k < |e.ledger| && e.ledger[k].id == id {
      var f := Find(e.ledger, id);
      assert f == k by {
        assert f < k || k < f || f == k;
      }
      var cancelled := e.ledger[k].(status := Cancelled);
      assert Replace(e.ledger, cancelled) == e.ledger[k := cancelled];
    }
  }

  /** What an accepted submission does, in plain terms: no trade is worse than the order's limit, and
      an order with something left leaves nothing within it. */
  lemma SubmitWithinLimit(e: Engine, o: LimitOrder)
    requires Sound(e) && o.Valid() && Submit(e, o).Ok?
    ensures var (e', r) := Submit(e, o).value;
            && (forall i | 0 <= i < |r.trades| ::
                  if o.side == Buy then r.trades[i].price <= o.price else r.trades[i].price >= o.price)
            && (r.order.remaining > 0 ==> NothingWithinLimit(e'.ledger, o.side, o.price))
  {
    var ex := SubmitExecutes(e, o);
    TradesWithinLimit(e.ledger, o, e.next);
    MatchKeepsTidy(e.ledger, o, e.next);
    if ex.taker.remaining > 0 {
      RestLeavesNothing(e.ledger, o, e.next);
    }
  }

  lemma SubmitKeepsTidy(e: Engine, o: LimitOrder)
    requires Sound(e) && o.Valid() && Submit(e, o).Ok?
    ensures Tidy(Submit(e, o).value.0.ledger)
    ensures forall i | 0 <= i < |Submit(e, o).value.0.ledger| :: Submit(e, o).value.0.ledger[i].sequence <= o.sequence
  {
    var ex := Match(e.ledger, o, e.next);
    MatchKeepsTidy(e.ledger, o, e.next);
    AppendKeepsTidy(ex.ledger, ex.taker, e.last);
  }

  lemma {:induction false} ExecutionKeepsUncrossed(e: Engine, o: LimitOrder, ex: Execution)
    requires Sound(e) && o.Valid() && ex == Match(e.ledger, o, e.next)
    ensures Uncrossed(ex.ledger + [ex.taker])
  {
    MatchKeepsTidy(e.ledger, o, e.next);
    MatchKeepsUncrossed(e.ledger, o, e.next);
    MatchStops(e.ledger, o, e.next);
    SameTakerSameMaker(ex.ledger, ex.taker, o);
    BestMakerIsFirst(ex.ledger, ex.taker);
    AppendKeepsUncrossed(ex.ledger, ex.taker);
  }

  lemma SubmitKeepsUncrossed(e: Engine, o: LimitOrder)
    requires Sound(e) && o.Valid() && Submit(e, o).Ok?
    ensures Uncrossed(Submit(e, o).value.0.ledger)
  {
    var ex := SubmitExecutes(e, o);
    ExecutionKeepsUncrossed(e, o, ex);
  }

  /** Accepted submissions keep the engine sound, whatever they execute. */
  lemma SubmitKeepsSound(e: Engine, o: LimitOrder)
    requires Sound(e) && o.Valid() && Submit(e, o).Ok?
    ensures var (e', r) := Submit(e, o).value;
            && Sound(e') && e'.last == o.sequence && e'.next == e.next + |r.trades|
            && e'.ledger == ReplaceAll(e.ledger, r.changed) + [r.order]
            && |e'.ledger| == |e.ledger| + 1
            && (forall i | 0 <= i < |e.ledger| :: SameOrder(e.ledger[i], e'.ledger[i]))
            && r.order.Valid() && SameOrder(o, r.order)
            && (r.order.IsActive() <==> r.order.remaining > 0)
  {
    SubmitShape(e, o);
    SubmitKeepsTidy(e, o);
    SubmitKeepsUncrossed(e, o);
  }

  /** The trades of a submission continue the engine's numbering without gaps. */
  lemma SubmitNumbersTrades(e: Engine, o: LimitOrder)
    requires Sound(e) && o.Valid() && Submit(e, o).Ok?
    ensures var r := Submit(e, o).value.1;
            forall i | 0 <= i < |r.trades| :: r.trades[i].sequence == e.next + i
  {
    MatchTrades(e.ledger, o, e.next);
  }

  lemma AppendKeepsTidy(l: Ledger, o: LimitOrder, last: int)
    requires Tidy(l) && o.Valid() && o.sequence > last
    requires forall i | 0 <= i < |l| :: l[i].sequence <= last && l[i].id != o.id
    ensures Tidy(l + [o])
  {
  }

  lemma AppendKeepsUncrossed(l: Ledger, o: LimitOrder)
    requires Uncrossed(l)
    requires o.IsActive() ==> forall i | 0 <= i < |l| :: !Crosses(o, l[i])
    ensures Uncrossed(l + [o])
  {
  }

  lemma {:induction false} CancelKeepsSound(e: Engine, id: string)
    requires Sound(e) && Cancel(e, id).Ok?
    ensures var (e', o) := Cancel(e, id).value;
            var k := Find(e.ledger, id);
            && Sound(e') && o.Valid() && o.status == Cancelled && o.id == id
            && e'.ledger == e.ledger[k := o] && e'.ledger == Replace(e.ledger, o)
            && SameOrder(e.ledger[k], o) && e.ledger[k].IsActive()
            && e'.last == e.last && e'.next == e.next
  {
    var k := Find(e.ledger, id);
    ReplaceKeepsTidy(e.ledger, k, e.ledger[k].(status := Cancelled));
  }

  // ---------------------------------------------------------------- restoring

  function Insert(o: LimitOrder, l: Ledger): (r: Ledger)
    ensures |r| == |l| + 1
  {
    if l == [] then [o]
    else if o.sequence < l[|l| - 1].sequence then Insert(o, l[..|l| - 1]) + [l[|l| - 1]]
    else l + [o]
  }

  /** A stable sort by creation sequence. */
  function SortBySequence(l: Ledger): Ledger {
    if l == [] then [] else Insert(l[|l| - 1], SortBySequence(l[..|l| - 1]))
  }

  function Load(e: Engine, orders: Ledger): Result<Engine, EngineError>
    decreases |orders|
  {
    if orders == [] then Ok(e)
    else if !orders[0].IsActive() then Err(InvalidOrder)
    else if HasId(e.ledger, orders[0].id) then Err(DuplicateOrder)
    else if HasSequence(e.ledger, orders[0].sequence) then Err(DuplicateSequence)
    else Load(Engine(e.ledger + [orders[0]], Max(e.last, orders[0].sequence), e.next), orders[1..])
  }

  ghost function Restore(active: Ledger, next: int): Result<Engine, EngineError> {
    if next <= 0 then Err(InvalidOrder)
    else
      var loaded :- Load(Engine([], 0, next), SortBySequence(active));
      if !Uncrossed(loaded.ledger) then Err(BookInvariant) else Ok(loaded)
  }

  ghost predicate AllActive(l: Ledger) {
    forall i | 0 <= i < |l| :: l[i].IsActive()
  }

  ghost predicate WeaklySequenced(l: Ledger) {
    forall i, j | 0 <= i < j < |l| :: l[i].sequence <= l[j].sequence
  }

  lemma {:induction false} InsertKeepsRows(o: LimitOrder, l: Ledger)
    ensures multiset(Insert(o, l)) == multiset(l) + multiset{o}
  {
    if l != [] && o.sequence < l[|l| - 1].sequence {
      InsertKeepsRows(o, l[..|l| - 1]);
      MultisetLast(l);
    }
  }

  lemma {:induction false} InsertedFrom(o: LimitOrder, l: Ledger, i: nat)
    requires i < |Insert(o, l)|
    ensures Insert(o, l)[i] in l || Insert(o, l)[i] == o
  {
    InsertKeepsRows(o, l);
    assert Insert(o, l)[i] in multiset(Insert(o, l));
  }

  lemma {:induction false} InsertSorts(o: LimitOrder, l: Ledger)
    requires WeaklySequenced(l)
    ensures WeaklySequenced(Insert(o, l))
  {
    if l != [] && o.sequence < l[|l| - 1].sequence {
      var init, last := l[..|l| - 1], l[|l| - 1];
      InsertSorts(o, init);
      forall i | 0 <= i < |Insert(o, init)| ensures Insert(o, init)[i].sequence <= last.sequence {
        InsertedFrom(o, init, i);
      }
    }
  }

  lemma MultisetLast(l: Ledger)
    requires l != []
    ensures multiset(l) == multiset(l[..|l| - 1]) + multiset{l[|l| - 1]}
  {
    assert l == l[..|l| - 1] + [l[|l| - 1]];
  }

  lemma MultisetFirst(l: Ledger)
    requires l != []
    ensures multiset(l[1..]) == multiset(l) - multiset{l[0]}
  {
    assert l == [l[0]] + l[1..];
  }

  lemma {:induction false} SortSorts(l: Ledger)
    ensures WeaklySequenced(SortBySequence(l)) && multiset(SortBySequence(l)) == multiset(l)
  {
    if l != [] {
      SortSorts(l[..|l| - 1]);
      InsertSorts(l[|l| - 1], SortBySequence(l[..|l| - 1]));
      InsertKeepsRows(l[|l| - 1], SortBySequence(l[..|l| - 1]));
      MultisetLast(l);
    }
  }

  lemma {:induction false} SortOfSorted(l: Ledger)
    requires WeaklySequenced(l)
    ensures SortBySequence(l) == l
  {
    if l != [] {
      SortOfSorted(l[..|l| - 1]);
      assert l == l[..|l| - 1] + [l[|l| - 1]];
    }
  }

  ghost predicate Loads(l: Ledger, m: Ledger) {
    && AllActive(m)
    && (forall i, j | 0 <= i < |l| && 0 <= j < |m| :: l[i].id != m[j].id && l[i].sequence != m[j].sequence)
    && (forall i, j | 0 <= i < j < |m| :: m[i].id != m[j].id && m[i].sequence != m[j].sequence)
  }

  lemma {:induction false} LoadAccepts(e: Engine, m: Ledger)
    ensures Load(e, m).Ok? <==> Loads(e.ledger, m)
    ensures Load(e, m).Ok? ==> Load(e, m).value.ledger == e.ledger + m && Load(e, m).value.next == e.next
    decreases |m|
  {
    if m != [] {
      var e' := Engine(e.ledger + [m[0]], Max(e.last, m[0].sequence), e.next);
      LoadAccepts(e', m[1..]);
      assert m == [m[0]] + m[1..];
      if m[0].IsActive() && !HasId(e.ledger, m[0].id) && !HasSequence(e.ledger, m[0].sequence) {
        assert (e.ledger + [m[0]]) + m[1..] == e.ledger + m;
        LoadsCons(e.ledger, m);
      } else if HasId(e.ledger, m[0].id) {
        var i :| 0 <= i < |e.ledger| && e.ledger[i].id == m[0].id;
      } else if HasSequence(e.ledger, m[0].sequence) {
        var i :| 0 <= i < |e.ledger| && e.ledger[i].sequence == m[0].sequence;
      }
    }
  }

  lemma LoadsCons(l: Ledger, m: Ledger)
    requires m != [] && m[0].IsActive() && !HasId(l, m[0].id) && !HasSequence(l, m[0].sequence)
    ensures Loads(l, m) <==> Loads(l + [m[0]], m[1..])
  {
    var l', t := l + [m[0]], m[1..];
    if Loads(l', t) {
      assert l'[|l|] == m[0];
      forall i, j | 0 <= i < |l| && 0 <= j < |m| ensures l[i].id != m[j].id && l[i].sequence != m[j].sequence {
        assert l'[i] == l[i];
        if j > 0 {
          assert t[j - 1] == m[j];
        }
      }
      forall i, j | 0 <= i < j < |m| ensures m[i].id != m[j].id && m[i].sequence != m[j].sequence {
        assert t[j - 1] == m[j];
        if i > 0 {
          assert t[i - 1] == m[i];
        }
      }
      forall j | 0 <= j < |m| ensures m[j].IsActive() {
        if j > 0 {
          assert t[j - 1] == m[j];
        }
      }
    }
  }

  lemma {:induction false} LoadLast(e: Engine, m: Ledger, bound: int)
    requires Load(e, m).Ok? && e.last <= bound
    requires forall i | 0 <= i < |m| :: m[i].sequence <= bound
    ensures e.last <= Load(e, m).value.last <= bound
    ensures forall i | 0 <= i < |m| :: m[i].sequence <= Load(e, m).value.last
    decreases |m|
  {
    if m != [] {
      LoadLast(Engine(e.ledger + [m[0]], Max(e.last, m[0].sequence), e.next), m[1..], bound);
    }
  }

  function Bound(l: Ledger): (b: int)
    ensures b >= 0 && forall i | 0 <= i < |l| :: l[i].sequence <= b
  {
    if l == [] then 0
    else
      var b := Bound(l[..|l| - 1]);
      assert forall i | 0 <= i < |l| - 1 :: l[i] == l[..|l| - 1][i];
      Max(l[|l| - 1].sequence, b)
  }

  ghost predicate Restorable(l: Ledger) {
    AllActive(l) && Tidy(l) && Uncrossed(l)
  }

  lemma LoadsWhenSorted(m: Ledger)
    requires WeaklySequenced(m) && AllValid(m)
    ensures Loads([], m) <==> AllActive(m) && Tidy(m)
  {
  }

  /** Loading sorted rows into a new engine succeeds exactly for active orders in a tidy ledger. */
  lemma {:induction false} LoadSorted(m: Ledger, next: int)
    requires WeaklySequenced(m) && AllValid(m)
    ensures var loaded := Load(Engine([], 0, next), m);
            && (loaded.Ok? <==> AllActive(m) && Tidy(m))
            && (loaded.Ok? ==>
                  && loaded.value.ledger == m && loaded.value.next == next && loaded.value.last >= 0
                  && forall i | 0 <= i < |m| :: m[i].sequence <= loaded.value.last)
  {
    var start := Engine([], 0, next);
    LoadsWhenSorted(m);
    LoadAccepts(start, m);
    assert start.ledger + m == m;
    if Load(start, m).Ok? {
      LoadLast(start, m, Bound(m));
    }
  }

  lemma {:induction false} SortKeepsValid(l: Ledger)
    requires AllValid(l)
    ensures AllValid(SortBySequence(l))
  {
    var sorted := SortBySequence(l);
    SortSorts(l);
    forall i | 0 <= i < |sorted| ensures sorted[i].Valid() {
      assert sorted[i] in multiset(l);
    }
  }

  /** Restoring succeeds exactly when the rows, put in sequence order, are active orders with
      distinct identifiers and sequences and do not cross; the result is then a sound engine
      holding exactly those rows. */
  lemma {:induction false} RestoreAccepts(active: Ledger, next: int)
    requires AllValid(active)
    ensures Restore(active, next).Ok? <==> next > 0 && Restorable(SortBySequence(active))
    ensures Restore(active, next).Ok? ==>
              var e := Restore(active, next).value;
              && Sound(e) && e.ledger == SortBySequence(active) && e.next == next
              && multiset(e.ledger) == multiset(active)
  {
    SortSorts(active);
    SortKeepsValid(active);
    LoadSorted(SortBySequence(active), next);
  }

  /** Where loading stops, and with which error: at the first row that is not open, or that repeats an
      identifier or a sequence. */
  lemma {:induction false} LoadError(e: Engine, m: Ledger) returns (k: nat)
    requires Load(e, m).Err?
    ensures k < |m| && Loads(e.ledger, m[..k])
    ensures var open := m[k].status == Open || m[k].status == PartiallyFilled;
            var known := HasId(e.ledger + m[..k], m[k].id);
            && (Load(e, m).error == InvalidOrder <==> !open)
            && (Load(e, m).error == DuplicateOrder <==> open && known)
            && (Load(e, m).error == DuplicateSequence <==> open && !known)
            && (open && !known ==> HasSequence(e.ledger + m[..k], m[k].sequence))
    decreases |m|
  {
    if !m[0].IsActive() || HasId(e.ledger, m[0].id) || HasSequence(e.ledger, m[0].sequence) {
      k := 0;
      assert e.ledger + m[..0] == e.ledger;
    } else {
      k := LoadError(Engine(e.ledger + [m[0]], Max(e.last, m[0].sequence), e.next), m[1..]);
      assert m[1..][..k] == m[..k + 1][1..];
      LoadsCons(e.ledger, m[..k + 1]);
      assert e.ledger + [m[0]] + m[1..][..k] == e.ledger + m[..k + 1];
      k := k + 1;
    }
  }

  /** A restore that loads all its rows fails only on a crossed book, or on its trade sequence. */
  lemma {:induction false} RestoreError(active: Ledger, next: int)
    requires Restore(active, next).Err?
    ensures next <= 0 ==> Restore(active, next).error == InvalidOrder
    ensures next > 0 && Load(Engine([], 0, next), SortBySequence(active)).Ok? ==>
              Restore(active, next).error == BookInvariant
    ensures next > 0 && Load(Engine([], 0, next), SortBySequence(active)).Err? ==>
              Restore(active, next).error == Load(Engine([], 0, next), SortBySequence(active)).error
  {
  }

  lemma RestoreOfRestorable(active: Ledger, next: int, bound: int)
    requires Restorable(active) && next > 0 && bound >= 0
    requires forall i | 0 <= i < |active| :: active[i].sequence <= bound
    ensures Restore(active, next).Ok?
    ensures var e := Restore(active, next).value;
            Sound(e) && e.ledger == active && e.next == next && e.last <= bound
  {
    SortOfSorted(active);
    RestoreAccepts(active, next);
    assert Load(Engine([], 0, next), active).Ok?;
    LoadLast(Engine([], 0, next), active, bound);
  }

  /** The order in which rows are handed over does not matter, whether they are accepted or not;
      only which error is reported may depend on it, and only when two rows share a sequence. */
  lemma RestoreIgnoresInputOrder(a: Ledger, b: Ledger, next: int)
    requires multiset(a) == multiset(b)
    ensures Restore(a, next).Ok? || Restore(b, next).Ok? || DistinctSequences(a) ==>
              Restore(a, next) == Restore(b, next)
  {
    if Restore(a, next).Ok? {
      RestoredSequencesAreDistinct(a, next);
      DistinctRowsRestoreAlike(a, b, next);
    } else if Restore(b, next).Ok? {
      RestoredSequencesAreDistinct(b, next);
      DistinctRowsRestoreAlike(b, a, next);
    } else if DistinctSequences(a) {
      DistinctRowsRestoreAlike(a, b, next);
    }
  }

  ghost predicate DistinctSequences(l: Ledger) {
    forall i, j | 0 <= i < j < |l| :: l[i].sequence != l[j].sequence
  }

  lemma RestoredSequencesAreDistinct(a: Ledger, next: int)
    requires Restore(a, next).Ok?
    ensures DistinctSequences(a)
  {
    var s := SortBySequence(a);
    SortSorts(a);
    LoadAccepts(Engine([], 0, next), s);
    forall i, j | 0 <= i < j < |a| ensures a[i].sequence != a[j].sequence {
      if a[i].sequence == a[j].sequence {
        assert a[i] in multiset(s) && a[j] in multiset(s);
        var x :| 0 <= x < |s| && s[x] == a[i];
        var y :| 0 <= y < |s| && s[y] == a[j];
        assert x == y;
        TwiceInMultiset(a, i, j);
        OnceInMultiset(s, x);
        assert false;
      }
    }
  }

  lemma DistinctRowsRestoreAlike(a: Ledger, b: Ledger, next: int)
    requires multiset(a) == multiset(b) && DistinctSequences(a)
    ensures Restore(a, next) == Restore(b, next)
  {
    SortSorts(a);
    SortSorts(b);
    DistinctAfterSort(a, SortBySequence(a));
    DistinctAfterSort(a, SortBySequence(b));
    SortedIsUnique(SortBySequence(a), SortBySequence(b));
  }

  lemma {:induction false} DistinctAfterSort(a: Ledger, s: Ledger)
    requires multiset(a) == multiset(s) && WeaklySequenced(s) && DistinctSequences(a)
    ensures Sequenced(s)
  {
    forall i, j | 0 <= i < j < |s| ensures s[i].sequence < s[j].sequence {
      assert s[i] in multiset(a) && s[j] in multiset(a);
      var x :| 0 <= x < |a| && a[x] == s[i];
      var y :| 0 <= y < |a| && a[y] == s[j];
      OnceInMultiset(a, x);
      if s[i] == s[j] {
        TwiceInMultiset(s, i, j);
      }
      assert x != y;
    }
  }

  lemma TwiceInMultiset(s: Ledger, i: nat, j: nat)
    requires i < j < |s| && s[i] == s[j]
    ensures multiset(s)[s[i]] >= 2
  {
    assert s == s[..i] + [s[i]] + s[i + 1..j] + [s[j]] + s[j + 1..];
  }

  lemma OnceInMultiset(a: Ledger, x: nat)
    requires x < |a| && DistinctSequences(a)
    ensures multiset(a)[a[x]] == 1
  {
    assert a == a[..x] + [a[x]] + a[x + 1..];
    assert a[x] !in a[..x] && a[x] !in a[x + 1..];
    assert multiset(a[..x])[a[x]] == 0 && multiset(a[x + 1..])[a[x]] == 0;
  }

  lemma SameHead(a: Ledger, b: Ledger)
    requires Sequenced(a) && Sequenced(b) && multiset(a) == multiset(b) && a != []
    ensures b != [] && a[0] == b[0]
  {
    assert a[0] in multiset(b);
    assert b[0] in multiset(a);
  }

  lemma {:induction false} SortedIsUnique(a: Ledger, b: Ledger)
    requires Sequenced(a) && Sequenced(b) && multiset(a) == multiset(b)
    ensures a == b
  {
    if a == [] {
      assert |multiset(b)| == 0;
    } else {
      SameHead(a, b);
      MultisetFirst(a);
      MultisetFirst(b);
      SortedIsUnique(a[1..], b[1..]);
      assert a == [a[0]] + a[1..] && b == [b[0]] + b[1..];
    }
  }
}
