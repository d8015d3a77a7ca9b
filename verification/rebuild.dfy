/**
 Rebuilding from the active rows: the processor throws its engine away after every command and
 restores another one that has forgotten all terminal orders.  The two engines are bisimilar.
 */
module Rebuild {
  import opened Common
  import opened Orders
  import opened PriceTime
  import opened BookView
  import opened Exchange

  datatype Op = SubmitOp(order: LimitOrder) | CancelOp(id: string)

  datatype Reply =
    | Executed(changed: seq<LimitOrder>, trades: seq<Trade>)
    | Refused(error: EngineError)

  /** One operation on an engine; the changed orders end with the submitted or cancelled one. */
  ghost function Step(e: Engine, op: Op): (r: (Engine, Reply))
    requires Sound(e) && (op.SubmitOp? ==> op.order.Valid())
    ensures Sound(r.0)
  {
    match op
    case SubmitOp(o) =>
      (match Submit(e, o)
       case Err(error) => (e, Refused(error))
       case Ok((e', result)) =>
         SubmitKeepsSound(e, o);
         (e', Executed(result.changed + [result.order], result.trades)))
    case CancelOp(id) =>
      (match Cancel(e, id)
       case Err(error) => (e, Refused(error))
       case Ok((e', cancelled)) =>
         CancelKeepsSound(e, id);
         (e', Executed([cancelled], [])))
  }

  /** The long-lived engine `l` and an engine `r` that may have forgotten terminal orders. */
  ghost predicate Linked(l: Engine, r: Engine) {
    && Sound(l) && Sound(r)
    && Active(l.ledger) == Active(r.ledger)
    && l.next == r.next
    && r.last <= l.last
    && IdsWithin(r.ledger, l.ledger)
  }

  ghost predicate IdsWithin(r: Ledger, l: Ledger) {
    forall i | 0 <= i < |r| :: HasId(l, r[i].id)
  }

  lemma IdsWithinLater(r: Ledger, l: Ledger, r': Ledger, l': Ledger)
    requires IdsWithin(r, l)
    requires |r| <= |r'| && (forall i | 0 <= i < |r| :: r'[i].id == r[i].id)
    requires |l| <= |l'| && (forall i | 0 <= i < |l| :: l'[i].id == l[i].id)
    requires forall i | |r| <= i < |r'| :: HasId(l', r'[i].id)
    ensures IdsWithin(r', l')
  {
  }

  lemma SubmitAgrees(l: Engine, r: Engine, o: LimitOrder)
    requires Linked(l, r) && Admissible(l, SubmitOp(o))
    ensures Submit(l, o).Ok? && Submit(r, o).Ok?
    ensures Submit(l, o).value.1 == Submit(r, o).value.1
    ensures Active(Submit(l, o).value.0.ledger) == Active(Submit(r, o).value.0.ledger)
  {
    SubmitAccepts(l, o);
    assert !HasId(r.ledger, o.id);
    SubmitAccepts(r, o);
    MatchSeesActiveOnly(l.ledger, r.ledger, o, l.next);
    var a, b := Match(l.ledger, o, l.next), Match(r.ledger, o, r.next);
    ActiveAppend(a.ledger, a.taker);
    ActiveAppend(b.ledger, b.taker);
  }

  /** What the journal guarantees of the next operation: new identifiers, rising sequences. */
  ghost predicate Admissible(l: Engine, op: Op) {
    op.SubmitOp? ==>
      && op.order.Valid() && Fresh(op.order)
      && !HasId(l.ledger, op.order.id)
      && op.order.sequence > l.last
  }

  predicate SameUpToClass(a: Reply, b: Reply) {
    a == b || (a.Refused? && b.Refused?)
  }

  /** The rebuilt engine is linked to the one it replaces; rebuilding never fails. */
  lemma RebuiltIsLinked(l: Engine)
    requires Sound(l)
    ensures Restore(Active(l.ledger), l.next).Ok?
    ensures Linked(l, Restore(Active(l.ledger), l.next).value)
    ensures Restore(Active(l.ledger), l.next).value.ledger == Active(l.ledger)
  {
    ActiveIsTidy(l.ledger);
    forall i | 0 <= i < |Active(l.ledger)|
      ensures Active(l.ledger)[i].IsActive() && Active(l.ledger)[i] in l.ledger
    {
      ActiveMembers(l.ledger, Active(l.ledger)[i]);
    }
    RestoreOfRestorable(Active(l.ledger), l.next, l.last);
  }

  /** An accepted submission appends the order and keeps every identifier where it was. */
  lemma SubmitGrows(e: Engine, o: LimitOrder)
    requires Sound(e) && o.Valid() && Submit(e, o).Ok?
    ensures var e' := Submit(e, o).value.0;
            && Sound(e') && e'.last == o.sequence && e'.next == e.next + |Submit(e, o).value.1.trades|
            && |e'.ledger| == |e.ledger| + 1 && e'.ledger[|e.ledger|].id == o.id
            && (forall i | 0 <= i < |e.ledger| :: e'.ledger[i].id == e.ledger[i].id)
  {
    SubmitKeepsSound(e, o);
  }

  lemma SubmitStep(e: Engine, o: LimitOrder)
    requires Sound(e) && o.Valid() && Submit(e, o).Ok?
    ensures var (e', r) := Submit(e, o).value;
            Step(e, SubmitOp(o)) == (e', Executed(r.changed + [r.order], r.trades))
  {
  }

  lemma SubmitStaysLinked(l: Engine, r: Engine, o: LimitOrder)
    requires Linked(l, r) && o.Valid() && Submit(l, o).Ok? && Submit(r, o).Ok?
    requires Submit(l, o).value.1 == Submit(r, o).value.1
    requires Active(Submit(l, o).value.0.ledger) == Active(Submit(r, o).value.0.ledger)
    ensures Linked(Submit(l, o).value.0, Submit(r, o).value.0)
  {
    SubmitGrows(l, o);
    SubmitGrows(r, o);
    var l', r' := Submit(l, o).value.0, Submit(r, o).value.0;
    assert HasId(l'.ledger, o.id) by {
      assert l'.ledger[|l.ledger|].id == o.id;
    }
    IdsWithinLater(r.ledger, l.ledger, r'.ledger, l'.ledger);
  }

  lemma SubmitLinked(l: Engine, r: Engine, o: LimitOrder)
    requires Linked(l, r) && Admissible(l, SubmitOp(o))
    ensures Step(l, SubmitOp(o)).1.Executed?
    ensures Step(l, SubmitOp(o)).1 == Step(r, SubmitOp(o)).1
    ensures Linked(Step(l, SubmitOp(o)).0, Step(r, SubmitOp(o)).0)
  {
    SubmitAgrees(l, r, o);
    SubmitStep(l, o);
    SubmitStep(r, o);
    SubmitStaysLinked(l, r, o);
  }

  lemma CancelStays(e: Engine, id: string)
    requires Sound(e) && Cancel(e, id).Ok?
    ensures var e' := Cancel(e, id).value.0;
            && Sound(e') && e'.last == e.last && e'.next == e.next
            && |e'.ledger| == |e.ledger| && (forall i | 0 <= i < |e.ledger| :: e'.ledger[i].id == e.ledger[i].id)
  {
    CancelKeepsSound(e, id);
  }

  lemma CancelAgrees(l: Engine, r: Engine, id: string)
    requires Linked(l, r)
    ensures Cancel(l, id).Ok? <==> Cancel(r, id).Ok?
    ensures Cancel(l, id).Ok? ==>
              && Cancel(l, id).value.1 == Cancel(r, id).value.1
              && Active(Cancel(l, id).value.0.ledger) == Active(Cancel(r, id).value.0.ledger)
  {
    FindActive(l.ledger, id);
    FindActive(r.ledger, id);
    if Cancel(l, id).Ok? {
      var o := Cancel(l, id).value.1;
      ActiveOfReplace(l.ledger, o);
      ActiveOfReplace(r.ledger, o);
    }
  }

  lemma CancelLinked(l: Engine, r: Engine, id: string)
    requires Linked(l, r)
    ensures SameUpToClass(Step(l, CancelOp(id)).1, Step(r, CancelOp(id)).1)
    ensures Linked(Step(l, CancelOp(id)).0, Step(r, CancelOp(id)).0)
  {
    CancelAgrees(l, r, id);
    if Cancel(l, id).Ok? {
      CancelStays(l, id);
      CancelStays(r, id);
      IdsWithinLater(r.ledger, l.ledger, Cancel(r, id).value.0.ledger, Cancel(l, id).value.0.ledger);
    }
  }

  /** Whether an identifier names an active order, and which, shows in the active view alone. */
  lemma {:induction false} FindActive(l: Ledger, id: string)
    requires Tidy(l)
    ensures Find(l, id) >= 0 && l[Find(l, id)].IsActive() <==> HasId(Active(l), id)
    ensures HasId(Active(l), id) ==>
              Find(Active(l), id) >= 0 && Active(l)[Find(Active(l), id)] == l[Find(l, id)] && OnlyActive(l, id)
  {
    var k := Find(l, id);
    if k >= 0 {
      ActiveMembers(l, l[k]);
      if l[k].IsActive() {
        var j :| 0 <= j < |Active(l)| && Active(l)[j] == l[k];
        assert Active(l)[j].id == id;
      }
    }
    if HasId(Active(l), id) {
      var f := Find(Active(l), id);
      ActiveMembers(l, Active(l)[f]);
      var i :| 0 <= i < |l| && l[i] == Active(l)[f];
      assert i == k;
    }
  }

  lemma StepLinked(l: Engine, r: Engine, op: Op)
    requires Linked(l, r) && Admissible(l, op)
    ensures SameUpToClass(Step(l, op).1, Step(r, op).1)
    ensures Linked(Step(l, op).0, Step(r, op).0)
  {
    match op
    case SubmitOp(o) => SubmitLinked(l, r, o);
    case CancelOp(id) => CancelLinked(l, r, id);
  }

  // ---------------------------------------------------------------- whole runs

  ghost predicate AdmissibleRun(l: Engine, ops: seq<Op>)
    requires Sound(l)
    decreases |ops|
  {
    ops == [] || (Admissible(l, ops[0]) && AdmissibleRun(Step(l, ops[0]).0, ops[1..]))
  }

  ghost predicate Orderly(ops: seq<Op>) {
    forall i | 0 <= i < |ops| :: ops[i].SubmitOp? ==> ops[i].order.Valid()
  }

  ghost function Run(e: Engine, ops: seq<Op>): (r: (Engine, seq<Reply>))
    requires Sound(e) && Orderly(ops)
    ensures Sound(r.0) && |r.1| == |ops|
    decreases |ops|
  {
    if ops == [] then (e, [])
    else
      var (e', reply) := Step(e, ops[0]);
      var (final, replies) := Run(e', ops[1..]);
      (final, [reply] + replies)
  }

  ghost predicate AgreeUpToClass(a: seq<Reply>, b: seq<Reply>) {
    |a| == |b| && forall i | 0 <= i < |a| :: SameUpToClass(a[i], b[i])
  }

  lemma OneMoreReply(x: Reply, a: seq<Reply>, y: Reply, b: seq<Reply>)
    requires SameUpToClass(x, y) && AgreeUpToClass(a, b)
    ensures AgreeUpToClass([x] + a, [y] + b)
  {
  }

  lemma RunFirst(e: Engine, ops: seq<Op>) returns (e': Engine, reply: Reply, rest: (Engine, seq<Reply>))
    requires Sound(e) && Orderly(ops) && ops != []
    ensures (e', reply) == Step(e, ops[0]) && Sound(e') && Orderly(ops[1..])
    ensures rest == Run(e', ops[1..]) && Run(e, ops) == (rest.0, [reply] + rest.1)
  {
    var s := Step(e, ops[0]);
    e', reply := s.0, s.1;
    rest := Run(e', ops[1..]);
  }

  lemma {:induction false} RunLinked(l: Engine, r: Engine, ops: seq<Op>)
    requires Linked(l, r) && AdmissibleRun(l, ops) && Orderly(ops)
    ensures Linked(Run(l, ops).0, Run(r, ops).0)
    ensures AgreeUpToClass(Run(l, ops).1, Run(r, ops).1)
    decreases |ops|
  {
    if ops != [] {
      StepLinked(l, r, ops[0]);
      var l', x, after := RunFirst(l, ops);
      var r', y, other := RunFirst(r, ops);
      RunLinked(l', r', ops[1..]);
      OneMoreReply(x, after.1, y, other.1);
    }
  }

  /** An engine restored from the active orders answers every future run like the engine it
      replaces (same changed orders, trades and acceptance), and ends with the same active orders,
      hence the same book. */
  lemma {:induction false} RestoreBisimulation(l: Engine, ops: seq<Op>)
    requires Sound(l) && AdmissibleRun(l, ops) && Orderly(ops)
    ensures Restore(Active(l.ledger), l.next).Ok?
    ensures var r := Restore(Active(l.ledger), l.next).value;
            && Sound(r)
            && (forall i | 0 <= i < |ops| :: SameUpToClass(Run(l, ops).1[i], Run(r, ops).1[i]))
            && Run(l, ops).0.next == Run(r, ops).0.next
            && Active(Run(l, ops).0.ledger) == Active(Run(r, ops).0.ledger)
            && forall b :: IsBook(b, Run(l, ops).0.ledger) <==> IsBook(b, Run(r, ops).0.ledger)
  {
    RebuiltIsLinked(l);
    var r := Restore(Active(l.ledger), l.next).value;
    RunLinked(l, r, ops);
    forall b ensures IsBook(b, Run(l, ops).0.ledger) <==> IsBook(b, Run(r, ops).0.ledger) {
      BookOfActive(b, Run(l, ops).0.ledger);
      BookOfActive(b, Run(r, ops).0.ledger);
    }
  }

  /** The one observable difference, exactly: a freshly restored engine refuses every cancel
      as unknown, so the class differs from the long-lived engine's if and only if the
      identifier names an order that is known there but terminal. */
  lemma {:induction false} RefusalClass(l: Engine, id: string)
    requires Sound(l)
    ensures Restore(Active(l.ledger), l.next).Ok?
    ensures var r := Restore(Active(l.ledger), l.next).value;
            && (Cancel(r, id).Err? ==> Cancel(r, id).error == UnknownOrder)
            && ((Cancel(l, id).Err? && Cancel(r, id).Err? && Cancel(l, id).error != Cancel(r, id).error)
                <==> (HasId(l.ledger, id) && !l.ledger[Find(l.ledger, id)].IsActive()))
  {
    RebuiltIsLinked(l);
    var r := Restore(Active(l.ledger), l.next).value;
    CancelAgrees(l, r, id);
    FindActive(l.ledger, id);
    forall i | 0 <= i < |r.ledger| ensures r.ledger[i].IsActive() {
      ActiveMembers(l.ledger, r.ledger[i]);
    }
  }

  /** One resting order that a fresh order of the same quantity fills. */
  lemma {:induction false} FillsAlone(maker: LimitOrder, taker: LimitOrder, next: int)
    requires maker.Valid() && taker.Valid() && Crosses(taker, maker) && maker.remaining == taker.remaining > 0
    ensures Match([maker], taker, next).ledger == [maker.Filled(maker.remaining)]
  {
    var q := maker.remaining;
    assert [maker][..0] == [];
    assert BestMaker([maker], taker) == Some(maker);
    FillIsValid(taker, maker);
    assert Replace([maker], maker.Filled(q)) == [maker.Filled(q)];
    MatchDone([maker.Filled(q)], taker.Filled(q), next + 1);
  }

  lemma RestsAlone(o: LimitOrder)
    requires o.Valid() && Fresh(o)
    ensures Sound(Engine([], 0, 1)) && Step(Engine([], 0, 1), SubmitOp(o)).0 == Engine([o], o.sequence, 1)
  {
    MatchDone([], o, 1);
    assert [] + [o] == [o];
  }

  lemma {:induction false} TwoSteps(e: Engine, a: Op, b: Op)
    requires Sound(e) && (a.SubmitOp? ==> a.order.Valid()) && (b.SubmitOp? ==> b.order.Valid())
    ensures Run(e, [a, b]).0 == Step(Step(e, a).0, b).0
  {
    var ops := [a, b];
    var e1, x, rest := RunFirst(e, ops);
    assert ops[1..] == [b];
    var e2, y, last := RunFirst(e1, [b]);
    assert [b][1..] == [];
  }

  /** A resting order that the next submission fills is known afterwards, and terminal. */
  lemma FilledByNext(maker: LimitOrder, taker: LimitOrder, e: Engine)
    requires Sound(e) && e.ledger == [maker] && e.last < taker.sequence && maker.id != taker.id
    requires taker.Valid() && Fresh(taker) && Crosses(taker, maker) && maker.remaining == taker.remaining
    ensures var l := Step(e, SubmitOp(taker)).0;
            HasId(l.ledger, maker.id) && !l.ledger[Find(l.ledger, maker.id)].IsActive()
  {
    SubmitAccepts(e, taker);
    FillsAlone(maker, taker, e.next);
    SubmitGrows(e, taker);
    var l := Submit(e, taker).value.0;
    assert l.ledger[0] == maker.Filled(maker.remaining);
    assert l.ledger[1].id == taker.id;
  }

  /** A sell that is filled by a buy, in a run from an empty engine. */
  lemma SellIsFilled(ask: LimitOrder, bid: LimitOrder)
    requires ask.Valid() && Fresh(ask) && ask.side.Sell? && bid.Valid() && Fresh(bid) && bid.side.Buy?
    requires ask.id != bid.id && ask.sequence < bid.sequence && ask.price == bid.price && ask.quantity == bid.quantity
    ensures Sound(Engine([], 0, 1))
    ensures var l := Run(Engine([], 0, 1), [SubmitOp(ask), SubmitOp(bid)]).0;
            HasId(l.ledger, ask.id) && !l.ledger[Find(l.ledger, ask.id)].IsActive()
  {
    RestsAlone(ask);
    TwoSteps(Engine([], 0, 1), SubmitOp(ask), SubmitOp(bid));
    FilledByNext(ask, bid, Step(Engine([], 0, 1), SubmitOp(ask)).0);
  }

  /** A concrete run: the sell is filled by the buy, then cancelled.  The long-lived engine says
      the order cannot be cancelled, the rebuilt one that it does not exist. */
  lemma RefusalClassCanDiffer()
    ensures var ask, bid := LimitOrder("a", Sell, 100, 5, 1, 5, Open), LimitOrder("b", Buy, 100, 5, 2, 5, Open);
            && Sound(Engine([], 0, 1)) && ask.Valid() && bid.Valid()
            && var l := Run(Engine([], 0, 1), [SubmitOp(ask), SubmitOp(bid)]).0;
               && Cancel(l, "a") == Err(OrderNotCancellable)
               && Restore(Active(l.ledger), l.next).Ok?
               && Cancel(Restore(Active(l.ledger), l.next).value, "a") == Err(UnknownOrder)
  {
    var ask, bid := LimitOrder("a", Sell, 100, 5, 1, 5, Open), LimitOrder("b", Buy, 100, 5, 2, 5, Open);
    assert "a"[0] != "b"[0];
    SellIsFilled(ask, bid);
    var l := Run(Engine([], 0, 1), [SubmitOp(ask), SubmitOp(bid)]).0;
    CancelOfTerminal(l, "a");
  }

  lemma {:induction false} CancelOfTerminal(l: Engine, id: string)
    requires Sound(l) && HasId(l.ledger, id) && !l.ledger[Find(l.ledger, id)].IsActive()
    ensures Cancel(l, id) == Err(OrderNotCancellable)
    ensures Restore(Active(l.ledger), l.next).Ok?
    ensures Cancel(Restore(Active(l.ledger), l.next).value, id) == Err(UnknownOrder)
  {
    RebuiltIsLinked(l);
    RefusalClass(l, id);
    CancelAgrees(l, Restore(Active(l.ledger), l.next).value, id);
  }
}
