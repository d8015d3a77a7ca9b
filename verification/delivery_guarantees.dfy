/**
 What delivery guarantees over whole runs: arbitrary disconnects, lost, repeated and reordered
 markers, bounded queues, and one in-process publisher that hands events out in order.  A run
 without `Publish` steps is the topology with a separate processor.
 */
module DeliveryGuarantees {
  import opened Common
  import opened Delivery
  import opened DeliveryProof
  import Journal
  import Store
  import Guarantees

  // ---------------------------------------------------------------- where the durable log comes from

  /** The durable events of one symbol. */
  function LogOf(events: seq<Store.EventRow>, symbol: string): Log {
    if events == [] then []
    else
      var last := events[|events| - 1];
      var log := LogOf(events[..|events| - 1], symbol);
      if last.symbol == symbol then log + [Event(last.id, last.commandSequence)] else log
  }

  lemma {:induction false} LogOfMembers(events: seq<Store.EventRow>, symbol: string, e: Event)
    ensures e in LogOf(events, symbol)
       <==> exists i | 0 <= i < |events| ::
              events[i].symbol == symbol && events[i].id == e.id && events[i].commandSequence == e.sequence
  {
    if events != [] {
      var init, last := events[..|events| - 1], events[|events| - 1];
      assert events == init + [last];
      assert forall i | 0 <= i < |init| :: init[i] == events[i];
      LogOfMembers(init, symbol, e);
      if last.symbol == symbol && last.id == e.id && last.commandSequence == e.sequence {
        assert e == Event(last.id, last.commandSequence);
      }
    }
  }

  lemma {:induction false} LogOfOrdered(events: seq<Store.EventRow>, symbol: string)
    requires forall i | 0 <= i < |events| :: events[i].id > 0 && events[i].commandSequence > 0
    requires forall i, j | 0 <= i < j < |events| ::
               events[i].id < events[j].id && events[i].commandSequence < events[j].commandSequence
    ensures Ordered(LogOf(events, symbol))
  {
    if events != [] {
      var init, last := events[..|events| - 1], events[|events| - 1];
      assert forall i | 0 <= i < |init| :: init[i] == events[i];
      LogOfOrdered(init, symbol);
      var log := LogOf(init, symbol);
      forall i | 0 <= i < |log| ensures log[i].id < last.id && log[i].sequence < last.commandSequence {
        LogOfMembers(init, symbol, log[i]);
      }
    }
  }

  /** In every reachable state a symbol's log is ordered by id and by sequence at once. */
  lemma {:induction false} StateLogOrdered(s: Journal.State, limits: Journal.Limits, symbol: string)
    requires Journal.Inv(s, limits)
    ensures Ordered(LogOf(s.db.events, symbol))
  {
    var cs := Journal.Commands(s.db.journal);
    Guarantees.EventsRise(s.db);
    forall i | 0 <= i < |s.db.events| ensures s.db.events[i].commandSequence > 0 {
      assert cs[i].sequence == s.db.events[i].commandSequence;
    }
    LogOfOrdered(s.db.events, symbol);
  }

  lemma {:induction false} LogOfAppend(events: seq<Store.EventRow>, row: Store.EventRow, symbol: string)
    ensures LogOf(events + [row], symbol)
         == if row.symbol == symbol then LogOf(events, symbol) + [Event(row.id, row.commandSequence)]
            else LogOf(events, symbol)
  {
  }

  lemma OrderedAppend(log: Log, e: Event)
    requires Ordered(log + [e])
    ensures e.id > LastId(log) && e.sequence > LastSequence(log)
  {
    var next := log + [e];
    assert next[|log|] == e;
    assert log != [] ==> next[|log| - 1] == log[|log| - 1];
  }

  lemma StepAppendsAtMostOne(a: Store.Database, b: Store.Database)
    requires Guarantees.WholeStep(a, b)
    ensures b.events == a.events || exists row :: b.events == a.events + [row]
  {
  }

  lemma EventsStep(s: Journal.State, s': Journal.State, limits: Journal.Limits)
    requires Journal.Inv(s, limits) && Journal.Next(s, s', limits)
    ensures s'.db.events == s.db.events || exists row :: s'.db.events == s.db.events + [row]
  {
    Guarantees.StepsAreWhole(s, s', limits);
    StepAppendsAtMostOne(s.db, s'.db);
  }

  lemma {:induction false} NextLogOrdered(s: Journal.State, s': Journal.State, limits: Journal.Limits, symbol: string)
    requires Journal.Inv(s, limits) && Journal.Next(s, s', limits)
    ensures Ordered(LogOf(s'.db.events, symbol))
  {
    Journal.NextKeepsInv(s, s', limits);
    StateLogOrdered(s', limits, symbol);
  }

  /** Nothing is recorded, or one event beyond every older one: what `Record` allows for. */
  ghost predicate RecordsAtMostOne(log: Log, log': Log) {
    log' == log || exists e :: log' == log + [e] && e.id > LastId(log) && e.sequence > LastSequence(log)
  }

  lemma {:induction false} EventsRecord(a: seq<Store.EventRow>, b: seq<Store.EventRow>, symbol: string)
    requires b == a || exists row :: b == a + [row]
    requires Ordered(LogOf(b, symbol))
    ensures RecordsAtMostOne(LogOf(a, symbol), LogOf(b, symbol))
  {
    if b != a {
      var row :| b == a + [row];
      LogOfAppend(a, row, symbol);
      if row.symbol == symbol {
        OrderedAppend(LogOf(a, symbol), Event(row.id, row.commandSequence));
      }
    }
  }

  /** Every step of the journal moves each symbol's log exactly as delivery allows for. */
  lemma {:induction false} JournalStepsRecord(s: Journal.State, s': Journal.State, limits: Journal.Limits,
        symbol: string)
    requires Journal.Inv(s, limits) && Journal.Next(s, s', limits)
    ensures RecordsAtMostOne(LogOf(s.db.events, symbol), LogOf(s'.db.events, symbol))
  {
    NextLogOrdered(s, s', limits, symbol);
    EventsStep(s, s', limits);
    EventsRecord(s.db.events, s'.db.events, symbol);
  }

  lemma LastOfLog(log: Log, e: Event)
    requires Ordered(log) && e in log
    ensures e.sequence <= LastSequence(log) && e.id <= LastId(log)
  {
    OrderedMembers(log, e, e);
  }

  /** The read model's book sequence is the sequence of the newest event: what a snapshot of the
      delivery protocol carries. */
  lemma {:induction false} BookSequenceIsLastSequence(s: Journal.State, limits: Journal.Limits, symbol: string)
    requires Journal.Inv(s, limits)
    ensures Guarantees.BookSequence(s.db.journal, symbol) == LastSequence(LogOf(s.db.events, symbol))
  {
    StateLogOrdered(s, limits, symbol);
    SequencesJoin(s.db, symbol);
  }

  lemma {:induction false} SequencesJoin(db: Store.Database, symbol: string)
    requires Journal.EventPerTerminal(db) && Ordered(LogOf(db.events, symbol))
    ensures Guarantees.BookSequence(db.journal, symbol) == LastSequence(LogOf(db.events, symbol))
  {
    var log, n := LogOf(db.events, symbol), Guarantees.BookSequence(db.journal, symbol);
    Guarantees.BookSequenceBounds(db.journal, symbol);
    if log != [] {
      var last := log[|log| - 1];
      assert last in log;
      LogOfMembers(db.events, symbol, last);
      var i :| 0 <= i < |db.events| && db.events[i].symbol == symbol && db.events[i].commandSequence == last.sequence;
      assert db.journal[i].command.sequence <= n;
    }
    if n > 0 {
      var i :| 0 <= i < |db.journal| && db.journal[i].command.symbol == symbol && db.journal[i].status.IsTerminal()
               && db.journal[i].command.sequence == n;
      var e := Event(db.events[i].id, db.events[i].commandSequence);
      LogOfMembers(db.events, symbol, e);
      LastOfLog(log, e);
    }
  }

  /** The event id of a read book is the newest event id of the log, likewise. */
  lemma {:induction false} EventIdIsLastId(events: seq<Store.EventRow>, symbol: string)
    requires forall i | 0 <= i < |events| :: events[i].id > 0
    requires forall i, j | 0 <= i < j < |events| :: events[i].id < events[j].id
    ensures Guarantees.LatestEventId(events, symbol) == LastId(LogOf(events, symbol))
  {
    if events != [] {
      var init, last := events[..|events| - 1], events[|events| - 1];
      assert forall i | 0 <= i < |init| :: init[i] == events[i];
      EventIdIsLastId(init, symbol);
      Guarantees.LatestEventBelow(init, symbol, last.id - 1);
    }
  }

  // ---------------------------------------------------------------- exactly once, in order

  /** The events in `(base, last]` that were not reported as cut off, oldest first. */
  ghost function Outcomes(log: Log, base: int, last: int, cut: set<int>): seq<Event> {
    if log == [] then []
    else
      var e := log[|log| - 1];
      var outcomes := Outcomes(log[..|log| - 1], base, last, cut);
      if base < e.id <= last && e.id !in cut then outcomes + [e] else outcomes
  }

  lemma {:induction false} OutcomesMembers(log: Log, base: int, last: int, cut: set<int>, e: Event)
    ensures e in Outcomes(log, base, last, cut) <==> e in log && base < e.id <= last && e.id !in cut
  {
    if log != [] {
      OutcomesMembers(log[..|log| - 1], base, last, cut, e);
      assert log == log[..|log| - 1] + [log[|log| - 1]];
    }
  }

  lemma {:induction false} OutcomesAscend(log: Log, base: int, last: int, cut: set<int>)
    requires Ordered(log)
    ensures Ascending(Outcomes(log, base, last, cut))
  {
    if log != [] {
      var init, e := log[..|log| - 1], log[|log| - 1];
      OutcomesAscend(init, base, last, cut);
      var before := Outcomes(init, base, last, cut);
      forall i | 0 <= i < |before| ensures before[i].id < e.id {
        OutcomesMembers(init, base, last, cut, before[i]);
      }
    }
  }

  lemma LastIsGreatest(es: seq<Event>, e: Event)
    requires Ascending(es) && e in es
    ensures e.id < es[|es| - 1].id || e == es[|es| - 1]
  {
  }

  lemma WithoutLast(es: seq<Event>, e: Event)
    requires Ascending(es) && es != []
    ensures Ascending(es[..|es| - 1])
    ensures e in es[..|es| - 1] <==> e in es && e != es[|es| - 1]
  {
  }

  /** An ascending sequence is determined by its members. */
  lemma {:induction false} AscendingIsUnique(a: seq<Event>, b: seq<Event>)
    requires Ascending(a) && Ascending(b) && forall e :: e in a <==> e in b
    ensures a == b
    decreases |a|
  {
    if a == [] {
      assert forall i | 0 <= i < |b| :: b[i] in b;
    } else {
      var x := a[|a| - 1];
      assert x in a;
      var y := b[|b| - 1];
      assert y in b;
      LastIsGreatest(a, y);
      LastIsGreatest(b, x);
      WithoutLast(a, x);
      WithoutLast(b, x);
      var shorter, other := a[..|a| - 1], b[..|b| - 1];
      forall e ensures e in shorter <==> e in other {
        WithoutLast(a, e);
        WithoutLast(b, e);
      }
      AscendingIsUnique(shorter, other);
      assert a == a[..|a| - 1] + [x] && b == b[..|b| - 1] + [x];
    }
  }

  /** Exactly once and in order: what the client has applied is precisely the durable events
      above its first cursor, in id order, without those it was told were cut off; and it has
      been told of a cut if there is one. */
  lemma ExactlyOnceInOrder(trace: seq<World>, g: Config, i: nat)
    requires IsRun(trace, g) && i < |trace| && g.size >= 1
    ensures var w := trace[i];
            && w.client.applied == Outcomes(w.log, w.base, w.client.last, w.cut)
            && (w.cut != {} ==> w.notices > 0)
  {
    RunKeepsInv(trace, g, i);
    var w := trace[i];
    OutcomesAscend(w.log, w.base, w.client.last, w.cut);
    forall e ensures e in w.client.applied <==> e in Outcomes(w.log, w.base, w.client.last, w.cut) {
      OutcomesMembers(w.log, w.base, w.client.last, w.cut, e);
    }
    AscendingIsUnique(w.client.applied, Outcomes(w.log, w.base, w.client.last, w.cut));
  }

  /** A client that has seen no truncation notice has missed nothing. */
  lemma NoNoticeNoLoss(trace: seq<World>, g: Config, i: nat, e: Event)
    requires IsRun(trace, g) && i < |trace| && g.size >= 1 && trace[i].notices == 0
    requires e in trace[i].log && trace[i].base < e.id <= trace[i].client.last
    ensures e in trace[i].client.applied
  {
    RunKeepsInv(trace, g, i);
  }

  /** What the client holds only grows: outcomes are appended, cursor and book never go back,
      and its first cursor never moves once it has one. */
  ghost predicate Advances(w: World, w': World) {
    && w.client.applied <= w'.client.applied
    && w.client.last <= w'.client.last
    && w.client.lastBook <= w'.client.lastBook
    && w.cut <= w'.cut
    && (!Fresh(w.client) ==> !Fresh(w'.client) && w'.base == w.base)
  }

  lemma ReceiveOnlyAdds(c: Client, m: Message)
    ensures var c' := Receive(c, m);
            c.applied <= c'.applied && c.lastSequence <= c'.lastSequence && c.lastBook <= c'.lastBook
  {
  }

  lemma StartedIsNotFresh(log: Log, c: Client)
    requires Ordered(log) && ClientSane(log, c) && !Fresh(c)
    ensures c.lastSequence >= 0
  {
  }

  lemma ReceiveKeepsCursor(w: World, g: Config)
    requires Inv(w, g) && Enabled(w, Deliver)
    ensures var m := w.connection.value.wire[0];
            && w.client.last <= Receive(w.client, m).last
            && (m.Snapshot? && m.reason.Initial? ==> Fresh(w.client))
  {
    var k := w.connection.value;
    HeadIsReceivable(k, w.client, w.base, w.log);
    ReceiveDelivers(w.log, w.client, w.base, w.cut, k.wire[0]);
  }

  lemma DeliverAdvances(w: World, g: Config)
    requires Inv(w, g) && Enabled(w, Deliver)
    ensures Advances(w, Step(w, Deliver, g))
  {
    var m := w.connection.value.wire[0];
    ReceiveOnlyAdds(w.client, m);
    ReceiveKeepsCursor(w, g);
    assert Step(w, Deliver, g).client == Receive(w.client, m);
    if !Fresh(w.client) {
      StartedIsNotFresh(w.log, w.client);
    }
  }

  lemma StepAdvances(w: World, a: Action, g: Config)
    requires Inv(w, g) && Enabled(w, a)
    ensures Advances(w, Step(w, a, g))
  {
    if a.Deliver? {
      DeliverAdvances(w, g);
    }
  }

  lemma NextAdvances(w: World, w': World, g: Config)
    requires Inv(w, g) && Next(w, w', g)
    ensures Advances(w, w')
  {
    var a :| Enabled(w, a) && w' == Step(w, a, g);
    StepAdvances(w, a, g);
  }

  lemma AdvancesTransitive(a: World, b: World, c: World)
    requires Advances(a, b) && Advances(b, c)
    ensures Advances(a, c)
  {
  }

  lemma RunAdvances(trace: seq<World>, g: Config, i: nat)
    requires IsRun(trace, g) && i + 1 < |trace| && g.size >= 1
    ensures Advances(trace[i], trace[i + 1])
  {
    var w, w' := trace[i], trace[i + 1];
    RunKeepsInv(trace, g, i);
    NextAdvances(w, w', g);
  }

  lemma {:induction false} AdvancesAlong(trace: seq<World>, i: nat, j: nat)
    requires i <= j < |trace| && forall k | i <= k < j :: Advances(trace[k], trace[k + 1])
    ensures Advances(trace[i], trace[j])
    decreases j
  {
    if i < j {
      AdvancesAlong(trace, i, j - 1);
      AdvancesTransitive(trace[i], trace[j - 1], trace[j - 1 + 1]);
    }
  }

  lemma NothingIsTakenBack(trace: seq<World>, g: Config, i: nat, j: nat)
    requires IsRun(trace, g) && i <= j < |trace| && g.size >= 1
    ensures Advances(trace[i], trace[j])
  {
    forall k | i <= k < j ensures Advances(trace[k], trace[k + 1]) {
      RunAdvances(trace, g, k);
    }
    AdvancesAlong(trace, i, j);
  }

  // ---------------------------------------------------------------- overflow and catching up

  /** An overflowing queue never hides a loss: once the queue and the wire are drained, the
      client stands at or beyond everything published, and everything above its first cursor
      has been applied or was reported as cut off. */
  lemma OverflowNeverHidesALoss(trace: seq<World>, g: Config, i: nat, k: nat)
    requires IsRun(trace, g) && i < |trace| && g.size >= 1
    requires var w := trace[i];
             && w.connection.Some? && Idle(w.connection.value)
             && w.connection.value.queue == [] && w.connection.value.wire == []
             && k < w.published && k < |w.log| && w.log[k].id > w.base
    ensures var w := trace[i];
            && w.log[k].id <= w.client.last
            && (w.log[k] in w.client.applied || (w.log[k].id in w.cut && w.notices > 0))
  {
    var w := trace[i];
    RunKeepsInv(trace, g, i);
    assert w.log[..w.published][w.published - 1] == w.log[w.published - 1];
    assert k < w.published - 1 || k == w.published - 1;
  }

  /** A queue never outgrows its size. */
  lemma QueuesStayBounded(trace: seq<World>, g: Config, i: nat)
    requires IsRun(trace, g) && i < |trace| && g.size >= 1 && trace[i].connection.Some?
    ensures |trace[i].connection.value.queue| <= g.size
  {
    RunKeepsInv(trace, g, i);
  }

  ghost predicate Path(trace: seq<World>, g: Config) {
    trace != [] && forall i | 0 <= i < |trace| - 1 :: Next(trace[i], trace[i + 1], g)
  }

  lemma PathAppend(trace: seq<World>, a: Action, g: Config) returns (longer: seq<World>)
    requires Path(trace, g) && Enabled(trace[|trace| - 1], a)
    ensures Path(longer, g) && |longer| == |trace| + 1 && longer[0] == trace[0]
    ensures longer[|trace|] == Step(trace[|trace| - 1], a, g)
  {
    longer := trace + [Step(trace[|trace| - 1], a, g)];
    forall i | 0 <= i < |longer| - 1 ensures Next(longer[i], longer[i + 1], g) {
      if i < |trace| - 1 {
        assert Next(trace[i], trace[i + 1], g);
      }
    }
  }

  lemma DeliverStep(w: World, g: Config)
    requires Inv(w, g) && Enabled(w, Deliver) && w.connection.value.cursor.Some?
    ensures var w' := Step(w, Deliver, g);
            && Inv(w', g) && w'.log == w.log && w'.connection.Some?
            && w'.connection.value == w.connection.value.(wire := w.connection.value.wire[1..])
  {
    DeliverKeepsInv(w, g);
  }

  lemma DrainedClient(w: World, g: Config)
    requires Inv(w, g) && w.connection.Some? && w.connection.value.wire == [] && w.connection.value.cursor.Some?
    ensures w.client.last == w.connection.value.cursor.value
  {
  }

  lemma DrainOne(trace: seq<World>, w: World, g: Config) returns (longer: seq<World>, w': World)
    requires Path(trace, g) && w == trace[|trace| - 1] && Inv(w, g) && Enabled(w, Deliver)
    requires w.connection.value.cursor.Some?
    ensures Path(longer, g) && trace[0] == longer[0] && w' == longer[|longer| - 1] && Inv(w', g)
    ensures w'.log == w.log && w'.connection.Some?
    ensures w'.connection.value == w.connection.value.(wire := w.connection.value.wire[1..])
  {
    DeliverStep(w, g);
    longer := PathAppend(trace, Deliver, g);
    w' := Step(w, Deliver, g);
  }

  /** Delivering what is in flight brings the client to the server's cursor. */
  lemma {:induction false} Drain(trace: seq<World>, w: World, g: Config) returns (longer: seq<World>, w': World)
    requires Path(trace, g) && w == trace[|trace| - 1] && Inv(w, g)
    requires w.connection.Some? && w.connection.value.cursor.Some?
    ensures Path(longer, g) && trace[0] == longer[0] && w' == longer[|longer| - 1] && Inv(w', g)
    ensures w'.log == w.log && w'.client.last == w.connection.value.cursor.value
    decreases |w.connection.value.wire|
  {
    if w.connection.value.wire == [] {
      DrainedClient(w, g);
      longer, w' := trace, w;
    } else {
      longer, w' := DrainOne(trace, w, g);
      longer, w' := Drain(longer, w', g);
    }
  }

  lemma ExpireStep(w: World, g: Config)
    requires Inv(w, g) && Enabled(w, Expire)
    ensures var w' := Step(w, Expire, g);
            && Inv(w', g) && w'.log == w.log && w'.connection.Some?
            && w'.connection.value.phase.Checking? && w'.connection.value.cursor.Some?
  {
    ExpireKeepsInv(w, g);
  }

  lemma CheckReacts(k: Connection, newest: int)
    requires k.cursor.Some? && k.cursor.value <= newest
    ensures var k' := React(k, OnTimeout(Session(k.cursor.value, k.sequence), newest));
            k'.phase.Reading? || k'.cursor == Some(newest)
  {
  }

  lemma CursorWithin(w: World, g: Config)
    requires Inv(w, g) && w.connection.Some? && w.connection.value.cursor.Some?
    ensures w.connection.value.cursor.value <= LastId(w.log)
  {
  }

  lemma CheckStep(w: World, g: Config)
    requires Inv(w, g) && Enabled(w, Check(LastId(w.log)))
    ensures var w' := Step(w, Check(LastId(w.log)), g);
            && Inv(w', g) && w'.log == w.log && w'.connection.Some?
            && (w'.connection.value.phase.Reading? || w'.connection.value.cursor == Some(LastId(w.log)))
  {
    CursorWithin(w, g);
    CheckReacts(w.connection.value, LastId(w.log));
    CheckKeepsInv(w, LastId(w.log), g);
  }

  lemma ReadStep(w: World, g: Config)
    requires Inv(w, g) && w.connection.Some? && w.connection.value.phase.Reading?
    ensures var w' := Step(w, ReadSnapshot, g);
            && Inv(w', g) && w'.log == w.log && w'.connection.Some?
            && w'.connection.value.cursor == Some(LastId(w.log))
  {
    ReadKeepsInv(w, g);
  }

  lemma SignalReacts(k: Connection, s: Signal)
    requires Idle(k)
    ensures var k' := React(k, OnSignal(Session(k.cursor.value, k.sequence), s));
            k'.queue == k.queue && (k'.phase.Reading? || Idle(k'))
  {
  }

  lemma TakeStep(w: World, g: Config)
    requires Inv(w, g) && Enabled(w, Take)
    ensures var w' := Step(w, Take, g);
            && Inv(w', g) && w'.log == w.log && w'.connection.Some?
            && w'.connection.value.queue == w.connection.value.queue[1..]
            && (w'.connection.value.phase.Reading? || Idle(w'.connection.value))
  {
    var k := w.connection.value;
    SignalReacts(k.(queue := k.queue[1..]), k.queue[0]);
    TakeKeepsInv(w, g);
  }

  ghost predicate AtMaximum(w: World, log: Log, g: Config) {
    && Inv(w, g) && w.log == log && w.connection.Some?
    && w.connection.value.cursor == Some(LastId(log))
  }

  lemma ReachByReading(trace: seq<World>, w: World, g: Config) returns (longer: seq<World>, w': World)
    requires Path(trace, g) && w == trace[|trace| - 1] && Inv(w, g)
    requires w.connection.Some? && w.connection.value.phase.Reading?
    ensures Path(longer, g) && longer[0] == trace[0] && w' == longer[|longer| - 1] && AtMaximum(w', w.log, g)
  {
    ReadStep(w, g);
    longer := PathAppend(trace, ReadSnapshot, g);
    w' := Step(w, ReadSnapshot, g);
  }

  /** The queue stayed empty for a heartbeat period: the cursor is at the newest event already, or
      a snapshot is read. */
  lemma ReachByChecking(trace: seq<World>, w: World, g: Config) returns (longer: seq<World>, w': World)
    requires Path(trace, g) && w == trace[|trace| - 1] && Inv(w, g)
    requires Enabled(w, Check(LastId(w.log)))
    ensures Path(longer, g) && longer[0] == trace[0] && w' == longer[|longer| - 1] && AtMaximum(w', w.log, g)
  {
    CheckStep(w, g);
    longer := PathAppend(trace, Check(LastId(w.log)), g);
    w' := Step(w, Check(LastId(w.log)), g);
    if w'.connection.value.phase.Reading? {
      longer, w' := ReachByReading(longer, w', g);
    }
  }

  lemma ReachByExpiring(trace: seq<World>, w: World, g: Config) returns (longer: seq<World>, w': World)
    requires Path(trace, g) && w == trace[|trace| - 1] && Inv(w, g) && Enabled(w, Expire)
    ensures Path(longer, g) && longer[0] == trace[0] && w' == longer[|longer| - 1] && AtMaximum(w', w.log, g)
  {
    ExpireStep(w, g);
    longer := PathAppend(trace, Expire, g);
    longer, w' := ReachByChecking(longer, Step(w, Expire, g), g);
  }

  /** One signal is taken off the queue of a waiting consumer. */
  lemma ReachByTaking(trace: seq<World>, w: World, g: Config) returns (longer: seq<World>, w': World)
    requires Path(trace, g) && w == trace[|trace| - 1] && Inv(w, g) && Enabled(w, Take)
    ensures Path(longer, g) && longer[0] == trace[0] && w' == longer[|longer| - 1]
    ensures Inv(w', g) && w'.log == w.log && w'.connection.Some?
    ensures |w'.connection.value.queue| < |w.connection.value.queue|
  {
    TakeStep(w, g);
    longer := PathAppend(trace, Take, g);
    w' := Step(w, Take, g);
  }

  lemma KnowsItsCursor(w: World, k: Connection, g: Config)
    requires w.published <= |w.log| && WireSane(w, k, g) && !k.phase.Reading?
    ensures k.cursor.Some?
  {
  }

  lemma WhatNext(w: World)
    requires w.connection.Some? && !w.connection.value.phase.Reading? && w.connection.value.cursor.Some?
    ensures Enabled(w, Check(LastId(w.log))) || Enabled(w, Expire) || Enabled(w, Take)
  {
  }

  /** A waiting consumer works off its queue first: each update is sent or skipped, and a marker
      leads to a read at once.  Only an empty queue lets the heartbeat period expire. */
  lemma {:induction false} ReachFromQueue(trace: seq<World>, w: World, g: Config)
      returns (longer: seq<World>, w': World)
    requires Path(trace, g) && w == trace[|trace| - 1] && Inv(w, g) && w.connection.Some?
    ensures Path(longer, g) && longer[0] == trace[0] && w' == longer[|longer| - 1] && AtMaximum(w', w.log, g)
    decreases |w.connection.value.queue|
  {
    if w.connection.value.phase.Reading? {
      longer, w' := ReachByReading(trace, w, g);
      return;
    }
    KnowsItsCursor(w, w.connection.value, g);
    WhatNext(w);
    if Enabled(w, Check(LastId(w.log))) {
      longer, w' := ReachByChecking(trace, w, g);
    } else if Enabled(w, Expire) {
      longer, w' := ReachByExpiring(trace, w, g);
    } else {
      longer, w' := ReachByTaking(trace, w, g);
      longer, w' := ReachFromQueue(longer, w', g);
    }
  }

  lemma AtTheEnd(log: Log, id: int, sequence: int)
    requires Ordered(log) && log != [] && AtLog(log, id, sequence) && id == LastId(log)
    ensures sequence == LastSequence(log)
  {
  }

  /** From every reachable state with an open connection the two sides can catch up on their own,
      whatever hints were lost: the consumer works off its queue, then at most one heartbeat period
      passes and one snapshot is read, and what is in flight is delivered.  The client then stands
      at the newest event, shows the newest book, and has applied everything above its first cursor
      but what was reported as cut off. */
  lemma CatchUp(w: World, g: Config) returns (trace: seq<World>, w': World)
    requires Inv(w, g) && w.connection.Some?
    ensures Path(trace, g) && trace[0] == w && w' == trace[|trace| - 1]
    ensures && w'.log == w.log && w'.client.last == LastId(w.log)
            && (w.log != [] ==> w'.client.lastSequence == w'.client.lastBook == LastSequence(w.log))
            && forall e | e in w.log && e.id > w'.base :: e in w'.client.applied || (e.id in w'.cut && w'.notices > 0)
  {
    trace, w' := ReachFromQueue([w], w, g);
    trace, w' := Drain(trace, w', g);
    forall e | e in w.log && e.id > w'.base
      ensures e in w'.client.applied || (e.id in w'.cut && w'.notices > 0)
    {
      OrderedMembers(w.log, e, e);
    }
    if w.log != [] {
      assert w.log[|w.log| - 1].id > 0;
      AtTheEnd(w.log, w'.client.last, w'.client.lastSequence);
    }
  }

  // ---------------------------------------------------------------- publishing out of order

  /** The direct path jumps the cursor without a replay.  A client loses nothing by it if and only
      if no durable event lies strictly between its cursor and the update. */
  lemma DirectUpdateLosesNothingIff(log: Log, c: Client, base: int, cut: set<int>, e: Event)
    requires Ordered(log) && ClientSane(log, c) && Delivered(log, c, base, cut)
    requires e in log && e.id > c.last
    ensures Delivered(log, Receive(c, Update(e)), base, cut) <==> NothingBetween(log, c.last, e.id)
  {
    OrderedMembers(log, e, e);
    assert Carried(Update(e)) == [e];
    UpdateReceived(log, c, Update(e));
    var c' := Receive(c, Update(e));
    if NothingBetween(log, c.last, e.id) {
      UpdateBridges(log, c.last, e);
      UpdateDelivers(log, c, base, cut, Update(e));
    } else {
      var f :| f in log && c.last < f.id < e.id;
      assert f !in c'.applied;
    }
  }

  lemma FirstSnapshotOfNothing(limit: nat)
    ensures Receive(NewClient(), SnapshotOf([], Initial, None, limit)) == Client(0, 0, 0, [])
  {
    var m := SnapshotOf([], Initial, None, limit);
    assert m == Snapshot(Initial, 0, 0, [], false);
    assert Unseen([], 0) == [];
  }

  /** Two publishers that hand events out in the wrong order.  A client has its first snapshot when
      two events are recorded; the server sends the second first, skips the first as old, and the
      client never learns of it. */
  lemma OutOfOrderPublishersLose(limit: nat)
    ensures var first, second := Event(1, 1), Event(2, 2);
            var started := Receive(NewClient(), SnapshotOf([], Initial, None, limit));
            var log, client := [first, second], Receive(started, Update(second));
            && Ordered(log) && Delivered([], started, 0, {})
            && OnSignal(Synced([]), MarketUpdate(second)) == Send(Session(2, 2), Update(second))
            && OnSignal(Session(2, 2), MarketUpdate(first)) == Skip
            && client.last == LastId(log) && client.applied == [second]
            && !Delivered(log, client, 0, {})
  {
    var first, second, started := Event(1, 1), Event(2, 2), Client(0, 0, 0, []);
    FirstSnapshotOfNothing(limit);
    SecondIsSent(first, second);
    LateEventIsLost(first, second, started);
  }

  lemma SecondIsSent(first: Event, second: Event)
    requires 0 < first.id < second.id && 0 < first.sequence < second.sequence
    ensures Ordered([first, second]) && Delivered([], Client(0, 0, 0, []), 0, {})
    ensures OnSignal(Synced([]), MarketUpdate(second)) == Send(Session(second.id, second.sequence), Update(second))
    ensures OnSignal(Session(second.id, second.sequence), MarketUpdate(first)) == Skip
  {
  }

  lemma LateEventIsLost(first: Event, second: Event, c: Client)
    requires c == Client(0, 0, 0, []) && 0 < first.id < second.id && 0 < second.sequence
    ensures var client := Receive(c, Update(second));
            && client.last == second.id && client.applied == [second]
            && !Delivered([first, second], client, 0, {})
  {
    var client := Receive(c, Update(second));
    assert [] + [second] == [second];
    assert [first, second][0] == first && first !in client.applied;
  }
}
