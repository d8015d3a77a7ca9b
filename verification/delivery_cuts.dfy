/**
 How much a truncated replay may cut off: only what has as many later events as the replay limit.
 A client that is told of a cut has been given, in the same snapshot, at least that many events that
 are newer than any it is missing.
 */
module DeliveryCuts {
  import opened Common
  import opened Delivery
  import opened DeliveryProof

  /** The events beyond `id`, up to `upto`. */
  ghost function Later(log: Log, id: int, upto: int): set<Event> {
    set e | e in log && id < e.id <= upto
  }

  /** A truncated snapshot replays no fewer events than the limit, all newer than what it leaves out. */
  ghost predicate FullReplay(m: Message, cursor: int, log: Log, limit: nat) {
    m.Snapshot? && m.truncated ==>
      && |m.recovered| >= limit
      && forall e, f | e in log && cursor < e.id <= m.eventId && e !in m.recovered && f in m.recovered :: e.id < f.id
  }

  ghost function ReplayIn(log: Log, limit: nat): (Message, int) -> bool {
    (m: Message, cursor: int) => FullReplay(m, cursor, log, limit)
  }

  ghost predicate CutsAreDeep(log: Log, cut: set<int>, last: int, limit: nat) {
    forall id | id in cut :: |Later(log, id, last)| >= limit
  }

  ghost predicate Deep(w: World, g: Config) {
    && CutsAreDeep(w.log, w.cut, w.client.last, g.limit)
    && (w.connection.Some? ==> AllLinked(w.connection.value.wire, w.client.last, ReplayIn(w.log, g.limit)))
  }

  // ---------------------------------------------------------------- one truncated snapshot

  lemma {:induction false} DistinctSize(es: seq<Event>)
    requires Ascending(es)
    ensures |set e | e in es| == |es|
  {
    if es != [] {
      var init, last := es[..|es| - 1], es[|es| - 1];
      DistinctSize(init);
      assert (set e | e in es) == (set e | e in init) + {last};
    }
  }

  /** Whatever a truncated snapshot cuts off has at least `limit` later events in the log, at or below
      the snapshot's own event id. */
  lemma {:induction false} CutIsDeep(log: Log, m: Message, last: int, limit: nat, id: int)
    requires Faithful(m, log) && FullReplay(m, last, log, limit) && id in CutBy(m, log, last)
    ensures |Later(log, id, m.eventId)| >= limit
  {
    var e :| e in log && last < e.id <= m.eventId && e !in m.recovered && e.id == id;
    var replayed := set f | f in m.recovered;
    forall f | f in replayed ensures f in Later(log, id, m.eventId) {
      assert f in Carried(m);
    }
    DistinctSize(m.recovered);
    SubsetSize(replayed, Later(log, id, m.eventId));
  }

  lemma LaterGrows(log: Log, id: int, upto: int, log': Log, upto': int)
    requires upto <= upto' && forall e | e in log :: e in log'
    ensures |Later(log, id, upto)| <= |Later(log', id, upto')|
  {
    SubsetSize(Later(log, id, upto), Later(log', id, upto'));
  }

  lemma CutsStayDeep(log: Log, cut: set<int>, last: int, limit: nat, log': Log, last': int)
    requires CutsAreDeep(log, cut, last, limit) && last <= last' && forall e | e in log :: e in log'
    ensures CutsAreDeep(log', cut, last', limit)
  {
    forall id | id in cut ensures |Later(log', id, last')| >= limit {
      LaterGrows(log, id, last, log', last');
    }
  }

  // ---------------------------------------------------------------- every step

  lemma ReplayStaysFull(m: Message, cursor: int, log: Log, limit: nat, e: Event)
    requires FullReplay(m, cursor, log, limit) && (m.Snapshot? ==> m.eventId < e.id)
    ensures FullReplay(m, cursor, log + [e], limit)
  {
    forall x ensures x in log + [e] <==> x in log || x == e {
      InAppend(log, e, x);
    }
  }

  lemma WireStaysFull(wire: seq<Message>, last: int, log: Log, limit: nat, e: Event)
    requires Chain(wire, last, log) && AllLinked(wire, last, ReplayIn(log, limit)) && e.id > LastId(log)
    ensures AllLinked(wire, last, ReplayIn(log + [e], limit))
  {
    forall i | 0 <= i < |wire| ensures ReplayIn(log + [e], limit)(wire[i], CursorAt(wire, i, last)) {
      assert LinkIn(log)(wire[i], CursorAt(wire, i, last));
      assert ReplayIn(log, limit)(wire[i], CursorAt(wire, i, last));
      ReplayStaysFull(wire[i], CursorAt(wire, i, last), log, limit, e);
    }
  }

  lemma RecordKeepsDeep(w: World, e: Event, g: Config)
    requires Inv(w, g) && Deep(w, g) && Enabled(w, Record(e))
    ensures Deep(Step(w, Record(e), g), g)
  {
    forall x | x in w.log ensures x in w.log + [e] {
      InAppend(w.log, e, x);
    }
    CutsStayDeep(w.log, w.cut, w.client.last, g.limit, w.log + [e], w.client.last);
    if w.connection.Some? {
      WireStaysFull(w.connection.value.wire, w.client.last, w.log, g.limit, e);
    }
  }

  /** A snapshot is as full as the limit allows. */
  lemma SnapshotIsFull(log: Log, reason: Reason, after: Option<int>, limit: nat)
    requires Ordered(log)
    ensures after.Some? ==> FullReplay(SnapshotOf(log, reason, after, limit), after.value, log, limit)
    ensures after.None? ==> !SnapshotOf(log, reason, after, limit).truncated
  {
    if after.Some? {
      RecoverKeepsNewest(log, after.value, LastId(log), limit);
    }
  }

  lemma ReadKeepsDeep(w: World, g: Config)
    requires Inv(w, g) && Deep(w, g) && Enabled(w, ReadSnapshot)
    ensures Deep(Step(w, ReadSnapshot, g), g)
  {
    var k := w.connection.value;
    var m := SnapshotOf(w.log, k.phase.reason, k.cursor, g.limit);
    SnapshotIsFull(w.log, k.phase.reason, k.cursor, g.limit);
    AllLinkedAppend(k.wire, w.client.last, ReplayIn(w.log, g.limit), m);
  }

  /** A reaction sends a message that is no snapshot, or nothing. */
  lemma ReactionKeepsDeep(k: Connection, r: Reaction, last: int, log: Log, limit: nat)
    requires AllLinked(k.wire, last, ReplayIn(log, limit)) && (r.Send? ==> !r.message.Snapshot?)
    ensures AllLinked(React(k, r).wire, last, ReplayIn(log, limit))
  {
    if r.Send? {
      AllLinkedAppend(k.wire, last, ReplayIn(log, limit), r.message);
    }
  }

  lemma ReactKeepsDeep(w: World, a: Action, g: Config)
    requires Inv(w, g) && Deep(w, g) && Enabled(w, a) && (a.Check? || a.Take?)
    ensures Deep(Step(w, a, g), g)
  {
    var k := w.connection.value;
    var s := Session(k.cursor.value, k.sequence);
    if a.Check? {
      ReactionKeepsDeep(k, OnTimeout(s, a.durable), w.client.last, w.log, g.limit);
    } else {
      ReactionKeepsDeep(k.(queue := k.queue[1..]), OnSignal(s, k.queue[0]), w.client.last, w.log, g.limit);
    }
  }

  /** Receiving a message moves the cursor to it, and what it cuts off is deep. */
  lemma ReceivedCutsAreDeep(log: Log, cut: set<int>, last: int, m: Message, limit: nat)
    requires CutsAreDeep(log, cut, last, limit) && last <= Top(m)
    requires Faithful(m, log) && FullReplay(m, last, log, limit)
    ensures CutsAreDeep(log, cut + CutBy(m, log, last), Top(m), limit)
  {
    CutsStayDeep(log, cut, last, limit, log, Top(m));
    forall id | id in CutBy(m, log, last) ensures |Later(log, id, Top(m))| >= limit {
      CutIsDeep(log, m, last, limit, id);
    }
  }

  lemma DeliverKeepsDeep(w: World, g: Config)
    requires Inv(w, g) && Deep(w, g) && Enabled(w, Deliver)
    ensures Deep(Step(w, Deliver, g), g)
  {
    var k := w.connection.value;
    var m := k.wire[0];
    HeadIsReceivable(k, w.client, w.base, w.log);
    ReceiveDelivers(w.log, w.client, w.base, w.cut, m);
    AllLinkedTail(k.wire, w.client.last, ReplayIn(w.log, g.limit));
    ReceivedCutsAreDeep(w.log, w.cut, w.client.last, m, g.limit);
  }

  lemma FreshBookKeepsLast(c: Client, sequence: int)
    ensures FreshBook(c, sequence).last == c.last
  {
  }

  lemma StepKeepsDeep(w: World, a: Action, g: Config)
    requires Inv(w, g) && Deep(w, g) && Enabled(w, a)
    ensures Deep(Step(w, a, g), g)
  {
    match a
    case Record(e) => RecordKeepsDeep(w, e, g);
    case ReadSnapshot => ReadKeepsDeep(w, g);
    case Check(_) => ReactKeepsDeep(w, a, g);
    case Take => ReactKeepsDeep(w, a, g);
    case Deliver => DeliverKeepsDeep(w, g);
    case Rest(sequence) => FreshBookKeepsLast(w.client, sequence);
    case _ =>
  }

  lemma NextKeepsDeep(w: World, w': World, g: Config)
    requires Inv(w, g) && Deep(w, g) && Next(w, w', g)
    ensures Deep(w', g)
  {
    var a :| Enabled(w, a) && w' == Step(w, a, g);
    StepKeepsDeep(w, a, g);
  }

  /** Over every run: an event that the client was told is cut off has at least as many later events,
      up to where the client stands, as the replay limit allows for.  With fewer missed events than
      the limit nothing is ever cut. */
  lemma OnlyDeepEventsAreCut(trace: seq<World>, g: Config, i: nat, id: int)
    requires IsRun(trace, g) && i < |trace| && g.size >= 1 && id in trace[i].cut
    ensures |Later(trace[i].log, id, trace[i].client.last)| >= g.limit
  {
    forall k | 0 <= k < i && Deep(trace[k], g) ensures Deep(trace[k + 1], g) {
      RunKeepsInv(trace, g, k);
      NextKeepsDeep(trace[k], trace[k + 1], g);
    }
    Along(trace, 0, i, w => Deep(w, g));
  }
}
