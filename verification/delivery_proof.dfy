/** Why delivery loses nothing silently: the invariant of `Delivery` is inductive. */
module DeliveryProof {
  import opened Common
  import opened Delivery

  // ---------------------------------------------------------------- the log grows

  lemma OrderedMembers(log: Log, a: Event, b: Event)
    requires Ordered(log) && a in log && b in log
    ensures a.id < b.id <==> a.sequence < b.sequence
    ensures a.id == b.id ==> a == b
    ensures 0 < a.id <= LastId(log) && 0 < a.sequence <= LastSequence(log)
  {
  }

  lemma EndAtLog(log: Log)
    requires Ordered(log)
    ensures AtLog(log, LastId(log), LastSequence(log)) && LastId(log) >= 0
  {
  }

  lemma RecordKeepsOrder(log: Log, e: Event)
    requires Ordered(log) && e.id > LastId(log) && e.sequence > LastSequence(log)
    ensures Ordered(log + [e])
  {
  }

  lemma InAppend(log: Log, e: Event, x: Event)
    ensures x in log + [e] <==> x in log || x == e
  {
    assert (log + [e])[|log|] == e;
  }

  lemma AtLogGrows(log: Log, e: Event, id: int, sequence: int)
    requires AtLog(log, id, sequence)
    ensures AtLog(log + [e], id, sequence)
  {
    InAppend(log, e, Event(id, sequence));
  }

  lemma FaithfulGrows(m: Message, log: Log, e: Event)
    requires Faithful(m, log) && e.id > LastId(log)
    ensures Faithful(m, log + [e])
  {
    forall x | x in Carried(m) ensures x in log + [e] {
      InAppend(log, e, x);
    }
    if !m.Heartbeat? {
      AtLogGrows(log, e, Top(m), if m.Update? then m.event.sequence else m.sequence);
    }
  }

  lemma BridgesGrows(m: Message, cursor: int, log: Log, e: Event)
    requires Bridges(m, cursor, log) && e.id > Top(m)
    ensures Bridges(m, cursor, log + [e])
  {
    forall x | x in log + [e] && cursor < x.id <= Top(m) ensures x in Carried(m) || (m.Snapshot? && m.truncated) {
      InAppend(log, e, x);
    }
  }

  lemma LinkGrows(m: Message, cursor: int, log: Log, e: Event)
    requires e.id > LastId(log) && Link(m, cursor, log)
    ensures Link(m, cursor, log + [e])
  {
    FaithfulGrows(m, log, e);
    if !(m.Snapshot? && m.reason.Initial?) {
      BridgesGrows(m, cursor, log, e);
    }
  }

  lemma AllLinkedBy(wire: seq<Message>, cursor: int, f: (Message, int) -> bool, g: (Message, int) -> bool)
    requires AllLinked(wire, cursor, f)
    requires forall m, c | f(m, c) :: g(m, c)
    ensures AllLinked(wire, cursor, g)
  {
  }

  lemma ChainGrows(wire: seq<Message>, cursor: int, log: Log, e: Event)
    requires e.id > LastId(log) && Chain(wire, cursor, log)
    ensures Chain(wire, cursor, log + [e])
  {
    forall m, c | LinkIn(log)(m, c) ensures LinkIn(log + [e])(m, c) {
      LinkGrows(m, c, log, e);
    }
    AllLinkedBy(wire, cursor, LinkIn(log), LinkIn(log + [e]));
  }

  lemma {:induction false} ReachesGrows(queue: seq<Signal>, cursor: int, log: Log, published: int, e: Event)
    requires Reaches(queue, cursor, log, published) && QueueKnown(queue, log, published)
    requires Ordered(log) && e.id > LastId(log)
    ensures Reaches(queue, cursor, log + [e], published)
    decreases |queue|
  {
    if queue != [] && !IsMarker(queue[0]) {
      var head := queue[0].event;
      OrderedMembers(log, head, head);
      forall i | 0 <= i < |queue[1..]| && queue[1..][i].MarketUpdate?
        ensures queue[1..][i].event in log && queue[1..][i].event.id <= published
      {
        assert queue[1..][i] == queue[i + 1];
      }
      ReachesGrows(queue[1..], Max(cursor, head.id), log, published, e);
    }
  }

  // ---------------------------------------------------------------- the queue

  /** From a cursor at or beyond everything published, whatever is queued is old news. */
  lemma {:induction false} ReachesFromAhead(queue: seq<Signal>, cursor: int, log: Log, published: int)
    requires QueueKnown(queue, log, published) && cursor >= published
    ensures Reaches(queue, cursor, log, published)
    decreases |queue|
  {
    if queue != [] && !IsMarker(queue[0]) {
      forall i | 0 <= i < |queue[1..]| && queue[1..][i].MarketUpdate?
        ensures queue[1..][i].event in log && queue[1..][i].event.id <= published
      {
        assert queue[1..][i] == queue[i + 1];
      }
      ReachesFromAhead(queue[1..], Max(cursor, queue[0].event.id), log, published);
    }
  }

  /** Queueing a marker, or the next event that the publisher hands out. */
  lemma {:induction false} ReachesAppend(queue: seq<Signal>, cursor: int, log: Log, published: int, s: Signal,
        after: int)
    requires Reaches(queue, cursor, log, published)
    requires IsMarker(s) || (NothingBetween(log, published, s.event.id) && s.event.id == after)
    requires IsMarker(s) ==> after == published
    ensures Reaches(queue + [s], cursor, log, after)
    decreases |queue|
  {
    var next := queue + [s];
    if queue == [] {
      assert next[1..] == [];
    } else if !IsMarker(queue[0]) {
      assert next[1..] == queue[1..] + [s];
      ReachesAppend(queue[1..], Max(cursor, queue[0].event.id), log, published, s, after);
    }
  }

  /** A bounded queue never hides a loss: what overflows is replaced by a resync marker. */
  lemma {:induction false} OfferReaches(queue: seq<Signal>, size: nat, cursor: int, log: Log, published: int,
        s: Signal, after: int)
    requires Reaches(queue, cursor, log, published)
    requires IsMarker(s) || (NothingBetween(log, published, s.event.id) && s.event.id == after)
    requires IsMarker(s) ==> after == published
    ensures Reaches(Offer(queue, size, s), cursor, log, after)
  {
    ReachesAppend(queue, cursor, log, published, s, after);
  }

  lemma OfferKnown(queue: seq<Signal>, size: nat, log: Log, published: int, s: Signal, after: int)
    requires QueueKnown(queue, log, published) && published <= after
    requires s.MarketUpdate? ==> s.event in log && s.event.id <= after
    ensures QueueKnown(Offer(queue, size, s), log, after)
  {
  }

  lemma NextPublished(log: Log, published: nat)
    requires Ordered(log) && published < |log|
    ensures PublishedId(log, published + 1) == log[published].id
    ensures PublishedId(log, published) < log[published].id
    ensures NothingBetween(log, PublishedId(log, published), log[published].id)
  {
  }

  // ---------------------------------------------------------------- the wire

  lemma AllLinkedAppend(wire: seq<Message>, cursor: int, link: (Message, int) -> bool, m: Message)
    requires AllLinked(wire, cursor, link) && link(m, CursorAt(wire, |wire|, cursor))
    ensures AllLinked(wire + [m], cursor, link)
  {
    var longer := wire + [m];
    forall i | 0 <= i < |longer| ensures link(longer[i], CursorAt(longer, i, cursor)) {
      CursorInAppend(wire, m, i, cursor);
      if i < |wire| {
        assert longer[i] == wire[i] && link(wire[i], CursorAt(wire, i, cursor));
      }
    }
  }

  lemma CursorInAppend(wire: seq<Message>, m: Message, i: nat, cursor: int)
    requires i <= |wire|
    ensures CursorAt(wire + [m], i, cursor) == CursorAt(wire, i, cursor)
  {
  }

  lemma ChainAppend(wire: seq<Message>, cursor: int, log: Log, m: Message)
    requires Chain(wire, cursor, log) && Link(m, ChainEnd(wire, cursor), log)
    ensures Chain(wire + [m], cursor, log) && ChainEnd(wire + [m], cursor) == Top(m)
  {
    AllLinkedAppend(wire, cursor, LinkIn(log), m);
  }

  /** A snapshot taken with a cursor replays everything above it, or says that it does not. */
  lemma SnapshotBridges(log: Log, reason: Reason, after: int, limit: nat)
    requires Ordered(log) && after <= LastId(log)
    ensures var m := SnapshotOf(log, reason, Some(after), limit);
            Faithful(m, log) && Bridges(m, after, log) && Top(m) == LastId(log)
  {
    EndAtLog(log);
    var m := SnapshotOf(log, reason, Some(after), limit);
    var missed := Missed(log, after, LastId(log));
    MissedAscends(log, after, LastId(log));
    forall e ensures e in missed <==> e in log && after < e.id <= LastId(log) {
      MissedMembers(log, after, LastId(log), e);
    }
    forall e | e in m.recovered ensures e in missed {}
  }

  lemma InitialSnapshot(log: Log, limit: nat)
    requires Ordered(log)
    ensures var m := SnapshotOf(log, Initial, None, limit);
            Faithful(m, log) && m.recovered == [] && !m.truncated && Top(m) == LastId(log)
  {
  }

  // ---------------------------------------------------------------- the client

  lemma {:induction false} NewerMembers(es: seq<Event>, last: int, e: Event)
    ensures e in Newer(es, last) <==> e in es && e.id > last
  {
    if es != [] {
      NewerMembers(es[..|es| - 1], last, e);
      assert es == es[..|es| - 1] + [es[|es| - 1]];
    }
  }

  lemma {:induction false} UnseenOfAscending(es: seq<Event>, last: int)
    requires Ascending(es)
    ensures Unseen(es, last) == Newer(es, last) && Ascending(Newer(es, last))
  {
    NewerAscends(es, last);
    SortOfAscending(Newer(es, last));
  }

  lemma {:induction false} NewerAscends(es: seq<Event>, last: int)
    requires Ascending(es)
    ensures Ascending(Newer(es, last))
  {
    if es != [] {
      var init := es[..|es| - 1];
      NewerAscends(init, last);
      forall i | 0 <= i < |Newer(init, last)| ensures Newer(init, last)[i].id < es[|es| - 1].id {
        NewerMembers(init, last, Newer(init, last)[i]);
      }
    }
  }

  lemma {:induction false} SortOfAscending(es: seq<Event>)
    requires Ascending(es)
    ensures SortById(es) == es
  {
    if es != [] {
      SortOfAscending(es[..|es| - 1]);
      assert es == es[..|es| - 1] + [es[|es| - 1]];
    }
  }

  /** What the handler does with a snapshot that is not older than the client's last event. */
  lemma ReceiveCurrentSnapshot(c: Client, m: Message)
    requires m.Snapshot? && c.lastSequence <= m.sequence && c.lastSequence <= c.lastBook && c.last <= m.eventId
    requires var unseen := Unseen(m.recovered, c.last); unseen == [] || unseen[|unseen| - 1].id <= m.eventId
    ensures Receive(c, m)
         == Client(m.eventId, m.sequence, Max(c.lastBook, m.sequence), c.applied + Unseen(m.recovered, c.last))
  {
  }

  /** One snapshot ahead of the client's cursor: its handler applies exactly the unseen part of the
      replay and ends at the snapshot's event id; it never takes the early exit. */
  lemma ReceiveSnapshot(log: Log, c: Client, m: Message)
    requires Ordered(log) && ClientSane(log, c) && m.Snapshot? && Faithful(m, log) && c.last <= Top(m)
    ensures var c' := Receive(c, m);
            && c'.applied == c.applied + Newer(m.recovered, c.last) && c'.last == m.eventId
            && c'.lastSequence == m.sequence && ClientSane(log, c')
    ensures Ascending(Newer(m.recovered, c.last))
  {
    var unseen := Newer(m.recovered, c.last);
    UnseenOfAscending(m.recovered, c.last);
    if unseen != [] {
      NewerMembers(m.recovered, c.last, unseen[|unseen| - 1]);
    }
    SnapshotNotStale(log, c, m);
    ReceiveCurrentSnapshot(c, m);
    SnapshotIsSane(log, c, m, c.applied + unseen);
  }

  lemma SnapshotIsSane(log: Log, c: Client, m: Message, applied: seq<Event>)
    requires Ordered(log) && ClientSane(log, c) && m.Snapshot? && Faithful(m, log)
    requires c.lastSequence <= m.sequence <= LastSequence(log) && m.sequence >= 0
    ensures ClientSane(log, Client(m.eventId, m.sequence, Max(c.lastBook, m.sequence), applied))
  {
  }

  lemma SnapshotNotStale(log: Log, c: Client, m: Message)
    requires Ordered(log) && ClientSane(log, c) && m.Snapshot? && Faithful(m, log) && c.last <= Top(m)
    ensures c.lastSequence <= m.sequence <= LastSequence(log) && m.sequence >= 0
  {
  }

  /** Applying the next stretch of events in one go, all but the reported ones. */
  lemma BatchDelivers(log: Log, c: Client, c': Client, base: int, cut: set<int>, es: seq<Event>, lost: set<int>)
    requires Delivered(log, c, base, cut) && c'.applied == c.applied + es && c.last <= c'.last && Ascending(es)
    requires forall e | e in es :: e in log && c.last < e.id <= c'.last && e.id !in lost
    requires forall e | e in log && c.last < e.id <= c'.last :: e in es || e.id in lost
    requires forall id | id in lost :: c.last < id <= c'.last
    ensures Delivered(log, c', base, cut + lost)
  {
  }

  lemma CutIsTheRest(log: Log, m: Message, last: int)
    requires Ordered(log) && m.Snapshot? && Faithful(m, log) && Bridges(m, last, log)
    ensures forall e | e in m.recovered && last < e.id :: e.id !in CutBy(m, log, last)
    ensures forall e | e in log && last < e.id <= Top(m) :: e in m.recovered || e.id in CutBy(m, log, last)
    ensures forall id | id in CutBy(m, log, last) :: last < id <= Top(m)
  {
  }

  lemma SnapshotDelivers(log: Log, c: Client, base: int, cut: set<int>, m: Message)
    requires Ordered(log) && ClientSane(log, c) && Delivered(log, c, base, cut)
    requires m.Snapshot? && Faithful(m, log) && c.last <= Top(m) && Bridges(m, c.last, log)
    ensures Delivered(log, Receive(c, m), base, cut + CutBy(m, log, c.last))
  {
    var unseen := Newer(m.recovered, c.last);
    ReceiveSnapshot(log, c, m);
    forall e ensures e in unseen <==> e in m.recovered && e.id > c.last {
      NewerMembers(m.recovered, c.last, e);
    }
    CutIsTheRest(log, m, c.last);
    BatchDelivers(log, c, Receive(c, m), base, cut, unseen, CutBy(m, log, c.last));
  }

  lemma UpdateReceived(log: Log, c: Client, m: Message)
    requires Ordered(log) && ClientSane(log, c)
    requires m.Update? && Faithful(m, log) && c.last < Top(m)
    ensures var c' := Receive(c, m);
            ClientSane(log, c') && c'.last == Top(m) && c'.applied == c.applied + [m.event]
  {
  }

  lemma UpdateDelivers(log: Log, c: Client, base: int, cut: set<int>, m: Message)
    requires Ordered(log) && ClientSane(log, c) && Delivered(log, c, base, cut)
    requires m.Update? && Faithful(m, log) && c.last < Top(m) && Bridges(m, c.last, log)
    ensures Delivered(log, Receive(c, m), base, cut)
  {
    UpdateReceived(log, c, m);
    assert m.event in Carried(m);
    BatchDelivers(log, c, Receive(c, m), base, cut, [m.event], {});
    assert cut + {} == cut;
  }

  /** Every message of the chain advances the client to the message's event id and delivers. */
  lemma ReceiveDelivers(log: Log, c: Client, base: int, cut: set<int>, m: Message)
    requires Ordered(log) && ClientSane(log, c) && Delivered(log, c, base, cut)
    requires Faithful(m, log) && c.last <= Top(m)
    requires m.Update? ==> c.last < Top(m)
    requires m.Heartbeat? ==> c.last == Top(m)
    requires if m.Snapshot? && m.reason.Initial? then m.recovered == [] && !m.truncated && Fresh(c)
             else Bridges(m, c.last, log)
    ensures var base' := if m.Snapshot? && m.reason.Initial? then m.eventId else base;
            && Delivered(log, Receive(c, m), base', cut + CutBy(m, log, c.last))
            && ClientSane(log, Receive(c, m)) && Receive(c, m).last == Top(m)
  {
    match m
    case Heartbeat(_, _) =>
    case Update(_) =>
      UpdateReceived(log, c, m);
      UpdateDelivers(log, c, base, cut, m);
    case Snapshot(reason, _, _, _, _) =>
      ReceiveSnapshot(log, c, m);
      if !reason.Initial? {
        SnapshotDelivers(log, c, base, cut, m);
      }
  }

  // ---------------------------------------------------------------- every step keeps the invariant

  ghost predicate Forward(m: Message, cursor: int) {
    cursor <= Top(m)
  }

  lemma {:induction false} EndAhead(wire: seq<Message>, cursor: int)
    requires AllLinked(wire, cursor, Forward)
    ensures cursor <= ChainEnd(wire, cursor)
    decreases |wire|
  {
    if wire != [] {
      var last := |wire| - 1;
      assert Forward(wire[last], CursorAt(wire, last, cursor));
      EndAhead(wire[..last], cursor);
    }
  }

  lemma ChainEndAhead(wire: seq<Message>, cursor: int, log: Log)
    requires Chain(wire, cursor, log)
    ensures cursor <= ChainEnd(wire, cursor)
  {
    AllLinkedBy(wire, cursor, LinkIn(log), Forward);
    EndAhead(wire, cursor);
  }

  lemma PublishedWithin(log: Log, published: nat)
    requires Ordered(log) && published <= |log|
    ensures PublishedId(log, published) <= LastId(log)
  {
  }

  lemma RecordKeepsConnection(w: World, k: Connection, e: Event, g: Config)
    requires Ordered(w.log) && w.published <= |w.log| && ConnectionSane(w, k, g)
    requires e.id > LastId(w.log) && e.sequence > LastSequence(w.log)
    ensures ConnectionSane(w.(log := w.log + [e]), k, g)
  {
    assert (w.log + [e])[..w.published] == w.log[..w.published];
    ChainGrows(k.wire, w.client.last, w.log, e);
    if !k.phase.Reading? {
      ReachesGrows(k.queue, k.cursor.value, w.log, PublishedId(w.log, w.published), e);
    }
  }

  lemma RecordKeepsInv(w: World, e: Event, g: Config)
    requires Inv(w, g) && Enabled(w, Record(e))
    ensures Inv(Step(w, Record(e), g), g)
  {
    RecordKeepsOrder(w.log, e);
    if w.connection.Some? {
      RecordKeepsConnection(w, w.connection.value, e, g);
    }
  }

  lemma HintKeepsInv(w: World, s: Signal, g: Config)
    requires Inv(w, g) && Enabled(w, Hint(s)) && g.size >= 1
    ensures Inv(Step(w, Hint(s), g), g)
  {
    var k, pub := w.connection.value, PublishedId(w.log, w.published);
    OfferKnown(k.queue, g.size, w.log, pub, s, pub);
    if !k.phase.Reading? {
      OfferReaches(k.queue, g.size, k.cursor.value, w.log, pub, s, pub);
    }
  }

  lemma PublishKeepsInv(w: World, g: Config)
    requires Inv(w, g) && Enabled(w, Publish) && g.size >= 1
    ensures Inv(Step(w, Publish, g), g)
  {
    NextPublished(w.log, w.published);
    if w.connection.Some? {
      var k, pub := w.connection.value, PublishedId(w.log, w.published);
      var e := w.log[w.published];
      OfferKnown(k.queue, g.size, w.log, pub, MarketUpdate(e), e.id);
      if !k.phase.Reading? {
        OfferReaches(k.queue, g.size, k.cursor.value, w.log, pub, MarketUpdate(e), e.id);
      }
    }
  }

  /** A step of the connection alone. */
  lemma ConnectionKeepsInv(w: World, k: Connection, g: Config)
    requires Inv(w, g) && w.connected && ConnectionSane(w, k, g)
    ensures Inv(w.(connection := Some(k)), g)
  {
  }

  /** The snapshots in flight after one more message: none but a first one may be initial. */
  lemma InitialStaysFirst(wire: seq<Message>, m: Message, c: Client, base: int)
    requires InitialFirst(wire, c, base)
    requires m.Snapshot? && m.reason.Initial? ==> wire == [] && Fresh(c) && base == 0
    ensures InitialFirst(wire + [m], c, base)
  {
  }

  lemma {:induction false} FirstSnapshotOnWire(log: Log, c: Client, limit: nat)
    requires Ordered(log) && Fresh(c)
    ensures var wire := [SnapshotOf(log, Initial, None, limit)];
            Chain(wire, c.last, log) && ChainEnd(wire, c.last) == LastId(log)
  {
    InitialSnapshot(log, limit);
  }

  lemma {:induction false} NextSnapshotOnWire(wire: seq<Message>, last: int, log: Log, reason: Reason,
        after: int, limit: nat)
    requires Ordered(log) && Chain(wire, last, log) && ChainEnd(wire, last) == after <= LastId(log)
    requires !reason.Initial?
    ensures var longer := wire + [SnapshotOf(log, reason, Some(after), limit)];
            Chain(longer, last, log) && ChainEnd(longer, last) == LastId(log)
  {
    SnapshotBridges(log, reason, after, limit);
    ChainAppend(wire, last, log, SnapshotOf(log, reason, Some(after), limit));
  }

  lemma ReadKeepsWire(w: World, k: Connection, g: Config)
    requires Inv(w, g) && ConnectionSane(w, k, g) && k.phase.Reading?
    ensures var wire := k.wire + [SnapshotOf(w.log, k.phase.reason, k.cursor, g.limit)];
            && Chain(wire, w.client.last, w.log) && ChainEnd(wire, w.client.last) == LastId(w.log)
            && InitialFirst(wire, w.client, w.base)
  {
    var m := SnapshotOf(w.log, k.phase.reason, k.cursor, g.limit);
    InitialStaysFirst(k.wire, m, w.client, w.base);
    if k.cursor.None? {
      FirstSnapshotOnWire(w.log, w.client, g.limit);
      assert k.wire + [m] == [m];
    } else {
      NextSnapshotOnWire(k.wire, w.client.last, w.log, k.phase.reason, k.cursor.value, g.limit);
    }
  }

  /** A snapshot brings the cursor to the durable maximum. */
  lemma ReadKeepsInv(w: World, g: Config)
    requires Inv(w, g) && Enabled(w, ReadSnapshot)
    ensures Inv(Step(w, ReadSnapshot, g), g)
  {
    var k := w.connection.value;
    ReadKeepsWire(w, k, g);
    PublishedWithin(w.log, w.published);
    ReachesFromAhead(k.queue, LastId(w.log), w.log, PublishedId(w.log, w.published));
    ConnectionKeepsInv(w, Step(w, ReadSnapshot, g).connection.value, g);
  }

  /** Sending an update or a heartbeat. */
  lemma SendKeepsSane(w: World, k: Connection, m: Message, sequence: int, g: Config)
    requires w.published <= |w.log| && WireSane(w, k, g) && k.cursor.Some?
    requires !m.Snapshot? && Faithful(m, w.log) && Bridges(m, k.cursor.value, w.log) && k.cursor.value <= Top(m)
    requires m.Update? ==> k.cursor.value < Top(m)
    requires m.Heartbeat? ==> k.cursor.value == Top(m)
    requires Reaches(k.queue, Top(m), w.log, PublishedId(w.log, w.published))
    ensures ConnectionSane(w, React(k, Send(Session(Top(m), sequence), m)), g)
  {
    ChainAppend(k.wire, w.client.last, w.log, m);
  }

  lemma ExpireKeepsInv(w: World, g: Config)
    requires Inv(w, g) && Enabled(w, Expire)
    ensures Inv(Step(w, Expire, g), g)
  {
    ConnectionKeepsInv(w, w.connection.value.(phase := Checking), g);
  }

  lemma CheckKeepsInv(w: World, durable: int, g: Config)
    requires Inv(w, g) && Enabled(w, Check(durable))
    ensures Inv(Step(w, Check(durable), g), g)
  {
    var k := w.connection.value;
    if durable <= k.cursor.value {
      ChainEndAhead(k.wire, w.client.last, w.log);
      SendKeepsSane(w, k, Heartbeat(k.cursor.value, k.sequence), k.sequence, g);
    }
    ConnectionKeepsInv(w, Step(w, Check(durable), g).connection.value, g);
  }

  lemma {:induction false} ReachesNext(queue: seq<Signal>, cursor: int, log: Log, published: int)
    requires Reaches(queue, cursor, log, published) && queue != [] && queue[0].MarketUpdate?
    ensures NothingBetween(log, cursor, queue[0].event.id)
    ensures Reaches(queue[1..], Max(cursor, queue[0].event.id), log, published)
  {
  }

  lemma TailIsWireSane(w: World, k: Connection, g: Config)
    requires w.published <= |w.log| && WireSane(w, k, g) && k.queue != []
    ensures WireSane(w, k.(queue := k.queue[1..]), g)
  {
  }

  lemma UpdateKeepsSane(w: World, k: Connection, e: Event, g: Config)
    requires Ordered(w.log) && w.published <= |w.log| && WireSane(w, k, g) && k.cursor.Some?
    requires e in w.log && e.id > k.cursor.value && NothingBetween(w.log, k.cursor.value, e.id)
    requires Reaches(k.queue, e.id, w.log, PublishedId(w.log, w.published))
    ensures ConnectionSane(w, React(k, Send(Session(e.id, e.sequence), Update(e))), g)
  {
    UpdateBridges(w.log, k.cursor.value, e);
    SendKeepsSane(w, k, Update(e), e.sequence, g);
  }

  lemma ReadingIsSane(w: World, k: Connection, reason: Reason, g: Config)
    requires w.published <= |w.log| && WireSane(w, k, g) && k.cursor.Some? && !reason.Initial?
    ensures ConnectionSane(w, k.(phase := Reading(reason)), g)
  {
  }

  lemma WaitingIsSane(w: World, k: Connection, g: Config)
    requires w.published <= |w.log| && WireSane(w, k, g) && k.cursor.Some?
    requires Reaches(k.queue, k.cursor.value, w.log, PublishedId(w.log, w.published))
    ensures ConnectionSane(w, k.(phase := Waiting), g)
  {
  }

  /** `k` has taken an update off its queue. */
  lemma TakenUpdateKeepsSane(w: World, k: Connection, e: Event, g: Config)
    requires Ordered(w.log) && w.published <= |w.log| && WireSane(w, k, g) && k.cursor.Some? && e in w.log
    requires NothingBetween(w.log, k.cursor.value, e.id)
    requires Reaches(k.queue, Max(k.cursor.value, e.id), w.log, PublishedId(w.log, w.published))
    ensures ConnectionSane(w, React(k, OnSignal(Session(k.cursor.value, k.sequence), MarketUpdate(e))), g)
  {
    if e.id > k.cursor.value {
      UpdateKeepsSane(w, k, e, g);
    } else {
      WaitingIsSane(w, k, g);
    }
  }

  /** Taking one signal off the queue: a marker starts a read, and an update carries on exactly
      where the cursor stands. */
  lemma TakeKeepsSane(w: World, k: Connection, g: Config)
    requires Ordered(w.log) && w.published <= |w.log| && ConnectionSane(w, k, g) && Idle(k) && k.queue != []
    ensures var reaction := OnSignal(Session(k.cursor.value, k.sequence), k.queue[0]);
            ConnectionSane(w, React(k.(queue := k.queue[1..]), reaction), g)
  {
    var k' := k.(queue := k.queue[1..]);
    TailIsWireSane(w, k, g);
    match k.queue[0]
    case MarketUpdate(e) =>
      ReachesNext(k.queue, k.cursor.value, w.log, PublishedId(w.log, w.published));
      TakenUpdateKeepsSane(w, k', e, g);
    case LiveRefreshRequired => ReadingIsSane(w, k', LiveRefresh, g);
    case ResyncRequired => ReadingIsSane(w, k', Recovery, g);
  }

  lemma TakeKeepsInv(w: World, g: Config)
    requires Inv(w, g) && Enabled(w, Take)
    ensures Inv(Step(w, Take, g), g)
  {
    TakeKeepsSane(w, w.connection.value, g);
    ConnectionKeepsInv(w, Step(w, Take, g).connection.value, g);
  }

  lemma UpdateBridges(log: Log, cursor: int, e: Event)
    requires Ordered(log) && e in log && NothingBetween(log, cursor, e.id)
    ensures Faithful(Update(e), log) && Bridges(Update(e), cursor, log)
  {
  }

  lemma AllLinkedTail(wire: seq<Message>, cursor: int, link: (Message, int) -> bool)
    requires wire != [] && AllLinked(wire, cursor, link)
    ensures link(wire[0], cursor) && AllLinked(wire[1..], Top(wire[0]), link)
    ensures ChainEnd(wire[1..], Top(wire[0])) == ChainEnd(wire, cursor)
  {
    var tail := wire[1..];
    forall i | 0 <= i < |tail| ensures link(tail[i], CursorAt(tail, i, Top(wire[0]))) {
      assert link(wire[i + 1], CursorAt(wire, i + 1, cursor));
    }
    assert link(wire[0], CursorAt(wire, 0, cursor));
  }

  lemma ChainTail(wire: seq<Message>, cursor: int, log: Log)
    requires wire != [] && Chain(wire, cursor, log)
    ensures Chain(wire[1..], Top(wire[0]), log) && ChainEnd(wire[1..], Top(wire[0])) == ChainEnd(wire, cursor)
    ensures Link(wire[0], cursor, log)
  {
    AllLinkedTail(wire, cursor, LinkIn(log));
  }

  lemma NoLaterInitial(wire: seq<Message>, c: Client, base: int)
    requires wire != [] && InitialFirst(wire, c, base)
    ensures forall i | 0 <= i < |wire[1..]| :: !(wire[1..][i].Snapshot? && wire[1..][i].reason.Initial?)
  {
    assert forall i | 0 <= i < |wire[1..]| :: wire[1..][i] == wire[i + 1];
  }

  lemma DeliverKeepsWire(k: Connection, c: Client, base: int, log: Log)
    requires k.wire != [] && Chain(k.wire, c.last, log) && InitialFirst(k.wire, c, base)
    ensures Chain(k.wire[1..], Top(k.wire[0]), log)
    ensures ChainEnd(k.wire[1..], Top(k.wire[0])) == ChainEnd(k.wire, c.last)
    ensures forall i | 0 <= i < |k.wire[1..]| :: !(k.wire[1..][i].Snapshot? && k.wire[1..][i].reason.Initial?)
  {
    ChainTail(k.wire, c.last, log);
    NoLaterInitial(k.wire, c, base);
  }

  lemma HeadIsReceivable(k: Connection, c: Client, base: int, log: Log)
    requires k.wire != [] && Chain(k.wire, c.last, log) && InitialFirst(k.wire, c, base)
    ensures Link(k.wire[0], c.last, log)
    ensures k.wire[0].Snapshot? && k.wire[0].reason.Initial? ==> Fresh(c) && base == 0
  {
    ChainTail(k.wire, c.last, log);
  }

  lemma DeliverKeepsInv(w: World, g: Config)
    requires Inv(w, g) && Enabled(w, Deliver)
    ensures Inv(Step(w, Deliver, g), g)
  {
    var k := w.connection.value;
    var m := k.wire[0];
    HeadIsReceivable(k, w.client, w.base, w.log);
    ReceiveDelivers(w.log, w.client, w.base, w.cut, m);
    var w' := Step(w, Deliver, g);
    assert w'.client == Receive(w.client, m);
    DeliveredConnection(w, w', k, g);
  }

  lemma DeliveredConnection(w: World, w': World, k: Connection, g: Config)
    requires w.published <= |w.log| && ConnectionSane(w, k, g) && k.wire != []
    requires w'.log == w.log && w'.published == w.published && w'.client.last == Top(k.wire[0])
    ensures ConnectionSane(w', k.(wire := k.wire[1..]), g)
  {
    DeliverKeepsWire(k, w.client, w.base, w.log);
  }

  lemma OpenKeepsInv(w: World, g: Config)
    requires Inv(w, g) && Enabled(w, Open)
    ensures Inv(Step(w, Open, g), g)
  {
  }

  lemma RestKeepsInv(w: World, sequence: int, g: Config)
    requires Inv(w, g) && Enabled(w, Rest(sequence))
    ensures Inv(Step(w, Rest(sequence), g), g)
  {
    var w' := Step(w, Rest(sequence), g);
    if w.connection.Some? {
      assert InitialFirst(w.connection.value.wire, w'.client, w'.base);
    }
  }

  lemma DropKeepsInv(w: World, g: Config)
    requires Inv(w, g) && Enabled(w, Drop)
    ensures Inv(Step(w, Drop, g), g)
  {
  }

  lemma NextKeepsInv(w: World, a: Action, g: Config)
    requires Inv(w, g) && Enabled(w, a) && g.size >= 1
    ensures Inv(Step(w, a, g), g)
  {
    match a
    case Record(e) => RecordKeepsInv(w, e, g);
    case Hint(s) => HintKeepsInv(w, s, g);
    case Publish => PublishKeepsInv(w, g);
    case Open => OpenKeepsInv(w, g);
    case ReadSnapshot => ReadKeepsInv(w, g);
    case Check(durable) => CheckKeepsInv(w, durable, g);
    case Expire => ExpireKeepsInv(w, g);
    case Take => TakeKeepsInv(w, g);
    case Deliver => DeliverKeepsInv(w, g);
    case Rest(sequence) => RestKeepsInv(w, sequence, g);
    case Drop => DropKeepsInv(w, g);
  }

  lemma {:induction false} RunKeepsInv(trace: seq<World>, g: Config, i: nat)
    requires IsRun(trace, g) && i < |trace| && g.size >= 1
    ensures Inv(trace[i], g)
  {
    if i > 0 {
      RunKeepsInv(trace, g, i - 1);
      assert Next(trace[i - 1], trace[i - 1 + 1], g);
      var a :| Enabled(trace[i - 1], a) && trace[i] == Step(trace[i - 1], a, g);
      NextKeepsInv(trace[i - 1], a, g);
    }
  }
}
