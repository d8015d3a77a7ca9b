/**
 Cursor-based delivery of one symbol's durable events: the server's stream session, the bounded
 hint queue in front of it, and the client's handler, over arbitrary disconnects.
 */
module Delivery {
  import opened Common

  /** A durable event: its cursor id and the sequence of the command it reports. */
  datatype Event = Event(id: int, sequence: int)

  type Log = seq<Event>

  /** Event ids rise with command sequences (`Guarantees.LaterStatesExtend`). */
  ghost predicate Ordered(log: Log) {
    && (forall i | 0 <= i < |log| :: log[i].id > 0 && log[i].sequence > 0)
    && (forall i, j | 0 <= i < j < |log| :: log[i].id < log[j].id && log[i].sequence < log[j].sequence)
  }

  function LastId(log: Log): int {
    if log == [] then 0 else log[|log| - 1].id
  }

  function LastSequence(log: Log): int {
    if log == [] then 0 else log[|log| - 1].sequence
  }

  // ---------------------------------------------------------------- replay

  /** The events with `after < id <= through`, oldest first. */
  function Missed(log: Log, after: int, through: int): seq<Event> {
    if log == [] then []
    else if after < log[|log| - 1].id <= through
    then Missed(log[..|log| - 1], after, through) + [log[|log| - 1]]
    else Missed(log[..|log| - 1], after, through)
  }

  /** The newest `limit` of them, and whether older ones were cut off. */
  function Recover(log: Log, after: int, through: int, limit: nat): (seq<Event>, bool) {
    var missed := Missed(log, after, through);
    if |missed| > limit then (missed[|missed| - limit..], true) else (missed, false)
  }

  function Reversed<T>(s: seq<T>): (r: seq<T>)
    ensures |r| == |s| && forall i | 0 <= i < |s| :: r[i] == s[|s| - 1 - i]
  {
    if s == [] then [] else [s[|s| - 1]] + Reversed(s[..|s| - 1])
  }

  /** Turning a newest-first list around after a cut leaves the newest ones, oldest first. */
  lemma {:induction false} CutTurnedAround(missed: seq<Event>, n: nat, events: seq<Event>)
    requires n <= |missed| && |events| == n
    requires forall k | 0 <= k < n :: events[k] == Reversed(missed)[n - 1 - k]
    ensures events == missed[|missed| - n..]
  {
    forall k | 0 <= k < n ensures events[k] == missed[|missed| - n..][k] {
      assert Reversed(missed)[n - 1 - k] == missed[|missed| - n + k];
    }
  }

  /** The replay query: newest first, one row more than the limit, then cut and turned around. */
  method RecoverMarketEvents(log: Log, after: int, through: int, limit: nat)
    returns (events: seq<Event>, truncated: bool)
    ensures (events, truncated) == Recover(log, after, through, limit)
    ensures |events| == Min(limit, |InRange(log, after, through)|)
    ensures truncated <==> |InRange(log, after, through)| > limit
  {
    MissedCount(log, after, through);
    var newestFirst := Reversed(Missed(log, after, through));
    var records := if |newestFirst| > limit + 1 then newestFirst[..limit + 1] else newestFirst;
    truncated := |records| > limit;
    var selected := if truncated then records[..limit] else records;
    events := [];
    for i := 0 to |selected|
      invariant |events| == i && forall k | 0 <= k < i :: events[k] == selected[i - 1 - k]
    {
      events := [selected[i]] + events;
    }
    CutTurnedAround(Missed(log, after, through), |selected|, events);
  }

  lemma {:induction false} MissedMembers(log: Log, after: int, through: int, e: Event)
    ensures e in Missed(log, after, through) <==> e in log && after < e.id <= through
  {
    if log != [] {
      MissedMembers(log[..|log| - 1], after, through, e);
      assert log == log[..|log| - 1] + [log[|log| - 1]];
    }
  }

  ghost predicate Ascending(es: seq<Event>) {
    forall i, j | 0 <= i < j < |es| :: es[i].id < es[j].id
  }

  lemma {:induction false} MissedAscends(log: Log, after: int, through: int)
    requires Ordered(log)
    ensures Ascending(Missed(log, after, through))
  {
    if log != [] {
      var init, last := log[..|log| - 1], log[|log| - 1];
      MissedAscends(init, after, through);
      forall i | 0 <= i < |Missed(init, after, through)| ensures Missed(init, after, through)[i].id < last.id {
        MissedMembers(init, after, through, Missed(init, after, through)[i]);
      }
    }
  }

  /** The positions of the events with `after < id <= through`. */
  function InRange(log: Log, after: int, through: int): set<int> {
    set i | 0 <= i < |log| && after < log[i].id <= through
  }

  lemma {:induction false} MissedCount(log: Log, after: int, through: int)
    ensures |Missed(log, after, through)| == |InRange(log, after, through)|
  {
    if log != [] {
      var init, k := log[..|log| - 1], |log| - 1;
      MissedCount(init, after, through);
      assert InRange(log, after, through)
          == if after < log[k].id <= through then InRange(init, after, through) + {k}
             else InRange(init, after, through);
    }
  }

  /** The replay is the newest part of what was missed, as much of it as the limit allows, and it is
      flagged as truncated exactly when there is more: then everything left out is older than
      everything replayed. */
  lemma {:induction false} RecoverKeepsNewest(log: Log, after: int, through: int, limit: nat)
    requires Ordered(log)
    ensures var (es, truncated) := Recover(log, after, through, limit);
            && Ascending(es) && |es| == Min(limit, |InRange(log, after, through)|)
            && (forall e | e in es :: e in log && after < e.id <= through)
            && (forall e, f | e in log && after < e.id <= through && e !in es && f in es :: e.id < f.id)
            && (truncated <==> |InRange(log, after, through)| > limit)
            && (truncated <==> exists e :: e in log && after < e.id <= through && e !in es)
  {
    var missed := Missed(log, after, through);
    var (es, truncated) := Recover(log, after, through, limit);
    MissedCount(log, after, through);
    MissedAscends(log, after, through);
    forall e ensures e in missed <==> e in log && after < e.id <= through {
      MissedMembers(log, after, through, e);
    }
    SuffixIsNewest(missed, |missed| - |es|);
    if truncated {
      assert missed[0] in missed;
    }
  }

  lemma SuffixIsNewest(s: seq<Event>, n: nat)
    requires Ascending(s) && n <= |s|
    ensures Ascending(s[n..]) && forall e | e in s[n..] :: e in s
    ensures forall e, f | e in s && e !in s[n..] && f in s[n..] :: e.id < f.id
    ensures forall i | 0 <= i < n :: s[i] !in s[n..]
  {
  }

  // ---------------------------------------------------------------- messages and the server session

  datatype Reason = Initial | LiveRefresh | Reconnect | Recovery

  datatype Message =
    | Snapshot(reason: Reason, eventId: int, sequence: int, recovered: seq<Event>, truncated: bool)
    | Heartbeat(eventId: int, sequence: int)
    | Update(event: Event)

  datatype Signal =
    | LiveRefreshRequired
    | ResyncRequired
    | MarketUpdate(event: Event)

  /** One consistent read: the newest event and sequence, and the replay after a cursor. */
  function SnapshotOf(log: Log, reason: Reason, after: Option<int>, limit: nat): Message {
    var (recovered, truncated) :=
      if after.Some? && after.value < LastId(log) then Recover(log, after.value, LastId(log), limit) else ([], false);
    Snapshot(reason, LastId(log), LastSequence(log), recovered, truncated)
  }

  /** The session's position: the last event id and sequence it has sent. */
  datatype Session = Session(eventId: int, sequence: int)

  function Synced(log: Log): Session {
    Session(LastId(log), LastSequence(log))
  }

  /** What waking up leads to: a fresh snapshot, a message, or nothing. */
  datatype Reaction =
    | Read(reason: Reason)
    | Send(session: Session, message: Message)
    | Skip

  /** Nothing was queued for a heartbeat period; `durable` is the newest event id then read. */
  function OnTimeout(s: Session, durable: int): Reaction {
    if durable > s.eventId then Read(Recovery) else Send(s, Heartbeat(s.eventId, s.sequence))
  }

  function OnSignal(s: Session, signal: Signal): Reaction {
    match signal
    case LiveRefreshRequired => Read(LiveRefresh)
    case ResyncRequired => Read(Recovery)
    case MarketUpdate(e) => if e.id > s.eventId then Send(Session(e.id, e.sequence), Update(e)) else Skip
  }

  // ---------------------------------------------------------------- the client handler

  datatype Client = Client(last: int, lastSequence: int, lastBook: int, applied: seq<Event>)

  function NewClient(): Client {
    Client(0, -1, -1, [])
  }

  function Insert(e: Event, es: seq<Event>): seq<Event> {
    if es == [] then [e]
    else if e.id < es[|es| - 1].id then Insert(e, es[..|es| - 1]) + [es[|es| - 1]]
    else es + [e]
  }

  function SortById(es: seq<Event>): seq<Event> {
    if es == [] then [] else Insert(es[|es| - 1], SortById(es[..|es| - 1]))
  }

  function Newer(es: seq<Event>, last: int): seq<Event> {
    if es == [] then []
    else if es[|es| - 1].id > last then Newer(es[..|es| - 1], last) + [es[|es| - 1]]
    else Newer(es[..|es| - 1], last)
  }

  /** The recovered events beyond the cursor, in id order. */
  function Unseen(es: seq<Event>, last: int): seq<Event> {
    SortById(Newer(es, last))
  }

  function ShouldApplyBook(incoming: int, lastApplied: int, lastBook: int): bool {
    incoming >= lastApplied && incoming > lastBook
  }

  function FreshBook(c: Client, incoming: int): Client {
    if ShouldApplyBook(incoming, c.lastSequence, c.lastBook) then c.(lastBook := incoming) else c
  }

  function Receive(c: Client, m: Message): Client {
    match m
    case Heartbeat(id, _) => c.(last := Max(c.last, id))
    case Snapshot(_, id, sequence, recovered, _) =>
      var unseen := Unseen(recovered, c.last);
      var c1 := c.(applied := c.applied + unseen, last := if unseen == [] then c.last else unseen[|unseen| - 1].id);
      if sequence < c1.lastSequence then c1
      else
        FreshBook(c1.(lastSequence := Max(c1.lastSequence, sequence), last := Max(c1.last, id)), sequence)
    case Update(e) =>
      if e.id > 0 && e.id <= c.last then c
      else if !(e.sequence > c.lastSequence) then c
      else
        FreshBook(c.(lastSequence := e.sequence, applied := c.applied + [e], last := Max(c.last, e.id)), e.sequence)
  }

  // ---------------------------------------------------------------- the bounded queue

  predicate IsMarker(s: Signal) {
    !s.MarketUpdate?
  }

  /** Publishing to one subscriber: a full queue is drained and left with a resync marker. */
  function Offer(queue: seq<Signal>, size: nat, s: Signal): seq<Signal> {
    if |queue| >= size then [ResyncRequired] else queue + [s]
  }

  // ---------------------------------------------------------------- the step system

  /** What the consumer is at: waiting for the queue, looking up the newest event id because the
      queue stayed empty for a heartbeat period, or reading a snapshot.  Other work runs between
      these steps, and signals can join the queue during each of them. */
  datatype Phase =
    | Waiting
    | Checking
    | Reading(reason: Reason)

  /** One socket. The cursor is the event id the server resumes after; it is none until the first
      snapshot of a client that has no cursor of its own. */
  datatype Connection = Connection(
    cursor: Option<int>,
    sequence: int,
    phase: Phase,
    queue: seq<Signal>,
    wire: seq<Message>
  )

  datatype World = World(
    log: Log,
    published: nat,            // how many events the in-process publisher has handed out
    connection: Option<Connection>,
    client: Client,
    connected: bool,           // has the client ever opened a connection?
    base: int,                 // the client's first cursor
    cut: set<int>,             // events cut off by truncated snapshots it has received
    notices: nat               // how many of those it has received
  )

  datatype Action =
    | Record(event: Event)
    | Hint(signal: Signal)
    | Publish
    | Open
    | ReadSnapshot
    | Expire
    | Check(durable: int)
    | Take
    | Deliver
    | Rest(sequence: int)
    | Drop

  datatype Config = Config(limit: nat, size: nat)

  function StartWorld(): World {
    World([], 0, None, NewClient(), false, 0, {}, 0)
  }

  ghost predicate Idle(k: Connection) {
    k.phase.Waiting? && k.cursor.Some?
  }

  ghost function React(k: Connection, r: Reaction): Connection {
    match r
    case Read(reason) => k.(phase := Reading(reason))
    case Send(s, m) =>
      k.(cursor := Some(s.eventId), sequence := s.sequence, phase := Waiting, wire := k.wire + [m])
    case Skip => k.(phase := Waiting)
  }

  ghost predicate Enabled(w: World, a: Action) {
    match a
    case Record(e) => e.id > LastId(w.log) && e.sequence > LastSequence(w.log)
    case Hint(s) => w.connection.Some? && IsMarker(s)
    case Publish => w.published < |w.log|
    case Open => w.connection.None?
    case ReadSnapshot => w.connection.Some? && w.connection.value.phase.Reading?
    case Expire => w.connection.Some? && Idle(w.connection.value) && w.connection.value.queue == []
    case Check(durable) =>
      && w.connection.Some? && w.connection.value.phase.Checking? && w.connection.value.cursor.Some?
      && durable <= LastId(w.log)
    case Take => w.connection.Some? && Idle(w.connection.value) && w.connection.value.queue != []
    case Deliver => w.connection.Some? && w.connection.value.wire != []
    case Rest(sequence) => sequence <= LastSequence(w.log)
    case Drop => w.connection.Some?
  }

  ghost function Offered(k: Option<Connection>, size: nat, s: Signal): Option<Connection> {
    if k.None? then None else Some(k.value.(queue := Offer(k.value.queue, size, s)))
  }

  ghost function CutBy(m: Message, log: Log, last: int): set<int> {
    if m.Snapshot? && m.truncated
    then set e | e in log && last < e.id <= m.eventId && e !in m.recovered :: e.id
    else {}
  }

  ghost function Step(w: World, a: Action, g: Config): World
    requires Enabled(w, a)
  {
    match a
    case Record(e) => w.(log := w.log + [e])
    case Hint(s) => w.(connection := Offered(w.connection, g.size, s))
    case Publish =>
      w.(published := w.published + 1,
         connection := Offered(w.connection, g.size, MarketUpdate(w.log[w.published])))
    case Open =>
      w.(connection := Some(Connection(if w.connected then Some(w.client.last) else None, 0,
                                       Reading(if w.connected then Reconnect else Initial), [], [])),
         connected := true)
    case ReadSnapshot =>
      var k := w.connection.value;
      var m := SnapshotOf(w.log, k.phase.reason, k.cursor, g.limit);
      w.(connection := Some(k.(phase := Waiting).(cursor := Some(LastId(w.log)), sequence := LastSequence(w.log),
                                                 wire := k.wire + [m])))
    case Expire => w.(connection := Some(w.connection.value.(phase := Checking)))
    case Check(durable) =>
      var k := w.connection.value;
      w.(connection := Some(React(k, OnTimeout(Session(k.cursor.value, k.sequence), durable))))
    case Take =>
      var k := w.connection.value;
      var session := Session(k.cursor.value, k.sequence);
      w.(connection := Some(React(k.(queue := k.queue[1..]), OnSignal(session, k.queue[0]))))
    case Deliver =>
      var k := w.connection.value;
      var m := k.wire[0];
      w.(connection := Some(k.(wire := k.wire[1..])),
         client := Receive(w.client, m),
         base := if m.Snapshot? && m.reason.Initial? then m.eventId else w.base,
         cut := w.cut + CutBy(m, w.log, w.client.last),
         notices := w.notices + if m.Snapshot? && m.truncated then 1 else 0)
    case Rest(sequence) => w.(client := FreshBook(w.client, sequence))
    case Drop => w.(connection := None)
  }

  ghost predicate Next(w: World, w': World, g: Config) {
    exists a :: Enabled(w, a) && w' == Step(w, a, g)
  }

  ghost predicate IsRun(trace: seq<World>, g: Config) {
    && trace != []
    && trace[0] == StartWorld()
    && forall i | 0 <= i < |trace| - 1 :: Next(trace[i], trace[i + 1], g)
  }

  // ---------------------------------------------------------------- the invariant

  /** The pair of a cursor and a sequence that one durable event carries (or the start). */
  ghost predicate AtLog(log: Log, id: int, sequence: int) {
    (id == 0 && sequence == 0) || Event(id, sequence) in log
  }

  function Top(m: Message): int {
    if m.Update? then m.event.id else m.eventId
  }

  function Carried(m: Message): seq<Event> {
    match m
    case Snapshot(_, _, _, recovered, _) => recovered
    case Update(e) => [e]
    case Heartbeat(_, _) => []
  }

  /** A client that stands at `cursor` loses nothing by moving to the message's event id. */
  ghost predicate Bridges(m: Message, cursor: int, log: Log) {
    forall e | e in log && cursor < e.id <= Top(m) :: e in Carried(m) || (m.Snapshot? && m.truncated)
  }

  ghost predicate Faithful(m: Message, log: Log) {
    && (forall e | e in Carried(m) :: e in log && e.id <= Top(m))
    && Ascending(Carried(m))
    && (m.Heartbeat? || AtLog(log, Top(m), if m.Update? then m.event.sequence else m.sequence))
    && 0 <= Top(m) <= LastId(log)
  }

  /** The message carries a client on from `cursor`, or is the first snapshot of a new client. */
  ghost predicate Link(m: Message, cursor: int, log: Log) {
    && Faithful(m, log)
    && cursor <= Top(m)
    && (m.Update? ==> cursor < Top(m))
    && (m.Heartbeat? ==> cursor == Top(m))
    && (if m.Snapshot? && m.reason.Initial? then m.recovered == [] && !m.truncated else Bridges(m, cursor, log))
  }

  /** Where a client stands that has received the first `i` messages. */
  function CursorAt(wire: seq<Message>, i: nat, cursor: int): int
    requires i <= |wire|
  {
    if i == 0 then cursor else Top(wire[i - 1])
  }

  ghost predicate AllLinked(wire: seq<Message>, cursor: int, link: (Message, int) -> bool) {
    forall i | 0 <= i < |wire| :: link(wire[i], CursorAt(wire, i, cursor))
  }

  ghost function LinkIn(log: Log): (Message, int) -> bool {
    (m: Message, cursor: int) => Link(m, cursor, log)
  }

  /** The messages in flight carry a client from `cursor` onwards without a gap. */
  ghost predicate Chain(wire: seq<Message>, cursor: int, log: Log) {
    AllLinked(wire, cursor, LinkIn(log))
  }

  function ChainEnd(wire: seq<Message>, cursor: int): int {
    CursorAt(wire, |wire|, cursor)
  }

  function PublishedId(log: Log, published: nat): int
    requires published <= |log|
  {
    LastId(log[..published])
  }

  ghost predicate NothingBetween(log: Log, a: int, b: int) {
    forall e | e in log :: !(a < e.id < b)
  }

  /** Draining the queue from `cursor` reaches everything published: either the updates queued
      are contiguous, or a marker that leads to a snapshot comes first. */
  ghost predicate Reaches(queue: seq<Signal>, cursor: int, log: Log, published: int)
    decreases |queue|
  {
    if queue == [] then cursor >= published
    else if IsMarker(queue[0]) then true
    else
      var e := queue[0].event;
      NothingBetween(log, cursor, e.id) && Reaches(queue[1..], Max(cursor, e.id), log, published)
  }

  ghost predicate QueueKnown(queue: seq<Signal>, log: Log, published: int) {
    forall i | 0 <= i < |queue| && queue[i].MarketUpdate? ::
      queue[i].event in log && queue[i].event.id <= published
  }

  ghost predicate Fresh(c: Client) {
    c.last == 0 && c.lastSequence == -1 && c.applied == []
  }

  /** Exactly once, in order, and without an unreported gap above the first cursor. */
  ghost predicate Delivered(log: Log, c: Client, base: int, cut: set<int>) {
    && Ascending(c.applied)
    && (forall e | e in c.applied :: e in log && base < e.id <= c.last && e.id !in cut)
    && (forall e | e in log && base < e.id <= c.last :: e in c.applied || e.id in cut)
    && (forall id | id in cut :: id <= c.last)
    && 0 <= base <= c.last
  }

  ghost predicate ClientSane(log: Log, c: Client) {
    && (Fresh(c) || AtLog(log, c.last, c.lastSequence))
    && c.last <= LastId(log)
    && c.lastSequence <= c.lastBook <= LastSequence(log)
  }

  /** Everything that must hold of a connection but what draining its queue leads to. */
  ghost predicate WireSane(w: World, k: Connection, g: Config)
    requires w.published <= |w.log|
  {
    && |k.queue| <= g.size
    && QueueKnown(k.queue, w.log, PublishedId(w.log, w.published))
    && (k.cursor.None? <==> k.phase == Reading(Initial))
    && (k.cursor.None? ==> k.wire == [] && Fresh(w.client) && w.base == 0)
    && (k.cursor.Some? ==> ChainEnd(k.wire, w.client.last) == k.cursor.value <= LastId(w.log))
    && Chain(k.wire, w.client.last, w.log)
    && InitialFirst(k.wire, w.client, w.base)
  }

  ghost predicate ConnectionSane(w: World, k: Connection, g: Config)
    requires w.published <= |w.log|
  {
    && WireSane(w, k, g)
    && (!k.phase.Reading? ==> Reaches(k.queue, k.cursor.value, w.log, PublishedId(w.log, w.published)))
  }

  ghost predicate InitialFirst(wire: seq<Message>, c: Client, base: int) {
    forall i | 0 <= i < |wire| && wire[i].Snapshot? && wire[i].reason.Initial? :: i == 0 && Fresh(c) && base == 0
  }

  ghost predicate Inv(w: World, g: Config) {
    && Ordered(w.log)
    && w.published <= |w.log|
    && Delivered(w.log, w.client, w.base, w.cut)
    && ClientSane(w.log, w.client)
    && (w.cut != {} ==> w.notices > 0)
    && (!w.connected ==> Fresh(w.client) && w.base == 0)
    && (w.connection.Some? ==> w.connected && ConnectionSane(w, w.connection.value, g))
  }
}
