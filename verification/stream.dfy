/**
 The two ends of a market stream, as they are written: the server's consumer loop and the
 browser's message handler.  Each updates its own variables in place and is proved to compute the
 functions that the delivery protocol is stated with.
 */
module Streaming {
  import opened Common
  import opened Delivery

  /** Why the consumer woke up, with the durable log that its reads then see. */
  datatype Wakeup =
    | TimedOut(durable: int, log: Log)
    | Got(signal: Signal, log: Log)

  /** What a consumer has done so far: its position and every message it has sent. */
  datatype Progress = Progress(session: Session, sent: seq<Message>)

  function Opened(log: Log, after: Option<int>, limit: nat): Progress {
    Progress(Synced(log), [SnapshotOf(log, if after.Some? then Reconnect else Initial, after, limit)])
  }

  function Reacted(p: Progress, r: Reaction, log: Log, limit: nat): Progress {
    match r
    case Read(reason) => Progress(Synced(log), p.sent + [SnapshotOf(log, reason, Some(p.session.eventId), limit)])
    case Send(session, m) => Progress(session, p.sent + [m])
    case Skip => p
  }

  function Woken(p: Progress, w: Wakeup, limit: nat): Progress {
    match w
    case TimedOut(durable, log) => Reacted(p, OnTimeout(p.session, durable), log, limit)
    case Got(signal, log) => Reacted(p, OnSignal(p.session, signal), log, limit)
  }

  function Consumed(p: Progress, ws: seq<Wakeup>, limit: nat): Progress {
    if ws == [] then p else Woken(Consumed(p, ws[..|ws| - 1], limit), ws[|ws| - 1], limit)
  }

  /** One more message has gone out, a snapshot with this reason. */
  predicate Sends(before: seq<Message>, after: seq<Message>, reason: Reason) {
    && |after| == |before| + 1 && after[..|before|] == before
    && after[|before|].Snapshot? && after[|before|].reason == reason
  }

  class MarketStream {
    var sequence: int
    var eventId: int
    var sent: seq<Message>
    const replayLimit: nat

    constructor (replayLimit: nat)
      ensures this.replayLimit == replayLimit && sent == []
    {
      this.replayLimit := replayLimit;
      sequence, eventId, sent := 0, 0, [];
    }

    function View(): Progress
      reads this
    {
      Progress(Session(eventId, sequence), sent)
    }

    method SendSnapshot(log: Log, after: Option<int>, reason: Reason)
      modifies this
      ensures View() == Progress(Synced(log), old(sent) + [SnapshotOf(log, reason, after, replayLimit)])
    {
      var recovered, truncated := [], false;
      if after.Some? && after.value < LastId(log) {
        recovered, truncated := RecoverMarketEvents(log, after.value, LastId(log), replayLimit);
      }
      sent := sent + [Snapshot(reason, LastId(log), LastSequence(log), recovered, truncated)];
      sequence := LastSequence(log);
      eventId := LastId(log);
    }

    method Wake(w: Wakeup)
      modifies this
      ensures View() == Woken(old(View()), w, replayLimit)
      ensures w.TimedOut? && w.durable <= old(eventId) ==>
                && sent == old(sent) + [Heartbeat(old(eventId), old(sequence))]
                && eventId == old(eventId) && sequence == old(sequence)
      ensures w.TimedOut? && w.durable > old(eventId) ==>
                Sends(old(sent), sent, Recovery) && eventId == LastId(w.log) && sequence == LastSequence(w.log)
      ensures w.Got? && w.signal.ResyncRequired? ==>
                Sends(old(sent), sent, Recovery) && eventId == LastId(w.log) && sequence == LastSequence(w.log)
      ensures w.Got? && w.signal.LiveRefreshRequired? ==>
                Sends(old(sent), sent, LiveRefresh) && eventId == LastId(w.log) && sequence == LastSequence(w.log)
      ensures w.Got? && w.signal.MarketUpdate? && w.signal.event.id > old(eventId) ==>
                && sent == old(sent) + [Update(w.signal.event)]
                && eventId == w.signal.event.id && sequence == w.signal.event.sequence
      ensures w.Got? && w.signal.MarketUpdate? && w.signal.event.id <= old(eventId) ==>
                sent == old(sent) && eventId == old(eventId) && sequence == old(sequence)
    {
      match w
      case TimedOut(durable, log) =>
        if durable > eventId {
          SendSnapshot(log, Some(eventId), Recovery);
        } else {
          sent := sent + [Heartbeat(eventId, sequence)];
        }
      case Got(signal, log) =>
        if signal.LiveRefreshRequired? || signal.ResyncRequired? {
          var isRecovery := signal.ResyncRequired?;
          SendSnapshot(log, Some(eventId), if isRecovery then Recovery else LiveRefresh);
        } else if signal.event.id > eventId {
          sequence := signal.event.sequence;
          eventId := signal.event.id;
          sent := sent + [Update(signal.event)];
        }
    }

    /** The consumer over any finite stretch of wake-ups until the socket closes. */
    method Consume(first: Log, after: Option<int>, wakeups: seq<Wakeup>)
      requires sent == []
      modifies this
      ensures View() == Consumed(Opened(first, after, replayLimit), wakeups, replayLimit)
    {
      SendSnapshot(first, after, if after.Some? then Reconnect else Initial);
      for i := 0 to |wakeups|
        invariant View() == Consumed(Opened(first, after, replayLimit), wakeups[..i], replayLimit)
      {
        assert wakeups[..i + 1][..i] == wakeups[..i];
        Wake(wakeups[i]);
      }
      assert wakeups[..|wakeups|] == wakeups;
    }
  }

  // ---------------------------------------------------------------- the consumer and the protocol

  /** Later wake-ups find later logs, read ids of their log, and hear of events of their log. */
  ghost predicate Rising(first: Log, ws: seq<Wakeup>) {
    && Ordered(first)
    && (forall i | 0 <= i < |ws| :: Ordered(ws[i].log) && first <= ws[i].log)
    && (forall i, j | 0 <= i < j < |ws| :: ws[i].log <= ws[j].log)
    && (forall i | 0 <= i < |ws| && ws[i].TimedOut? :: ws[i].durable <= LastId(ws[i].log))
    && (forall i | 0 <= i < |ws| && ws[i].Got? && ws[i].signal.MarketUpdate? :: ws[i].signal.event in ws[i].log)
  }

  lemma LastIdGrows(a: Log, b: Log)
    requires Ordered(b) && a <= b
    ensures LastId(a) <= LastId(b)
  {
  }

  function DurableRead(w: Wakeup): int {
    match w
    case TimedOut(durable, _) => durable
    case Got(signal, log) => if IsMarker(signal) then LastId(log) else signal.event.id
  }

  lemma WakingAdvances(p: Progress, w: Wakeup, limit: nat)
    requires Ordered(w.log) && p.session.eventId <= LastId(w.log)
    requires w.TimedOut? ==> w.durable <= LastId(w.log)
    requires w.Got? && w.signal.MarketUpdate? ==> w.signal.event in w.log
    ensures var id := Woken(p, w, limit).session.eventId;
            p.session.eventId <= id && DurableRead(w) <= id <= LastId(w.log)
  {
  }

  ghost predicate CaughtUp(p: Progress, first: Log, ws: seq<Wakeup>) {
    && LastId(first) <= p.session.eventId
    && p.session.eventId <= LastId(if ws == [] then first else ws[|ws| - 1].log)
    && forall i | 0 <= i < |ws| :: DurableRead(ws[i]) <= p.session.eventId
  }

  lemma RisingPrefix(first: Log, init: seq<Wakeup>, w: Wakeup)
    requires Rising(first, init + [w])
    ensures Rising(first, init) && Ordered(w.log)
    ensures (if init == [] then first else init[|init| - 1].log) <= w.log
    ensures w.TimedOut? ==> w.durable <= LastId(w.log)
    ensures w.Got? && w.signal.MarketUpdate? ==> w.signal.event in w.log
  {
    var ws := init + [w];
    assert ws[|init|] == w;
    assert forall i | 0 <= i < |init| :: ws[i] == init[i];
  }

  lemma WakingKeepsCaughtUp(p: Progress, first: Log, init: seq<Wakeup>, w: Wakeup, limit: nat)
    requires CaughtUp(p, first, init) && Rising(first, init + [w])
    ensures CaughtUp(Woken(p, w, limit), first, init + [w])
  {
    RisingPrefix(first, init, w);
    LastIdGrows(if init == [] then first else init[|init| - 1].log, w.log);
    WakingAdvances(p, w, limit);
  }

  lemma OpeningCatchesUp(first: Log, after: Option<int>, limit: nat)
    ensures CaughtUp(Opened(first, after, limit), first, [])
  {
  }

  lemma {:induction false} ConsumedNext(start: Progress, init: seq<Wakeup>, w: Wakeup, limit: nat)
    ensures Consumed(start, init + [w], limit) == Woken(Consumed(start, init, limit), w, limit)
  {
    assert (init + [w])[..|init|] == init;
  }

  lemma {:induction false} OneMoreWakeup(start: Progress, first: Log, init: seq<Wakeup>, w: Wakeup, limit: nat)
    requires Rising(first, init + [w]) && CaughtUp(Consumed(start, init, limit), first, init)
    ensures CaughtUp(Consumed(start, init + [w], limit), first, init + [w])
  {
    WakingKeepsCaughtUp(Consumed(start, init, limit), first, init, w, limit);
    ConsumedNext(start, init, w, limit);
  }

  lemma {:induction false} CaughtUpFrom(start: Progress, first: Log, ws: seq<Wakeup>, limit: nat)
    requires CaughtUp(start, first, []) && Rising(first, ws)
    ensures CaughtUp(Consumed(start, ws, limit), first, ws)
  {
    if ws != [] {
      var init, w := ws[..|ws| - 1], ws[|ws| - 1];
      assert ws == init + [w];
      RisingPrefix(first, init, w);
      CaughtUpFrom(start, first, init, limit);
      OneMoreWakeup(start, first, init, w, limit);
    }
  }

  /** At the end of any stretch, the cursor is at or beyond everything that any marker, heartbeat
      period or update along the way made known, and still within the log. */
  lemma {:induction false} ConsumingCatchesUp(first: Log, after: Option<int>, ws: seq<Wakeup>, limit: nat)
    requires Rising(first, ws)
    ensures CaughtUp(Consumed(Opened(first, after, limit), ws, limit), first, ws)
  {
    OpeningCatchesUp(first, after, limit);
    CaughtUpFrom(Opened(first, after, limit), first, ws, limit);
  }

  /** The connection's part of the protocol, as the consumer sees it. */
  function ProgressOf(k: Connection): Progress
    requires k.cursor.Some?
  {
    Progress(Session(k.cursor.value, k.sequence), k.wire)
  }

  /** The same connection, but for signals that joined or overflowed its queue. */
  predicate UpToQueue(k: Connection, k': Connection) {
    k'.(queue := []) == k.(queue := [])
  }

  /** Where a wake-up ends: after the read that it calls for, if it calls for one. */
  ghost function Settled(between: World, g: Config): Connection
    requires between.connection.Some?
  {
    if between.connection.value.phase.Reading? then Step(between, ReadSnapshot, g).connection.value
    else between.connection.value
  }

  /** A signal wakes the consumer: taking it is one step of the protocol, and the read that a marker
      calls for is another.  In between anything may happen elsewhere, events may be recorded, and
      signals may join or overflow this very queue; none of them is lost to the read. */
  lemma SignalIsProtocolSteps(w: World, wakeup: Wakeup, between: World, g: Config)
    requires wakeup.Got? && w.connection.Some? && Idle(w.connection.value)
    requires w.connection.value.queue != [] && w.connection.value.queue[0] == wakeup.signal
    requires between.connection.Some? && between.log == wakeup.log
    requires UpToQueue(Step(w, Take, g).connection.value, between.connection.value)
    ensures var k := Settled(between, g);
            && Idle(k) && k.queue == between.connection.value.queue
            && ProgressOf(k) == Woken(ProgressOf(w.connection.value), wakeup, g.limit)
  {
    var k := Step(w, Take, g).connection.value;
    assert between.connection.value == k.(queue := between.connection.value.queue);
  }

  /** A heartbeat period expires: that is one step, looking up the newest event id another, and the
      snapshot that it may call for a third, with anything in between. */
  lemma TimeoutIsProtocolSteps(w: World, wakeup: Wakeup, later: World, between: World, g: Config)
    requires wakeup.TimedOut? && w.connection.Some? && Enabled(w, Expire)
    requires later.connection.Some? && wakeup.durable <= LastId(later.log)
    requires UpToQueue(Step(w, Expire, g).connection.value, later.connection.value)
    ensures Enabled(later, Check(wakeup.durable))
    ensures between.connection.Some? && between.log == wakeup.log
            && UpToQueue(Step(later, Check(wakeup.durable), g).connection.value, between.connection.value) ==>
              var k := Settled(between, g);
              && Idle(k) && k.queue == between.connection.value.queue
              && ProgressOf(k) == Woken(ProgressOf(w.connection.value), wakeup, g.limit)
  {
    var k := Step(w, Expire, g).connection.value;
    assert later.connection.value == k.(queue := later.connection.value.queue);
    if between.connection.Some?
       && UpToQueue(Step(later, Check(wakeup.durable), g).connection.value, between.connection.value) {
      var k' := Step(later, Check(wakeup.durable), g).connection.value;
      assert between.connection.value == k'.(queue := between.connection.value.queue);
    }
  }

  // ---------------------------------------------------------------- the browser's handler

  class MarketClient {
    var lastReceivedEventId: int
    var lastEventSequence: int
    var lastBookSequence: int
    var applied: seq<Event>  // the outcomes handed to the page, in order

    constructor ()
      ensures View() == NewClient()
    {
      lastReceivedEventId, lastEventSequence, lastBookSequence, applied := 0, -1, -1, [];
    }

    function View(): Client
      reads this
    {
      Client(lastReceivedEventId, lastEventSequence, lastBookSequence, applied)
    }

    method ApplyFreshBook(incoming: int) returns (accepted: bool)
      modifies this`lastBookSequence
      ensures View() == FreshBook(old(View()), incoming)
      ensures accepted <==> incoming >= lastEventSequence && incoming > old(lastBookSequence)
    {
      accepted := ShouldApplyBook(incoming, lastEventSequence, lastBookSequence);
      if accepted {
        lastBookSequence := incoming;
      }
    }

    method ApplyRecovered(recovered: seq<Event>)
      modifies this`lastReceivedEventId, this`applied
      ensures var unseen := Unseen(recovered, old(lastReceivedEventId));
              && applied == old(applied) + unseen
              && lastReceivedEventId == if unseen == [] then old(lastReceivedEventId) else unseen[|unseen| - 1].id
    {
      var unseen := Unseen(recovered, lastReceivedEventId);
      for i := 0 to |unseen|
        invariant applied == old(applied) + unseen[..i]
        invariant lastReceivedEventId == if i == 0 then old(lastReceivedEventId) else unseen[i - 1].id
      {
        applied := applied + [unseen[i]];
        lastReceivedEventId := unseen[i].id;
      }
    }

    method OnMessage(m: Message)
      modifies this
      ensures View() == Receive(old(View()), m)
    {
      match m
      case Heartbeat(id, _) =>
        lastReceivedEventId := Max(lastReceivedEventId, id);
      case Snapshot(_, id, incoming, recovered, _) =>
        if recovered != [] {
          ApplyRecovered(recovered);
        }
        if incoming < lastEventSequence {
          return;
        }
        lastEventSequence := Max(lastEventSequence, incoming);
        var _ := ApplyFreshBook(incoming);
        lastReceivedEventId := Max(lastReceivedEventId, id);
      case Update(e) =>
        if e.id > 0 && e.id <= lastReceivedEventId {
          return;
        }
        if !(e.sequence > lastEventSequence) {
          return;
        }
        lastEventSequence := e.sequence;
        var _ := ApplyFreshBook(e.sequence);
        applied := applied + [e];
        lastReceivedEventId := Max(lastReceivedEventId, e.id);
    }
  }
}
