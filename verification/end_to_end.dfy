/**
 The two step systems put together: any number of ingest transactions and processors write the
 tables, and one symbol's stream delivers what they have committed.  The log of the stream is what
 the event table holds; it moves when a transaction commits and at no other time.
 */
module EndToEnd {
  import opened Common
  import opened Delivery
  import opened DeliveryProof
  import opened DeliveryGuarantees
  import Journal
  import Store
  import Market
  import Rebuild
  import Guarantees

  datatype System = System(server: Journal.State, stream: World)

  datatype Setup = Setup(symbol: string, limits: Journal.Limits, stream: Config)

  /** A step of the server, committing or not; the stream sees what is committed. */
  ghost predicate ServerStep(s: System, s': System, u: Setup) {
    && Journal.Next(s.server, s'.server, u.limits)
    && s'.stream == s.stream.(log := LogOf(s'.server.db.events, u.symbol))
  }

  /** A step of the stream or of the client: everything but recording an event. */
  ghost predicate StreamStep(s: System, s': System, u: Setup) {
    && s'.server == s.server
    && exists a: Action :: !a.Record? && Enabled(s.stream, a) && s'.stream == Step(s.stream, a, u.stream)
  }

  ghost predicate Moves(s: System, s': System, u: Setup) {
    ServerStep(s, s', u) || StreamStep(s, s', u)
  }

  function Start(): System {
    System(Journal.Initial(), StartWorld())
  }

  ghost predicate Path(trace: seq<System>, u: Setup) {
    trace != [] && forall i | 0 <= i < |trace| - 1 :: Moves(trace[i], trace[i + 1], u)
  }

  ghost predicate IsRun(trace: seq<System>, u: Setup) {
    Path(trace, u) && trace[0] == Start() && u.stream.size >= 1
  }

  // ---------------------------------------------------------------- both invariants at once

  ghost predicate Inv(s: System, u: Setup) {
    && Journal.Inv(s.server, u.limits)
    && Delivery.Inv(s.stream, u.stream)
    && s.stream.log == LogOf(s.server.db.events, u.symbol)
  }

  lemma StreamStarts(g: Config)
    ensures Delivery.Inv(StartWorld(), g)
  {
  }

  /** A log that moves as the journal moves it is either the same or has one more recorded event. */
  lemma RecordingKeepsInv(w: World, log: Log, g: Config)
    requires Delivery.Inv(w, g) && RecordsAtMostOne(w.log, log)
    ensures Delivery.Inv(w.(log := log), g)
  {
    if log == w.log {
      assert w.(log := log) == w;
    } else {
      var e :| log == w.log + [e] && e.id > LastId(w.log) && e.sequence > LastSequence(w.log);
      RecordKeepsInv(w, e, g);
    }
  }

  lemma ServerKeepsInv(s: System, s': System, u: Setup)
    requires Inv(s, u) && ServerStep(s, s', u)
    ensures Inv(s', u)
  {
    Journal.NextKeepsInv(s.server, s'.server, u.limits);
    JournalStepsRecord(s.server, s'.server, u.limits, u.symbol);
    RecordingKeepsInv(s.stream, LogOf(s'.server.db.events, u.symbol), u.stream);
  }

  lemma SameLog(w: World, a: Action, g: Config)
    requires Enabled(w, a)
    ensures a.Record? || Step(w, a, g).log == w.log
    ensures |Step(w, a, g).log| >= |w.log| && (|Step(w, a, g).log| == |w.log| ==> !a.Record?)
  {
  }

  lemma StreamKeepsInv(s: System, s': System, u: Setup)
    requires Inv(s, u) && StreamStep(s, s', u) && u.stream.size >= 1
    ensures Inv(s', u)
  {
    var a: Action :| !a.Record? && Enabled(s.stream, a) && s'.stream == Step(s.stream, a, u.stream);
    DeliveryProof.NextKeepsInv(s.stream, a, u.stream);
    SameLog(s.stream, a, u.stream);
  }

  lemma MovingKeepsInv(s: System, s': System, u: Setup)
    requires Inv(s, u) && Moves(s, s', u) && u.stream.size >= 1
    ensures Inv(s', u)
  {
    if ServerStep(s, s', u) {
      ServerKeepsInv(s, s', u);
    } else {
      StreamKeepsInv(s, s', u);
    }
  }

  /** Every state of a composed run satisfies the invariants of both layers, and the stream's log is
      the event table. */
  lemma SystemKeepsInv(trace: seq<System>, u: Setup, i: nat)
    requires IsRun(trace, u) && i < |trace|
    ensures Inv(trace[i], u)
  {
    forall k | 0 <= k < i && Inv(trace[k], u) ensures Inv(trace[k + 1], u) {
      MovingKeepsInv(trace[k], trace[k + 1], u);
    }
    Journal.InitialInv(u.limits);
    StreamStarts(u.stream);
    Along(trace, 0, i, s => Inv(s, u));
  }

  // ---------------------------------------------------------------- from the tables to the client

  /** The stored event of a terminal command of the symbol that `e` stands for. */
  ghost predicate Reports(e: Event, db: Store.Database, symbol: string, k: nat) {
    && k < |db.events| <= |db.journal|
    && db.events[k].symbol == symbol && db.events[k].id == e.id && db.events[k].commandSequence == e.sequence
    && db.journal[k].command.symbol == symbol && db.journal[k].command.sequence == e.sequence
    && db.journal[k].status.IsTerminal()
  }

  /** Every outcome the client has applied is the stored event of one terminal command of its symbol. */
  lemma {:induction false} AppliedIsStored(s: System, u: Setup, e: Event) returns (k: nat)
    requires Inv(s, u) && e in s.stream.client.applied
    ensures Reports(e, s.server.db, u.symbol, k)
    ensures s.stream.base < e.id <= s.stream.client.last
  {
    var db := s.server.db;
    LogOfMembers(db.events, u.symbol, e);
    k :| 0 <= k < |db.events| && db.events[k].symbol == u.symbol
         && db.events[k].id == e.id && db.events[k].commandSequence == e.sequence;
  }

  /** Every stored event of the symbol between the client's first cursor and its present one has been
      applied, or was reported as cut off. */
  lemma {:induction false} StoredIsApplied(s: System, u: Setup, k: nat)
    requires Inv(s, u) && k < |s.server.db.events| && s.server.db.events[k].symbol == u.symbol
    requires s.stream.base < s.server.db.events[k].id <= s.stream.client.last
    ensures var row := s.server.db.events[k];
            || Event(row.id, row.commandSequence) in s.stream.client.applied
            || (row.id in s.stream.cut && s.stream.notices > 0)
  {
    var row := s.server.db.events[k];
    LogOfMembers(s.server.db.events, u.symbol, Event(row.id, row.commandSequence));
  }

  /** From the tables to the client, over every composed run: what the client has applied are stored
      events of terminal commands of its symbol, in id order and hence each at most once; no stored
      event between its two cursors is missing unless it was reported as cut off; and neither its
      cursor nor its book is ahead of the tables. */
  lemma {:induction false} TablesReachTheClient(trace: seq<System>, u: Setup, i: nat)
    requires IsRun(trace, u) && i < |trace|
    ensures var db, w := trace[i].server.db, trace[i].stream;
            && Ascending(w.client.applied)
            && (forall e | e in w.client.applied ::
                  w.base < e.id <= w.client.last && exists k: nat :: Reports(e, db, u.symbol, k))
            && (forall k | 0 <= k < |db.events| && db.events[k].symbol == u.symbol
                           && w.base < db.events[k].id <= w.client.last ::
                  || Event(db.events[k].id, db.events[k].commandSequence) in w.client.applied
                  || (db.events[k].id in w.cut && w.notices > 0))
            && w.client.last <= Guarantees.LatestEventId(db.events, u.symbol)
            && w.client.lastBook <= Guarantees.BookSequence(db.journal, u.symbol)
  {
    var s := trace[i];
    SystemKeepsInv(trace, u, i);
    forall e | e in s.stream.client.applied
      ensures s.stream.base < e.id <= s.stream.client.last && exists k: nat :: Reports(e, s.server.db, u.symbol, k)
    {
      var k := AppliedIsStored(s, u, e);
    }
    forall k | 0 <= k < |s.server.db.events| && s.server.db.events[k].symbol == u.symbol
               && s.stream.base < s.server.db.events[k].id <= s.stream.client.last
      ensures || Event(s.server.db.events[k].id, s.server.db.events[k].commandSequence) in s.stream.client.applied
              || (s.server.db.events[k].id in s.stream.cut && s.stream.notices > 0)
    {
      StoredIsApplied(s, u, k);
    }
    NeverAhead(s, u);
  }

  lemma NeverAhead(s: System, u: Setup)
    requires Inv(s, u)
    ensures s.stream.client.last <= Guarantees.LatestEventId(s.server.db.events, u.symbol)
    ensures s.stream.client.lastBook <= Guarantees.BookSequence(s.server.db.journal, u.symbol)
  {
    BookSequenceIsLastSequence(s.server, u.limits, u.symbol);
    EventIdIsLastId(s.server.db.events, u.symbol);
  }

  // ---------------------------------------------------------------- catching up with the tables

  lemma {:induction false} LogNeverShrinks(trace: seq<World>, g: Config, i: nat, j: nat)
    requires DeliveryGuarantees.Path(trace, g) && i <= j < |trace|
    ensures |trace[i].log| <= |trace[j].log|
    decreases j
  {
    if i < j {
      LogNeverShrinks(trace, g, i, j - 1);
      assert Next(trace[j - 1], trace[j - 1 + 1], g);
      var a :| Enabled(trace[j - 1], a) && trace[j] == Step(trace[j - 1], a, g);
      SameLog(trace[j - 1], a, g);
    }
  }

  /** A delivery path that ends with the log it began with records nothing on the way, so it is a
      path of the composed system in which the server stands still. */
  lemma {:induction false} QuietPath(trace: seq<World>, server: Journal.State, u: Setup)
      returns (path: seq<System>)
    requires DeliveryGuarantees.Path(trace, u.stream) && trace[|trace| - 1].log == trace[0].log
    ensures Path(path, u) && |path| == |trace|
    ensures forall k | 0 <= k < |path| :: path[k] == System(server, trace[k])
  {
    path := seq(|trace|, k requires 0 <= k < |trace| => System(server, trace[k]));
    forall k | 0 <= k < |trace| - 1 ensures Moves(path[k], path[k + 1], u) {
      assert Next(trace[k], trace[k + 1], u.stream);
      var a :| Enabled(trace[k], a) && trace[k + 1] == Step(trace[k], a, u.stream);
      LogNeverShrinks(trace, u.stream, 0, k);
      LogNeverShrinks(trace, u.stream, k + 1, |trace| - 1);
      SameLog(trace[k], a, u.stream);
      assert StreamStep(path[k], path[k + 1], u);
    }
  }

  /** From every state of a composed run with an open connection, the stream and the client alone,
      without another step of the server, can bring the client to the newest stored event of its
      symbol and to the book of the newest terminal command. */
  lemma ClientCatchesUpWithTables(trace: seq<System>, u: Setup, i: nat) returns (path: seq<System>)
    requires IsRun(trace, u) && i < |trace| && trace[i].stream.connection.Some?
    ensures Path(path, u) && path[0] == trace[i]
    ensures var db, w := trace[i].server.db, path[|path| - 1].stream;
            && path[|path| - 1].server == trace[i].server
            && w.client.last == Guarantees.LatestEventId(db.events, u.symbol)
            && (Guarantees.BookSequence(db.journal, u.symbol) > 0 ==>
                  w.client.lastBook == Guarantees.BookSequence(db.journal, u.symbol))
            && forall k | 0 <= k < |db.events| && db.events[k].symbol == u.symbol && db.events[k].id > w.base ::
                 || Event(db.events[k].id, db.events[k].commandSequence) in w.client.applied
                 || (db.events[k].id in w.cut && w.notices > 0)
  {
    var s := trace[i];
    SystemKeepsInv(trace, u, i);
    BookSequenceIsLastSequence(s.server, u.limits, u.symbol);
    EventIdIsLastId(s.server.db.events, u.symbol);
    var worlds, w := CatchUp(s.stream, u.stream);
    path := QuietPath(worlds, s.server, u);
    forall k | 0 <= k < |s.server.db.events| && s.server.db.events[k].symbol == u.symbol
               && s.server.db.events[k].id > w.base
      ensures || Event(s.server.db.events[k].id, s.server.db.events[k].commandSequence) in w.client.applied
              || (s.server.db.events[k].id in w.cut && w.notices > 0)
    {
      var row := s.server.db.events[k];
      LogOfMembers(s.server.db.events, u.symbol, Event(row.id, row.commandSequence));
    }
  }
}
