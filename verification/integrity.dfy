/**
 The sequence-integrity diagnostic: three counts over journal and events.  For a journal whose
 sequences are distinct they agree exactly when every terminal command has one event and there are
 no other events; and so it is in every reachable state.
 */
module Integrity {
  import opened Common
  import opened Market
  import opened Store
  import opened Journal

  function CountTerminal(journal: seq<Entry>): nat {
    if journal == [] then 0
    else CountTerminal(journal[..|journal| - 1]) + (if journal[|journal| - 1].status.IsTerminal() then 1 else 0)
  }

  /** Does the event join a command in a status that `terminal` selects? */
  predicate Joins(e: EventRow, journal: seq<Entry>, terminal: bool) {
    exists i | 0 <= i < |journal| ::
      journal[i].command.sequence == e.commandSequence && journal[i].status.IsTerminal() == terminal
  }

  function CountQueuedEvents(events: seq<EventRow>, journal: seq<Entry>): nat {
    if events == [] then 0
    else CountQueuedEvents(events[..|events| - 1], journal)
         + (if Joins(events[|events| - 1], journal, false) then 1 else 0)
  }

  ghost function TerminalSequences(events: seq<EventRow>, journal: seq<Entry>): set<int> {
    set i | 0 <= i < |events| && Joins(events[i], journal, true) :: events[i].commandSequence
  }

  /** The diagnostic: as many events as terminal commands, as many distinct terminal commands
      with an event, and no event of a queued command. */
  ghost predicate SequenceIntegrity(db: Database) {
    && |db.events| == CountTerminal(db.journal)
    && |TerminalSequences(db.events, db.journal)| == CountTerminal(db.journal)
    && CountQueuedEvents(db.events, db.journal) == 0
  }

  /** Is the event that of a command that is completed or rejected? */
  ghost predicate IsOfTerminal(e: EventRow, journal: seq<Entry>) {
    exists i | 0 <= i < |journal| ::
      && journal[i].command.sequence == e.commandSequence
      && (journal[i].status == Completed || journal[i].status == CommandStatus.Rejected)
  }

  ghost predicate HasEvent(c: Command, events: seq<EventRow>) {
    exists k | 0 <= k < |events| :: events[k].commandSequence == c.sequence
  }

  /** Each event is of a command that is completed or rejected, no two of the same, and each such
      command has one. */
  ghost predicate OneEventEach(db: Database) {
    && (forall k | 0 <= k < |db.events| :: IsOfTerminal(db.events[k], db.journal))
    && (forall k, m | 0 <= k < m < |db.events| :: db.events[k].commandSequence != db.events[m].commandSequence)
    && (forall i | 0 <= i < |db.journal|
                   && (db.journal[i].status == Completed || db.journal[i].status == CommandStatus.Rejected) ::
          HasEvent(db.journal[i].command, db.events))
  }

  ghost predicate DistinctSequences(journal: seq<Entry>) {
    forall i, j | 0 <= i < j < |journal| :: journal[i].command.sequence != journal[j].command.sequence
  }

  // ---------------------------------------------------------------- the counts

  ghost function SequencesOfTerminals(journal: seq<Entry>): set<int> {
    set i | 0 <= i < |journal| && journal[i].status.IsTerminal() :: journal[i].command.sequence
  }

  lemma {:induction false} CountTerminalIsSize(journal: seq<Entry>)
    requires DistinctSequences(journal)
    ensures CountTerminal(journal) == |SequencesOfTerminals(journal)|
  {
    if journal != [] {
      var init, last := journal[..|journal| - 1], journal[|journal| - 1];
      assert forall i | 0 <= i < |init| :: init[i] == journal[i];
      CountTerminalIsSize(init);
      var n := last.command.sequence;
      forall x ensures x in SequencesOfTerminals(journal)
                  <==> x in SequencesOfTerminals(init) || (x == n && last.status.IsTerminal())
      {
        if x in SequencesOfTerminals(init) {
          var i :| 0 <= i < |init| && init[i].status.IsTerminal() && init[i].command.sequence == x;
          assert journal[i].command.sequence == x;
        }
      }
      assert n !in SequencesOfTerminals(init);
      assert SequencesOfTerminals(journal)
          == SequencesOfTerminals(init) + if last.status.IsTerminal() then {n} else {};
    }
  }

  lemma {:induction false} NoQueuedEvents(events: seq<EventRow>, journal: seq<Entry>)
    requires forall k | 0 <= k < |events| :: !Joins(events[k], journal, false)
    ensures CountQueuedEvents(events, journal) == 0
  {
    if events != [] {
      assert forall k | 0 <= k < |events| - 1 :: events[..|events| - 1][k] == events[k];
      NoQueuedEvents(events[..|events| - 1], journal);
    }
  }

  lemma TerminalSequencesNext(init: seq<EventRow>, last: EventRow, journal: seq<Entry>)
    ensures TerminalSequences(init + [last], journal)
         == TerminalSequences(init, journal) + if Joins(last, journal, true) then {last.commandSequence} else {}
  {
    var events := init + [last];
    forall n ensures n in TerminalSequences(events, journal)
                <==> n in TerminalSequences(init, journal) || (Joins(last, journal, true) && n == last.commandSequence)
    {
      if n in TerminalSequences(init, journal) {
        var k :| 0 <= k < |init| && Joins(init[k], journal, true) && init[k].commandSequence == n;
        assert events[k] == init[k];
      }
      if n in TerminalSequences(events, journal) {
        var k :| 0 <= k < |events| && Joins(events[k], journal, true) && events[k].commandSequence == n;
        assert k < |init| ==> init[k] == events[k];
      }
      if Joins(last, journal, true) && n == last.commandSequence {
        assert events[|init|].commandSequence == n;
      }
    }
  }

  /** All events join terminal commands, no two the same one. */
  ghost predicate JoinDistinct(events: seq<EventRow>, journal: seq<Entry>) {
    && (forall k | 0 <= k < |events| :: Joins(events[k], journal, true))
    && (forall k, m | 0 <= k < m < |events| :: events[k].commandSequence != events[m].commandSequence)
  }

  /** There are as many distinct sequences as events only if every event joins a terminal command and
      no two join the same. */
  lemma {:induction false} DistinctTerminals(events: seq<EventRow>, journal: seq<Entry>)
    ensures |TerminalSequences(events, journal)| <= |events|
    ensures |TerminalSequences(events, journal)| == |events| <==> JoinDistinct(events, journal)
  {
    if events != [] {
      var init, last := events[..|events| - 1], events[|events| - 1];
      assert events == init + [last];
      DistinctTerminals(init, journal);
      TerminalSequencesNext(init, last, journal);
      var before := TerminalSequences(init, journal);
      if Joins(last, journal, true) && last.commandSequence !in before {
        assert |before + {last.commandSequence}| == |before| + 1;
        OneMoreDistinct(init, last, journal);
      } else {
        assert TerminalSequences(events, journal) == before;
        OneMoreRepeats(init, last, journal);
      }
    }
  }

  lemma OneMoreDistinct(init: seq<EventRow>, last: EventRow, journal: seq<Entry>)
    requires Joins(last, journal, true) && last.commandSequence !in TerminalSequences(init, journal)
    ensures JoinDistinct(init + [last], journal) <==> JoinDistinct(init, journal)
  {
    var events := init + [last];
    assert forall k | 0 <= k < |init| :: events[k] == init[k];
    if JoinDistinct(init, journal) {
      forall k | 0 <= k < |init| ensures init[k].commandSequence != last.commandSequence {
        assert Joins(init[k], journal, true);
      }
    }
  }

  lemma OneMoreRepeats(init: seq<EventRow>, last: EventRow, journal: seq<Entry>)
    requires !Joins(last, journal, true) || last.commandSequence in TerminalSequences(init, journal)
    ensures !JoinDistinct(init + [last], journal)
  {
    var events := init + [last];
    assert events[|init|] == last;
    if last.commandSequence in TerminalSequences(init, journal) {
      var k :| 0 <= k < |init| && Joins(init[k], journal, true) && init[k].commandSequence == last.commandSequence;
      assert events[k].commandSequence == events[|init|].commandSequence;
    }
  }

  lemma TerminalSequencesWithin(events: seq<EventRow>, journal: seq<Entry>)
    ensures TerminalSequences(events, journal) <= SequencesOfTerminals(journal)
  {
    forall n | n in TerminalSequences(events, journal) ensures n in SequencesOfTerminals(journal) {
      var k :| 0 <= k < |events| && Joins(events[k], journal, true) && events[k].commandSequence == n;
      var i :| 0 <= i < |journal| && journal[i].command.sequence == n && journal[i].status.IsTerminal();
    }
  }

  /** Does every terminal command have an event? */
  ghost predicate AllHaveEvents(events: seq<EventRow>, journal: seq<Entry>) {
    forall i | 0 <= i < |journal| && journal[i].status.IsTerminal() :: HasEvent(journal[i].command, events)
  }

  lemma CoveredIff(events: seq<EventRow>, journal: seq<Entry>)
    ensures TerminalSequences(events, journal) == SequencesOfTerminals(journal) <==> AllHaveEvents(events, journal)
  {
    TerminalSequencesWithin(events, journal);
    if AllHaveEvents(events, journal) {
      forall n | n in SequencesOfTerminals(journal) ensures n in TerminalSequences(events, journal) {
        var i :| 0 <= i < |journal| && journal[i].status.IsTerminal() && journal[i].command.sequence == n;
        assert HasEvent(journal[i].command, events);
        var k :| 0 <= k < |events| && events[k].commandSequence == n;
        assert Joins(events[k], journal, true);
      }
    } else {
      var i :| 0 <= i < |journal| && journal[i].status.IsTerminal() && !HasEvent(journal[i].command, events);
      assert journal[i].command.sequence in SequencesOfTerminals(journal);
      assert journal[i].command.sequence !in TerminalSequences(events, journal);
    }
  }

  // ---------------------------------------------------------------- what the diagnostic means

  lemma OfTerminalJoins(e: EventRow, journal: seq<Entry>)
    ensures IsOfTerminal(e, journal) <==> Joins(e, journal, true)
  {
    if IsOfTerminal(e, journal) {
      var i :| 0 <= i < |journal| && journal[i].command.sequence == e.commandSequence
               && (journal[i].status == Completed || journal[i].status == CommandStatus.Rejected);
      assert journal[i].status.IsTerminal();
    }
    if Joins(e, journal, true) {
      var i :| 0 <= i < |journal| && journal[i].command.sequence == e.commandSequence
               && journal[i].status.IsTerminal() == true;
      assert journal[i].status == Completed || journal[i].status == CommandStatus.Rejected;
    }
  }

  lemma OneEventEachIs(db: Database)
    ensures OneEventEach(db) <==> JoinDistinct(db.events, db.journal) && AllHaveEvents(db.events, db.journal)
  {
    forall k | 0 <= k < |db.events|
      ensures IsOfTerminal(db.events[k], db.journal) <==> Joins(db.events[k], db.journal, true)
    {
      OfTerminalJoins(db.events[k], db.journal);
    }
  }

  lemma JoinedIsNotQueued(db: Database)
    requires DistinctSequences(db.journal) && JoinDistinct(db.events, db.journal)
    ensures CountQueuedEvents(db.events, db.journal) == 0
  {
    forall k | 0 <= k < |db.events| ensures !Joins(db.events[k], db.journal, false) {
      assert Joins(db.events[k], db.journal, true);
      var i :| 0 <= i < |db.journal| && db.journal[i].command.sequence == db.events[k].commandSequence
               && db.journal[i].status.IsTerminal();
    }
    NoQueuedEvents(db.events, db.journal);
  }

  /** The diagnostic says exactly this: every terminal command has one event, and there are no others. */
  lemma IntegrityMeansOneEventEach(db: Database)
    requires DistinctSequences(db.journal)
    ensures SequenceIntegrity(db) <==> OneEventEach(db)
  {
    CountTerminalIsSize(db.journal);
    DistinctTerminals(db.events, db.journal);
    CoveredIff(db.events, db.journal);
    OneEventEachIs(db);
    TerminalSequencesWithin(db.events, db.journal);
    SubsetSize(TerminalSequences(db.events, db.journal), SequencesOfTerminals(db.journal));
    if JoinDistinct(db.events, db.journal) {
      JoinedIsNotQueued(db);
    }
  }

  lemma SerialHasOneEventEach(db: Database)
    requires Journaled(Commands(db.journal)) && EventPerTerminal(db)
    ensures DistinctSequences(db.journal) && OneEventEach(db)
  {
    var cs := Commands(db.journal);
    forall i, j | 0 <= i < j < |db.journal| ensures db.journal[i].command.sequence != db.journal[j].command.sequence {
      assert cs[i].sequence < cs[j].sequence;
    }
    forall k | 0 <= k < |db.events| ensures IsOfTerminal(db.events[k], db.journal) {
      assert db.journal[k].status.IsTerminal();
    }
    forall k, m | 0 <= k < m < |db.events| ensures db.events[k].commandSequence != db.events[m].commandSequence {
      assert cs[k].sequence < cs[m].sequence;
    }
    forall i | 0 <= i < |db.journal|
               && (db.journal[i].status == Completed || db.journal[i].status == CommandStatus.Rejected)
      ensures HasEvent(db.journal[i].command, db.events)
    {
      assert db.journal[i].status.IsTerminal();
      assert db.events[i].commandSequence == db.journal[i].command.sequence;
    }
  }

  /** The integrity diagnostic is true in every reachable state. */
  lemma IntegrityAlwaysHolds(trace: seq<State>, limits: Limits, i: nat)
    requires IsRun(trace, limits) && i < |trace|
    ensures SequenceIntegrity(trace[i].db)
  {
    RunKeepsInv(trace, limits, i);
    SerialHasOneEventEach(trace[i].db);
    IntegrityMeansOneEventEach(trace[i].db);
  }
}
