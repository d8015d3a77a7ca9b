/**
 The client's handler on its own, against messages of any kind in any order: repeated, overtaking
 each other, stale, with gaps, with an unsorted replay.  Nothing here relies on the stream protocol.
 */
module ClientAlone {
  import opened Common
  import opened Delivery
  import opened DeliveryProof

  /** All that is asked of a message: events have positive ids, and none occurs twice in it. */
  ghost predicate Genuine(m: Message) {
    var es := Carried(m);
    && (forall i | 0 <= i < |es| :: es[i].id > 0)
    && DistinctIds(es)
  }

  ghost predicate DistinctIds(es: seq<Event>) {
    forall i, j | 0 <= i < j < |es| :: es[i].id != es[j].id
  }

  ghost predicate AllGenuine(ms: seq<Message>) {
    forall i | 0 <= i < |ms| :: Genuine(ms[i])
  }

  /** The handler after all messages. */
  function ReceiveAll(ms: seq<Message>): Client {
    if ms == [] then NewClient() else Receive(ReceiveAll(ms[..|ms| - 1]), ms[|ms| - 1])
  }

  // ---------------------------------------------------------------- sorting the replay

  lemma {:induction false} InsertAscends(e: Event, es: seq<Event>)
    requires Ascending(es) && forall i | 0 <= i < |es| :: es[i].id != e.id
    ensures Ascending(Insert(e, es))
    ensures forall f :: f in Insert(e, es) <==> f == e || f in es
  {
    if es != [] {
      var init, last := es[..|es| - 1], es[|es| - 1];
      assert es == init + [last];
      if e.id < last.id {
        InsertAscends(e, init);
        forall i | 0 <= i < |Insert(e, init)| ensures Insert(e, init)[i].id < last.id {
          assert Insert(e, init)[i] in Insert(e, init);
        }
      }
    }
  }

  lemma {:induction false} SortAscends(es: seq<Event>)
    requires DistinctIds(es)
    ensures Ascending(SortById(es))
    ensures forall e :: e in SortById(es) <==> e in es
  {
    if es != [] {
      var init, last := es[..|es| - 1], es[|es| - 1];
      assert es == init + [last];
      SortAscends(init);
      forall i | 0 <= i < |SortById(init)| ensures SortById(init)[i].id != last.id {
        assert SortById(init)[i] in init;
      }
      InsertAscends(last, SortById(init));
    }
  }

  lemma {:induction false} NewerDistinct(es: seq<Event>, last: int)
    requires DistinctIds(es)
    ensures DistinctIds(Newer(es, last))
  {
    if es != [] {
      var init := es[..|es| - 1];
      NewerDistinct(init, last);
      forall i | 0 <= i < |Newer(init, last)| ensures Newer(init, last)[i].id != es[|es| - 1].id {
        NewerMembers(init, last, Newer(init, last)[i]);
      }
    }
  }

  /** Filtering and sorting leave the recovered events beyond the cursor, in id order. */
  lemma UnseenIsSorted(es: seq<Event>, last: int)
    requires DistinctIds(es)
    ensures Ascending(Unseen(es, last))
    ensures forall e :: e in Unseen(es, last) <==> e in es && e.id > last
  {
    NewerDistinct(es, last);
    SortAscends(Newer(es, last));
    forall e ensures e in Newer(es, last) <==> e in es && e.id > last {
      NewerMembers(es, last, e);
    }
  }

  // ---------------------------------------------------------------- one message

  /** Exactly the carried events beyond the cursor are applied; a pushed one must also be newer by
      sequence. */
  lemma AppliesWhatIsNew(c: Client, m: Message, e: Event)
    requires Genuine(m)
    ensures e in Receive(c, m).applied <==>
              || e in c.applied
              || (m.Snapshot? && e in m.recovered && e.id > c.last)
              || (m.Update? && e == m.event && e.id > c.last && e.sequence > c.lastSequence)
  {
    if m.Snapshot? {
      UnseenIsSorted(m.recovered, c.last);
    } else if m.Update? {
      assert Carried(m)[0].id > 0;
    }
  }

  /** Each event was applied once, in id order, and the cursor is at or beyond them all; the shown
      book is not older than the last event. */
  ghost predicate Steady(c: Client) {
    && Ascending(c.applied)
    && (forall i | 0 <= i < |c.applied| :: c.applied[i].id <= c.last)
    && c.lastSequence <= c.lastBook
  }

  lemma ApplyingKeepsOrder(applied: seq<Event>, last: int, more: seq<Event>)
    requires Ascending(applied) && Ascending(more)
    requires forall i | 0 <= i < |applied| :: applied[i].id <= last
    requires forall i | 0 <= i < |more| :: last < more[i].id
    ensures Ascending(applied + more)
    ensures more != [] ==> forall i | 0 <= i < |applied + more| :: (applied + more)[i].id <= more[|more| - 1].id
    ensures more != [] ==> last < more[|more| - 1].id
  {
  }

  lemma {:induction false} RecoveredKeepsOrder(c: Client, es: seq<Event>)
    requires Steady(c) && DistinctIds(es)
    ensures var unseen := Unseen(es, c.last);
            var last := if unseen == [] then c.last else unseen[|unseen| - 1].id;
            && Ascending(c.applied + unseen) && c.last <= last
            && forall i | 0 <= i < |c.applied + unseen| :: (c.applied + unseen)[i].id <= last
  {
    var unseen := Unseen(es, c.last);
    UnseenIsSorted(es, c.last);
    forall i | 0 <= i < |unseen| ensures c.last < unseen[i].id {
      assert unseen[i] in unseen;
    }
    ApplyingKeepsOrder(c.applied, c.last, unseen);
  }

  lemma ReceiveKeepsSteady(c: Client, m: Message)
    requires Steady(c) && Genuine(m)
    ensures Steady(Receive(c, m))
    ensures c.applied <= Receive(c, m).applied
    ensures c.last <= Receive(c, m).last && c.lastBook <= Receive(c, m).lastBook
    ensures c.lastSequence <= Receive(c, m).lastSequence
  {
    match m
    case Heartbeat(_, _) =>
    case Snapshot(_, _, _, recovered, _) =>
      RecoveredKeepsOrder(c, recovered);
    case Update(e) =>
      assert Carried(m)[0].id > 0;
      if e.id > c.last {
        ApplyingKeepsOrder(c.applied, c.last, [e]);
      }
  }

  /** The cursor moves to the greatest of what was applied and of the event id that the message tells,
      which a snapshot older than the last event does not. */
  lemma CursorIsGreatest(c: Client, m: Message)
    requires Steady(c) && Genuine(m)
    ensures var c', told := Receive(c, m), m.Heartbeat? || (m.Snapshot? && m.sequence >= c.lastSequence);
            && c.last <= c'.last
            && (told ==> m.eventId <= c'.last)
            && (forall e | e in Carried(m) && e in c'.applied :: e.id <= c'.last)
            && ( || c'.last == c.last
                 || (told && c'.last == m.eventId)
                 || exists e :: e in Carried(m) && e in c'.applied && e.id == c'.last)
  {
    var c' := Receive(c, m);
    ReceiveKeepsSteady(c, m);
    forall e | e in Carried(m) && e in c'.applied ensures e.id <= c'.last {
      var k :| 0 <= k < |c'.applied| && c'.applied[k] == e;
    }
    if m.Snapshot? {
      var unseen := Unseen(m.recovered, c.last);
      UnseenIsSorted(m.recovered, c.last);
      if unseen != [] {
        assert unseen[|unseen| - 1] in c.applied + unseen;
      }
    }
  }

  // ---------------------------------------------------------------- all messages

  /** Whatever arrives, no event is applied twice or behind a later one, and the shown book is never
      older than the last event. */
  lemma {:induction false} NothingTwice(ms: seq<Message>)
    requires AllGenuine(ms)
    ensures Steady(ReceiveAll(ms))
  {
    if ms != [] {
      NothingTwice(ms[..|ms| - 1]);
      ReceiveKeepsSteady(ReceiveAll(ms[..|ms| - 1]), ms[|ms| - 1]);
    }
  }

  /** Whatever arrives in between, what was applied, the cursor and the shown book are not taken back. */
  lemma {:induction false} NothingBack(ms: seq<Message>, n: nat)
    requires AllGenuine(ms) && n <= |ms|
    ensures var (a, b) := (ReceiveAll(ms[..n]), ReceiveAll(ms));
            && a.applied <= b.applied && a.last <= b.last && a.lastBook <= b.lastBook
    decreases |ms|
  {
    if n == |ms| {
      assert ms[..n] == ms;
    } else {
      var init := ms[..|ms| - 1];
      assert init[..n] == ms[..n];
      NothingBack(init, n);
      NothingTwice(init);
      ReceiveKeepsSteady(ReceiveAll(init), ms[|ms| - 1]);
    }
  }
}
