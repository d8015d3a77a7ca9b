/**
 The durable protocol as a step system.  Any number of ingest transactions and processors
 interleave; each can stop at any moment.  Allocating a sequence and making the row visible are
 separate steps, and so are deciding a command and committing the decision.
 */
module Journal {
  import opened Common
  import opened Orders
  import opened PriceTime
  import opened Exchange
  import opened Rebuild
  import opened Market
  import opened Store

  datatype Request = Request(key: string, symbol: string, kind: Kind)

  datatype Limits = Limits(queued: Option<nat>, total: Option<nat>)

  // ---------------------------------------------------------------- idempotent acceptance

  /** The server assigns order identifiers, so they are no part of what a submission means. */
  predicate SameMeaning(c: Command, r: Request) {
    && c.symbol == r.symbol
    && match (c.kind, r.kind)
       case (SubmitOrder(_, s1, p1, q1), SubmitOrder(_, s2, p2, q2)) => s1 == s2 && p1 == p2 && q1 == q2
       case (CancelOrder(a), CancelOrder(b)) => a == b
       case _ => false
  }

  predicate HasKey(journal: seq<Entry>, key: string) {
    exists i | 0 <= i < |journal| :: journal[i].command.key == key
  }

  function FindKey(journal: seq<Entry>, key: string): (r: Option<Command>)
    ensures r.Some? <==> HasKey(journal, key)
    ensures r.Some? ==> exists i | 0 <= i < |journal| :: journal[i].command == r.value && r.value.key == key
  {
    if journal == [] then None
    else if journal[|journal| - 1].command.key == key then Some(journal[|journal| - 1].command)
    else
      var r := FindKey(journal[..|journal| - 1], key);
      assert forall i | 0 <= i < |journal| - 1 :: journal[i] == journal[..|journal| - 1][i];
      r
  }

  function CountQueued(journal: seq<Entry>): nat {
    if journal == [] then 0
    else CountQueued(journal[..|journal| - 1]) + (if journal[|journal| - 1].status.Queued? then 1 else 0)
  }

  datatype Answer = Existing(command: Command) | Conflict | Full | Insert

  /** What the acceptance transaction decides while it holds the ingest lock. */
  function Resolve(journal: seq<Entry>, r: Request, limits: Limits): Answer {
    match FindKey(journal, r.key)
    case Some(c) => if SameMeaning(c, r) then Existing(c) else Conflict
    case None =>
      if limits.total.Some? && |journal| >= limits.total.value then Full
      else if limits.queued.Some? && CountQueued(journal) >= limits.queued.value then Full
      else Insert
  }

  /** Request and command agree in everything that a client chooses but the key: symbol and kind of
      command, and the side, price and quantity of a submission or the order that a cancel names. */
  predicate AsksTheSame(c: Command, r: Request) {
    && c.symbol == r.symbol
    && ( || (c.kind.SubmitOrder? && r.kind.SubmitOrder? && c.kind.side == r.kind.side
             && c.kind.price == r.kind.price && c.kind.quantity == r.kind.quantity)
         || (c.kind.CancelOrder? && r.kind.CancelOrder? && c.kind.orderId == r.kind.orderId))
  }

  function QueuedPositions(journal: seq<Entry>): set<int> {
    set i | 0 <= i < |journal| && journal[i].status.Queued?
  }

  predicate AtLimit(journal: seq<Entry>, limits: Limits) {
    || (limits.total.Some? && |journal| >= limits.total.value)
    || (limits.queued.Some? && |QueuedPositions(journal)| >= limits.queued.value)
  }

  /** What each answer says of the journal. */
  predicate Justified(answer: Answer, journal: seq<Entry>, r: Request, limits: Limits) {
    match answer
    case Existing(c) =>
      exists x | 0 <= x < |journal| :: journal[x].command == c && c.key == r.key && AsksTheSame(c, r)
    case Conflict =>
      exists x | 0 <= x < |journal| :: journal[x].command.key == r.key && !AsksTheSame(journal[x].command, r)
    case Full => !HasKey(journal, r.key) && AtLimit(journal, limits)
    case Insert => !HasKey(journal, r.key) && !AtLimit(journal, limits)
  }

  lemma {:induction false} CountQueuedIsSize(journal: seq<Entry>)
    ensures CountQueued(journal) == |QueuedPositions(journal)|
  {
    if journal != [] {
      var init, k := journal[..|journal| - 1], |journal| - 1;
      CountQueuedIsSize(init);
      assert QueuedPositions(journal)
          == if journal[k].status.Queued? then QueuedPositions(init) + {k} else QueuedPositions(init);
    }
  }

  /** Every answer is justified: a key that is known gives its command back if it asks for the same and
      conflicts if not, and a new key is refused exactly at a limit. */
  lemma ResolveIsJustified(journal: seq<Entry>, r: Request, limits: Limits)
    ensures Justified(Resolve(journal, r, limits), journal, r, limits)
  {
    CountQueuedIsSize(journal);
    var found := FindKey(journal, r.key);
    if found.Some? {
      var x :| 0 <= x < |journal| && journal[x].command == found.value && found.value.key == r.key;
    }
  }

  /** A key that one command owns is answered with that command if and only if it asks for the same. */
  lemma OwnerIsAnswered(journal: seq<Entry>, r: Request, limits: Limits, x: nat)
    requires KeysDistinct(journal) && x < |journal| && journal[x].command.key == r.key
    ensures Resolve(journal, r, limits) == Existing(journal[x].command) <==> AsksTheSame(journal[x].command, r)
    ensures Resolve(journal, r, limits) == Conflict <==> !AsksTheSame(journal[x].command, r)
  {
    var found := FindKey(journal, r.key).value;
    var y :| 0 <= y < |journal| && journal[y].command == found && found.key == r.key;
    assert x < y || y < x || x == y;
  }

  // ---------------------------------------------------------------- the step system

  datatype Ingest =
    | Waiting(request: Request)
    | Holding(request: Request)
    | Allocated(command: Command)

  datatype Processor =
    | Locked
    | Claimed(command: Command)
    | Prepared(work: Work)

  datatype State = State(
    db: Database,
    nextSequence: int,
    nextEvent: int,
    ingests: map<nat, Ingest>,
    ingestLock: Option<nat>,
    processors: map<nat, Processor>,
    processorLock: Option<nat>,
    issued: set<string>  // every order identifier generated so far
  )

  datatype Action =
    | Arrive(i: nat, request: Request)
    | LockIngest(i: nat)
    | Answered(i: nat)
    | Allocate(i: nat)
    | CommitIngest(i: nat)
    | AbandonIngest(i: nat)
    | TryLock(p: nat)
    | Claim(p: nat)
    | FindNothing(p: nat)
    | Prepare(p: nat)
    | CommitWork(p: nat)
    | AbandonWork(p: nat)

  /** The queued command with the lowest sequence. */
  function LowestQueued(journal: seq<Entry>): (r: Option<Command>)
    ensures r.Some? ==> Entry(r.value, Queued) in journal
  {
    if journal == [] then None
    else
      var last := journal[|journal| - 1];
      var best := LowestQueued(journal[..|journal| - 1]);
      if !last.status.Queued? then best
      else if best.None? || last.command.sequence < best.value.sequence then Some(last.command)
      else best
  }

  /** Generated identifiers are new; requests are validated before they arrive. */
  predicate Acceptable(s: State, r: Request) {
    WellFormed(r.kind) && (r.kind.SubmitOrder? ==> r.kind.orderId !in s.issued)
  }

  function CommandOf(r: Request, sequence: int): Command {
    Command(sequence, r.key, r.symbol, r.kind)
  }

  ghost predicate Enabled(s: State, a: Action, limits: Limits) {
    match a
    case Arrive(i, r) => i !in s.ingests && Acceptable(s, r)
    case LockIngest(i) => i in s.ingests && s.ingests[i].Waiting? && s.ingestLock.None?
    case Answered(i) =>
      i in s.ingests && s.ingests[i].Holding? && !Resolve(s.db.journal, s.ingests[i].request, limits).Insert?
    case Allocate(i) =>
      i in s.ingests && s.ingests[i].Holding? && Resolve(s.db.journal, s.ingests[i].request, limits).Insert?
    case CommitIngest(i) => i in s.ingests && s.ingests[i].Allocated?
    case AbandonIngest(i) => i in s.ingests
    case TryLock(p) => p !in s.processors && s.processorLock.None?
    case Claim(p) => p in s.processors && s.processors[p].Locked? && LowestQueued(s.db.journal).Some?
    case FindNothing(p) => p in s.processors && s.processors[p].Locked? && LowestQueued(s.db.journal).None?
    case Prepare(p) =>
      p in s.processors && s.processors[p].Claimed? && Decide(s.db, s.processors[p].command).Ok?
    case CommitWork(p) => p in s.processors && s.processors[p].Prepared?
    case AbandonWork(p) => p in s.processors
  }

  /** A transaction that ends releases the lock it holds, if any. */
  function Released(lock: Option<nat>, i: nat): Option<nat> {
    if lock == Some(i) then None else lock
  }

  ghost function After(s: State, a: Action, limits: Limits): State
    requires Enabled(s, a, limits)
  {
    match a
    case Arrive(i, r) =>
      s.(ingests := s.ingests[i := Waiting(r)],
         issued := if r.kind.SubmitOrder? then s.issued + {r.kind.orderId} else s.issued)
    case LockIngest(i) =>
      s.(ingests := s.ingests[i := Holding(s.ingests[i].request)], ingestLock := Some(i))
    case Answered(i) =>
      s.(ingests := s.ingests - {i}, ingestLock := Released(s.ingestLock, i))
    case Allocate(i) =>
      s.(ingests := s.ingests[i := Allocated(CommandOf(s.ingests[i].request, s.nextSequence))],
         nextSequence := s.nextSequence + 1)
    case CommitIngest(i) =>
      s.(db := s.db.(journal := s.db.journal + [Entry(s.ingests[i].command, Queued)]),
         ingests := s.ingests - {i}, ingestLock := Released(s.ingestLock, i))
    case AbandonIngest(i) =>
      s.(ingests := s.ingests - {i}, ingestLock := Released(s.ingestLock, i))
    case TryLock(p) =>
      s.(processors := s.processors[p := Locked], processorLock := Some(p))
    case Claim(p) =>
      s.(processors := s.processors[p := Claimed(LowestQueued(s.db.journal).value)])
    case FindNothing(p) =>
      s.(processors := s.processors - {p}, processorLock := Released(s.processorLock, p))
    case Prepare(p) =>
      s.(processors := s.processors[p := Prepared(Work(s.processors[p].command,
                                                       Decide(s.db, s.processors[p].command).value,
                                                       s.nextEvent))],
         nextEvent := s.nextEvent + 1)
    case CommitWork(p) =>
      s.(db := Commit(s.db, s.processors[p].work),
         processors := s.processors - {p}, processorLock := Released(s.processorLock, p))
    case AbandonWork(p) =>
      s.(processors := s.processors - {p}, processorLock := Released(s.processorLock, p))
  }

  ghost predicate Next(s: State, s': State, limits: Limits) {
    exists a :: Enabled(s, a, limits) && s' == After(s, a, limits)
  }

  function Initial(): State {
    State(Database([], [], [], []), 1, 1, map[], None, map[], None, {})
  }

  ghost predicate IsRun(trace: seq<State>, limits: Limits) {
    && trace != []
    && trace[0] == Initial()
    && forall i | 0 <= i < |trace| - 1 :: Next(trace[i], trace[i + 1], limits)
  }

  // ---------------------------------------------------------------- the invariant

  function Commands(journal: seq<Entry>): (r: seq<Command>)
    ensures |r| == |journal| && forall i | 0 <= i < |journal| :: r[i] == journal[i].command
  {
    seq(|journal|, i requires 0 <= i < |journal| => journal[i].command)
  }

  ghost predicate KeysDistinct(journal: seq<Entry>) {
    forall i, j | 0 <= i < j < |journal| :: journal[i].command.key != journal[j].command.key
  }

  /** Terminal commands are a prefix of the journal, and each has exactly one event, in order. */
  ghost predicate EventPerTerminal(db: Database) {
    && |db.events| <= |db.journal|
    && (forall i | 0 <= i < |db.journal| :: db.journal[i].status.IsTerminal() <==> i < |db.events|)
    && (forall i | 0 <= i < |db.events| ::
          && db.events[i].commandSequence == db.journal[i].command.sequence
          && db.events[i].symbol == db.journal[i].command.symbol
          && (db.events[i].kind.CommandRejected? <==> db.events[i].reply.Refused?)
          && (db.events[i].kind.OrderAccepted? <==>
                db.events[i].reply.Executed? && db.journal[i].command.kind.SubmitOrder?)
          && (db.events[i].kind.OrderCancelled? <==>
                db.events[i].reply.Executed? && db.journal[i].command.kind.CancelOrder?)
          && (db.journal[i].status.Completed? <==> db.events[i].reply.Executed?))
    && (forall i, j | 0 <= i < j < |db.events| :: db.events[i].id < db.events[j].id)
  }

  /** The committed tables are the serial fold of the terminal commands. */
  ghost predicate Serial(db: Database) {
    && Journaled(Commands(db.journal))
    && KeysDistinct(db.journal)
    && EventPerTerminal(db)
    && Refines(db, Commands(db.journal)[..|db.events|])
    && RepliesAgree(db.events, Commands(db.journal))
  }

  /** Each event carries the serial reference's answer, up to the class of a refusal. */
  ghost predicate RepliesAgree(events: seq<EventRow>, cs: seq<Command>)
    requires AllWellFormed(cs) && |events| <= |cs|
  {
    forall i | 0 <= i < |events| :: SameUpToClass(events[i].reply, ReplyTo(cs, i))
  }

  ghost predicate Bounded(db: Database, limits: Limits) {
    && (limits.total.Some? ==> |db.journal| <= limits.total.value)
    && (limits.queued.Some? ==> CountQueued(db.journal) <= limits.queued.value)
  }

  ghost predicate CountersAhead(s: State) {
    && s.nextSequence > 0 && s.nextEvent > 0
    && (forall i | 0 <= i < |s.db.journal| :: s.db.journal[i].command.sequence < s.nextSequence)
    && (forall i | 0 <= i < |s.db.events| :: 0 < s.db.events[i].id < s.nextEvent)
    && (forall i | 0 <= i < |s.db.journal| && s.db.journal[i].command.kind.SubmitOrder? ::
          s.db.journal[i].command.kind.orderId in s.issued)
  }

  function KindOf(g: Ingest): Kind {
    if g.Allocated? then g.command.kind else g.request.kind
  }

  /** An ingest transaction's identifier is issued, and used nowhere else. */
  ghost predicate OwnIdentifier(s: State, i: nat)
    requires i in s.ingests
  {
    var k := KindOf(s.ingests[i]);
    && WellFormed(k)
    && (k.SubmitOrder? ==>
          && k.orderId in s.issued
          && (forall j | 0 <= j < |s.db.journal| && s.db.journal[j].command.kind.SubmitOrder? ::
                s.db.journal[j].command.kind.orderId != k.orderId)
          && (forall j | j in s.ingests && j != i && KindOf(s.ingests[j]).SubmitOrder? ::
                KindOf(s.ingests[j]).orderId != k.orderId))
  }

  /** An allocated sequence is ahead of every visible one, its key is new and there is room. */
  ghost predicate ReadyToInsert(s: State, c: Command, limits: Limits) {
    && (forall j | 0 <= j < |s.db.journal| :: s.db.journal[j].command.sequence < c.sequence)
    && 0 < c.sequence < s.nextSequence
    && !HasKey(s.db.journal, c.key)
    && (limits.total.Some? ==> |s.db.journal| < limits.total.value)
    && (limits.queued.Some? ==> CountQueued(s.db.journal) < limits.queued.value)
  }

  ghost predicate IngestsSafe(s: State, limits: Limits) {
    forall i | i in s.ingests ::
      && OwnIdentifier(s, i)
      && (!s.ingests[i].Waiting? ==> s.ingestLock == Some(i))
      && (s.ingests[i].Allocated? ==> ReadyToInsert(s, s.ingests[i].command, limits))
  }

  /** The processor that works is the one that holds the lock, and its decision stays current. */
  ghost predicate ProcessorsSafe(s: State) {
    forall p | p in s.processors ::
      && s.processorLock == Some(p)
      && (s.processors[p].Claimed? ==> LowestQueued(s.db.journal) == Some(s.processors[p].command))
      && (s.processors[p].Prepared? ==>
            var w := s.processors[p].work;
            && LowestQueued(s.db.journal) == Some(w.command)
            && Decide(s.db, w.command) == Ok(w.reply)
            && 0 < w.eventId < s.nextEvent
            && forall i | 0 <= i < |s.db.events| :: s.db.events[i].id < w.eventId)
  }

  ghost predicate Inv(s: State, limits: Limits) {
    && Serial(s.db)
    && Bounded(s.db, limits)
    && CountersAhead(s)
    && IngestsSafe(s, limits)
    && ProcessorsSafe(s)
  }

  // ---------------------------------------------------------------- journal lemmas

  /** With terminal commands a prefix and sequences rising, the lowest queued command is the
      first one after the prefix. */
  lemma {:induction false} LowestIsFirst(journal: seq<Entry>, k: nat)
    requires k <= |journal|
    requires forall i, j | 0 <= i < j < |journal| :: journal[i].command.sequence < journal[j].command.sequence
    requires forall i | 0 <= i < |journal| :: journal[i].status.IsTerminal() <==> i < k
    ensures LowestQueued(journal) == if k < |journal| then Some(journal[k].command) else None
  {
    if journal != [] {
      var init := journal[..|journal| - 1];
      assert forall i | 0 <= i < |init| :: init[i] == journal[i];
      LowestIsFirst(init, if k < |journal| then k else k - 1);
    }
  }

  /** The lowest queued command is queued and no queued one is lower; there is none exactly when
      nothing is queued. */
  lemma {:induction false} LowestQueuedIsLowest(journal: seq<Entry>)
    ensures var c := LowestQueued(journal);
            && (c.None? <==> forall i | 0 <= i < |journal| :: !journal[i].status.Queued?)
            && (c.Some? ==>
                  && (exists i | 0 <= i < |journal| :: journal[i] == Entry(c.value, Queued))
                  && forall i | 0 <= i < |journal| && journal[i].status.Queued? ::
                       c.value.sequence <= journal[i].command.sequence)
  {
    if journal != [] {
      var init := journal[..|journal| - 1];
      assert forall i | 0 <= i < |init| :: init[i] == journal[i];
      LowestQueuedIsLowest(init);
    }
  }

  lemma {:induction false} CountQueuedAppend(journal: seq<Entry>, e: Entry)
    ensures CountQueued(journal + [e]) == CountQueued(journal) + if e.status.Queued? then 1 else 0
  {
  }

  lemma {:induction false} CountQueuedMark(journal: seq<Entry>, sequence: int, status: CommandStatus)
    requires status.IsTerminal()
    ensures CountQueued(Mark(journal, sequence, status)) <= CountQueued(journal)
  {
    if journal != [] {
      CountQueuedMark(journal[..|journal| - 1], sequence, status);
      var m := Mark(journal, sequence, status);
      assert m[..|journal| - 1] == Mark(journal[..|journal| - 1], sequence, status);
    }
  }

  lemma MarkKeepsCommands(journal: seq<Entry>, sequence: int, status: CommandStatus)
    ensures Commands(Mark(journal, sequence, status)) == Commands(journal)
    ensures forall key :: HasKey(Mark(journal, sequence, status), key) <==> HasKey(journal, key)
  {
  }

  lemma JournaledPrefix(cs: seq<Command>, n: nat)
    requires Journaled(cs) && n <= |cs|
    ensures Journaled(cs[..n])
  {
  }

  /** The command a processor works on is the next one after the terminal prefix. */
  lemma {:induction false} NextIsQueued(journal: seq<Entry>, k: nat, c: Command)
    requires k <= |journal| && LowestQueued(journal) == Some(c)
    requires forall i, j | 0 <= i < j < |journal| :: journal[i].command.sequence < journal[j].command.sequence
    requires forall i | 0 <= i < |journal| :: journal[i].status.IsTerminal() <==> i < k
    ensures k < |journal| && journal[k].command == c && !journal[k].status.IsTerminal()
  {
    LowestIsFirst(journal, k);
  }

  lemma OneMoreCommand(journal: seq<Entry>, k: nat)
    requires k < |journal|
    ensures Commands(journal)[..k + 1] == Commands(journal)[..k] + [journal[k].command]
  {
  }

  lemma WorkIsNext(db: Database, c: Command)
    requires Serial(db) && LowestQueued(db.journal) == Some(c)
    ensures var k := |db.events|;
            && k < |db.journal| && db.journal[k] == Entry(c, Queued)
            && Commands(db.journal)[..k + 1] == Commands(db.journal)[..k] + [c]
            && Journaled(Commands(db.journal)[..k] + [c])
  {
    var cs := Commands(db.journal);
    forall i, j | 0 <= i < j < |db.journal| ensures db.journal[i].command.sequence < db.journal[j].command.sequence {
      assert cs[i].sequence < cs[j].sequence;
    }
    NextIsQueued(db.journal, |db.events|, c);
    OneMoreCommand(db.journal, |db.events|);
    JournaledPrefix(cs, |db.events| + 1);
  }

  // ---------------------------------------------------------------- the invariant is inductive

  lemma EmptyIsSerial()
    ensures Serial(Database([], [], [], []))
  {
  }

  lemma InitialInv(limits: Limits)
    ensures Inv(Initial(), limits)
  {
    EmptyIsSerial();
  }

  lemma ArriveKeepsInv(s: State, i: nat, r: Request, limits: Limits)
    requires Inv(s, limits) && Enabled(s, Arrive(i, r), limits)
    ensures Inv(After(s, Arrive(i, r), limits), limits)
  {
    var s' := After(s, Arrive(i, r), limits);
    forall j | j in s'.ingests
      ensures OwnIdentifier(s', j)
      ensures !s'.ingests[j].Waiting? ==> s'.ingestLock == Some(j)
      ensures s'.ingests[j].Allocated? ==> ReadyToInsert(s', s'.ingests[j].command, limits)
    {
      if j != i {
        assert OwnIdentifier(s, j);
      }
      if r.kind.SubmitOrder? {
        forall x | x in s.ingests && KindOf(s.ingests[x]).SubmitOrder?
          ensures KindOf(s.ingests[x]).orderId != r.kind.orderId
        {
          assert OwnIdentifier(s, x);
        }
      }
    }
  }

  lemma LockIngestKeepsInv(s: State, i: nat, limits: Limits)
    requires Inv(s, limits) && Enabled(s, LockIngest(i), limits)
    ensures Inv(After(s, LockIngest(i), limits), limits)
  {
    var s' := After(s, LockIngest(i), limits);
    forall j | j in s'.ingests ensures KindOf(s'.ingests[j]) == KindOf(s.ingests[j]) {}
    forall j | j in s'.ingests
      ensures OwnIdentifier(s', j) && (!s'.ingests[j].Waiting? ==> s'.ingestLock == Some(j))
      ensures s'.ingests[j].Allocated? ==> ReadyToInsert(s', s'.ingests[j].command, limits)
    {
      assert OwnIdentifier(s, j);
    }
  }

  lemma EndIngestKeepsInv(s: State, i: nat, limits: Limits)
    requires Inv(s, limits) && i in s.ingests
    ensures Inv(s.(ingests := s.ingests - {i}, ingestLock := Released(s.ingestLock, i)), limits)
  {
    var s' := s.(ingests := s.ingests - {i}, ingestLock := Released(s.ingestLock, i));
    forall j | j in s'.ingests
      ensures OwnIdentifier(s', j) && (!s'.ingests[j].Waiting? ==> s'.ingestLock == Some(j))
      ensures s'.ingests[j].Allocated? ==> ReadyToInsert(s', s'.ingests[j].command, limits)
    {
      assert OwnIdentifier(s, j);
    }
  }

  lemma AllocateKeepsInv(s: State, i: nat, limits: Limits)
    requires Inv(s, limits) && Enabled(s, Allocate(i), limits)
    ensures Inv(After(s, Allocate(i), limits), limits)
  {
    var s' := After(s, Allocate(i), limits);
    forall j | j in s'.ingests ensures KindOf(s'.ingests[j]) == KindOf(s.ingests[j]) {}
    forall j | j in s'.ingests
      ensures OwnIdentifier(s', j) && (!s'.ingests[j].Waiting? ==> s'.ingestLock == Some(j))
      ensures s'.ingests[j].Allocated? ==> ReadyToInsert(s', s'.ingests[j].command, limits)
    {
      assert OwnIdentifier(s, j);
    }
  }

  lemma RepliesAfterAppend(events: seq<EventRow>, cs: seq<Command>, c: Command)
    requires AllWellFormed(cs + [c]) && AllWellFormed(cs) && |events| <= |cs| && RepliesAgree(events, cs)
    ensures RepliesAgree(events, cs + [c])
  {
    forall i | 0 <= i < |events| ensures ReplyTo(cs + [c], i) == ReplyTo(cs, i) {
      assert (cs + [c])[..i] == cs[..i] && (cs + [c])[i] == cs[i];
    }
  }

  lemma KeysAfterAppend(journal: seq<Entry>, e: Entry)
    requires KeysDistinct(journal) && !HasKey(journal, e.command.key)
    ensures KeysDistinct(journal + [e])
  {
  }

  /** Appending a queued command touches neither the terminal prefix nor what it replays to. */
  lemma AppendKeepsSerial(db: Database, c: Command)
    requires Serial(db) && !HasKey(db.journal, c.key)
    requires Journaled(Commands(db.journal) + [c])
    ensures Serial(db.(journal := db.journal + [Entry(c, Queued)]))
  {
    var db' := db.(journal := db.journal + [Entry(c, Queued)]);
    var cs, cs' := Commands(db.journal), Commands(db'.journal);
    assert cs' == cs + [c];
    assert cs'[..|db.events|] == cs[..|db.events|];
    KeysAfterAppend(db.journal, Entry(c, Queued));
    RepliesAfterAppend(db.events, cs, c);
    AppendKeepsTables(db, db'.journal, cs[..|db.events|]);
    assert EventPerTerminal(db');
  }

  lemma AppendKeepsTables(db: Database, journal: seq<Entry>, cs: seq<Command>)
    requires Refines(db, cs)
    ensures Refines(db.(journal := journal), cs)
  {
  }

  lemma InsertIsJournaled(s: State, i: nat, limits: Limits)
    requires i in s.ingests && s.ingests[i].Allocated? && Inv(s, limits)
    ensures Journaled(Commands(s.db.journal) + [s.ingests[i].command])
  {
    var cs, c := Commands(s.db.journal), s.ingests[i].command;
    var next := cs + [c];
    assert OwnIdentifier(s, i) && ReadyToInsert(s, c, limits);
    forall a | 0 <= a < |next| ensures WellFormed(next[a].kind) && next[a].sequence > 0 {
      assert a < |cs| ==> next[a] == cs[a];
    }
    forall a, b | 0 <= a < b < |next| ensures next[a].sequence < next[b].sequence {
      assert a < |cs| && next[a] == cs[a] == s.db.journal[a].command;
      assert b < |cs| ==> next[b] == cs[b];
    }
    forall a, b | 0 <= a < b < |next| && next[a].kind.SubmitOrder? && next[b].kind.SubmitOrder?
      ensures next[a].kind.orderId != next[b].kind.orderId
    {
      assert a < |cs| && next[a] == cs[a] == s.db.journal[a].command;
      assert b < |cs| ==> next[b] == cs[b];
    }
  }

  /** Deciding reads the order and trade tables only. */
  lemma DecideIgnoresJournal(db: Database, journal: seq<Entry>, c: Command)
    ensures Decide(db.(journal := journal), c) == Decide(db, c)
  {
    assert RestoredEngine(db.(journal := journal), c.symbol) == RestoredEngine(db, c.symbol);
  }

  lemma CommitIngestKeepsProcessors(s: State, i: nat, limits: Limits)
    requires Inv(s, limits) && Enabled(s, CommitIngest(i), limits)
    ensures ProcessorsSafe(After(s, CommitIngest(i), limits))
  {
    var s', e := After(s, CommitIngest(i), limits), Entry(s.ingests[i].command, Queued);
    assert ReadyToInsert(s, e.command, limits);
    assert (s.db.journal + [e])[..|s.db.journal|] == s.db.journal;
    forall p | p in s.processors && !s.processors[p].Locked?
      ensures LowestQueued(s'.db.journal) == LowestQueued(s.db.journal)
    {
      var c := LowestQueued(s.db.journal).value;
      var k :| 0 <= k < |s.db.journal| && s.db.journal[k] == Entry(c, Queued);
      assert c.sequence < e.command.sequence;
    }
    forall c: Command ensures Decide(s'.db, c) == Decide(s.db, c) {
      DecideIgnoresJournal(s.db, s.db.journal + [e], c);
    }
  }

  lemma CommitIngestKeepsCounters(s: State, i: nat, limits: Limits)
    requires Inv(s, limits) && Enabled(s, CommitIngest(i), limits)
    ensures CountersAhead(After(s, CommitIngest(i), limits))
    ensures Bounded(After(s, CommitIngest(i), limits).db, limits)
  {
    var c := s.ingests[i].command;
    assert OwnIdentifier(s, i) && ReadyToInsert(s, c, limits);
    CountQueuedAppend(s.db.journal, Entry(c, Queued));
  }

  lemma CommitIngestKeepsIngests(s: State, i: nat, limits: Limits)
    requires Inv(s, limits) && Enabled(s, CommitIngest(i), limits)
    ensures IngestsSafe(After(s, CommitIngest(i), limits), limits)
  {
    var s' := After(s, CommitIngest(i), limits);
    assert OwnIdentifier(s, i);
    forall j | j in s'.ingests ensures OwnIdentifier(s', j) && s'.ingests[j].Waiting? {
      assert OwnIdentifier(s, j);
      assert s.ingests[j].Waiting? by {
        assert s.ingestLock == Some(i);
      }
    }
  }

  lemma CommitIngestKeepsInv(s: State, i: nat, limits: Limits)
    requires Inv(s, limits) && Enabled(s, CommitIngest(i), limits)
    ensures Inv(After(s, CommitIngest(i), limits), limits)
  {
    assert ReadyToInsert(s, s.ingests[i].command, limits);
    InsertIsJournaled(s, i, limits);
    AppendKeepsSerial(s.db, s.ingests[i].command);
    CommitIngestKeepsProcessors(s, i, limits);
    CommitIngestKeepsIngests(s, i, limits);
    CommitIngestKeepsCounters(s, i, limits);
  }

  /** A step that touches neither journal, counters nor transactions leaves the transactions safe. */
  lemma IngestsStaySafe(s: State, s': State, limits: Limits)
    requires IngestsSafe(s, limits) && s'.ingests == s.ingests && s'.ingestLock == s.ingestLock
    requires s'.db == s.db && s'.issued == s.issued && s'.nextSequence == s.nextSequence
    ensures IngestsSafe(s', limits)
  {
    forall j | j in s'.ingests
      ensures OwnIdentifier(s', j) && (!s'.ingests[j].Waiting? ==> s'.ingestLock == Some(j))
      ensures s'.ingests[j].Allocated? ==> ReadyToInsert(s', s'.ingests[j].command, limits)
    {
      assert OwnIdentifier(s, j);
    }
  }

  lemma ProcessorsStaySafe(s: State, a: Action, limits: Limits)
    requires ProcessorsSafe(s) && CountersAhead(s) && Enabled(s, a, limits)
    requires a.TryLock? || a.Claim? || a.FindNothing? || a.Prepare? || a.AbandonWork?
    ensures ProcessorsSafe(After(s, a, limits)) && CountersAhead(After(s, a, limits))
  {
  }

  lemma ProcessorStepKeepsInv(s: State, a: Action, limits: Limits)
    requires Inv(s, limits) && Enabled(s, a, limits)
    requires a.TryLock? || a.Claim? || a.FindNothing? || a.Prepare? || a.AbandonWork?
    ensures Inv(After(s, a, limits), limits)
  {
    IngestsStaySafe(s, After(s, a, limits), limits);
    ProcessorsStaySafe(s, a, limits);
  }

  lemma MarkNext(db: Database, c: Command, status: CommandStatus)
    requires Serial(db) && LowestQueued(db.journal) == Some(c)
    ensures |db.events| < |db.journal|
    ensures Mark(db.journal, c.sequence, status) == db.journal[|db.events| := Entry(c, status)]
  {
    var k, cs := |db.events|, Commands(db.journal);
    WorkIsNext(db, c);
    forall i | 0 <= i < |db.journal| && i != k ensures db.journal[i].command.sequence != c.sequence {
      assert i < k || k < i;
      assert cs[i].sequence != cs[k].sequence;
    }
  }

  lemma RepliesExtend(events: seq<EventRow>, e: EventRow, cs: seq<Command>)
    requires AllWellFormed(cs) && |events| < |cs| && RepliesAgree(events, cs)
    requires SameUpToClass(e.reply, ReplyTo(cs, |events|))
    ensures RepliesAgree(events + [e], cs)
  {
    var all := events + [e];
    forall i | 0 <= i < |all| ensures SameUpToClass(all[i].reply, ReplyTo(cs, i)) {
      assert all[i] == if i < |events| then events[i] else e;
    }
  }

  lemma CommitKeepsReplies(db: Database, w: Work)
    requires Serial(db) && LowestQueued(db.journal) == Some(w.command)
    requires Decide(db, w.command) == Ok(w.reply)
    ensures |db.events| < |Commands(db.journal)|
    ensures RepliesAgree(db.events + [EventOf(w)], Commands(db.journal))
  {
    var k, cs := |db.events|, Commands(db.journal);
    WorkIsNext(db, w.command);
    DecideAgrees(db, cs[..k], w.command);
    assert cs[k] == w.command;
    RepliesExtend(db.events, EventOf(w), cs);
  }

  lemma KeysAfterMark(journal: seq<Entry>, sequence: int, status: CommandStatus)
    requires KeysDistinct(journal)
    ensures KeysDistinct(Mark(journal, sequence, status))
  {
  }

  /** The first queued entry becomes terminal and gets the next event. */
  lemma EventsExtend(db: Database, status: CommandStatus, e: EventRow)
    requires EventPerTerminal(db) && |db.events| < |db.journal| && status.IsTerminal()
    requires var c := db.journal[|db.events|].command;
             && e.commandSequence == c.sequence && e.symbol == c.symbol && e.kind == EventTypeOf(c, e.reply)
             && (status.Completed? <==> e.reply.Executed?)
    requires forall i | 0 <= i < |db.events| :: db.events[i].id < e.id
    ensures var k := |db.events|;
            var journal := db.journal[k := Entry(db.journal[k].command, status)];
            EventPerTerminal(db.(journal := journal, events := db.events + [e]))
  {
  }

  lemma CommitKeepsEvents(db: Database, w: Work)
    requires Serial(db) && LowestQueued(db.journal) == Some(w.command)
    requires forall i | 0 <= i < |db.events| :: db.events[i].id < w.eventId
    ensures EventPerTerminal(Commit(db, w)) && KeysDistinct(Commit(db, w).journal)
  {
    var status := if w.reply.Executed? then Completed else CommandStatus.Rejected;
    WorkIsNext(db, w.command);
    MarkNext(db, w.command, status);
    KeysAfterMark(db.journal, w.command.sequence, status);
    EventsExtend(db, status, EventOf(w));
  }

  /** What a commit does to the journal and the events. */
  lemma CommitKeepsSerial(db: Database, w: Work)
    requires Serial(db) && LowestQueued(db.journal) == Some(w.command)
    requires Decide(db, w.command) == Ok(w.reply)
    requires forall i | 0 <= i < |db.events| :: db.events[i].id < w.eventId
    ensures Serial(Commit(db, w))
  {
    WorkIsNext(db, w.command);
    MarkKeepsCommands(db.journal, w.command.sequence, Completed);
    MarkKeepsCommands(db.journal, w.command.sequence, CommandStatus.Rejected);
    CommitRefines(db, Commands(db.journal)[..|db.events|], w);
    CommitKeepsReplies(db, w);
    CommitKeepsEvents(db, w);
  }

  /** What a commit keeps of the journal: its commands, hence keys, length and sequences. */
  lemma CommitKeepsJournal(db: Database, w: Work)
    ensures Commands(Commit(db, w).journal) == Commands(db.journal)
    ensures |Commit(db, w).journal| == |db.journal|
    ensures forall i | 0 <= i < |db.journal| :: Commit(db, w).journal[i].command == db.journal[i].command
    ensures CountQueued(Commit(db, w).journal) <= CountQueued(db.journal)
  {
    var status := if w.reply.Executed? then Completed else CommandStatus.Rejected;
    MarkKeepsCommands(db.journal, w.command.sequence, status);
    CountQueuedMark(db.journal, w.command.sequence, status);
  }

  lemma CommitKeepsBounds(s: State, p: nat, limits: Limits)
    requires Inv(s, limits) && Enabled(s, CommitWork(p), limits)
    ensures Bounded(After(s, CommitWork(p), limits).db, limits)
  {
    CommitKeepsJournal(s.db, s.processors[p].work);
  }

  lemma CountersStayAhead(s: State, db: Database, w: Work)
    requires CountersAhead(s) && 0 < w.eventId < s.nextEvent && db.events == s.db.events + [EventOf(w)]
    requires |db.journal| == |s.db.journal|
    requires forall i | 0 <= i < |db.journal| :: db.journal[i].command == s.db.journal[i].command
    ensures CountersAhead(s.(db := db))
  {
  }

  lemma CommitKeepsCounters(s: State, p: nat, limits: Limits)
    requires Inv(s, limits) && Enabled(s, CommitWork(p), limits)
    ensures CountersAhead(After(s, CommitWork(p), limits))
  {
    var w := s.processors[p].work;
    CommitKeepsJournal(s.db, w);
    CountersStayAhead(s, Commit(s.db, w), w);
  }

  lemma CommitKeepsIngest(s: State, p: nat, limits: Limits, j: nat)
    requires Inv(s, limits) && Enabled(s, CommitWork(p), limits) && j in s.ingests
    ensures var s' := After(s, CommitWork(p), limits);
            && OwnIdentifier(s', j) && (!s'.ingests[j].Waiting? ==> s'.ingestLock == Some(j))
            && (s'.ingests[j].Allocated? ==> ReadyToInsert(s', s'.ingests[j].command, limits))
  {
    CommitKeepsJournal(s.db, s.processors[p].work);
    assert OwnIdentifier(s, j);
  }

  lemma CommitKeepsIngests(s: State, p: nat, limits: Limits)
    requires Inv(s, limits) && Enabled(s, CommitWork(p), limits)
    ensures IngestsSafe(After(s, CommitWork(p), limits), limits)
    ensures Bounded(After(s, CommitWork(p), limits).db, limits)
    ensures CountersAhead(After(s, CommitWork(p), limits))
  {
    CommitKeepsBounds(s, p, limits);
    CommitKeepsCounters(s, p, limits);
    forall j | j in s.ingests
      ensures var s' := After(s, CommitWork(p), limits);
              && OwnIdentifier(s', j) && (!s'.ingests[j].Waiting? ==> s'.ingestLock == Some(j))
              && (s'.ingests[j].Allocated? ==> ReadyToInsert(s', s'.ingests[j].command, limits))
    {
      CommitKeepsIngest(s, p, limits, j);
    }
  }

  lemma CommitWorkKeepsInv(s: State, p: nat, limits: Limits)
    requires Inv(s, limits) && Enabled(s, CommitWork(p), limits)
    ensures Inv(After(s, CommitWork(p), limits), limits)
  {
    CommitKeepsSerial(s.db, s.processors[p].work);
    CommitKeepsIngests(s, p, limits);
    forall q | q in s.processors ensures q == p {
      assert s.processorLock == Some(q) && s.processorLock == Some(p);
    }
    assert ProcessorsSafe(After(s, CommitWork(p), limits));
  }

  lemma NextKeepsInv(s: State, s': State, limits: Limits)
    requires Inv(s, limits) && Next(s, s', limits)
    ensures Inv(s', limits)
  {
    var a :| Enabled(s, a, limits) && s' == After(s, a, limits);
    match a
    case Arrive(i, r) => ArriveKeepsInv(s, i, r, limits);
    case LockIngest(i) => LockIngestKeepsInv(s, i, limits);
    case Answered(i) => EndIngestKeepsInv(s, i, limits);
    case Allocate(i) => AllocateKeepsInv(s, i, limits);
    case CommitIngest(i) => CommitIngestKeepsInv(s, i, limits);
    case AbandonIngest(i) => EndIngestKeepsInv(s, i, limits);
    case CommitWork(p) => CommitWorkKeepsInv(s, p, limits);
    case _ => ProcessorStepKeepsInv(s, a, limits);
  }

  lemma {:induction false} RunKeepsInv(trace: seq<State>, limits: Limits, i: nat)
    requires IsRun(trace, limits) && i < |trace|
    ensures Inv(trace[i], limits)
  {
    if i == 0 {
      InitialInv(limits);
    } else {
      RunKeepsInv(trace, limits, i - 1);
      assert Next(trace[i - 1], trace[i - 1 + 1], limits);
      NextKeepsInv(trace[i - 1], trace[i], limits);
    }
  }
}
