/**
 One retained lesson submission: the browser sends it under one idempotency key, replies get lost
 or come late, and the acceptance transactions of `Journal` run underneath with everybody else's.
 */
module Lesson {
  import opened Common
  import opened Orders
  import opened Market
  import opened Store
  import Journal
  import Guarantees

  // ---------------------------------------------------------------- the browser's side

  datatype Response =
    | Receipt(command: Command)
    | HttpError(status: int, message: string)
    | NoReply

  const QUEUE_FULL := "command queue is at the public demo limit"
  const JOURNAL_FULL := "the public demo reached its durable command limit; scheduled maintenance will reset it"
  const CONFLICT := "Idempotency-Key was already used for a different request"

  /** The replies with which a request is refused before it is accepted: by the server's own checks of
      host, path, size, rate, parameters and key, by access control in front of it, and at its two
      capacity limits.  Nothing else says these once a request has been taken on. */
  predicate RefusesUpFront(r: Response) {
    && r.HttpError?
    && ( || r.status in {400, 401, 403, 404, 405, 409, 413, 422, 429}
         || (r.status == 503 && r.message in {QUEUE_FULL, JOURNAL_FULL}))
  }

  /** A reply that proves that this attempt created nothing. */
  predicate Definite(r: Response) {
    && r.HttpError?
    && (r.status in {400, 401, 403, 404, 413, 422, 429} || (r.status == 503 && r.message == QUEUE_FULL))
  }

  datatype Submission = Submission(receipt: Option<Command>, ambiguous: bool, rejected: bool)

  function NewSubmission(): Submission {
    Submission(None, false, false)
  }

  /** What a reply, or its absence, does to the retained submission. */
  function Settled(v: Submission, r: Response): Submission {
    match r
    case Receipt(c) => v.(receipt := Some(c), rejected := false)
    case _ =>
      var ambiguous := v.ambiguous || !Definite(r);
      v.(ambiguous := ambiguous, rejected := Definite(r) && !ambiguous)
  }

  /** May the lesson end without sending anything again? */
  predicate EndsSilently(v: Submission) {
    v.rejected && !v.ambiguous
  }

  class LessonSubmission {
    var receipt: Option<Command>
    var ambiguous: bool
    var rejected: bool

    constructor ()
      ensures View() == NewSubmission()
    {
      receipt, ambiguous, rejected := None, false, false;
    }

    function View(): Submission
      reads this
    {
      Submission(receipt, ambiguous, rejected)
    }

    /** One call; `response` is what sending the order brings if it comes to that. */
    method Submit(response: Response) returns (r: Result<Command, Response>)
      modifies this
      ensures View() == if old(receipt).Some? then old(View()) else Settled(old(View()), response)
      ensures r.Ok? <==> receipt.Some?
      ensures r.Ok? ==> receipt == Some(r.value)
    {
      if receipt.Some? {
        return Ok(receipt.value);
      }
      match response
      case Receipt(c) =>
        receipt := Some(c);
        rejected := false;
        return Ok(c);
      case _ =>
        var definitelyRejected := Definite(response);
        if !definitelyRejected {
          ambiguous := true;
        }
        rejected := definitelyRejected && !ambiguous;
        return Err(response);
    }
  }

  /** Which first replies end a lesson without another attempt, by status and message. */
  lemma FirstReplyEndsSilently(r: Response)
    ensures EndsSilently(Settled(NewSubmission(), r)) <==>
              && r.HttpError?
              && ( || r.status == 400 || r.status == 401 || r.status == 403 || r.status == 404
                   || r.status == 413 || r.status == 422 || r.status == 429
                   || (r.status == 503 && r.message == QUEUE_FULL))
  {
  }

  /** Once a reply was lost or said nothing definite, no later reply ends the lesson silently. */
  lemma {:induction false} DoubtRemains(v: Submission, rs: seq<Response>) returns (last: Submission)
    requires v.ambiguous && !v.rejected
    ensures last == SettledBy(v, rs) && last.ambiguous && !last.rejected && !EndsSilently(last)
  {
    if rs == [] {
      last := v;
    } else {
      var before := DoubtRemains(v, rs[..|rs| - 1]);
      last := Settled(before, rs[|rs| - 1]);
    }
  }

  function SettledBy(v: Submission, rs: seq<Response>): Submission {
    if rs == [] then v else Settled(SettledBy(v, rs[..|rs| - 1]), rs[|rs| - 1])
  }

  // ---------------------------------------------------------------- the step system

  /** What the submission asks for, and the key it was given for good. */
  datatype Intent = Intent(key: string, symbol: string, side: Side, price: int, quantity: int)

  function RequestOf(n: Intent, orderId: string): Journal.Request {
    Journal.Request(n.key, n.symbol, SubmitOrder(orderId, n.side, n.price, n.quantity))
  }

  /** A broken attempt is one whose reply was replaced, on its way or before it was there, by an error
      that says nothing about the request: its transaction may still be at work, or have committed. */
  datatype Attempt =
    | Traveling
    | Working
    | Answered(response: Response)
    | Broken(response: Response)
    | Lost

  predicate IsReceipt(a: Attempt) {
    a.Answered? && a.response.Receipt?
  }

  /** What the browser hears of an attempt. */
  function Heard(a: Attempt): Response
    requires a.Answered? || a.Broken?
  {
    a.response
  }

  /** The server, the submission, every attempt ever made (named by the transaction that it may
      become), and the attempt whose reply is awaited. */
  datatype State = State(
    server: Journal.State,
    view: Submission,
    attempts: map<nat, Attempt>,
    calling: Option<nat>
  )

  datatype Action =
    | Send(i: nat)
    | Bounce(i: nat, error: Response)
    | Reach(i: nat, orderId: string)
    | Vanish(i: nat)
    | Break(i: nat, error: Response)
    | Serve(step: Journal.Action)
    | Hear
    | GiveUp

  /** Other clients use other keys; attempts arrive through `Reach`. */
  predicate Foreign(l: State, a: Journal.Action, n: Intent) {
    a.Arrive? ==> a.i !in l.attempts && a.request.key != n.key
  }

  ghost predicate Enabled(l: State, a: Action, n: Intent, limits: Journal.Limits) {
    match a
    case Send(i) => l.calling.None? && l.view.receipt.None? && i !in l.attempts && i !in l.server.ingests
    case Bounce(i, error) => i in l.attempts && l.attempts[i].Traveling? && error.HttpError?
    case Reach(i, orderId) =>
      && i in l.attempts && l.attempts[i].Traveling?
      && Journal.Enabled(l.server, Journal.Arrive(i, RequestOf(n, orderId)), limits)
    case Vanish(i) => i in l.attempts && l.attempts[i].Traveling?
    case Break(i, error) =>
      && i in l.attempts && (l.attempts[i].Working? || IsReceipt(l.attempts[i]))
      && error.HttpError? && !RefusesUpFront(error)
    case Serve(step) => Foreign(l, step, n) && Journal.Enabled(l.server, step, limits)
    case Hear =>
      && l.calling.Some? && l.calling.value in l.attempts
      && (l.attempts[l.calling.value].Answered? || l.attempts[l.calling.value].Broken?)
    case GiveUp => l.calling.Some?
  }

  /** The reply with which an acceptance transaction ends that inserts nothing. */
  function AnswerOf(journal: seq<Entry>, r: Journal.Request, limits: Journal.Limits): Response {
    match Journal.Resolve(journal, r, limits)
    case Existing(c) => Receipt(c)
    case Conflict => HttpError(409, CONFLICT)
    case _ =>
      HttpError(503, if limits.total.Some? && |journal| >= limits.total.value then JOURNAL_FULL else QUEUE_FULL)
  }

  /** What the server answers without inserting anything: the owner of the key if it asks for the same,
      a conflict if it does not, and otherwise which of the two limits is reached. */
  lemma AnswerSaysWhy(journal: seq<Entry>, r: Journal.Request, limits: Journal.Limits)
    requires Journal.KeysDistinct(journal) && !Journal.Resolve(journal, r, limits).Insert?
    ensures var a := AnswerOf(journal, r, limits);
            var full := limits.total.Some? && |journal| >= limits.total.value;
            && (forall x | 0 <= x < |journal| && journal[x].command.key == r.key ::
                  a == if Journal.AsksTheSame(journal[x].command, r) then Receipt(journal[x].command)
                       else HttpError(409, CONFLICT))
            && ((forall x | 0 <= x < |journal| :: journal[x].command.key != r.key) ==>
                  && a == HttpError(503, if full then JOURNAL_FULL else QUEUE_FULL)
                  && (full || (limits.queued.Some? && |Journal.QueuedPositions(journal)| >= limits.queued.value)))
  {
    Journal.ResolveIsJustified(journal, r, limits);
    forall x | 0 <= x < |journal| && journal[x].command.key == r.key
      ensures AnswerOf(journal, r, limits)
           == if Journal.AsksTheSame(journal[x].command, r) then Receipt(journal[x].command)
              else HttpError(409, CONFLICT)
    {
      Journal.OwnerIsAnswered(journal, r, limits, x);
    }
  }

  /** Of these answers to a first attempt only one ends the lesson silently: the key is new, the
      journal has room and the queue has none. */
  lemma OnlyAFullQueueEndsSilently(journal: seq<Entry>, r: Journal.Request, limits: Journal.Limits)
    requires Journal.KeysDistinct(journal) && !Journal.Resolve(journal, r, limits).Insert?
    ensures EndsSilently(Settled(NewSubmission(), AnswerOf(journal, r, limits))) <==>
              && (forall x | 0 <= x < |journal| :: journal[x].command.key != r.key)
              && (limits.total.Some? ==> |journal| < limits.total.value)
  {
    AnswerSaysWhy(journal, r, limits);
  }

  function AfterServing(l: State, step: Journal.Action, limits: Journal.Limits): map<nat, Attempt> {
    match step
    case Answered(i) =>
      if i in l.attempts && l.attempts[i].Working? && i in l.server.ingests && l.server.ingests[i].Holding?
      then l.attempts[i := Answered(AnswerOf(l.server.db.journal, l.server.ingests[i].request, limits))]
      else l.attempts
    case CommitIngest(i) =>
      if i in l.attempts && l.attempts[i].Working? && i in l.server.ingests && l.server.ingests[i].Allocated?
      then l.attempts[i := Answered(Receipt(l.server.ingests[i].command))]
      else l.attempts
    case AbandonIngest(i) =>
      if i in l.attempts && l.attempts[i].Working? then l.attempts[i := Answered(HttpError(500, ""))] else l.attempts
    case _ => l.attempts
  }

  ghost function Step(l: State, a: Action, n: Intent, limits: Journal.Limits): State
    requires Enabled(l, a, n, limits)
  {
    match a
    case Send(i) => l.(attempts := l.attempts[i := Traveling], calling := Some(i))
    case Bounce(i, error) => l.(attempts := l.attempts[i := Answered(error)])
    case Reach(i, orderId) =>
      l.(server := Journal.After(l.server, Journal.Arrive(i, RequestOf(n, orderId)), limits),
         attempts := l.attempts[i := Working])
    case Vanish(i) => l.(attempts := l.attempts[i := Lost])
    case Break(i, error) => l.(attempts := l.attempts[i := Broken(error)])
    case Serve(step) =>
      l.(server := Journal.After(l.server, step, limits), attempts := AfterServing(l, step, limits))
    case Hear => l.(view := Settled(l.view, Heard(l.attempts[l.calling.value])), calling := None)
    case GiveUp => l.(view := Settled(l.view, NoReply), calling := None)
  }

  ghost predicate Next(l: State, l': State, n: Intent, limits: Journal.Limits) {
    exists a :: Enabled(l, a, n, limits) && l' == Step(l, a, n, limits)
  }

  function KeyOf(g: Journal.Ingest): string {
    if g.Allocated? then g.command.key else g.request.key
  }

  /** Any reachable server on which the new key is unused. */
  ghost predicate IsStart(l: State, n: Intent, limits: Journal.Limits) {
    && Journal.Inv(l.server, limits)
    && !Journal.HasKey(l.server.db.journal, n.key)
    && (forall i | i in l.server.ingests :: KeyOf(l.server.ingests[i]) != n.key)
    && l.view == NewSubmission() && l.attempts == map[] && l.calling.None?
  }

  ghost predicate IsRun(trace: seq<State>, n: Intent, limits: Journal.Limits) {
    && trace != []
    && IsStart(trace[0], n, limits)
    && forall i | 0 <= i < |trace| - 1 :: Next(trace[i], trace[i + 1], n, limits)
  }

  // ---------------------------------------------------------------- the invariant

  predicate Refused(a: Attempt) {
    a.Answered? && Definite(a.response)
  }

  ghost predicate Means(c: Command, n: Intent) {
    c.key == n.key && Journal.SameMeaning(c, RequestOf(n, ""))
  }

  ghost predicate InJournal(journal: seq<Entry>, c: Command) {
    exists x | 0 <= x < |journal| :: journal[x].command == c
  }

  /** An attempt that the server works on is a transaction with the key; besides such, only those of
      broken attempts have it. */
  ghost predicate AttemptsMatch(l: State, n: Intent) {
    AreTransactions(l.attempts, l.server.ingests, n)
  }

  ghost predicate AreTransactions(attempts: map<nat, Attempt>, ingests: map<nat, Journal.Ingest>, n: Intent) {
    && (forall i | i in attempts && attempts[i].Working? :: i in ingests)
    && (forall i | i in attempts && i in ingests :: attempts[i].Working? || attempts[i].Broken?)
    && (forall i | i in attempts && attempts[i].Broken? ::
          attempts[i].response.HttpError? && !RefusesUpFront(attempts[i].response))
    && (forall i | i in ingests && i !in attempts :: KeyOf(ingests[i]) != n.key)
    && (forall i | i in ingests && i in attempts :: Asks(ingests[i], n))
  }

  ghost predicate Asks(g: Journal.Ingest, n: Intent) {
    if g.Allocated? then Means(g.command, n)
    else g.request.kind.SubmitOrder? && g.request == RequestOf(n, g.request.kind.orderId)
  }

  /** A receipt names a command of the journal that carries the key. */
  ghost predicate NamesOwner(a: Attempt, journal: seq<Entry>, n: Intent) {
    IsReceipt(a) ==> a.response.command.key == n.key && InJournal(journal, a.response.command)
  }

  /** Some attempt may have created the command: its reply was a receipt, or was broken. */
  ghost predicate MayOwn(attempts: map<nat, Attempt>) {
    exists i | i in attempts :: IsReceipt(attempts[i]) || attempts[i].Broken?
  }

  /** Whoever owns the key is one of the attempts, and its reply was a receipt or was broken. */
  ghost predicate OwnersMatch(l: State, n: Intent) {
    Owned(l.attempts, l.server.db.journal, n)
  }

  ghost predicate Owned(attempts: map<nat, Attempt>, journal: seq<Entry>, n: Intent) {
    && (forall x | 0 <= x < |journal| && journal[x].command.key == n.key :: Means(journal[x].command, n))
    && (Journal.HasKey(journal, n.key) ==> MayOwn(attempts))
    && (forall i | i in attempts :: NamesOwner(attempts[i], journal, n))
  }

  ghost predicate ViewMatches(l: State, n: Intent) {
    && (l.calling.Some? ==> l.calling.value in l.attempts && l.view.receipt.None?)
    && (!l.view.ambiguous && l.view.receipt.None? ==>
          forall i | i in l.attempts :: l.calling == Some(i) || Refused(l.attempts[i]))
    && (l.view.rejected ==> !l.view.ambiguous && l.view.receipt.None?)
    && (l.view.receipt.Some? ==>
          l.view.receipt.value.key == n.key && InJournal(l.server.db.journal, l.view.receipt.value))
  }

  ghost predicate Inv(l: State, n: Intent, limits: Journal.Limits) {
    && Journal.Inv(l.server, limits)
    && AttemptsMatch(l, n)
    && OwnersMatch(l, n)
    && ViewMatches(l, n)
  }

  // ---------------------------------------------------------------- what the server's steps do

  ghost predicate Grows(a: seq<Entry>, b: seq<Entry>) {
    Journal.Commands(a) <= Journal.Commands(b)
  }

  lemma GrownHolds(a: seq<Entry>, b: seq<Entry>, c: Command)
    requires Grows(a, b) && InJournal(a, c)
    ensures InJournal(b, c)
  {
  }

  /** Only the commit of an acceptance transaction adds a command. */
  lemma ServerGrows(s: Journal.State, a: Journal.Action, limits: Journal.Limits)
    requires Journal.Inv(s, limits) && Journal.Enabled(s, a, limits)
    ensures var s' := Journal.After(s, a, limits);
            Journal.Commands(s'.db.journal)
            == if a.CommitIngest? then Journal.Commands(s.db.journal) + [s.ingests[a.i].command]
               else Journal.Commands(s.db.journal)
  {
    if a.CommitWork? {
      var w := s.processors[a.p].work;
      Journal.MarkKeepsCommands(s.db.journal, w.command.sequence, Completed);
      Journal.MarkKeepsCommands(s.db.journal, w.command.sequence, CommandStatus.Rejected);
    }
  }

  lemma KeyInCommands(journal: seq<Entry>, key: string)
    ensures Journal.HasKey(journal, key) <==> exists x | 0 <= x < |journal| :: Journal.Commands(journal)[x].key == key
  {
    if Journal.HasKey(journal, key) {
      var x :| 0 <= x < |journal| && journal[x].command.key == key;
      assert Journal.Commands(journal)[x].key == key;
    }
  }

  /** A step of the server moves at most one transaction, and never makes up a key. */
  lemma ServerMovesOne(s: Journal.State, a: Journal.Action, limits: Journal.Limits, i: nat)
    requires Journal.Enabled(s, a, limits)
    ensures var s' := Journal.After(s, a, limits);
            && (i in s'.ingests && i !in s.ingests ==> a.Arrive? && a.i == i && KeyOf(s'.ingests[i]) == a.request.key)
            && (i in s.ingests && i !in s'.ingests ==> (a.Answered? || a.CommitIngest? || a.AbandonIngest?) && a.i == i)
            && (i in s.ingests && i in s'.ingests ==> KeyOf(s'.ingests[i]) == KeyOf(s.ingests[i]))
            && ((a.Answered? || a.CommitIngest? || a.AbandonIngest?) ==> a.i in s.ingests && a.i !in s'.ingests)
  {
  }

  lemma ServerKeepsAsking(s: Journal.State, a: Journal.Action, limits: Journal.Limits, i: nat, n: Intent)
    requires Journal.Enabled(s, a, limits) && i in s.ingests && Asks(s.ingests[i], n)
    ensures i in Journal.After(s, a, limits).ingests ==> Asks(Journal.After(s, a, limits).ingests[i], n)
  {
  }

  lemma ServeKeepsWorking(l: State, step: Journal.Action, n: Intent, limits: Journal.Limits, i: nat)
    requires AttemptsMatch(l, n) && Enabled(l, Serve(step), n, limits) && i in l.attempts
    ensures var a, working := AfterServing(l, step, limits)[i], i in Journal.After(l.server, step, limits).ingests;
            && (a.Working? ==> working) && (working ==> a.Working? || a.Broken?)
            && (a.Broken? ==> a == l.attempts[i])
  {
    ServerMovesOne(l.server, step, limits, i);
  }

  lemma ServeKeepsAsking(l: State, step: Journal.Action, n: Intent, limits: Journal.Limits, i: nat)
    requires AttemptsMatch(l, n) && Enabled(l, Serve(step), n, limits)
    requires i in Journal.After(l.server, step, limits).ingests
    ensures i !in l.attempts ==> KeyOf(Journal.After(l.server, step, limits).ingests[i]) != n.key
    ensures i in l.attempts ==> Asks(Journal.After(l.server, step, limits).ingests[i], n)
  {
    ServerMovesOne(l.server, step, limits, i);
    if i in l.server.ingests && i in l.attempts {
      ServerKeepsAsking(l.server, step, limits, i, n);
    }
  }

  lemma ServeKeepsAttempts(l: State, step: Journal.Action, n: Intent, limits: Journal.Limits)
    requires AttemptsMatch(l, n) && Enabled(l, Serve(step), n, limits)
    ensures AreTransactions(AfterServing(l, step, limits), Journal.After(l.server, step, limits).ingests, n)
  {
    var attempts, ingests := AfterServing(l, step, limits), Journal.After(l.server, step, limits).ingests;
    forall i | i in attempts
      ensures (attempts[i].Working? ==> i in ingests) && (i in ingests ==> attempts[i].Working? || attempts[i].Broken?)
      ensures attempts[i].Broken? ==> attempts[i].response.HttpError? && !RefusesUpFront(attempts[i].response)
    {
      ServeKeepsWorking(l, step, n, limits, i);
    }
    forall i | i in ingests
      ensures i !in attempts ==> KeyOf(ingests[i]) != n.key
      ensures i in attempts ==> Asks(ingests[i], n)
    {
      ServeKeepsAsking(l, step, n, limits, i);
    }
  }

  lemma AnswerIsInJournal(journal: seq<Entry>, r: Journal.Request, limits: Journal.Limits)
    ensures var a := AnswerOf(journal, r, limits);
            a.Receipt? ==> a.command.key == r.key && InJournal(journal, a.command)
  {
  }

  /** A step ends attempts that the server works on, and no others. */
  lemma OthersStay(l: State, step: Journal.Action, limits: Journal.Limits, i: nat)
    requires i in l.attempts && !l.attempts[i].Working?
    ensures AfterServing(l, step, limits)[i] == l.attempts[i]
  {
  }

  /** Whatever a step answers with a receipt: the command it inserts, or one that it found. */
  lemma NewReceipts(l: State, step: Journal.Action, n: Intent, limits: Journal.Limits, i: nat)
    requires AttemptsMatch(l, n) && i in l.attempts && IsReceipt(AfterServing(l, step, limits)[i])
    ensures var c := AfterServing(l, step, limits)[i].response.command;
            || AfterServing(l, step, limits)[i] == l.attempts[i]
            || (c.key == n.key && InJournal(l.server.db.journal, c))
            || (c.key == n.key && step.CommitIngest? && step.i in l.server.ingests
                && l.server.ingests[step.i].Allocated? && c == l.server.ingests[step.i].command)
  {
    if step.Answered? && step.i == i && i in l.server.ingests && l.server.ingests[i].Holding? {
      assert Asks(l.server.ingests[i], n);
      AnswerIsInJournal(l.server.db.journal, l.server.ingests[i].request, limits);
    }
    if step.CommitIngest? && step.i == i && i in l.server.ingests {
      assert Asks(l.server.ingests[i], n);
    }
  }

  lemma ReceiptStays(before: seq<Entry>, after: seq<Entry>, c: Command, added: seq<Command>)
    requires Journal.Commands(after) == Journal.Commands(before) + added
    ensures InJournal(before, c) || c in added ==> InJournal(after, c)
  {
    if InJournal(before, c) {
      GrownHolds(before, after, c);
    } else if c in added {
      var k :| 0 <= k < |added| && added[k] == c;
      assert Journal.Commands(after)[|before| + k] == c;
    }
  }

  /** The commands that a step of the server adds to the journal: one at most. */
  function Added(s: Journal.State, step: Journal.Action): seq<Command> {
    if step.CommitIngest? && step.i in s.ingests && s.ingests[step.i].Allocated?
    then [s.ingests[step.i].command] else []
  }

  lemma ServerAdds(s: Journal.State, step: Journal.Action, limits: Journal.Limits)
    requires Journal.Inv(s, limits) && Journal.Enabled(s, step, limits)
    ensures Journal.Commands(Journal.After(s, step, limits).db.journal)
         == Journal.Commands(s.db.journal) + Added(s, step)
  {
    ServerGrows(s, step, limits);
  }

  lemma ServeKeepsReceipts(l: State, step: Journal.Action, n: Intent, limits: Journal.Limits,
                           journal: seq<Entry>, i: nat)
    requires AttemptsMatch(l, n) && OwnersMatch(l, n) && i in l.attempts
    requires Journal.Commands(journal) == Journal.Commands(l.server.db.journal) + Added(l.server, step)
    ensures NamesOwner(AfterServing(l, step, limits)[i], journal, n)
  {
    var a := AfterServing(l, step, limits)[i];
    if IsReceipt(a) {
      NewReceipts(l, step, n, limits, i);
      ReceiptStays(l.server.db.journal, journal, a.response.command, Added(l.server, step));
      assert NamesOwner(l.attempts[i], l.server.db.journal, n);
    }
  }

  lemma ServeKeepsMeaning(before: seq<Entry>, after: seq<Entry>, added: seq<Command>, n: Intent)
    requires Journal.Commands(after) == Journal.Commands(before) + added
    requires forall x | 0 <= x < |before| && before[x].command.key == n.key :: Means(before[x].command, n)
    requires forall k | 0 <= k < |added| && added[k].key == n.key :: Means(added[k], n)
    ensures forall x | 0 <= x < |after| && after[x].command.key == n.key :: Means(after[x].command, n)
  {
    forall x | 0 <= x < |after| && after[x].command.key == n.key ensures Means(after[x].command, n) {
      assert Journal.Commands(after)[x] == after[x].command;
      if x < |before| {
        assert Journal.Commands(before)[x] == before[x].command;
      } else {
        assert added[x - |before|] == after[x].command;
      }
    }
  }

  lemma AddedMeans(l: State, step: Journal.Action, n: Intent)
    requires AttemptsMatch(l, n)
    ensures forall k | 0 <= k < |Added(l.server, step)| && Added(l.server, step)[k].key == n.key ::
              Means(Added(l.server, step)[k], n)
  {
    if step.CommitIngest? && step.i in l.server.ingests && step.i in l.attempts {
      assert Asks(l.server.ingests[step.i], n);
    }
  }

  lemma ServeKeepsReceipt(l: State, step: Journal.Action, n: Intent, limits: Journal.Limits)
    requires AttemptsMatch(l, n) && MayOwn(l.attempts)
    ensures MayOwn(AfterServing(l, step, limits))
  {
    var i :| i in l.attempts && (IsReceipt(l.attempts[i]) || l.attempts[i].Broken?);
    OthersStay(l, step, limits, i);
  }

  /** The transaction that inserts the key answers its attempt with a receipt, unless that is broken. */
  lemma InsertionIsAnswered(l: State, step: Journal.Action, n: Intent, limits: Journal.Limits)
    requires AttemptsMatch(l, n) && step.CommitIngest? && step.i in l.server.ingests
    requires l.server.ingests[step.i].Allocated? && l.server.ingests[step.i].command.key == n.key
    ensures MayOwn(AfterServing(l, step, limits))
  {
    assert step.i in l.attempts;
    assert IsReceipt(AfterServing(l, step, limits)[step.i]) || AfterServing(l, step, limits)[step.i].Broken?;
  }

  lemma NewKeyIsAdded(before: seq<Entry>, after: seq<Entry>, added: seq<Command>, key: string)
    requires Journal.Commands(after) == Journal.Commands(before) + added
    requires !Journal.HasKey(before, key) && Journal.HasKey(after, key)
    ensures exists k | 0 <= k < |added| :: added[k].key == key
  {
    KeyInCommands(before, key);
    KeyInCommands(after, key);
    var x :| 0 <= x < |after| && Journal.Commands(after)[x].key == key;
    assert x >= |before| by {
      assert forall y | 0 <= y < |before| :: Journal.Commands(after)[y] == Journal.Commands(before)[y];
    }
    assert added[x - |before|].key == key;
  }

  lemma ServeKeepsOwner(l: State, step: Journal.Action, n: Intent, limits: Journal.Limits, journal: seq<Entry>)
    requires AttemptsMatch(l, n) && OwnersMatch(l, n)
    requires Journal.Commands(journal) == Journal.Commands(l.server.db.journal) + Added(l.server, step)
    requires Journal.HasKey(journal, n.key)
    ensures MayOwn(AfterServing(l, step, limits))
  {
    if Journal.HasKey(l.server.db.journal, n.key) {
      ServeKeepsReceipt(l, step, n, limits);
    } else {
      NewKeyIsAdded(l.server.db.journal, journal, Added(l.server, step), n.key);
      InsertionIsAnswered(l, step, n, limits);
    }
  }

  lemma ServingIsOwned(l: State, step: Journal.Action, n: Intent, limits: Journal.Limits, journal: seq<Entry>)
    requires AttemptsMatch(l, n) && OwnersMatch(l, n)
    requires Journal.Commands(journal) == Journal.Commands(l.server.db.journal) + Added(l.server, step)
    ensures Owned(AfterServing(l, step, limits), journal, n)
  {
    AddedMeans(l, step, n);
    ServeKeepsMeaning(l.server.db.journal, journal, Added(l.server, step), n);
    if Journal.HasKey(journal, n.key) {
      ServeKeepsOwner(l, step, n, limits, journal);
    }
    forall i | i in AfterServing(l, step, limits) ensures NamesOwner(AfterServing(l, step, limits)[i], journal, n) {
      ServeKeepsReceipts(l, step, n, limits, journal, i);
    }
  }

  lemma ServeKeepsOwners(l: State, step: Journal.Action, n: Intent, limits: Journal.Limits)
    requires Inv(l, n, limits) && Enabled(l, Serve(step), n, limits)
    ensures Owned(AfterServing(l, step, limits), Journal.After(l.server, step, limits).db.journal, n)
  {
    ServerAdds(l.server, step, limits);
    ServingIsOwned(l, step, n, limits, Journal.After(l.server, step, limits).db.journal);
  }

  lemma ServingMatchesView(l: State, l': State, step: Journal.Action, n: Intent, limits: Journal.Limits)
    requires AttemptsMatch(l, n) && ViewMatches(l, n)
    requires l'.view == l.view && l'.calling == l.calling && l'.attempts == AfterServing(l, step, limits)
    requires Grows(l.server.db.journal, l'.server.db.journal)
    ensures ViewMatches(l', n)
  {
    if l.view.receipt.Some? {
      GrownHolds(l.server.db.journal, l'.server.db.journal, l.view.receipt.value);
    } else if !l.view.ambiguous {
      forall i | i in l'.attempts ensures l'.calling == Some(i) || Refused(l'.attempts[i]) {
        if l.calling != Some(i) {
          OthersStay(l, step, limits, i);
        }
      }
    }
  }

  lemma ServeKeepsView(l: State, step: Journal.Action, n: Intent, limits: Journal.Limits)
    requires Inv(l, n, limits) && Enabled(l, Serve(step), n, limits)
    ensures ViewMatches(Step(l, Serve(step), n, limits), n)
  {
    ServerAdds(l.server, step, limits);
    ServingMatchesView(l, Step(l, Serve(step), n, limits), step, n, limits);
  }

  lemma ServerStepKeepsInv(s: Journal.State, a: Journal.Action, limits: Journal.Limits)
    requires Journal.Inv(s, limits) && Journal.Enabled(s, a, limits)
    ensures Journal.Inv(Journal.After(s, a, limits), limits)
  {
    assert Journal.Next(s, Journal.After(s, a, limits), limits);
    Journal.NextKeepsInv(s, Journal.After(s, a, limits), limits);
  }

  lemma ServeKeepsInv(l: State, step: Journal.Action, n: Intent, limits: Journal.Limits)
    requires Inv(l, n, limits) && Enabled(l, Serve(step), n, limits)
    ensures Inv(Step(l, Serve(step), n, limits), n, limits)
  {
    ServerStepKeepsInv(l.server, step, limits);
    ServeKeepsAttempts(l, step, n, limits);
    ServeKeepsOwners(l, step, n, limits);
    ServeKeepsView(l, step, n, limits);
  }

  // ---------------------------------------------------------------- what the other steps do

  /** Moving one attempt that has no reply yet touches no receipt. */
  lemma OwnersUnmoved(l: State, l': State, i: nat, a: Attempt, n: Intent)
    requires OwnersMatch(l, n) && l'.server.db.journal == l.server.db.journal
    requires l'.attempts == l.attempts[i := a] && !IsReceipt(a)
    requires i in l.attempts ==> (!l.attempts[i].Answered? && !l.attempts[i].Broken?) || a.Broken?
    ensures OwnersMatch(l', n)
  {
    if Journal.HasKey(l.server.db.journal, n.key) {
      var j :| j in l.attempts && (IsReceipt(l.attempts[j]) || l.attempts[j].Broken?);
      assert l'.attempts[j] == l.attempts[j] || (j == i && a.Broken?);
    }
  }

  lemma ReachKeepsAttempts(l: State, l': State, i: nat, request: Journal.Request, n: Intent)
    requires AttemptsMatch(l, n) && i in l.attempts && request == RequestOf(n, request.kind.orderId)
    requires l'.attempts == l.attempts[i := Working]
    requires l'.server.ingests == l.server.ingests[i := Journal.Waiting(request)]
    ensures AttemptsMatch(l', n)
  {
  }

  lemma ReachKeepsView(l: State, l': State, i: nat, n: Intent)
    requires ViewMatches(l, n) && i in l.attempts && l.attempts[i].Traveling?
    requires l'.attempts == l.attempts[i := Working] && l'.view == l.view && l'.calling == l.calling
    requires l'.server.db.journal == l.server.db.journal
    ensures ViewMatches(l', n)
  {
  }

  lemma ReachKeepsInv(l: State, i: nat, orderId: string, n: Intent, limits: Journal.Limits)
    requires Inv(l, n, limits) && Enabled(l, Reach(i, orderId), n, limits)
    ensures Inv(Step(l, Reach(i, orderId), n, limits), n, limits)
  {
    var l' := Step(l, Reach(i, orderId), n, limits);
    ServerStepKeepsInv(l.server, Journal.Arrive(i, RequestOf(n, orderId)), limits);
    OwnersUnmoved(l, l', i, Working, n);
    ReachKeepsAttempts(l, l', i, RequestOf(n, orderId), n);
    ReachKeepsView(l, l', i, n);
  }

  lemma SettleKeepsView(l: State, l': State, i: nat, a: Attempt, n: Intent)
    requires ViewMatches(l, n) && i in l.attempts && l.attempts[i].Traveling?
    requires l' == l.(attempts := l.attempts[i := a])
    ensures ViewMatches(l', n)
  {
  }

  lemma SettleKeepsAttempts(l: State, i: nat, a: Attempt, n: Intent)
    requires AttemptsMatch(l, n) && i in l.attempts && l.attempts[i].Traveling? && !a.Working? && !a.Broken?
    ensures AreTransactions(l.attempts[i := a], l.server.ingests, n)
  {
  }

  /** An attempt that never reached the server changes: it is answered on the way, or lost. */
  lemma SettleOnTheWay(l: State, i: nat, a: Attempt, n: Intent, limits: Journal.Limits)
    requires Inv(l, n, limits) && i in l.attempts && l.attempts[i].Traveling?
    requires a.Lost? || (a.Answered? && a.response.HttpError?)
    ensures Inv(l.(attempts := l.attempts[i := a]), n, limits)
  {
    OwnersUnmoved(l, l.(attempts := l.attempts[i := a]), i, a, n);
    SettleKeepsAttempts(l, i, a, n);
    SettleKeepsView(l, l.(attempts := l.attempts[i := a]), i, a, n);
  }

  lemma BreakKeepsAttempts(l: State, i: nat, error: Response, n: Intent)
    requires AttemptsMatch(l, n) && i in l.attempts && (l.attempts[i].Working? || IsReceipt(l.attempts[i]))
    requires error.HttpError? && !RefusesUpFront(error)
    ensures AreTransactions(l.attempts[i := Broken(error)], l.server.ingests, n)
  {
  }

  lemma BreakKeepsView(l: State, i: nat, error: Response, n: Intent)
    requires ViewMatches(l, n) && i in l.attempts && (l.attempts[i].Working? || IsReceipt(l.attempts[i]))
    ensures ViewMatches(l.(attempts := l.attempts[i := Broken(error)]), n)
  {
  }

  /** A reply is broken: whatever the attempt has done or still does stays done. */
  lemma BreakKeepsInv(l: State, i: nat, error: Response, n: Intent, limits: Journal.Limits)
    requires Inv(l, n, limits) && Enabled(l, Break(i, error), n, limits)
    ensures Inv(Step(l, Break(i, error), n, limits), n, limits)
  {
    OwnersUnmoved(l, Step(l, Break(i, error), n, limits), i, Broken(error), n);
    BreakKeepsAttempts(l, i, error, n);
    BreakKeepsView(l, i, error, n);
  }

  lemma SendKeepsInv(l: State, i: nat, n: Intent, limits: Journal.Limits)
    requires Inv(l, n, limits) && Enabled(l, Send(i), n, limits)
    ensures Inv(Step(l, Send(i), n, limits), n, limits)
  {
    OwnersUnmoved(l, Step(l, Send(i), n, limits), i, Traveling, n);
  }

  /** What a broken reply says is never taken for a refusal. */
  lemma BrokenIsAmbiguous(r: Response)
    requires !RefusesUpFront(r)
    ensures !Definite(r)
  {
  }

  lemma HearKeepsInv(l: State, n: Intent, limits: Journal.Limits)
    requires Inv(l, n, limits) && Enabled(l, Hear, n, limits)
    ensures Inv(Step(l, Hear, n, limits), n, limits)
  {
    var l' := Step(l, Hear, n, limits);
    if l.attempts[l.calling.value].Broken? {
      BrokenIsAmbiguous(l.attempts[l.calling.value].response);
    }
    assert OwnersMatch(l', n) && AttemptsMatch(l', n);
    assert ViewMatches(l', n);
  }

  lemma GiveUpKeepsInv(l: State, n: Intent, limits: Journal.Limits)
    requires Inv(l, n, limits) && Enabled(l, GiveUp, n, limits)
    ensures Inv(Step(l, GiveUp, n, limits), n, limits)
  {
    var l' := Step(l, GiveUp, n, limits);
    assert OwnersMatch(l', n) && AttemptsMatch(l', n);
    assert ViewMatches(l', n);
  }

  lemma NextKeepsInv(l: State, a: Action, n: Intent, limits: Journal.Limits)
    requires Inv(l, n, limits) && Enabled(l, a, n, limits)
    ensures Inv(Step(l, a, n, limits), n, limits)
  {
    match a
    case Send(i) => SendKeepsInv(l, i, n, limits);
    case Bounce(i, error) => SettleOnTheWay(l, i, Answered(error), n, limits);
    case Reach(i, orderId) => ReachKeepsInv(l, i, orderId, n, limits);
    case Vanish(i) => SettleOnTheWay(l, i, Lost, n, limits);
    case Break(i, error) => BreakKeepsInv(l, i, error, n, limits);
    case Serve(step) => ServeKeepsInv(l, step, n, limits);
    case Hear => HearKeepsInv(l, n, limits);
    case GiveUp => GiveUpKeepsInv(l, n, limits);
  }

  lemma StartInv(l: State, n: Intent, limits: Journal.Limits)
    requires IsStart(l, n, limits)
    ensures Inv(l, n, limits)
  {
  }

  lemma NextStateKeepsInv(l: State, l': State, n: Intent, limits: Journal.Limits)
    requires Inv(l, n, limits) && Next(l, l', n, limits)
    ensures Inv(l', n, limits)
  {
    var a :| Enabled(l, a, n, limits) && l' == Step(l, a, n, limits);
    NextKeepsInv(l, a, n, limits);
  }

  lemma {:induction false} RunKeepsInv(trace: seq<State>, n: Intent, limits: Journal.Limits, i: nat)
    requires IsRun(trace, n, limits) && i < |trace|
    ensures Inv(trace[i], n, limits)
  {
    if i == 0 {
      StartInv(trace[0], n, limits);
    } else {
      RunKeepsInv(trace, n, limits, i - 1);
      assert Next(trace[i - 1], trace[i - 1 + 1], n, limits);
      NextStateKeepsInv(trace[i - 1], trace[i], n, limits);
    }
  }

  // ---------------------------------------------------------------- what the retries guarantee

  /** However often the submission is sent and whatever is lost or late, at most one command ever
      carries its key, and it means what the submission means. */
  lemma AtMostOneCommand(trace: seq<State>, n: Intent, limits: Journal.Limits, i: nat, x: nat, y: nat)
    requires IsRun(trace, n, limits) && i < |trace|
    requires var journal := trace[i].server.db.journal;
             x < |journal| && y < |journal| && journal[x].command.key == n.key && journal[y].command.key == n.key
    ensures x == y
    ensures var c := trace[i].server.db.journal[x].command;
            && c.symbol == n.symbol && c.kind.SubmitOrder?
            && c.kind.side == n.side && c.kind.price == n.price && c.kind.quantity == n.quantity
  {
    RunKeepsInv(trace, n, limits, i);
    assert x < y || y < x || x == y;
  }

  /** A receipt names the one command. */
  lemma ReceiptIsTheCommand(trace: seq<State>, n: Intent, limits: Journal.Limits, i: nat, x: nat)
    requires IsRun(trace, n, limits) && i < |trace| && trace[i].view.receipt.Some?
    ensures Journal.HasKey(trace[i].server.db.journal, n.key)
    ensures var journal := trace[i].server.db.journal;
            x < |journal| && journal[x].command.key == n.key ==> journal[x].command == trace[i].view.receipt.value
  {
    RunKeepsInv(trace, n, limits, i);
    var journal := trace[i].server.db.journal;
    var y :| 0 <= y < |journal| && journal[y].command == trace[i].view.receipt.value;
    assert x < y || y < x || x == y;
  }

  /** A retry whose first attempt did create the command gets that command back, even when the
      queue is full: never a conflict, never a second command. */
  lemma RetryFindsTheCommand(trace: seq<State>, n: Intent, limits: Journal.Limits, t: nat, i: nat, x: nat)
    requires IsRun(trace, n, limits) && t < |trace| && i in trace[t].attempts && trace[t].attempts[i].Working?
    requires i in trace[t].server.ingests ==> trace[t].server.ingests[i].Holding?
    requires var journal := trace[t].server.db.journal; x < |journal| && journal[x].command.key == n.key
    ensures i in trace[t].server.ingests
    ensures AnswerOf(trace[t].server.db.journal, trace[t].server.ingests[i].request, limits)
         == Receipt(trace[t].server.db.journal[x].command)
  {
    RunKeepsInv(trace, n, limits, t);
    var journal, request := trace[t].server.db.journal, trace[t].server.ingests[i].request;
    assert Asks(trace[t].server.ingests[i], n);
    var found := Journal.FindKey(journal, n.key).value;
    var y :| 0 <= y < |journal| && journal[y].command == found && found.key == n.key;
    assert x < y || y < x || x == y;
    assert Means(journal[x].command, n);
  }

  /** Every attempt was definitely refused and none is under way. */
  ghost predicate Dead(l: State) {
    l.calling.None? && forall i | i in l.attempts :: Refused(l.attempts[i])
  }

  lemma StaysDead(l: State, a: Action, n: Intent, limits: Journal.Limits)
    requires Inv(l, n, limits) && Dead(l) && Enabled(l, a, n, limits) && !a.Send?
    ensures Dead(Step(l, a, n, limits))
  {
    if a.Serve? {
      forall i | i in l.attempts ensures AfterServing(l, a.step, limits)[i] == l.attempts[i] {
        OthersStay(l, a.step, limits, i);
      }
    }
  }

  ghost predicate QuietNext(l: State, l': State, n: Intent, limits: Journal.Limits) {
    exists a: Action :: !a.Send? && Enabled(l, a, n, limits) && l' == Step(l, a, n, limits)
  }

  lemma QuietStaysDead(l: State, l': State, n: Intent, limits: Journal.Limits)
    requires Inv(l, n, limits) && Dead(l) && QuietNext(l, l', n, limits)
    ensures Inv(l', n, limits) && Dead(l')
  {
    var a: Action :| !a.Send? && Enabled(l, a, n, limits) && l' == Step(l, a, n, limits);
    StaysDead(l, a, n, limits);
    NextKeepsInv(l, a, n, limits);
  }

  lemma DeadOwnsNothing(l: State, n: Intent, limits: Journal.Limits)
    requires Inv(l, n, limits) && Dead(l)
    ensures !Journal.HasKey(l.server.db.journal, n.key)
    ensures forall i | i in l.server.ingests :: KeyOf(l.server.ingests[i]) != n.key
  {
  }

  ghost predicate Safe(l: State, n: Intent, limits: Journal.Limits) {
    Inv(l, n, limits) && Dead(l)
  }

  lemma SilentEndIsDead(l: State, n: Intent, limits: Journal.Limits)
    requires Inv(l, n, limits) && EndsSilently(l.view) && l.calling.None?
    ensures Safe(l, n, limits)
  {
  }

  lemma EndOfRunIsSafe(trace: seq<State>, n: Intent, limits: Journal.Limits, i: nat)
    requires trace != [] && IsStart(trace[0], n, limits) && i < |trace|
    requires forall k | 0 <= k < i :: Next(trace[k], trace[k + 1], n, limits)
    requires EndsSilently(trace[i].view) && trace[i].calling.None?
    ensures Safe(trace[i], n, limits)
  {
    RunKeepsInv(trace[..i + 1], n, limits, i);
    SilentEndIsDead(trace[i], n, limits);
  }

  lemma SafeAlong(trace: seq<State>, n: Intent, limits: Journal.Limits, i: nat, j: nat)
    requires i <= j < |trace| && Safe(trace[i], n, limits)
    requires forall k | i <= k < j :: QuietNext(trace[k], trace[k + 1], n, limits)
    ensures Safe(trace[j], n, limits)
  {
    forall k | i <= k < j && Safe(trace[k], n, limits) ensures Safe(trace[k + 1], n, limits) {
      QuietStaysDead(trace[k], trace[k + 1], n, limits);
    }
    Along(trace, i, j, l => Safe(l, n, limits));
  }

  /** When the lesson ends without sending anything again, no attempt has created a command, none
      is under way, and as long as the submission is not sent again none ever will. */
  lemma SilentEndIsSafe(trace: seq<State>, n: Intent, limits: Journal.Limits, i: nat, j: nat)
    requires trace != [] && IsStart(trace[0], n, limits) && i <= j < |trace|
    requires forall k | 0 <= k < i :: Next(trace[k], trace[k + 1], n, limits)
    requires forall k | i <= k < j :: QuietNext(trace[k], trace[k + 1], n, limits)
    requires EndsSilently(trace[i].view) && trace[i].calling.None?
    ensures Inv(trace[j], n, limits) && Dead(trace[j])
    ensures !Journal.HasKey(trace[j].server.db.journal, n.key)
    ensures forall k | k in trace[j].server.ingests :: KeyOf(trace[j].server.ingests[k]) != n.key
  {
    EndOfRunIsSafe(trace, n, limits, i);
    SafeAlong(trace, n, limits, i, j);
    DeadOwnsNothing(trace[j], n, limits);
  }
}
