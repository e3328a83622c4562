/** Refunds of a paid order (app/domain/orders/refunds.py): requested, approved, then
    completed by hand and journalled. Amounts are counted in units of 10^-8.

    A session loads a refund, or adds up what is refunded, and commits later. No row is
    locked in between, so it may decide on a status that is no longer the stored one. */
module Refunds {
  import opened Totals
  import opened Wrappers

  type RefundId = nat
  type SessionId = nat

  datatype Status = Requested | Approved | Processing | Completed | Rejected

  datatype Refund = Refund(amount: int, status: Status)

  datatype RefundError = NothingLeft | NotPositive | TooMuch | WrongStatus | ReferenceMissing

  /** The refunds of one order, and the journal lines written for them. */
  datatype Book = Book(paid: int, refunds: map<RefundId, Refund>, journal: map<RefundId, int>)

  /** The refunds in the given statuses, by amount. */
  function In(refunds: map<RefundId, Refund>, statuses: set<Status>): map<RefundId, int> {
    map id | id in refunds && refunds[id].status in statuses :: refunds[id].amount
  }

  /** `refunded_total`: requested and approved refunds do not count. */
  ghost function RefundedTotal(book: Book): int {
    Total(In(book.refunds, {Completed, Processing}))
  }

  /** Refunds that can still be completed, or are. */
  ghost function Committed(book: Book): int {
    Total(In(book.refunds, {Requested, Approved, Processing, Completed}))
  }

  /** The money that has left, as the journal tells it. */
  ghost function Returned(book: Book): int {
    0 - Total(book.journal)
  }

  // ------------------------------------------------- single operations

  /** The checks of `request`, against what is refunded already. */
  function Ask(paid: int, already: int, amount: Option<int>): Result<int, RefundError> {
    var remaining := paid - already;
    var requested := if amount.Some? then amount.value else remaining;
    if remaining <= 0 then Failure(NothingLeft)
    else if requested <= 0 then Failure(NotPositive)
    else if requested > remaining then Failure(TooMuch)
    else Success(requested)
  }

  datatype Work = Approving | Rejecting | Completing(reference: string)

  /** The status `approve`, `reject` and `complete` give a refund, by the status they have
      loaded. Completing asks nothing about the payment any more. */
  function Target(loaded: Status, work: Work): Result<Status, RefundError> {
    match work
    case Approving => if loaded == Requested then Success(Approved) else Failure(WrongStatus)
    case Rejecting => if loaded in {Completed, Processing} then Failure(WrongStatus) else Success(Rejected)
    case Completing(reference) =>
      if loaded == Completed then Success(Completed)
      else if loaded !in {Approved, Processing} then Failure(WrongStatus)
      else if reference == "" then Failure(ReferenceMissing)
      else Success(Completed)
  }

  /** Only a status that differs from the loaded one is written, and a refund is journalled once. */
  function Write(book: Book, id: RefundId, loaded: Status, target: Status): Book
    requires id in book.refunds
  {
    if target == loaded then book
    else
      book.(refunds := book.refunds[id := book.refunds[id].(status := target)],
            journal := if target != Completed || id in book.journal then book.journal
                       else book.journal[id := 0 - book.refunds[id].amount])
  }

  function Change(book: Book, id: RefundId, loaded: Status, work: Work): Book
    requires id in book.refunds
  {
    match Target(loaded, work)
    case Success(target) => Write(book, id, loaded, target)
    case Failure(_) => book
  }

  // ---------------------------------------------------------------- runs

  /** What an open session goes by. */
  datatype Plan = Holding(id: RefundId, loaded: Status) | ToRequest(amount: int, already: int)

  datatype Desk = Desk(book: Book, open: map<SessionId, Plan>)

  datatype Step =
    | Load(s: SessionId, id: RefundId)
    | CommitChange(s: SessionId, work: Work)
    | Quote(s: SessionId, amount: Option<int>)
    | CommitRequest(s: SessionId, id: RefundId)

  ghost predicate Enabled(desk: Desk, step: Step) {
    match step
    case Load(s, id) => s !in desk.open && id in desk.book.refunds
    case CommitChange(s, _) => s in desk.open && desk.open[s].Holding? && desk.open[s].id in desk.book.refunds
    case Quote(s, _) => s !in desk.open
    case CommitRequest(s, id) => s in desk.open && desk.open[s].ToRequest? && id !in desk.book.refunds
  }

  ghost function Apply(desk: Desk, step: Step): Desk {
    if !Enabled(desk, step) then desk
    else
      match step
      case Load(s, id) => desk.(open := desk.open[s := Holding(id, desk.book.refunds[id].status)])
      case CommitChange(s, work) =>
        Desk(Change(desk.book, desk.open[s].id, desk.open[s].loaded, work), desk.open - {s})
      case Quote(s, amount) =>
        (match Ask(desk.book.paid, RefundedTotal(desk.book), amount)
         case Success(requested) => desk.(open := desk.open[s := ToRequest(requested, RefundedTotal(desk.book))])
         case Failure(_) => desk)
      case CommitRequest(s, id) =>
        Desk(desk.book.(refunds := desk.book.refunds[id := Refund(desk.open[s].amount, Requested)]), desk.open - {s})
  }

  /** A run of enabled steps, all of which are as `ok` demands. */
  ghost predicate Runs(ok: (Desk, Step) -> bool, desk: Desk, steps: seq<Step>)
    decreases |steps|
  {
    steps == [] || (Enabled(desk, steps[0]) && ok(desk, steps[0]) && Runs(ok, Apply(desk, steps[0]), steps[1..]))
  }

  ghost function After(desk: Desk, steps: seq<Step>): Desk
    decreases |steps|
  {
    if steps == [] then desk else After(Apply(desk, steps[0]), steps[1..])
  }

  ghost predicate AnyStep(desk: Desk, step: Step) {
    true
  }

  /** What the session goes by is still so when it commits. */
  ghost predicate Current(desk: Desk, step: Step) {
    Enabled(desk, step) ==>
      && (step.CommitChange? ==> desk.open[step.s].loaded == desk.book.refunds[desk.open[step.s].id].status)
      && (step.CommitRequest? ==> desk.open[step.s].already == RefundedTotal(desk.book))
  }

  ghost predicate CurrentNoRequest(desk: Desk, step: Step) {
    Current(desk, step) && !step.CommitRequest?
  }

  /** A request is made only when no other one waits to be completed. */
  ghost predicate OneAtATime(desk: Desk, step: Step) {
    step.CommitRequest? ==> In(desk.book.refunds, {Requested, Approved}) == map[]
  }

  ghost predicate CurrentOneAtATime(desk: Desk, step: Step) {
    Current(desk, step) && OneAtATime(desk, step)
  }

  // ------------------------------------------------- every interleaving

  /** Every line is for the exact amount of its refund, and a completed refund has one. */
  ghost predicate Lines(book: Book) {
    && (forall id :: id in book.journal ==> id in book.refunds && book.journal[id] == 0 - book.refunds[id].amount)
    && (forall id :: id in book.refunds && book.refunds[id].status == Completed ==> id in book.journal)
  }

  ghost predicate Extends(now: Book, before: Book) {
    && now.paid == before.paid
    && (forall id :: id in before.refunds ==> id in now.refunds && now.refunds[id].amount == before.refunds[id].amount)
    && (forall id :: id in before.journal ==> id in now.journal && now.journal[id] == before.journal[id])
  }

  lemma StepKeepsLines(desk: Desk, step: Step)
    requires Lines(desk.book)
    ensures Lines(Apply(desk, step).book) && Extends(Apply(desk, step).book, desk.book)
  {
  }

  /** In every run, however stale its sessions: a refund is journalled at most once, with
      its exact amount, a completed one certainly, and no line is ever altered. */
  lemma {:induction false} JournalIsForGood(desk: Desk, steps: seq<Step>)
    requires Runs(AnyStep, desk, steps) && Lines(desk.book)
    ensures Lines(After(desk, steps).book) && Extends(After(desk, steps).book, desk.book)
    decreases |steps|
  {
    if steps != [] {
      StepKeepsLines(desk, steps[0]);
      JournalIsForGood(Apply(desk, steps[0]), steps[1..]);
    }
  }

  // ------------------------------------- the journal and the statuses

  /** Amounts are positive, exactly the completed refunds are journalled, and what is
      about to be requested was left when it was quoted. */
  ghost predicate Sound(desk: Desk) {
    Exact(desk.book) && Positive(desk.book) && PlansFit(desk.open, desk.book.paid)
  }

  ghost predicate Positive(book: Book) {
    forall id :: id in book.refunds ==> book.refunds[id].amount > 0
  }

  ghost predicate PlansFit(open: map<SessionId, Plan>, paid: int) {
    forall s :: s in open && open[s].ToRequest? ==> 0 < open[s].amount <= paid - open[s].already
  }

  ghost predicate Exact(book: Book) {
    && book.journal.Keys == In(book.refunds, {Completed}).Keys
    && Lines(book)
  }

  /** The commit takes a completed refund back: it was loaded before it was completed. */
  ghost predicate Undoes(desk: Desk, step: Step) {
    && Enabled(desk, step) && step.CommitChange?
    && desk.book.refunds[desk.open[step.s].id].status == Completed
    && ((step.work == Approving && desk.open[step.s].loaded == Requested)
        || (step.work == Rejecting && desk.open[step.s].loaded in {Requested, Approved}))
  }

  /** A step keeps the journal equal to the completed refunds exactly when it does not
      approve or reject a refund that was completed since it was loaded. */
  lemma ExactUnlessUndone(desk: Desk, step: Step)
    requires Exact(desk.book)
    ensures Exact(Apply(desk, step).book) <==> !Undoes(desk, step)
  {
    var now := Apply(desk, step).book;
    StepKeepsLines(desk, step);
    assert In(desk.book.refunds, {Completed}).Keys == desk.book.journal.Keys;
    if Undoes(desk, step) {
      assert desk.open[step.s].id in now.journal && desk.open[step.s].id !in In(now.refunds, {Completed});
    } else {
      assert now.journal.Keys == In(now.refunds, {Completed}).Keys;
    }
  }

  lemma CurrentStepKeepsSound(desk: Desk, step: Step)
    requires Sound(desk) && Current(desk, step)
    ensures Sound(Apply(desk, step)) && Apply(desk, step).book.paid == desk.book.paid
  {
    ExactUnlessUndone(desk, step);
  }

  lemma {:induction false} Negated(refunds: map<RefundId, int>, journal: map<RefundId, int>)
    requires journal.Keys == refunds.Keys && forall id :: id in journal ==> journal[id] == 0 - refunds[id]
    ensures Total(journal) == 0 - Total(refunds)
    decreases |refunds|
  {
    if refunds == map[] {
      assert journal == map[];
    } else {
      var id :| id in refunds;
      TotalWithout(refunds, id);
      TotalWithout(journal, id);
      assert (journal - {id}).Keys == (refunds - {id}).Keys;
      Negated(refunds - {id}, journal - {id});
    }
  }

  lemma SplitByStatus(book: Book, some: set<Status>, others: set<Status>)
    requires some !! others && Positive(book)
    ensures Total(In(book.refunds, some + others)) == Total(In(book.refunds, some)) + Total(In(book.refunds, others))
    ensures 0 <= Total(In(book.refunds, some)) && 0 <= Total(In(book.refunds, others))
  {
    var a, b := In(book.refunds, some), In(book.refunds, others);
    assert In(book.refunds, some + others) == a + b;
    TotalOfUnion(a, b);
    TotalIsNonNegative(a);
    TotalIsNonNegative(b);
  }

  /** What the journal says was returned is what the completed refunds add up to. */
  lemma JournalTellsTheRefunds(desk: Desk)
    requires Sound(desk)
    ensures Returned(desk.book) == Total(In(desk.book.refunds, {Completed}))
    ensures 0 <= Returned(desk.book) <= RefundedTotal(desk.book) <= Committed(desk.book)
  {
    Negated(In(desk.book.refunds, {Completed}), desk.book.journal);
    SplitByStatus(desk.book, {Completed}, {Processing});
    assert {Completed} + {Processing} == {Completed, Processing};
    SplitByStatus(desk.book, {Completed, Processing}, {Requested, Approved});
    assert {Completed, Processing} + {Requested, Approved} == {Requested, Approved, Processing, Completed};
  }

  /** Only a request commits more: the other steps move a refund along or end it. */
  lemma CommittedChanges(desk: Desk, step: Step)
    requires Sound(desk) && Current(desk, step) && Enabled(desk, step)
    ensures Committed(Apply(desk, step).book)
         <= Committed(desk.book) + if step.CommitRequest? then desk.open[step.s].amount else 0
    ensures step.CommitRequest? ==> Committed(Apply(desk, step).book) == Committed(desk.book) + desk.open[step.s].amount
  {
    var live := {Requested, Approved, Processing, Completed};
    match step
    case Load(_, _) =>
    case Quote(_, _) =>
    case CommitRequest(s, id) =>
      var before := In(desk.book.refunds, live);
      assert In(Apply(desk, step).book.refunds, live) == before[id := desk.open[s].amount];
      TotalWith(before, id, desk.open[s].amount);
    case CommitChange(s, work) =>
      if work == Rejecting {
        RejectedIsGone(desk, s);
      } else {
        MovingKeepsCommitted(desk, s, work);
      }
  }

  lemma MovingKeepsCommitted(desk: Desk, s: SessionId, work: Work)
    requires Enabled(desk, CommitChange(s, work)) && Current(desk, CommitChange(s, work)) && work != Rejecting
    ensures Committed(Apply(desk, CommitChange(s, work)).book) == Committed(desk.book)
  {
    var live := {Requested, Approved, Processing, Completed};
    assert In(Apply(desk, CommitChange(s, work)).book.refunds, live) == In(desk.book.refunds, live);
  }

  lemma RejectedIsGone(desk: Desk, s: SessionId)
    requires Sound(desk) && Enabled(desk, CommitChange(s, Rejecting)) && Current(desk, CommitChange(s, Rejecting))
    ensures Committed(Apply(desk, CommitChange(s, Rejecting)).book) <= Committed(desk.book)
  {
    var live := {Requested, Approved, Processing, Completed};
    var id := desk.open[s].id;
    var before, after := In(desk.book.refunds, live), In(Apply(desk, CommitChange(s, Rejecting)).book.refunds, live);
    if Target(desk.open[s].loaded, Rejecting).Success? && id in before {
      assert after == before - {id};
      TotalWithout(before, id);
    } else {
      assert after == before;
    }
  }

  // ------------------------------------------------- what was asked for

  /** The amount a request names, or all that is left. */
  ghost function Asked(book: Book, amount: Option<int>): int {
    match amount
    case Some(asked) => asked
    case None => book.paid - RefundedTotal(book)
  }

  /** What the requests committed in a run asked for, all together. `asks` is what each
      session under way has asked for. */
  ghost function AskedIn(desk: Desk, steps: seq<Step>, asks: map<SessionId, int>): int
    decreases |steps|
  {
    if steps == [] then 0
    else
      var next := Apply(desk, steps[0]);
      match steps[0]
      case Quote(s, amount) => AskedIn(next, steps[1..], asks[s := Asked(desk.book, amount)])
      case CommitRequest(s, _) => (if s in asks then asks[s] else 0) + AskedIn(next, steps[1..], asks)
      case _ => AskedIn(next, steps[1..], asks)
  }

  function Amounts(refunds: map<RefundId, Refund>): map<RefundId, int> {
    map id | id in refunds :: refunds[id].amount
  }

  /** All refunds ever requested, whatever has become of them. */
  ghost function Filed(book: Book): int {
    Total(Amounts(book.refunds))
  }

  ghost predicate PlansAreAsked(open: map<SessionId, Plan>, asks: map<SessionId, int>) {
    forall s :: s in open && open[s].ToRequest? ==> s in asks && open[s].amount == asks[s]
  }

  lemma FiledChanges(desk: Desk, step: Step)
    requires Enabled(desk, step)
    ensures Filed(Apply(desk, step).book)
         == Filed(desk.book) + if step.CommitRequest? then desk.open[step.s].amount else 0
  {
    var before, after := Amounts(desk.book.refunds), Amounts(Apply(desk, step).book.refunds);
    if step.CommitRequest? {
      assert after == before[step.id := desk.open[step.s].amount];
      TotalWith(before, step.id, desk.open[step.s].amount);
    } else {
      assert after == before;
    }
  }

  /** In every run, with stale sessions too: the refunds on record add up to exactly what the
      sessions that requested them had asked for, in full or in part. */
  lemma {:induction false} RequestsAddUp(desk: Desk, steps: seq<Step>, asks: map<SessionId, int>)
    requires Runs(AnyStep, desk, steps) && PlansAreAsked(desk.open, asks)
    ensures Filed(After(desk, steps).book) == Filed(desk.book) + AskedIn(desk, steps, asks)
    decreases |steps|
  {
    if steps != [] {
      FiledChanges(desk, steps[0]);
      var now := match steps[0]
        case Quote(s, amount) => asks[s := Asked(desk.book, amount)]
        case _ => asks;
      RequestsAddUp(Apply(desk, steps[0]), steps[1..], now);
    }
  }

  // ------------------------------------------------ reaching a state

  ghost predicate Reaches(ok: (Desk, Step) -> bool, start: Desk, desk: Desk) {
    exists steps :: Runs(ok, start, steps) && After(start, steps) == desk
  }

  lemma ReachesItself(ok: (Desk, Step) -> bool, desk: Desk)
    ensures Reaches(ok, desk, desk)
  {
    assert Runs(ok, desk, []) && After(desk, []) == desk;
  }

  lemma {:induction false} RunThenStep(ok: (Desk, Step) -> bool, start: Desk, steps: seq<Step>, step: Step)
    requires Runs(ok, start, steps) && Enabled(After(start, steps), step) && ok(After(start, steps), step)
    ensures Runs(ok, start, steps + [step]) && After(start, steps + [step]) == Apply(After(start, steps), step)
    decreases |steps|
  {
    var run := steps + [step];
    if steps == [] {
      assert run[0] == step && run[1..] == [];
    } else {
      assert run[0] == steps[0] && run[1..] == steps[1..] + [step];
      RunThenStep(ok, Apply(start, steps[0]), steps[1..], step);
    }
  }

  lemma ReachNext(ok: (Desk, Step) -> bool, start: Desk, desk: Desk, step: Step)
    requires Reaches(ok, start, desk) && Enabled(desk, step) && ok(desk, step)
    ensures Reaches(ok, start, Apply(desk, step))
  {
    var steps :| Runs(ok, start, steps) && After(start, steps) == desk;
    RunThenStep(ok, start, steps, step);
  }

  /** A number no session has. */
  ghost function Above(sessions: set<SessionId>): (s: SessionId)
    ensures forall t :: t in sessions ==> t < s
    decreases sessions
  {
    if sessions == {} then 0
    else
      var t :| t in sessions;
      var rest := Above(sessions - {t});
      assert forall u :: u in sessions ==> u == t || u in sessions - {t};
      if t < rest then rest else t + 1
  }

  /** A session that loads and commits with nothing in between. */
  lemma ReachByChange(ok: (Desk, Step) -> bool, start: Desk, desk: Desk, s: SessionId, id: RefundId, work: Work)
    requires Reaches(ok, start, desk) && id in desk.book.refunds && s !in desk.open
    requires ok(desk, Load(s, id)) && ok(Apply(desk, Load(s, id)), CommitChange(s, work))
    ensures Reaches(ok, start, desk.(book := Change(desk.book, id, desk.book.refunds[id].status, work)))
  {
    var loaded := Apply(desk, Load(s, id));
    ReachNext(ok, start, desk, Load(s, id));
    ReachNext(ok, start, loaded, CommitChange(s, work));
    assert loaded.open - {s} == desk.open;
  }

  /** A request for everything, quoted and committed with nothing in between. */
  lemma ReachByRequest(ok: (Desk, Step) -> bool, start: Desk, desk: Desk, s: SessionId, id: RefundId)
    requires Reaches(ok, start, desk) && id !in desk.book.refunds && s !in desk.open
    requires RefundedTotal(desk.book) == 0 < desk.book.paid
    requires ok(desk, Quote(s, None)) && ok(Apply(desk, Quote(s, None)), CommitRequest(s, id))
    ensures Reaches(ok, start, desk.(book := Requesting(desk.book, id)))
  {
    var quoted := Apply(desk, Quote(s, None));
    ReachNext(ok, start, desk, Quote(s, None));
    assert quoted.open == desk.open[s := ToRequest(desk.book.paid, 0)];
    ReachNext(ok, start, quoted, CommitRequest(s, id));
    assert quoted.open - {s} == desk.open;
  }

  function Requesting(book: Book, id: RefundId): Book {
    book.(refunds := book.refunds[id := Refund(book.paid, Requested)])
  }

  // ------------------------------------------------------- main results

  lemma {:induction false} CommittedOnlyFalls(desk: Desk, steps: seq<Step>)
    requires Sound(desk) && Runs(CurrentNoRequest, desk, steps)
    ensures Sound(After(desk, steps)) && After(desk, steps).book.paid == desk.book.paid
    ensures Committed(After(desk, steps).book) <= Committed(desk.book)
    decreases |steps|
  {
    if steps != [] {
      CurrentStepKeepsSound(desk, steps[0]);
      CommittedChanges(desk, steps[0]);
      CommittedOnlyFalls(Apply(desk, steps[0]), steps[1..]);
    }
  }

  /** The refunds that are still to be completed. */
  function Open(book: Book): set<RefundId> {
    set id | id in book.refunds && book.refunds[id].status in {Requested, Approved, Processing}
  }

  function Waiting(book: Book): set<RefundId> {
    set id | id in book.refunds && book.refunds[id].status == Requested
  }

  /** The next thing to do about an open refund. */
  function NextWork(status: Status): Work {
    if status == Requested then Approving else Completing("sent")
  }

  lemma MovedOn(desk: Desk, id: RefundId)
    requires Sound(desk) && id in Open(desk.book)
    ensures var status := desk.book.refunds[id].status;
            var now := Moved(desk, id);
            && Sound(now) && Committed(now.book) == Committed(desk.book)
            && Open(now.book) == (if status == Requested then Open(desk.book) else Open(desk.book) - {id})
            && (status == Requested ==> Waiting(now.book) == Waiting(desk.book) - {id})
  {
    var target := if desk.book.refunds[id].status == Requested then Approved else Completed;
    var now := Moved(desk, id).book;
    MovedRows(desk, id, target);
    MovedCounts(desk.book, now, id, target);
    MovedLines(desk.book, now, id, target);
    MovedPositive(desk.book, now, id, target);
  }

  lemma MovedRows(desk: Desk, id: RefundId, target: Status)
    requires id in Open(desk.book) && Exact(desk.book)
    requires target == if desk.book.refunds[id].status == Requested then Approved else Completed
    ensures var book, now := desk.book, Moved(desk, id).book;
            && now.paid == book.paid && now.refunds == book.refunds[id := book.refunds[id].(status := target)]
            && now.journal == if target == Completed then book.journal[id := 0 - book.refunds[id].amount]
                              else book.journal
  {
    assert id !in In(desk.book.refunds, {Completed});
  }

  lemma MovedPositive(book: Book, now: Book, id: RefundId, target: Status)
    requires Positive(book) && id in book.refunds
    requires now.refunds == book.refunds[id := book.refunds[id].(status := target)]
    ensures Positive(now) && (target != Requested ==> Waiting(now) == Waiting(book) - {id})
  {
  }

  lemma MovedCounts(book: Book, now: Book, id: RefundId, target: Status)
    requires id in Open(book) && target in {Approved, Completed}
    requires now.refunds == book.refunds[id := book.refunds[id].(status := target)]
    ensures Committed(now) == Committed(book)
    ensures Open(now) == (if target == Completed then Open(book) - {id} else Open(book))
  {
    var live := {Requested, Approved, Processing, Completed};
    assert In(now.refunds, live) == In(book.refunds, live);
  }

  lemma MovedLines(book: Book, now: Book, id: RefundId, target: Status)
    requires Exact(book) && id in Open(book) && target in {Approved, Completed}
    requires now.refunds == book.refunds[id := book.refunds[id].(status := target)]
    requires now.journal == if target == Completed then book.journal[id := 0 - book.refunds[id].amount]
                            else book.journal
    ensures Exact(now)
  {
    var before, after := In(book.refunds, {Completed}), In(now.refunds, {Completed});
    assert id !in before;
    if target == Completed {
      assert after == before[id := book.refunds[id].amount];
    } else {
      assert after == before;
    }
  }

  /** Every open refund can be completed, one after another. */
  lemma {:induction false} AllCanBeSettled(start: Desk, desk: Desk) returns (done: Desk)
    requires Sound(desk) && Reaches(CurrentNoRequest, start, desk)
    ensures Reaches(CurrentNoRequest, start, done) && Sound(done) && Returned(done.book) == Committed(desk.book)
    decreases Open(desk.book), Waiting(desk.book)
  {
    if Open(desk.book) == {} {
      done := desk;
      AllAreCompleted(desk);
    } else {
      var id :| id in Open(desk.book);
      MovedOn(desk, id);
      ReachByNextWork(start, desk, id);
      done := AllCanBeSettled(start, Moved(desk, id));
    }
  }

  function Moved(desk: Desk, id: RefundId): Desk
    requires id in desk.book.refunds
  {
    var status := desk.book.refunds[id].status;
    desk.(book := Change(desk.book, id, status, NextWork(status)))
  }

  lemma ReachByNextWork(start: Desk, desk: Desk, id: RefundId)
    requires Reaches(CurrentNoRequest, start, desk) && id in desk.book.refunds
    ensures Reaches(CurrentNoRequest, start, Moved(desk, id))
  {
    var work := NextWork(desk.book.refunds[id].status);
    ReachByChange(CurrentNoRequest, start, desk, Above(desk.open.Keys), id, work);
  }

  lemma AllAreCompleted(desk: Desk)
    requires Sound(desk) && Open(desk.book) == {}
    ensures Returned(desk.book) == Committed(desk.book)
  {
    forall id | id in desk.book.refunds
      ensures desk.book.refunds[id].status in {Completed, Rejected}
    {
      assert id !in Open(desk.book);
    }
    assert In(desk.book.refunds, {Completed}) == In(desk.book.refunds, {Requested, Approved, Processing, Completed});
    JournalTellsTheRefunds(desk);
  }

  /** While no session is overtaken and nothing more is requested, the money returned
      stays within the payment exactly when what is requested and approved does so too,
      not only what is completed. */
  lemma ReturnsStayWithinPayment(desk: Desk)
    requires Sound(desk)
    ensures (forall steps :: Runs(CurrentNoRequest, desk, steps) ==>
               Returned(After(desk, steps).book) <= desk.book.paid)
       <==> Committed(desk.book) <= desk.book.paid
  {
    if Committed(desk.book) <= desk.book.paid {
      forall steps | Runs(CurrentNoRequest, desk, steps)
        ensures Returned(After(desk, steps).book) <= desk.book.paid
      {
        CommittedOnlyFalls(desk, steps);
        JournalTellsTheRefunds(After(desk, steps));
      }
    } else {
      ReachesItself(CurrentNoRequest, desk);
      var done := AllCanBeSettled(desk, desk);
      var steps :| Runs(CurrentNoRequest, desk, steps) && After(desk, steps) == done;
      assert Returned(After(desk, steps).book) > desk.book.paid;
    }
  }

  /** With requests made one at a time, and no session overtaken, no run returns more than
      was paid. */
  lemma {:induction false} OneAtATimeIsSafe(desk: Desk, steps: seq<Step>)
    requires Sound(desk) && Runs(CurrentOneAtATime, desk, steps) && Committed(desk.book) <= desk.book.paid
    ensures Returned(After(desk, steps).book) <= desk.book.paid
    decreases |steps|
  {
    if steps == [] {
      JournalTellsTheRefunds(desk);
    } else {
      CurrentStepKeepsSound(desk, steps[0]);
      CommittedChanges(desk, steps[0]);
      if steps[0].CommitRequest? {
        NothingWaits(desk);
      }
      OneAtATimeIsSafe(Apply(desk, steps[0]), steps[1..]);
    }
  }

  lemma NothingWaits(desk: Desk)
    requires In(desk.book.refunds, {Requested, Approved}) == map[]
    ensures Committed(desk.book) == RefundedTotal(desk.book)
  {
    forall id | id in desk.book.refunds
      ensures desk.book.refunds[id].status !in {Requested, Approved}
    {
      assert id !in In(desk.book.refunds, {Requested, Approved});
    }
    assert In(desk.book.refunds, {Requested, Approved, Processing, Completed})
        == In(desk.book.refunds, {Completed, Processing});
  }

  // ------------------------------------------------- what goes wrong

  function Empty(paid: int): Desk {
    Desk(Book(paid, map[], map[]), map[])
  }

  /** Two requests for everything are both accepted, by sessions that are not even
      overtaken, and both can be completed: twice the payment is returned. */
  lemma TwoFullRefunds(paid: int)
    requires paid > 0
    ensures exists steps :: Runs(Current, Empty(paid), steps) && Returned(After(Empty(paid), steps).book) == 2 * paid
  {
    var start := Empty(paid);
    var twice := Desk(Book(paid, map[1 := Refund(paid, Requested), 2 := Refund(paid, Requested)], map[]), map[]);
    BothAreAccepted(paid, twice);
    var more := BothAreCompleted(paid, twice);
    var first :| Runs(Current, start, first) && After(start, first) == twice;
    OneRunAfterAnother(start, first, more);
  }

  lemma BothAreCompleted(paid: int, twice: Desk) returns (steps: seq<Step>)
    requires paid > 0
    requires twice == Desk(Book(paid, map[1 := Refund(paid, Requested), 2 := Refund(paid, Requested)], map[]), map[])
    ensures Runs(CurrentNoRequest, twice, steps) && Returned(After(twice, steps).book) == 2 * paid
  {
    BothAreCommitted(paid, twice.book);
    assert In(twice.book.refunds, {Completed}) == map[];
    ReachesItself(CurrentNoRequest, twice);
    var done := AllCanBeSettled(twice, twice);
    steps :| Runs(CurrentNoRequest, twice, steps) && After(twice, steps) == done;
  }

  lemma BothAreAccepted(paid: int, twice: Desk)
    requires paid > 0
    requires twice == Desk(Book(paid, map[1 := Refund(paid, Requested), 2 := Refund(paid, Requested)], map[]), map[])
    ensures Reaches(Current, Empty(paid), twice)
  {
    var start := Empty(paid);
    var once := Desk(Book(paid, map[1 := Refund(paid, Requested)], map[]), map[]);
    ReachesItself(Current, start);
    assert In(start.book.refunds, {Completed, Processing}) == map[];
    assert In(once.book.refunds, {Completed, Processing}) == map[];
    ReachByRequest(Current, start, start, 0, 1);
    assert start.(book := Requesting(start.book, 1)) == once;
    ReachByRequest(Current, start, once, 0, 2);
    assert once.(book := Requesting(once.book, 2)) == twice;
  }

  lemma BothAreCommitted(paid: int, twice: Book)
    requires twice.refunds == map[1 := Refund(paid, Requested), 2 := Refund(paid, Requested)]
    ensures Committed(twice) == 2 * paid
  {
    var none: map<RefundId, int> := map[];
    TotalWith(none, 1, paid);
    TotalWith(none[1 := paid], 2, paid);
    assert In(twice.refunds, {Requested, Approved, Processing, Completed}) == none[1 := paid][2 := paid];
  }

  lemma {:induction false} OneRunAfterAnother(desk: Desk, first: seq<Step>, second: seq<Step>)
    requires Runs(Current, desk, first) && Runs(CurrentNoRequest, After(desk, first), second)
    ensures Runs(Current, desk, first + second) && After(desk, first + second) == After(After(desk, first), second)
    decreases |first| + |second|
  {
    if first != [] {
      assert (first + second)[0] == first[0] && (first + second)[1..] == first[1..] + second;
      OneRunAfterAnother(Apply(desk, first[0]), first[1..], second);
    } else if second != [] {
      assert first + second == second;
      OneRunAfterAnother(Apply(desk, second[0]), [], second[1..]);
      assert [] + second[1..] == second[1..];
    }
  }

  /** A rejection that loaded the refund before it was completed takes it out of the
      refunded total. Everything can then be requested and returned once more, although
      no two requests ever waited together. */
  lemma StaleRejectionPaysTwice(paid: int)
    requires paid > 0
    ensures exists steps :: Runs(OneAtATime, Empty(paid), steps) && Returned(After(Empty(paid), steps).book) == 2 * paid
  {
    var start := Empty(paid);
    RejectedAfterPayment(paid);
    var again := Desk(Book(paid, map[1 := Refund(paid, Rejected)], map[1 := 0 - paid]), map[]);
    assert In(again.book.refunds, {Completed, Processing}) == map[];
    assert In(again.book.refunds, {Requested, Approved}) == map[];
    ReachByRequest(OneAtATime, start, again, 0, 2);
    var second := again.(book := Requesting(again.book, 2));
    ReachByChange(OneAtATime, start, second, 0, 2, Approving);
    var approved := second.(book := Change(second.book, 2, Requested, Approving));
    ReachByChange(OneAtATime, start, approved, 0, 2, Completing("sent"));
    var done := approved.(book := Change(approved.book, 2, Approved, Completing("sent")));
    TwoLines(paid, done.book.journal);
    var steps :| Runs(OneAtATime, start, steps) && After(start, steps) == done;
  }

  lemma TwoLines(paid: int, journal: map<RefundId, int>)
    requires journal == map[1 := 0 - paid, 2 := 0 - paid]
    ensures Total(journal) == 0 - 2 * paid
  {
    var none: map<RefundId, int> := map[];
    TotalWith(none, 1, 0 - paid);
    TotalWith(none[1 := 0 - paid], 2, 0 - paid);
    assert journal == none[1 := 0 - paid][2 := 0 - paid];
  }

  /** The first refund, approved, and loaded so by session 7. */
  lemma ApprovedIsLoaded(paid: int)
    requires paid > 0
    ensures Reaches(OneAtATime, Empty(paid),
                    Desk(Book(paid, map[1 := Refund(paid, Approved)], map[]), map[7 := Holding(1, Approved)]))
  {
    var start := Empty(paid);
    ApprovedIsReached(paid);
    var approved := Desk(Book(paid, map[1 := Refund(paid, Approved)], map[]), map[]);
    ReachNext(OneAtATime, start, approved, Load(7, 1));
    assert Apply(approved, Load(7, 1)).open == map[7 := Holding(1, Approved)];
  }

  lemma ApprovedIsReached(paid: int)
    requires paid > 0
    ensures Reaches(OneAtATime, Empty(paid), Desk(Book(paid, map[1 := Refund(paid, Approved)], map[]), map[]))
  {
    var start := Empty(paid);
    ReachesItself(OneAtATime, start);
    assert In(start.book.refunds, {Completed, Processing}) == map[];
    assert In(start.book.refunds, {Requested, Approved}) == map[];
    ReachByRequest(OneAtATime, start, start, 0, 1);
    var asked := start.(book := Requesting(start.book, 1));
    ReachByChange(OneAtATime, start, asked, 0, 1, Approving);
    assert Change(asked.book, 1, Requested, Approving).refunds == map[1 := Refund(paid, Approved)];
  }

  /** It is completed and journalled, and then rejected by session 7. */
  lemma RejectedAfterPayment(paid: int)
    requires paid > 0
    ensures Reaches(OneAtATime, Empty(paid),
                    Desk(Book(paid, map[1 := Refund(paid, Rejected)], map[1 := 0 - paid]), map[]))
  {
    var start := Empty(paid);
    CompletedIsHeld(paid);
    var paidOut := Desk(Book(paid, map[1 := Refund(paid, Completed)], map[1 := 0 - paid]),
                        map[7 := Holding(1, Approved)]);
    ReachNext(OneAtATime, start, paidOut, CommitChange(7, Rejecting));
    assert Apply(paidOut, CommitChange(7, Rejecting)).book.refunds == map[1 := Refund(paid, Rejected)];
    assert Apply(paidOut, CommitChange(7, Rejecting)).open == map[];
  }

  lemma CompletedIsHeld(paid: int)
    requires paid > 0
    ensures Reaches(OneAtATime, Empty(paid),
                    Desk(Book(paid, map[1 := Refund(paid, Completed)], map[1 := 0 - paid]),
                         map[7 := Holding(1, Approved)]))
  {
    ApprovedIsLoaded(paid);
    var held := Desk(Book(paid, map[1 := Refund(paid, Approved)], map[]), map[7 := Holding(1, Approved)]);
    ReachByChange(OneAtATime, Empty(paid), held, 0, 1, Completing("sent"));
    assert Change(held.book, 1, Approved, Completing("sent")).refunds == map[1 := Refund(paid, Completed)];
  }

  // ----------------------------------------------------------- the service

  /** The refunds of one order as the service works on them, one session at a time. */
  class RefundDesk {
    const paid: int
    var refunds: map<RefundId, Refund>
    var journal: map<RefundId, int>

    ghost function Now(): Book
      reads this
    {
      Book(paid, refunds, journal)
    }

    constructor (paid: int)
      ensures Now() == Empty(paid).book
    {
      this.paid, refunds, journal := paid, map[], map[];
    }

    /** `refunded_total`, added up row by row. */
    method AddUpRefunded() returns (total: int)
      ensures total == RefundedTotal(Now())
    {
      var rows := In(refunds, {Completed, Processing});
      ghost var all := rows;
      total := 0;
      while rows != map[]
        invariant total + Total(rows) == Total(all)
        decreases |rows|
      {
        var id :| id in rows;
        TotalWithout(rows, id);
        total := total + rows[id];
        rows := rows - {id};
      }
    }

    /** The checks of `request`. */
    method QuoteRefund(amount: Option<int>) returns (outcome: Result<int, RefundError>)
      ensures outcome == Ask(paid, RefundedTotal(Now()), amount)
      ensures var left := paid - RefundedTotal(Now());
              match amount
              case Some(asked) =>
                && (outcome == Success(asked) <==> 0 < asked <= left) && (outcome.Success? ==> outcome.value == asked)
                && (outcome == Failure(TooMuch) <==> 0 < left < asked)
                && (outcome == Failure(NotPositive) <==> asked <= 0 < left)
              case None => outcome == if left > 0 then Success(left) else Failure(NothingLeft)
    {
      var already := AddUpRefunded();
      var remaining := paid - already;
      if remaining <= 0 {
        return Failure(NothingLeft);
      }
      var requested := if amount.Some? then amount.value else remaining;
      if requested <= 0 {
        return Failure(NotPositive);
      }
      if requested > remaining {
        return Failure(TooMuch);
      }
      return Success(requested);
    }

    method ApproveRefund(id: RefundId, loaded: Status) returns (ok: bool)
      requires id in refunds
      modifies this`refunds
      ensures Now() == Change(old(Now()), id, loaded, Approving)
      ensures ok <==> loaded == Requested
      ensures refunds == if ok then old(refunds)[id := Refund(old(refunds[id]).amount, Approved)] else old(refunds)
    {
      if loaded != Requested {
        return false;
      }
      refunds := refunds[id := refunds[id].(status := Approved)];
      return true;
    }

    method RejectRefund(id: RefundId, loaded: Status) returns (ok: bool)
      requires id in refunds
      modifies this`refunds
      ensures Now() == Change(old(Now()), id, loaded, Rejecting)
      ensures ok <==> loaded !in {Completed, Processing}
      ensures refunds == if ok && loaded != Rejected then old(refunds)[id := Refund(old(refunds[id]).amount, Rejected)]
                         else old(refunds)
    {
      if loaded in {Completed, Processing} {
        return false;
      }
      if loaded != Rejected {
        refunds := refunds[id := refunds[id].(status := Rejected)];
      }
      return true;
    }

    /** The status first, then the journal line, once per refund. */
    method CompleteRefund(id: RefundId, loaded: Status, reference: string) returns (ok: bool)
      requires id in refunds
      modifies this`refunds, this`journal
      ensures Now() == Change(old(Now()), id, loaded, Completing(reference))
      ensures ok <==> loaded == Completed || (loaded in {Approved, Processing} && reference != "")
      ensures refunds == if ok && loaded != Completed
                         then old(refunds)[id := Refund(old(refunds[id]).amount, Completed)] else old(refunds)
      ensures journal == if ok && loaded != Completed && id !in old(journal)
                         then old(journal)[id := 0 - old(refunds[id]).amount] else old(journal)
    {
      if loaded == Completed {
        return true;
      }
      if loaded !in {Approved, Processing} || reference == "" {
        return false;
      }
      refunds := refunds[id := refunds[id].(status := Completed)];
      if id !in journal {
        journal := journal[id := 0 - refunds[id].amount];
      }
      return true;
    }
  }
}
