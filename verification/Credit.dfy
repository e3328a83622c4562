/** How an observed transfer becomes credited money: the verification passes, the
    claim on a transfer and the journal (app/domain/payments/service.py, with the
    claim and journal tables of app/db/repositories).

    A pass loads an intent with its order, talks to a provider, and later writes and
    commits. No row is locked in between, so what it decides on may be stale; only the
    unique constraints see the rows of the other passes. */
module Credit {
  import opened Sets
  import opened Wrappers
  import opened Decimals
  import opened Money
  import opened Lifecycle
  import opened Verification

  type IntentId = nat
  type OrderId = nat
  type PassId = nat

  /** The judgement of one transfer; `verify_transaction` under the policy of the shop. */
  type Engine = (Expectation, Observed) -> Result<Decision, MoneyError>

  datatype Intent = Intent(order: OrderId, status: PaymentStatus, expectation: Expectation, received: Option<Decimal>)

  /** A row of payment_consumptions; its fingerprint is the key of the table. */
  datatype Claim = Claim(intent: IntentId, order: OrderId, tx: Observed)

  /** The dedupe keys of the journal. */
  datatype Entry = CreditOf(intent: IntentId) | ApprovalOf(intent: IntentId)

  /** What a session has loaded: an intent with its order, and whether the order holds a
      claim of another intent. */
  datatype Loaded = Loaded(
    intent: IntentId, payment: PaymentStatus, order: OrderStatus, received: Option<Decimal>, taken: bool)

  datatype Books = Books(intents: map<IntentId, Intent>, orders: map<OrderId, OrderStatus>,
                         claims: map<Transfer, Claim>, journal: map<Entry, Decimal>)

  // ------------------------------------------------- single operations

  /** Only a status that differs from the loaded one is written back. */
  function SetPayment(books: Books, loaded: Loaded, target: PaymentStatus): Books
    requires loaded.intent in books.intents
  {
    if target == loaded.payment then books
    else books.(intents := books.intents[loaded.intent := books.intents[loaded.intent].(status := target)])
  }

  function SetOrder(books: Books, loaded: Loaded, target: OrderStatus): Books
    requires loaded.intent in books.intents
  {
    if target == loaded.order then books
    else books.(orders := books.orders[books.intents[loaded.intent].order := target])
  }

  function SetReceived(books: Books, intent: IntentId, amount: Decimal): Books
    requires intent in books.intents
  {
    books.(intents := books.intents[intent := books.intents[intent].(received := Some(amount))])
  }

  /** `record`: the first entry of a key stays. */
  function Journal(journal: map<Entry, Decimal>, key: Entry, amount: Decimal): map<Entry, Decimal> {
    if key in journal then journal else journal[key := amount]
  }

  /** Some transfer is claimed for the intent. */
  predicate HasClaim(claims: map<Transfer, Claim>, intent: IntentId) {
    exists t :: t in claims && claims[t].intent == intent
  }

  /** `claim`: refused when the transfer is claimed, by whomever, and also when the
      intent has claimed another transfer. */
  function InsertClaim(books: Books, intent: IntentId, tx: Observed): Books
    requires intent in books.intents
  {
    if tx.transfer in books.claims || HasClaim(books.claims, intent) then books
    else books.(claims := books.claims[tx.transfer := Claim(intent, books.intents[intent].order, tx)])
  }

  /** Whether `_claim` reports success: a claim the same intent already holds is a retry. */
  predicate Holds(books: Books, intent: IntentId, tx: Observed) {
    tx.transfer in books.claims && books.claims[tx.transfer].intent == intent
  }

  /** `received_amount or expected_amount`: zero counts as nothing received. */
  function Credited(received: Option<Decimal>, expectation: Expectation): Decimal {
    if received.Some? && received.value.digits != 0 then received.value else expectation.expectedAmount
  }

  /** `_mark_verified`: refused when the loaded payment has no way to VERIFIED or the
      loaded order may not become paid. */
  predicate MayVerify(loaded: Loaded) {
    CanReach(loaded.payment, Verified) && OrderStepAllowed(loaded.order, PaymentVerified)
  }

  function MarkVerified(books: Books, loaded: Loaded, received: Option<Decimal>): Books
    requires loaded.intent in books.intents
  {
    var amount := Credited(received, books.intents[loaded.intent].expectation);
    var paid := SetOrder(SetPayment(books, loaded, Verified), loaded, PaymentVerified);
    paid.(journal := Journal(paid.journal, CreditOf(loaded.intent), amount))
  }

  /** `_to_review`: the order follows when it can; when it cannot, only a warning is logged. */
  function ToReview(books: Books, loaded: Loaded): Books
    requires loaded.intent in books.intents
  {
    var reviewed := SetPayment(books, loaded, UnderReview);
    if loaded.order.IsPaid() || loaded.order.IsTerminal() || !OrderStepAllowed(loaded.order, ManualReview) then reviewed
    else SetOrder(reviewed, loaded, ManualReview)
  }

  // ------------------------------------------------------------ one pass

  /** What the provider showed: a transfer with its judgement, or none at all. */
  ghost predicate Offered(engine: Engine, expectation: Expectation, choice: Choice) {
    match choice.tx
    case Some(tx) => engine(expectation, tx) == Success(choice.decision)
    case None => choice.decision.outcome in {NotFound, Unsupported, ProviderError}
  }

  /** The clock and the attempt counter of a pass. */
  datatype Limits = Limits(expired: bool, exhausted: bool)

  /** The status the outcome asks for, `None` for no change. */
  function TargetOf(outcome: Outcome, limits: Limits): Option<PaymentStatus> {
    if outcome == VerifiedOutcome then Some(Verified)
    else if outcome == PendingConfirmations then Some(PendingConfirmation)
    else if outcome == NotFound then
      Some(if limits.expired then Expired else if limits.exhausted then UnderReview else Detecting)
    else if outcome == ProviderError then if limits.exhausted then Some(UnderReview) else None
    else if outcome.NeedsReview() then Some(UnderReview)
    else Some(Failed)
  }

  /** A pass starts by moving a waiting payment to DETECTING. */
  function Started(payment: PaymentStatus): PaymentStatus {
    if payment in {Submitted, AwaitingPayment} then Detecting else payment
  }

  /** Whether the guards let a started pass move the payment. Going back to DETECTING is a
      single guarded step, everything else walks a canonical path. */
  predicate MayMove(loaded: Loaded, target: PaymentStatus) {
    var started := Started(loaded.payment);
    if target == Verified then MayVerify(loaded.(payment := started))
    else if target == Detecting then PaymentStepAllowed(started, Detecting)
    else CanReach(started, target)
  }

  function Move(books: Books, loaded: Loaded, target: PaymentStatus, received: Option<Decimal>): Books
    requires loaded.intent in books.intents
  {
    if target == Verified then MarkVerified(books, loaded, received)
    else if target == UnderReview then ToReview(books, loaded)
    else SetPayment(books, loaded, target)
  }

  /** Whether the guards let the pass finish. */
  predicate MayFinish(loaded: Loaded, outcome: Outcome, limits: Limits) {
    match TargetOf(outcome, limits)
    case None => true
    case Some(target) => MayMove(loaded, target)
  }

  function Finish(books: Books, loaded: Loaded, outcome: Outcome, limits: Limits, received: Option<Decimal>): Books
    requires loaded.intent in books.intents
  {
    match TargetOf(outcome, limits)
    case None => SetPayment(books, loaded, Started(loaded.payment))
    case Some(target) => Move(books, loaded, target, received)
  }

  /** The books once the pass has tried to claim the transfer it would credit. */
  function Claimed(books: Books, intent: IntentId, choice: Choice): Books
    requires intent in books.intents
  {
    if choice.decision.outcome == VerifiedOutcome && choice.tx.Some? then InsertClaim(books, intent, choice.tx.value)
    else books
  }

  /** A verified transfer the intent could not claim is a duplicate. */
  function OutcomeOfClaim(books: Books, intent: IntentId, choice: Choice): Outcome
    requires intent in books.intents
  {
    if choice.decision.outcome == VerifiedOutcome && choice.tx.Some?
       && !Holds(Claimed(books, intent, choice), intent, choice.tx.value) then Duplicate
    else choice.decision.outcome
  }

  function Noted(books: Books, intent: IntentId, tx: Option<Observed>): Books
    requires intent in books.intents
  {
    if tx.Some? then SetReceived(books, intent, tx.value.Amount()) else books
  }

  /** What a pass leaves behind once committed: the books unchanged when the payment was
      loaded as verified, or when a guard raised and everything was rolled back. */
  function Verify(books: Books, loaded: Loaded, choice: Choice, limits: Limits): Books
    requires loaded.intent in books.intents
  {
    if loaded.payment == Verified then books
    else
      var outcome := OutcomeOfClaim(books, loaded.intent, choice);
      var noted := Noted(Claimed(books, loaded.intent, choice), loaded.intent, choice.tx);
      var received := if choice.tx.Some? then Some(choice.tx.value.Amount()) else loaded.received;
      if MayFinish(loaded, outcome, limits) then Finish(noted, loaded, outcome, limits, received) else books
  }

  // ------------------------------------------------------------- by hand

  /** The order holds a claim of another intent. */
  predicate OrderClaimedByOther(books: Books, intent: IntentId)
    requires intent in books.intents
  {
    exists t :: t in books.claims
                && books.claims[t].order == books.intents[intent].order && books.claims[t].intent != intent
  }

  predicate Approvable(payment: PaymentStatus) {
    payment in {UnderReview, Failed, Expired, PendingConfirmation, Detected}
  }

  /** `approve_manually`, by the claims of the order as they were read. */
  function Approve(books: Books, loaded: Loaded): Books
    requires loaded.intent in books.intents
  {
    if Approvable(loaded.payment) && !loaded.taken && MayVerify(loaded) then
      var credited := MarkVerified(books, loaded, loaded.received);
      credited.(journal := Journal(credited.journal, ApprovalOf(loaded.intent), Decimal(false, 0, 0)))
    else books
  }

  /** `reject_manually`. */
  function Reject(books: Books, loaded: Loaded): Books
    requires loaded.intent in books.intents
  {
    if loaded.payment != Verified && CanReach(loaded.payment, Failed) then SetPayment(books, loaded, Failed) else books
  }

  /** `submit_payment`. */
  function Submit(books: Books, loaded: Loaded): Books
    requires loaded.intent in books.intents
  {
    if loaded.payment.IsOpen() && PaymentStepAllowed(loaded.payment, Submitted) then
      SetPayment(books, loaded, Submitted)
    else books
  }

  /** `expire_due`, for one of the intents it selects. */
  function ExpireDue(books: Books, loaded: Loaded): Books
    requires loaded.intent in books.intents
  {
    if loaded.payment in {Created, AwaitingPayment, Submitted, Detecting} then
      SetPayment(books, loaded, Expired)
    else books
  }

  // ----------------------------------------------------------- new intents

  function AddIntent(books: Books, intent: IntentId, order: OrderId, expectation: Expectation): Books {
    books.(intents := books.intents[intent := Intent(order, AwaitingPayment, expectation, None)])
  }

  /** `create_intent` for an order that, when looked at, had an open intent: that one is
      cancelled by the status it was loaded with, and a new one added. */
  function Replace(books: Books, loaded: Loaded, next: IntentId, expectation: Expectation): Books
    requires loaded.intent in books.intents
  {
    if loaded.order.IsPaid() || !loaded.payment.IsOpen() || !PaymentStepAllowed(loaded.payment, Cancelled) then books
    else AddIntent(SetPayment(books, loaded, Cancelled), next, books.intents[loaded.intent].order, expectation)
  }

  // ---------------------------------------------------------------- runs

  datatype Work =
    | Checking(choice: Choice, limits: Limits)
    | Approving
    | Rejecting
    | Submitting
    | Lapsing
    | Replacing(next: IntentId, expectation: Expectation)

  datatype Step =
    | OpenOrder(order: OrderId)
    | OpenIntent(intent: IntentId, order: OrderId, expectation: Expectation)
    | Load(pass: PassId, intent: IntentId)
    | Commit(pass: PassId, work: Work)
    | MoveOrder(order: OrderId, status: OrderStatus)

  datatype World = World(books: Books, passes: map<PassId, Loaded>)

  const EMPTY: World := World(Books(map[], map[], map[], map[]), map[])

  function Do(books: Books, loaded: Loaded, work: Work): Books
    requires loaded.intent in books.intents
  {
    match work
    case Checking(choice, limits) => Verify(books, loaded, choice, limits)
    case Approving => Approve(books, loaded)
    case Rejecting => Reject(books, loaded)
    case Submitting => Submit(books, loaded)
    case Lapsing => ExpireDue(books, loaded)
    case Replacing(next, expectation) => Replace(books, loaded, next, expectation)
  }

  /** Steps of other services may move an order anywhere, and an intent may be opened
      whatever the order has become since it was looked at: nothing below relies on either. */
  ghost predicate Enabled(engine: Engine, world: World, step: Step) {
    match step
    case OpenOrder(order) => order !in world.books.orders
    case OpenIntent(intent, order, _) => intent !in world.books.intents && order in world.books.orders
    case Load(pass, intent) =>
      pass !in world.passes && intent in world.books.intents && world.books.intents[intent].order in world.books.orders
    case Commit(pass, work) =>
      && pass in world.passes && world.passes[pass].intent in world.books.intents
      && (work.Checking? ==>
            Offered(engine, world.books.intents[world.passes[pass].intent].expectation, work.choice))
      && (work.Replacing? ==> work.next !in world.books.intents)
    case MoveOrder(order, _) => order in world.books.orders
  }

  function LoadedNow(books: Books, intent: IntentId): Loaded
    requires intent in books.intents && books.intents[intent].order in books.orders
  {
    var row := books.intents[intent];
    Loaded(intent, row.status, books.orders[row.order], row.received, OrderClaimedByOther(books, intent))
  }

  function Apply(engine: Engine, world: World, step: Step): World
    requires Enabled(engine, world, step)
  {
    match step
    case OpenOrder(order) => world.(books := world.books.(orders := world.books.orders[order := OrderCreated]))
    case OpenIntent(intent, order, expectation) =>
      world.(books := AddIntent(world.books, intent, order, expectation))
    case Load(pass, intent) => world.(passes := world.passes[pass := LoadedNow(world.books, intent)])
    case Commit(pass, work) =>
      World(Do(world.books, world.passes[pass], work), world.passes - {pass})
    case MoveOrder(order, status) => world.(books := world.books.(orders := world.books.orders[order := status]))
  }

  ghost predicate Legal(engine: Engine, world: World, steps: seq<Step>)
    decreases |steps|
  {
    steps == [] || (Enabled(engine, world, steps[0]) && Legal(engine, Apply(engine, world, steps[0]), steps[1..]))
  }

  ghost function After(engine: Engine, world: World, steps: seq<Step>): World
    requires Legal(engine, world, steps)
    decreases |steps|
  {
    if steps == [] then world else After(engine, Apply(engine, world, steps[0]), steps[1..])
  }

  // ---------------------------------------------------------- invariants

  /** The claim stands for a transfer that passed every check of its intent, which is journalled. */
  ghost predicate Earned(engine: Engine, books: Books, t: Transfer)
    requires t in books.claims
  {
    var claim := books.claims[t];
    && claim.tx.transfer == t
    && claim.intent in books.intents && books.intents[claim.intent].order == claim.order
    && engine(books.intents[claim.intent].expectation, claim.tx).Success?
    && engine(books.intents[claim.intent].expectation, claim.tx).value.outcome == VerifiedOutcome
    && CreditOf(claim.intent) in books.journal
  }

  /** An intent pays with at most one transfer. */
  ghost predicate OneEach(claims: map<Transfer, Claim>) {
    forall t, u :: t in claims && u in claims && claims[t].intent == claims[u].intent ==> t == u
  }

  /** The journalled credit is backed by the amount of a claimed transfer, or by an approval. */
  ghost predicate BackedCredit(books: Books, intent: IntentId)
    requires CreditOf(intent) in books.journal
  {
    && intent in books.intents
    && (ApprovalOf(intent) in books.journal
        || exists t :: && t in books.claims && books.claims[t].intent == intent
                       && books.journal[CreditOf(intent)]
                       == Credited(Some(books.claims[t].tx.Amount()), books.intents[intent].expectation))
  }

  ghost predicate Sound(engine: Engine, books: Books) {
    && (forall t :: t in books.claims ==> Earned(engine, books, t))
    && OneEach(books.claims)
    && (forall i :: CreditOf(i) in books.journal ==> BackedCredit(books, i))
    && (forall i :: i in books.intents && books.intents[i].status == Verified ==> CreditOf(i) in books.journal)
  }

  /** Claims, journal and expectations are never altered, only added to. */
  ghost predicate Extends(now: Books, before: Books) {
    && (forall t :: t in before.claims ==> t in now.claims && now.claims[t] == before.claims[t])
    && (forall key :: key in before.journal ==> key in now.journal && now.journal[key] == before.journal[key])
    && (forall i :: i in before.intents ==>
                      && i in now.intents && now.intents[i].order == before.intents[i].order
                      && now.intents[i].expectation == before.intents[i].expectation)
  }

  // ------------------------------------------------------- preservation

  /** All that changed is the status and the received amount of one intent, and orders. */
  ghost predicate Touches(now: Books, before: Books, intent: IntentId) {
    && now.claims == before.claims && now.journal == before.journal && now.intents.Keys == before.intents.Keys
    && intent in before.intents
    && now.intents[intent].order == before.intents[intent].order
    && now.intents[intent].expectation == before.intents[intent].expectation
    && (now.intents[intent].status == Verified ==>
          before.intents[intent].status == Verified || CreditOf(intent) in before.journal)
    && forall i :: i in before.intents && i != intent ==> now.intents[i] == before.intents[i]
  }

  lemma TouchKeepsSound(engine: Engine, before: Books, now: Books, intent: IntentId)
    requires Sound(engine, before) && Touches(now, before, intent)
    ensures Sound(engine, now) && Extends(now, before)
  {
    forall t | t in now.claims
      ensures Earned(engine, now, t)
    {
      assert Earned(engine, before, t);
    }
    TouchKeepsTerms(before, now, intent);
    forall i | CreditOf(i) in now.journal
      ensures BackedCredit(now, i)
    {
      BackingStays(before, now, i);
    }
  }

  lemma TouchKeepsTerms(before: Books, now: Books, intent: IntentId)
    requires Touches(now, before, intent)
    ensures Extends(now, before)
  {
  }

  /** Adding a journal line to an intent that has a claim, or an approval, keeps the books sound. */
  lemma JournalKeepsSound(engine: Engine, before: Books, now: Books, intent: IntentId, amount: Decimal)
    requires Sound(engine, before) && intent in before.intents
    requires now.intents == before.intents && now.claims == before.claims
    requires now.journal == Journal(Journal(before.journal, CreditOf(intent), amount), ApprovalOf(intent),
            Decimal(false, 0, 0))
    ensures Sound(engine, now) && Extends(now, before) && CreditOf(intent) in now.journal
  {
    forall t | t in now.claims
      ensures Earned(engine, now, t)
    {
      assert Earned(engine, before, t);
    }
    forall i | CreditOf(i) in now.journal
      ensures BackedCredit(now, i)
    {
      if i != intent {
        assert BackedCredit(before, i);
      }
    }
  }

  /** A new claim that is journalled in the same transaction keeps the books sound. */
  lemma ClaimKeepsSound(engine: Engine, before: Books, now: Books, intent: IntentId, tx: Observed)
    requires Sound(engine, before) && intent in before.intents
    requires engine(before.intents[intent].expectation, tx).Success?
    requires engine(before.intents[intent].expectation, tx).value.outcome == VerifiedOutcome
    requires tx.transfer !in before.claims && !HasClaim(before.claims, intent)
    requires now.intents == before.intents
    requires now.claims == before.claims[tx.transfer := Claim(intent, before.intents[intent].order, tx)]
    requires now.journal
          == Journal(before.journal, CreditOf(intent), Credited(Some(tx.Amount()), before.intents[intent].expectation))
    ensures Sound(engine, now) && Extends(now, before) && CreditOf(intent) in now.journal
  {
    forall t | t in now.claims
      ensures Earned(engine, now, t)
    {
      if t != tx.transfer {
        assert Earned(engine, before, t);
      }
    }
    ClaimExtends(before, now, intent, tx);
    forall i | CreditOf(i) in now.journal
      ensures BackedCredit(now, i)
    {
      if CreditOf(i) in before.journal {
        BackingStays(before, now, i);
      } else {
        assert now.claims[tx.transfer].intent == i;
      }
    }
  }

  lemma ClaimExtends(before: Books, now: Books, intent: IntentId, tx: Observed)
    requires tx.transfer !in before.claims && !HasClaim(before.claims, intent) && OneEach(before.claims)
    requires now.intents == before.intents && intent in before.intents
    requires now.claims == before.claims[tx.transfer := Claim(intent, before.intents[intent].order, tx)]
    requires exists amount :: now.journal == Journal(before.journal, CreditOf(intent), amount)
    ensures Extends(now, before) && OneEach(now.claims)
  {
  }

  lemma BackingStays(before: Books, now: Books, i: IntentId)
    requires CreditOf(i) in before.journal && BackedCredit(before, i) && Extends(now, before)
    ensures BackedCredit(now, i)
  {
    if ApprovalOf(i) !in before.journal {
      var t :| t in before.claims && before.claims[t].intent == i
               && before.journal[CreditOf(i)] == Credited(Some(before.claims[t].tx.Amount()),
                       before.intents[i].expectation);
      assert now.claims[t] == before.claims[t];
    }
  }

  lemma ExtendsTransitive(a: Books, b: Books, c: Books)
    requires Extends(b, a) && Extends(c, b)
    ensures Extends(c, a)
  {
  }

  lemma InsertClaimCases(books: Books, intent: IntentId, tx: Observed)
    requires intent in books.intents
    ensures !Holds(InsertClaim(books, intent, tx), intent, tx) ==> InsertClaim(books, intent, tx) == books
    ensures InsertClaim(books, intent, tx) != books ==> tx.transfer !in books.claims && !HasClaim(books.claims, intent)
  {
  }

  lemma MarkVerifiedTouches(books: Books, loaded: Loaded, received: Option<Decimal>)
    requires loaded.intent in books.intents
    ensures var now := MarkVerified(books, loaded, received);
            && now.journal == Journal(books.journal, CreditOf(loaded.intent),
                                      Credited(received, books.intents[loaded.intent].expectation))
            && Touches(now, books.(journal := now.journal), loaded.intent)
  {
  }

  lemma ReceivedTouches(books: Books, intent: IntentId, amount: Decimal)
    requires intent in books.intents
    ensures Touches(SetReceived(books, intent, amount), books, intent)
  {
  }

  lemma SetPaymentTouches(books: Books, loaded: Loaded, target: PaymentStatus)
    requires loaded.intent in books.intents && target != Verified
    ensures Touches(SetPayment(books, loaded, target), books, loaded.intent)
  {
  }

  lemma ToReviewTouches(books: Books, loaded: Loaded)
    requires loaded.intent in books.intents
    ensures Touches(ToReview(books, loaded), books, loaded.intent)
  {
    SetPaymentTouches(books, loaded, UnderReview);
  }

  lemma FinishTouches(books: Books, loaded: Loaded, outcome: Outcome, limits: Limits, received: Option<Decimal>)
    requires loaded.intent in books.intents && loaded.payment != Verified
    requires TargetOf(outcome, limits) != Some(Verified)
    ensures Touches(Finish(books, loaded, outcome, limits, received), books, loaded.intent)
  {
    match TargetOf(outcome, limits)
    case None => SetPaymentTouches(books, loaded, Started(loaded.payment));
    case Some(target) =>
      ToReviewTouches(books, loaded);
      SetPaymentTouches(books, loaded, target);
  }

  lemma NewClaim(engine: Engine, books: Books, intent: IntentId, tx: Observed)
    requires Sound(engine, books) && intent in books.intents
    requires engine(books.intents[intent].expectation, tx).Success?
    requires engine(books.intents[intent].expectation, tx).value.outcome == VerifiedOutcome
    requires Holds(InsertClaim(books, intent, tx), intent, tx)
    ensures var claimed := InsertClaim(books, intent, tx);
            var now := claimed.(journal := Journal(books.journal, CreditOf(intent),
                                                   Credited(Some(tx.Amount()), books.intents[intent].expectation)));
            Sound(engine, now) && Extends(now, books) && CreditOf(intent) in now.journal && now.intents == books.intents
  {
    var claimed := InsertClaim(books, intent, tx);
    var amount := Credited(Some(tx.Amount()), books.intents[intent].expectation);
    var now := claimed.(journal := Journal(books.journal, CreditOf(intent), amount));
    if claimed == books {
      assert Earned(engine, books, tx.transfer);
      assert now == books;
    } else {
      InsertClaimCases(books, intent, tx);
      ClaimKeepsSound(engine, books, now, intent, tx);
    }
  }

  /** Crediting a payment: the claim, the journal line and the statuses of one commit. */
  lemma CreditKeepsSound(engine: Engine, books: Books, loaded: Loaded, tx: Observed)
    requires Sound(engine, books) && loaded.intent in books.intents
    requires engine(books.intents[loaded.intent].expectation, tx).Success?
    requires engine(books.intents[loaded.intent].expectation, tx).value.outcome == VerifiedOutcome
    requires Holds(InsertClaim(books, loaded.intent, tx), loaded.intent, tx)
    ensures var noted := SetReceived(InsertClaim(books, loaded.intent, tx), loaded.intent, tx.Amount());
            var now := MarkVerified(noted, loaded, Some(tx.Amount()));
            Sound(engine, now) && Extends(now, books)
  {
    var claimed := InsertClaim(books, loaded.intent, tx);
    var noted := SetReceived(claimed, loaded.intent, tx.Amount());
    var now := MarkVerified(noted, loaded, Some(tx.Amount()));
    NewClaim(engine, books, loaded.intent, tx);
    MarkVerifiedTouches(noted, loaded, Some(tx.Amount()));
    var journalled := claimed.(journal := now.journal);
    ReceivedTouches(journalled, loaded.intent, tx.Amount());
    TouchKeepsSound(engine, journalled, noted.(journal := now.journal), loaded.intent);
    TouchKeepsSound(engine, noted.(journal := now.journal), now, loaded.intent);
    ExtendsTransitive(journalled, noted.(journal := now.journal), now);
    ExtendsTransitive(books, journalled, now);
  }

  lemma ApproveKeepsSound(engine: Engine, books: Books, loaded: Loaded)
    requires Sound(engine, books) && loaded.intent in books.intents
    ensures Sound(engine, Approve(books, loaded)) && Extends(Approve(books, loaded), books)
  {
    var now := Approve(books, loaded);
    if now != books {
      var amount := Credited(loaded.received, books.intents[loaded.intent].expectation);
      var journalled := books.(journal := now.journal);
      MarkVerifiedTouches(books, loaded, loaded.received);
      JournalKeepsSound(engine, books, journalled, loaded.intent, amount);
      TouchKeepsSound(engine, journalled, now, loaded.intent);
      ExtendsTransitive(books, journalled, now);
    }
  }

  lemma UncreditedKeepsSound(engine: Engine, books: Books, loaded: Loaded, outcome: Outcome, limits: Limits,
                             tx: Option<Observed>, received: Option<Decimal>)
    requires Sound(engine, books) && loaded.intent in books.intents && loaded.payment != Verified
    requires TargetOf(outcome, limits) != Some(Verified)
    ensures var now := Finish(Noted(books, loaded.intent, tx), loaded, outcome, limits, received);
            Sound(engine, now) && Extends(now, books)
  {
    var noted := Noted(books, loaded.intent, tx);
    if tx.Some? {
      ReceivedTouches(books, loaded.intent, tx.value.Amount());
      TouchKeepsSound(engine, books, noted, loaded.intent);
    }
    FinishTouches(noted, loaded, outcome, limits, received);
    var now := Finish(noted, loaded, outcome, limits, received);
    TouchKeepsSound(engine, noted, now, loaded.intent);
    ExtendsTransitive(books, noted, now);
  }

  lemma ClaimOutcome(engine: Engine, books: Books, intent: IntentId, choice: Choice)
    requires intent in books.intents && Offered(engine, books.intents[intent].expectation, choice)
    ensures var outcome := OutcomeOfClaim(books, intent, choice);
            if outcome == VerifiedOutcome then
              && choice.tx.Some? && choice.decision.outcome == VerifiedOutcome
              && Claimed(books, intent, choice) == InsertClaim(books, intent, choice.tx.value)
              && Holds(InsertClaim(books, intent, choice.tx.value), intent, choice.tx.value)
            else Claimed(books, intent, choice) == books
  {
    if choice.tx.Some? {
      InsertClaimCases(books, intent, choice.tx.value);
    }
  }

  lemma PassCases(books: Books, loaded: Loaded, choice: Choice, limits: Limits)
    requires loaded.intent in books.intents && loaded.payment != Verified
    ensures var outcome := OutcomeOfClaim(books, loaded.intent, choice);
            var noted := Noted(Claimed(books, loaded.intent, choice), loaded.intent, choice.tx);
            var received := if choice.tx.Some? then Some(choice.tx.value.Amount()) else loaded.received;
            Verify(books, loaded, choice, limits)
            == if !MayFinish(loaded, outcome, limits) then books
               else if outcome == VerifiedOutcome then MarkVerified(noted, loaded, received)
               else Finish(noted, loaded, outcome, limits, received)
  {
  }

  lemma VerifyKeepsSound(engine: Engine, books: Books, loaded: Loaded, choice: Choice, limits: Limits)
    requires Sound(engine, books) && loaded.intent in books.intents
    requires Offered(engine, books.intents[loaded.intent].expectation, choice)
    ensures Sound(engine, Verify(books, loaded, choice, limits))
            && Extends(Verify(books, loaded, choice, limits), books)
  {
    if loaded.payment != Verified {
      ClaimOutcome(engine, books, loaded.intent, choice);
      PassCases(books, loaded, choice, limits);
      if OutcomeOfClaim(books, loaded.intent, choice) == VerifiedOutcome {
        CreditKeepsSound(engine, books, loaded, choice.tx.value);
      } else {
        var received := if choice.tx.Some? then Some(choice.tx.value.Amount()) else loaded.received;
        var outcome := OutcomeOfClaim(books, loaded.intent, choice);
        UncreditedKeepsSound(engine, books, loaded, outcome, limits, choice.tx, received);
      }
    }
  }

  lemma AddIntentKeepsSound(engine: Engine, books: Books, intent: IntentId, order: OrderId, expectation: Expectation)
    requires Sound(engine, books) && intent !in books.intents
    ensures var now := AddIntent(books, intent, order, expectation);
            Sound(engine, now) && Extends(now, books)
  {
    var now := AddIntent(books, intent, order, expectation);
    forall t | t in now.claims
      ensures Earned(engine, now, t)
    {
      assert Earned(engine, books, t);
    }
    forall i | CreditOf(i) in now.journal
      ensures BackedCredit(now, i)
    {
      BackingStays(books, now, i);
    }
  }

  lemma ReplaceKeepsSound(engine: Engine, books: Books, loaded: Loaded, next: IntentId, expectation: Expectation)
    requires Sound(engine, books) && loaded.intent in books.intents && next !in books.intents
    ensures var now := Replace(books, loaded, next, expectation);
            Sound(engine, now) && Extends(now, books)
  {
    var closed := SetPayment(books, loaded, Cancelled);
    var order := books.intents[loaded.intent].order;
    SetPaymentTouches(books, loaded, Cancelled);
    TouchKeepsSound(engine, books, closed, loaded.intent);
    AddIntentKeepsSound(engine, closed, next, order, expectation);
    ExtendsTransitive(books, closed, AddIntent(closed, next, order, expectation));
  }

  lemma StatusKeepsSound(engine: Engine, books: Books, loaded: Loaded, target: PaymentStatus)
    requires Sound(engine, books) && loaded.intent in books.intents && target != Verified
    ensures var now := SetPayment(books, loaded, target);
            Sound(engine, now) && Extends(now, books)
  {
    SetPaymentTouches(books, loaded, target);
    TouchKeepsSound(engine, books, SetPayment(books, loaded, target), loaded.intent);
  }

  lemma DoKeepsSound(engine: Engine, books: Books, loaded: Loaded, work: Work)
    requires Sound(engine, books) && loaded.intent in books.intents
    requires work.Checking? ==> Offered(engine, books.intents[loaded.intent].expectation, work.choice)
    requires work.Replacing? ==> work.next !in books.intents
    ensures Sound(engine, Do(books, loaded, work)) && Extends(Do(books, loaded, work), books)
  {
    match work
    case Checking(choice, limits) => VerifyKeepsSound(engine, books, loaded, choice, limits);
    case Approving => ApproveKeepsSound(engine, books, loaded);
    case Rejecting => StatusKeepsSound(engine, books, loaded, Failed);
    case Submitting => StatusKeepsSound(engine, books, loaded, Submitted);
    case Lapsing => StatusKeepsSound(engine, books, loaded, Expired);
    case Replacing(next, expectation) => ReplaceKeepsSound(engine, books, loaded, next, expectation);
  }

  lemma StepKeepsSound(engine: Engine, world: World, step: Step)
    requires Sound(engine, world.books) && Enabled(engine, world, step)
    ensures Sound(engine, Apply(engine, world, step).books) && Extends(Apply(engine, world, step).books, world.books)
  {
    match step
    case OpenIntent(intent, order, expectation) =>
      AddIntentKeepsSound(engine, world.books, intent, order, expectation);
    case Commit(pass, work) => DoKeepsSound(engine, world.books, world.passes[pass], work);
    case Load(_, _) =>
    case OpenOrder(order) => OrdersDoNotMatter(engine, world.books, Apply(engine, world, step).books);
    case MoveOrder(order, status) => OrdersDoNotMatter(engine, world.books, Apply(engine, world, step).books);
  }

  lemma OrdersDoNotMatter(engine: Engine, before: Books, now: Books)
    requires Sound(engine, before) && now == before.(orders := now.orders)
    ensures Sound(engine, now) && Extends(now, before)
  {
    forall t | t in now.claims
      ensures Earned(engine, now, t)
    {
      assert Earned(engine, before, t);
    }
    forall i | CreditOf(i) in now.journal
      ensures BackedCredit(now, i)
    {
      BackingStays(before, now, i);
    }
  }

  /** Whatever the passes do, however they interleave and however stale they are: the
      books stay sound, and claims, journal and expectations are only added to. */
  lemma {:induction false} RunKeepsSound(engine: Engine, world: World, steps: seq<Step>)
    requires Sound(engine, world.books) && Legal(engine, world, steps)
    ensures Sound(engine, After(engine, world, steps).books)
    ensures Extends(After(engine, world, steps).books, world.books)
    decreases |steps|
  {
    if steps != [] {
      var next := Apply(engine, world, steps[0]);
      StepKeepsSound(engine, world, steps[0]);
      RunKeepsSound(engine, next, steps[1..]);
      ExtendsTransitive(world.books, next.books, After(engine, world, steps).books);
    }
  }

  // ------------------------------------------------------- main results

  /** In every run from an empty shop: a transfer is credited to one intent only, an
      intent is credited for one transfer only, and a claimed transfer passed every
      check of the expectation frozen when the intent was created. A payment that is
      VERIFIED is journalled, and a journalled payment was claimed or approved. Without an
      approval it is journalled with the amount of its transfer, or with the expected
      amount when the transfer is worth nothing. */
  lemma CreditIsEarned(policy: Policy, steps: seq<Step>)
    requires Legal((e, tx) => VerifyTransaction(e, tx, policy), EMPTY, steps)
    ensures var books := After((e, tx) => VerifyTransaction(e, tx, policy), EMPTY, steps).books;
            && OneEach(books.claims)
            && (forall t :: t in books.claims ==>
                  && books.claims[t].tx.transfer == t && books.claims[t].intent in books.intents
                  && CreditOf(books.claims[t].intent) in books.journal
                  && forall check: Check ::
                       Passes(check, books.intents[books.claims[t].intent].expectation, books.claims[t].tx, policy))
            && (forall i :: i in books.intents && books.intents[i].status == Verified ==> CreditOf(i) in books.journal)
            && (forall i :: CreditOf(i) in books.journal ==>
                  HasClaim(books.claims, i) || ApprovalOf(i) in books.journal)
            && (forall t :: t in books.claims && ApprovalOf(books.claims[t].intent) !in books.journal ==>
                  var intent, paid := books.claims[t].intent, books.claims[t].tx.Amount();
                  books.journal[CreditOf(intent)]
                  == if paid.Signed() == 0 then books.intents[intent].expectation.expectedAmount else paid)
  {
    var engine := (e, tx) => VerifyTransaction(e, tx, policy);
    RunKeepsSound(engine, EMPTY, steps);
    var books := After(engine, EMPTY, steps).books;
    forall t | t in books.claims
      ensures forall check: Check ::
                Passes(check, books.intents[books.claims[t].intent].expectation, books.claims[t].tx, policy)
    {
      assert Earned(engine, books, t);
      VerifiedIffAllPass(books.intents[books.claims[t].intent].expectation, books.claims[t].tx, policy);
    }
    forall i | CreditOf(i) in books.journal
      ensures HasClaim(books.claims, i) || ApprovalOf(i) in books.journal
    {
      assert BackedCredit(books, i);
    }
    forall t | t in books.claims && ApprovalOf(books.claims[t].intent) !in books.journal
      ensures var intent, paid := books.claims[t].intent, books.claims[t].tx.Amount();
              books.journal[CreditOf(intent)]
              == if paid.Signed() == 0 then books.intents[intent].expectation.expectedAmount else paid
    {
      CreditIsTheAmount(engine, books, t);
    }
  }

  lemma CreditIsTheAmount(engine: Engine, books: Books, t: Transfer)
    requires Sound(engine, books) && t in books.claims && ApprovalOf(books.claims[t].intent) !in books.journal
    ensures var intent, paid := books.claims[t].intent, books.claims[t].tx.Amount();
            && intent in books.intents && CreditOf(intent) in books.journal
            && books.journal[CreditOf(intent)]
               == if paid.Signed() == 0 then books.intents[intent].expectation.expectedAmount else paid
  {
    assert Earned(engine, books, t) && BackedCredit(books, books.claims[t].intent);
  }

  /** The payments credited without a human. */
  function CreditedByEngine(books: Books): set<IntentId> {
    set i | i in books.intents && CreditOf(i) in books.journal && ApprovalOf(i) !in books.journal
  }

  function Payers(claims: map<Transfer, Claim>): set<IntentId> {
    set t | t in claims :: claims[t].intent
  }

  lemma {:induction false} PayersAreNoMore(claims: map<Transfer, Claim>)
    ensures |Payers(claims)| <= |claims|
    decreases |claims|
  {
    if claims != map[] {
      var t :| t in claims;
      var rest := claims - {t};
      assert claims.Keys == rest.Keys + {t};
      PayersAreNoMore(rest);
      assert Payers(claims) == Payers(rest) + {claims[t].intent};
    }
  }

  /** Never more payments are credited by the engine than transfers were claimed. */
  lemma NoMoreCreditsThanTransfers(engine: Engine, steps: seq<Step>)
    requires Legal(engine, EMPTY, steps)
    ensures var books := After(engine, EMPTY, steps).books; |CreditedByEngine(books)| <= |books.claims|
  {
    RunKeepsSound(engine, EMPTY, steps);
    var books := After(engine, EMPTY, steps).books;
    forall i | i in CreditedByEngine(books)
      ensures i in Payers(books.claims)
    {
      assert BackedCredit(books, i);
    }
    SubsetIsNoLarger(CreditedByEngine(books), Payers(books.claims));
    PayersAreNoMore(books.claims);
  }

  /** All the payments credited, by the engine or by hand. */
  function CreditedIntents(books: Books): set<IntentId> {
    set i | i in books.intents && CreditOf(i) in books.journal
  }

  /** Every payment credited by hand has a transfer of its own. */
  ghost predicate ApprovalsHaveClaims(books: Books) {
    forall i :: CreditOf(i) in books.journal && ApprovalOf(i) in books.journal ==> HasClaim(books.claims, i)
  }

  lemma {:induction false} OnePayerEach(claims: map<Transfer, Claim>)
    requires OneEach(claims)
    ensures |Payers(claims)| == |claims|
    decreases |claims|
  {
    if claims != map[] {
      var t :| t in claims;
      var rest := claims - {t};
      assert claims.Keys == rest.Keys + {t};
      OnePayerEach(rest);
      NewPayer(claims, t);
    }
  }

  lemma NewPayer(claims: map<Transfer, Claim>, t: Transfer)
    requires OneEach(claims) && t in claims
    ensures claims[t].intent !in Payers(claims - {t})
    ensures Payers(claims) == Payers(claims - {t}) + {claims[t].intent}
  {
    var rest := claims - {t};
    assert claims.Keys == rest.Keys + {t};
    forall u | u in rest
      ensures rest[u].intent != claims[t].intent
    {
      assert u != t;
    }
  }

  /** In every run: as much is credited as was transferred exactly when every approval by
      hand was of a payment that has a transfer of its own. */
  lemma ApprovalsMustHaveTransfers(engine: Engine, steps: seq<Step>)
    requires Legal(engine, EMPTY, steps)
    ensures var books := After(engine, EMPTY, steps).books;
            |CreditedIntents(books)| <= |books.claims| <==> ApprovalsHaveClaims(books)
  {
    RunKeepsSound(engine, EMPTY, steps);
    var books := After(engine, EMPTY, steps).books;
    PayersAreCredited(engine, books);
    OnePayerEach(books.claims);
    var credited, payers := CreditedIntents(books), Payers(books.claims);
    if |credited| <= |books.claims| {
      EqualSets(payers, credited);
    }
    if credited == payers {
      SubsetIsNoLarger(credited, payers);
    }
  }

  lemma EqualSets(a: set<IntentId>, b: set<IntentId>)
    requires a <= b && |b| <= |a|
    ensures a == b
  {
    assert b == a + (b - a) && |b| == |a| + |b - a|;
    assert b - a == {};
  }

  /** Who has a claim is credited, and the credits without one were all approved. */
  lemma PayersAreCredited(engine: Engine, books: Books)
    requires Sound(engine, books)
    ensures Payers(books.claims) <= CreditedIntents(books)
    ensures forall i :: i in Payers(books.claims) <==> HasClaim(books.claims, i)
    ensures CreditedIntents(books) == Payers(books.claims)
       <==> ApprovalsHaveClaims(books)
  {
    forall i | i in Payers(books.claims)
      ensures i in CreditedIntents(books)
    {
      var t :| t in books.claims && books.claims[t].intent == i;
      assert Earned(engine, books, t);
    }
    forall i | CreditOf(i) in books.journal
      ensures i in CreditedIntents(books) && (ApprovalOf(i) in books.journal || HasClaim(books.claims, i))
    {
      assert BackedCredit(books, i);
    }
  }
}
