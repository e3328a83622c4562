/** What the crediting of payments does not guarantee, and exactly when it does: stale
    passes, manual approvals, and passes a guard rolls back. */
module CreditLimits {
  import opened Wrappers
  import opened Decimals
  import opened Lifecycle
  import opened Verification
  import opened Credit

  // -------------------------------------------------------- stale passes

  ghost predicate Possible(engine: Engine, books: Books, loaded: Loaded, work: Work)
    requires loaded.intent in books.intents
  {
    && (work.Checking? ==> Offered(engine, books.intents[loaded.intent].expectation, work.choice))
    && (work.Replacing? ==> work.next !in books.intents)
  }

  predicate IsVerified(books: Books, intent: IntentId) {
    intent in books.intents && books.intents[intent].status == Verified
  }

  /** Nothing a session can still do takes VERIFIED away from its intent. */
  ghost predicate Harmless(engine: Engine, books: Books, loaded: Loaded)
    requires loaded.intent in books.intents
  {
    forall work :: Possible(engine, books, loaded, work) ==> IsVerified(Do(books, loaded, work), loaded.intent)
  }

  /** No verification pass can. */
  ghost predicate HarmlessPass(engine: Engine, books: Books, loaded: Loaded)
    requires loaded.intent in books.intents
  {
    forall choice, limits :: Offered(engine, books.intents[loaded.intent].expectation, choice) ==>
                               IsVerified(Verify(books, loaded, choice, limits), loaded.intent)
  }

  function NothingFound(): Choice {
    Choice(None, Decision(NotFound, 0))
  }

  function ProviderDown(): Choice {
    Choice(None, Decision(ProviderError, 0))
  }

  /** A verification pass cannot undo a verified payment exactly when it loaded the payment
      in one of the two final statuses, and then no other session can either. A pass that
      loaded it earlier, in any other status, can. */
  lemma OnlyFinalSnapshotsAreHarmless(engine: Engine, books: Books, loaded: Loaded)
    requires IsVerified(books, loaded.intent)
    ensures HarmlessPass(engine, books, loaded) <==> loaded.payment in {Verified, Cancelled}
    ensures Harmless(engine, books, loaded) <==> loaded.payment in {Verified, Cancelled}
  {
    if loaded.payment in {Verified, Cancelled} {
      forall work | Possible(engine, books, loaded, work)
        ensures IsVerified(Do(books, loaded, work), loaded.intent)
      {
        FinalSnapshot(books, loaded, work);
      }
      forall choice, limits | Offered(engine, books.intents[loaded.intent].expectation, choice)
        ensures IsVerified(Verify(books, loaded, choice, limits), loaded.intent)
      {
        FinalSnapshot(books, loaded, Checking(choice, limits));
      }
    } else {
      LatePass(books, loaded);
      var choice, limits := LateChoice(loaded.payment), LateLimits(loaded.payment);
      assert Offered(engine, books.intents[loaded.intent].expectation, choice);
      assert !HarmlessPass(engine, books, loaded);
      assert Possible(engine, books, loaded, Checking(choice, limits));
      assert !IsVerified(Do(books, loaded, Checking(choice, limits)), loaded.intent);
    }
  }

  /** A payment not yet expired expires, an expired one goes to review. */
  function LateChoice(payment: PaymentStatus): Choice {
    if payment == Expired then ProviderDown() else NothingFound()
  }

  function LateLimits(payment: PaymentStatus): Limits {
    Limits(payment != Expired, payment == Expired)
  }

  lemma LatePass(books: Books, loaded: Loaded)
    requires loaded.intent in books.intents && loaded.payment !in {Verified, Cancelled}
    ensures !IsVerified(Verify(books, loaded, LateChoice(loaded.payment), LateLimits(loaded.payment)), loaded.intent)
  {
    var choice, limits := LateChoice(loaded.payment), LateLimits(loaded.payment);
    assert MayFinish(loaded, choice.decision.outcome, limits);
    assert OutcomeOfClaim(books, loaded.intent, choice) == choice.decision.outcome;
    if loaded.payment == Expired {
      LateReview(books, loaded);
    } else {
      LateStatus(books, loaded, Expired);
    }
  }

  lemma LateStatus(books: Books, loaded: Loaded, target: PaymentStatus)
    requires loaded.intent in books.intents && target !in {Verified, loaded.payment}
    ensures !IsVerified(SetPayment(books, loaded, target), loaded.intent)
  {
  }

  lemma LateReview(books: Books, loaded: Loaded)
    requires loaded.intent in books.intents && loaded.payment != UnderReview
    ensures !IsVerified(ToReview(books, loaded), loaded.intent)
  {
    LateStatus(books, loaded, UnderReview);
  }

  lemma FinalSnapshot(books: Books, loaded: Loaded, work: Work)
    requires IsVerified(books, loaded.intent) && loaded.payment in {Verified, Cancelled}
    ensures IsVerified(Do(books, loaded, work), loaded.intent)
  {
    if work.Checking? && loaded.payment == Cancelled {
      CancelledPass(books, loaded, work.choice, work.limits);
    }
  }

  lemma CancelledPass(books: Books, loaded: Loaded, choice: Choice, limits: Limits)
    requires IsVerified(books, loaded.intent) && loaded.payment == Cancelled
    ensures IsVerified(Verify(books, loaded, choice, limits), loaded.intent)
  {
    var outcome := OutcomeOfClaim(books, loaded.intent, choice);
    assert TargetOf(outcome, limits).Some? ==> !MayFinish(loaded, outcome, limits);
  }

  /** A pass that commits what it loaded: nothing changed in between. */
  ghost predicate Current(world: World, step: Step) {
    step.Commit? && step.pass in world.passes ==>
      var loaded := world.passes[step.pass];
      && loaded.intent in world.books.intents && world.books.intents[loaded.intent].order in world.books.orders
      && loaded == LoadedNow(world.books, loaded.intent)
  }

  ghost predicate CurrentRun(engine: Engine, world: World, steps: seq<Step>)
    requires Legal(engine, world, steps)
    decreases |steps|
  {
    steps == []
    || (Current(world, steps[0]) && CurrentRun(engine, Apply(engine, world, steps[0]), steps[1..]))
  }

  ghost predicate CreditIsVerified(books: Books) {
    forall i :: CreditOf(i) in books.journal ==> i in books.intents && books.intents[i].status == Verified
  }

  ghost predicate VerifiedStay(now: Books, before: Books) {
    forall i :: i in before.intents && before.intents[i].status == Verified ==>
                  i in now.intents && now.intents[i].status == Verified
  }

  /** The statuses and journal after `now` differ from before at one intent only, and
      there the journalled payment is VERIFIED. */
  ghost predicate CreditsOnly(now: Books, before: Books, intent: IntentId) {
    && intent in before.intents && now.intents.Keys == before.intents.Keys
    && (forall i :: i in before.intents && i != intent ==> now.intents[i].status == before.intents[i].status)
    && (forall i :: i != intent && CreditOf(i) in now.journal ==> CreditOf(i) in before.journal)
    && (before.intents[intent].status == Verified ==> now.intents[intent].status == Verified)
    && (CreditOf(intent) in now.journal && CreditOf(intent) !in before.journal ==>
            now.intents[intent].status == Verified)
  }

  lemma CreditsOnlyIsEnough(now: Books, before: Books, intent: IntentId)
    requires CreditIsVerified(before) && CreditsOnly(now, before, intent)
    ensures CreditIsVerified(now) && VerifiedStay(now, before)
  {
  }

  lemma CurrentVerify(books: Books, loaded: Loaded, choice: Choice, limits: Limits)
    requires loaded.intent in books.intents && loaded.payment == books.intents[loaded.intent].status
    ensures CreditsOnly(Verify(books, loaded, choice, limits), books, loaded.intent)
  {
    if loaded.payment != Verified {
      var outcome := OutcomeOfClaim(books, loaded.intent, choice);
      var claimed := Claimed(books, loaded.intent, choice);
      assert claimed.intents == books.intents && claimed.journal == books.journal;
      var noted := Noted(claimed, loaded.intent, choice.tx);
      assert noted.journal == books.journal && noted.intents.Keys == books.intents.Keys;
      var received := if choice.tx.Some? then Some(choice.tx.value.Amount()) else loaded.received;
      CurrentFinish(noted, loaded, outcome, limits, received);
    }
  }

  lemma CurrentFinish(books: Books, loaded: Loaded, outcome: Outcome, limits: Limits, received: Option<Decimal>)
    requires loaded.intent in books.intents && loaded.payment == books.intents[loaded.intent].status != Verified
    ensures CreditsOnly(Finish(books, loaded, outcome, limits, received), books, loaded.intent)
  {
    match TargetOf(outcome, limits)
    case None => CurrentSet(books, loaded, Started(loaded.payment));
    case Some(target) =>
      CurrentCredit(books, loaded, received);
      CurrentSet(books, loaded, target);
      CurrentSet(books, loaded, UnderReview);
  }

  lemma CurrentSet(books: Books, loaded: Loaded, target: PaymentStatus)
    requires loaded.intent in books.intents && loaded.payment == books.intents[loaded.intent].status != Verified
    ensures CreditsOnly(SetPayment(books, loaded, target), books, loaded.intent)
  {
  }

  lemma CurrentCredit(books: Books, loaded: Loaded, received: Option<Decimal>)
    requires loaded.intent in books.intents && loaded.payment == books.intents[loaded.intent].status != Verified
    ensures CreditsOnly(MarkVerified(books, loaded, received), books, loaded.intent)
  {
  }

  lemma CurrentApproval(books: Books, loaded: Loaded)
    requires loaded.intent in books.intents && loaded.payment == books.intents[loaded.intent].status
    ensures CreditsOnly(Approve(books, loaded), books, loaded.intent)
  {
    if Approve(books, loaded) != books {
      CurrentCredit(books, loaded, loaded.received);
    }
  }

  lemma CurrentDo(books: Books, loaded: Loaded, work: Work)
    requires loaded.intent in books.intents && loaded.payment == books.intents[loaded.intent].status
    requires !work.Replacing?
    ensures CreditsOnly(Do(books, loaded, work), books, loaded.intent)
  {
    match work
    case Checking(choice, limits) => CurrentVerify(books, loaded, choice, limits);
    case Approving => CurrentApproval(books, loaded);
    case Rejecting => if loaded.payment != Verified { CurrentSet(books, loaded, Failed); }
    case Submitting => if loaded.payment != Verified { CurrentSet(books, loaded, Submitted); }
    case Lapsing => if loaded.payment != Verified { CurrentSet(books, loaded, Expired); }
  }

  lemma CurrentStep(engine: Engine, world: World, step: Step)
    requires Enabled(engine, world, step) && Current(world, step) && CreditIsVerified(world.books)
    ensures CreditIsVerified(Apply(engine, world, step).books)
    ensures VerifiedStay(Apply(engine, world, step).books, world.books)
  {
    if step.Commit? {
      var loaded := world.passes[step.pass];
      if step.work.Replacing? {
        CurrentReplacement(world.books, loaded, step.work.next, step.work.expectation);
      } else {
        CurrentDo(world.books, loaded, step.work);
        CreditsOnlyIsEnough(Do(world.books, loaded, step.work), world.books, loaded.intent);
      }
    }
  }

  lemma CurrentReplacement(books: Books, loaded: Loaded, next: IntentId, expectation: Expectation)
    requires loaded.intent in books.intents && loaded.payment == books.intents[loaded.intent].status
    requires CreditIsVerified(books) && next !in books.intents
    ensures CreditIsVerified(Replace(books, loaded, next, expectation))
    ensures VerifiedStay(Replace(books, loaded, next, expectation), books)
  {
    if loaded.payment != Verified {
      CurrentSet(books, loaded, Cancelled);
      CreditsOnlyIsEnough(SetPayment(books, loaded, Cancelled), books, loaded.intent);
    }
  }

  /** When no pass is overtaken between loading and committing, a credited payment is
      VERIFIED and stays so: VERIFIED and journalled are then the same thing. */
  lemma {:induction false} CurrentRunsKeepVerified(engine: Engine, world: World, steps: seq<Step>)
    requires Legal(engine, world, steps) && CurrentRun(engine, world, steps)
    requires Sound(engine, world.books) && CreditIsVerified(world.books)
    ensures var books := After(engine, world, steps).books;
            && VerifiedStay(books, world.books)
            && forall i :: CreditOf(i) in books.journal <==> i in books.intents && books.intents[i].status == Verified
    decreases |steps|
  {
    if steps != [] {
      var next := Apply(engine, world, steps[0]);
      CurrentStep(engine, world, steps[0]);
      StepKeepsSound(engine, world, steps[0]);
      CurrentRunsKeepVerified(engine, next, steps[1..]);
    }
  }

  // --------------------------------------------- passes a guard rolls back

  /** A pass that would credit a payment goes through exactly when the order, as loaded,
      is still pending, in review or already paid. After the order expired or was
      cancelled the transfer is neither credited nor sent to review: everything the pass
      wrote, the claim included, is rolled back. */
  lemma VerifiedPassNeedsOpenOrder(books: Books, loaded: Loaded, choice: Choice, limits: Limits)
    requires loaded.intent in books.intents && loaded.payment !in {Verified, Cancelled}
    requires OutcomeOfClaim(books, loaded.intent, choice) == VerifiedOutcome
    ensures var now := Verify(books, loaded, choice, limits);
            if loaded.order in {PaymentPending, PaymentVerified, ManualReview} then
              && IsVerified(now, loaded.intent) && CreditOf(loaded.intent) in now.journal
              && (loaded.order != PaymentVerified ==>
                    now.orders == books.orders[books.intents[loaded.intent].order := PaymentVerified])
            else now == books
  {
    OpenOrders(loaded);
    PassCases(books, loaded, choice, limits);
    if loaded.order in {PaymentPending, PaymentVerified, ManualReview} {
      var noted := Noted(Claimed(books, loaded.intent, choice), loaded.intent, choice.tx);
      var received := if choice.tx.Some? then Some(choice.tx.value.Amount()) else loaded.received;
      NotedKeepsOrders(books, loaded.intent, choice);
      MarkVerifiedWrites(noted, loaded, received);
    }
  }

  lemma NotedKeepsOrders(books: Books, intent: IntentId, choice: Choice)
    requires intent in books.intents
    ensures var noted := Noted(Claimed(books, intent, choice), intent, choice.tx);
            noted.orders == books.orders && noted.intents[intent].order == books.intents[intent].order
  {
  }

  lemma OpenOrders(loaded: Loaded)
    ensures OrderStepAllowed(loaded.order, PaymentVerified)
       <==> loaded.order in {PaymentPending, PaymentVerified, ManualReview}
    ensures CanReach(loaded.payment, Verified) <==> loaded.payment != Cancelled
    ensures CanReach(Started(loaded.payment), Verified) <==> loaded.payment != Cancelled
  {
  }

  lemma MarkVerifiedWrites(books: Books, loaded: Loaded, received: Option<Decimal>)
    requires loaded.intent in books.intents && loaded.payment != Verified
    ensures var now := MarkVerified(books, loaded, received);
            && IsVerified(now, loaded.intent) && CreditOf(loaded.intent) in now.journal
            && (loaded.order != PaymentVerified ==>
                  now.orders == books.orders[books.intents[loaded.intent].order := PaymentVerified])
            && now.journal[CreditOf(loaded.intent)]
               == if CreditOf(loaded.intent) in books.journal then books.journal[CreditOf(loaded.intent)]
                  else if received.Some? && received.value.Signed() != 0 then received.value
                  else books.intents[loaded.intent].expectation.expectedAmount
  {
  }

  /** A pass that finds nothing, before expiry and with attempts left, can only go back
      to DETECTING from a payment not yet detected. For one already detected the guard
      raises and the pass leaves no trace, not even of its attempt. */
  lemma NothingFoundNeedsAnUndetectedPayment(books: Books, loaded: Loaded)
    requires loaded.intent in books.intents
    ensures var limits := Limits(false, false);
            && (MayFinish(loaded, NotFound, limits)
                <==> loaded.payment in {AwaitingPayment, Submitted, Detecting})
            && (loaded.payment in {Detected, PaymentStatus.Verifying, PendingConfirmation} ==>
                  Verify(books, loaded, NothingFound(), limits) == books)
  {
  }

  /** No money moved, and the payment has this status. */
  ghost predicate Unpaid(now: Books, before: Books, intent: IntentId, status: PaymentStatus) {
    && now.claims == before.claims && now.journal == before.journal
    && intent in now.intents && now.intents[intent].status == status
  }

  /** The order is where it was. */
  ghost predicate Leads(now: Books, before: Books, loaded: Loaded, status: PaymentStatus) {
    Unpaid(now, before, loaded.intent, status) && now.orders == before.orders
  }

  /** A pending order follows into review; one that cannot, or need not, stays as it is. */
  ghost predicate LeadsToReview(now: Books, before: Books, loaded: Loaded)
    requires loaded.intent in before.intents
  {
    && Unpaid(now, before, loaded.intent, UnderReview)
    && now.orders == (if loaded.order == PaymentPending
                      then before.orders[before.intents[loaded.intent].order := ManualReview] else before.orders)
  }

  /** A pass without a good transfer, over a payment that is not final. No money moves, and
      the customer loses nothing to trouble at the provider. Money that arrived in any
      unexpected way waits for a human, with its order; only a transfer that did not
      succeed fails the payment. */
  lemma UncreditedPass(books: Books, loaded: Loaded, choice: Choice, limits: Limits)
    requires loaded.intent in books.intents && loaded.payment !in {Verified, Cancelled}
    requires books.intents[loaded.intent].status == loaded.payment && choice.decision.outcome != VerifiedOutcome
    ensures var now, outcome := Verify(books, loaded, choice, limits), choice.decision.outcome;
            && (outcome == ProviderError && !limits.exhausted ==> Leads(now, books, loaded, Started(loaded.payment)))
            && (outcome == PendingConfirmations ==> Leads(now, books, loaded, PendingConfirmation))
            && (outcome == FailedTransaction ==> Leads(now, books, loaded, Failed))
            && (outcome == NotFound && limits.expired ==> Leads(now, books, loaded, Expired))
            && (outcome == NotFound && !limits.expired && !limits.exhausted ==>
                  if loaded.payment in {AwaitingPayment, Submitted, Detecting} then Leads(now, books, loaded, Detecting)
                  else now == books)
            && (outcome !in {PendingConfirmations, NotFound, ProviderError, FailedTransaction} ==>
                  LeadsToReview(now, books, loaded))
            && (limits.exhausted && (outcome == ProviderError || (outcome == NotFound && !limits.expired)) ==>
                  LeadsToReview(now, books, loaded))
  {
    UncreditedGuards(loaded, choice.decision.outcome, limits);
    if MayFinish(loaded, choice.decision.outcome, limits) {
      UncreditedEffect(books, loaded, choice, limits);
    }
  }

  lemma UncreditedEffect(books: Books, loaded: Loaded, choice: Choice, limits: Limits)
    requires loaded.intent in books.intents && loaded.payment !in {Verified, Cancelled}
    requires books.intents[loaded.intent].status == loaded.payment && choice.decision.outcome != VerifiedOutcome
    requires MayFinish(loaded, choice.decision.outcome, limits)
    ensures var now := Verify(books, loaded, choice, limits);
            match TargetOf(choice.decision.outcome, limits)
            case None => Leads(now, books, loaded, Started(loaded.payment))
            case Some(target) =>
              if target == UnderReview then LeadsToReview(now, books, loaded) else Leads(now, books, loaded, target)
  {
    var noted := Noted(books, loaded.intent, choice.tx);
    var received := if choice.tx.Some? then Some(choice.tx.value.Amount()) else loaded.received;
    UncreditedIsFinish(books, loaded, choice, limits, received);
    FinishLeads(noted, loaded, choice.decision.outcome, limits, received);
  }

  lemma FinishLeads(books: Books, loaded: Loaded, outcome: Outcome, limits: Limits, received: Option<Decimal>)
    requires loaded.intent in books.intents && books.intents[loaded.intent].status == loaded.payment
    requires outcome != VerifiedOutcome
    ensures var now := Finish(books, loaded, outcome, limits, received);
            match TargetOf(outcome, limits)
            case None => Leads(now, books, loaded, Started(loaded.payment))
            case Some(target) =>
              if target == UnderReview then LeadsToReview(now, books, loaded) else Leads(now, books, loaded, target)
  {
    match TargetOf(outcome, limits)
    case None => StatusLeads(books, loaded, Started(loaded.payment));
    case Some(target) =>
      if target == UnderReview {
        ReviewLeads(books, loaded);
      } else {
        StatusLeads(books, loaded, target);
      }
  }

  lemma UncreditedIsFinish(books: Books, loaded: Loaded, choice: Choice, limits: Limits, received: Option<Decimal>)
    requires loaded.intent in books.intents && loaded.payment != Verified && choice.decision.outcome != VerifiedOutcome
    requires MayFinish(loaded, choice.decision.outcome, limits)
    requires received == if choice.tx.Some? then Some(choice.tx.value.Amount()) else loaded.received
    ensures var noted := Noted(books, loaded.intent, choice.tx);
            && Verify(books, loaded, choice, limits) == Finish(noted, loaded, choice.decision.outcome, limits, received)
            && noted == books.(intents := noted.intents) && loaded.intent in noted.intents
            && noted.intents[loaded.intent].status == books.intents[loaded.intent].status
            && noted.intents[loaded.intent].order == books.intents[loaded.intent].order
  {
  }

  lemma UncreditedGuards(loaded: Loaded, outcome: Outcome, limits: Limits)
    requires loaded.payment !in {Verified, Cancelled} && outcome != VerifiedOutcome
    ensures MayFinish(loaded, outcome, limits)
       <==> TargetOf(outcome, limits) == Some(Detecting) ==> loaded.payment in {AwaitingPayment, Submitted, Detecting}
    ensures TargetOf(outcome, limits) == Some(Detecting)
       <==> outcome == NotFound && !limits.expired && !limits.exhausted
    ensures Started(loaded.payment) != UnderReview || loaded.payment == UnderReview
  {
  }

  lemma StatusLeads(books: Books, loaded: Loaded, target: PaymentStatus)
    requires loaded.intent in books.intents && books.intents[loaded.intent].status == loaded.payment
    ensures Leads(SetPayment(books, loaded, target), books, loaded, target)
    ensures SetPayment(books, loaded, target).intents.Keys == books.intents.Keys
    ensures SetPayment(books, loaded, target).intents[loaded.intent].order == books.intents[loaded.intent].order
  {
  }

  lemma ReviewLeads(books: Books, loaded: Loaded)
    requires loaded.intent in books.intents && books.intents[loaded.intent].status == loaded.payment
    ensures LeadsToReview(ToReview(books, loaded), books, loaded)
  {
    StatusLeads(books, loaded, UnderReview);
  }

  // ------------------------------------------------------------ approvals

  /** Exactly when a manual approval is accepted, and what it journals: what was received,
      the expected amount when nothing was, and nothing over a line that is there. The
      guard on the order makes it fail for an expired payment whose order expired with it. */
  lemma ApprovalCondition(books: Books, loaded: Loaded)
    requires loaded.intent in books.intents
    ensures var now := Approve(books, loaded);
            if loaded.payment in {UnderReview, Failed, Expired, PendingConfirmation, Detected}
               && loaded.order in {PaymentPending, PaymentVerified, ManualReview} && !loaded.taken then
              && IsVerified(now, loaded.intent)
              && CreditOf(loaded.intent) in now.journal && ApprovalOf(loaded.intent) in now.journal
              && now.journal[CreditOf(loaded.intent)]
                 == (if CreditOf(loaded.intent) in books.journal then books.journal[CreditOf(loaded.intent)]
                     else if loaded.received.Some? && loaded.received.value.Signed() != 0 then loaded.received.value
                     else books.intents[loaded.intent].expectation.expectedAmount)
            else now == books
  {
    OpenOrders(loaded);
    if MayVerify(loaded) && Approvable(loaded.payment) {
      MarkVerifiedWrites(books, loaded, loaded.received);
    }
  }

  /** Approved at once, a payment is credited exactly when it and its order still allow it and
      every claim of the order is its own. A claim of the same transfer for another order is
      not looked at. */
  lemma ApprovedAtOnce(books: Books, intent: IntentId)
    requires intent in books.intents && books.intents[intent].order in books.orders
    ensures var row := books.intents[intent];
            IsVerified(Approve(books, LoadedNow(books, intent)), intent)
            <==> row.status == Verified
                 || (&& row.status in {UnderReview, Failed, Expired, PendingConfirmation, Detected}
                     && books.orders[row.order] in {PaymentPending, PaymentVerified, ManualReview}
                     && forall t :: t in books.claims && books.claims[t].order == row.order ==>
                          books.claims[t].intent == intent)
  {
    ApprovalCondition(books, LoadedNow(books, intent));
  }

  /** A session that was not overtaken moves the order of its payment as `ServiceMove` says,
      when it credits the payment and when it puts it under review. */
  lemma OrdersMoveWithTheirPayment(books: Books, intent: IntentId, received: Option<Decimal>)
    requires intent in books.intents && books.intents[intent].order in books.orders
    ensures var loaded, order := LoadedNow(books, intent), books.intents[intent].order;
            var was := books.orders[order];
            && MarkVerified(books, loaded, received).orders == books.orders[order := ServiceMove(was, Verified)]
            && ToReview(books, loaded).orders == books.orders[order := ServiceMove(was, UnderReview)]
            && (MayVerify(loaded) ==> OrderStepAllowed(was, ServiceMove(was, Verified)))
  {
    var order := books.intents[intent].order;
    assert books.orders[order := books.orders[order]] == books.orders;
    ReviewMoves(books, LoadedNow(books, intent));
    assert MarkVerified(books, LoadedNow(books, intent), received).orders
        == SetOrder(books, LoadedNow(books, intent), PaymentVerified).orders;
  }

  lemma ReviewMoves(books: Books, loaded: Loaded)
    requires loaded.intent in books.intents
    ensures ToReview(books, loaded).orders
         == if loaded.order == PaymentPending then books.orders[books.intents[loaded.intent].order := ManualReview]
            else books.orders
  {
    OrderStepBySource(loaded.order, ManualReview);
  }

  /** What else becomes of a payment, by the status it was loaded with: an operator rejects
      whatever is not final, a customer submits only what is awaited, and time runs out only
      for what was not detected yet. Nothing but its status changes. */
  lemma RejectedSubmittedLapsed(books: Books, loaded: Loaded)
    requires loaded.intent in books.intents
    ensures Reject(books, loaded)
         == if loaded.payment in {Verified, Cancelled, Failed} then books else WithStatus(books, loaded.intent, Failed)
    ensures Submit(books, loaded)
         == if loaded.payment == AwaitingPayment then WithStatus(books, loaded.intent, Submitted) else books
    ensures ExpireDue(books, loaded)
         == if loaded.payment in {Created, AwaitingPayment, Submitted, Detecting}
            then WithStatus(books, loaded.intent, Expired) else books
  {
    PaymentStepBySource(loaded.payment, Submitted);
    assert CanReach(loaded.payment, Failed) <==> loaded.payment !in {Verified, Cancelled};
  }

  /** The books with another status of one payment. */
  function WithStatus(books: Books, intent: IntentId, status: PaymentStatus): Books
    requires intent in books.intents
  {
    books.(intents := books.intents[intent := books.intents[intent].(status := status)])
  }

  /** `world` is reached by a run from `start`. */
  ghost predicate Reaches(engine: Engine, start: World, world: World) {
    exists steps :: Legal(engine, start, steps) && After(engine, start, steps) == world
  }

  lemma ReachesItself(engine: Engine, world: World)
    ensures Reaches(engine, world, world)
  {
    assert Legal(engine, world, []);
  }

  lemma {:induction false} RunThenStep(engine: Engine, start: World, steps: seq<Step>, step: Step)
    requires Legal(engine, start, steps) && Enabled(engine, After(engine, start, steps), step)
    ensures Legal(engine, start, steps + [step])
    ensures After(engine, start, steps + [step]) == Apply(engine, After(engine, start, steps), step)
    decreases |steps|
  {
    var run := steps + [step];
    if steps == [] {
      assert run[0] == step && run[1..] == [];
      assert Legal(engine, Apply(engine, start, step), []);
    } else {
      assert run[0] == steps[0] && run[1..] == steps[1..] + [step];
      RunThenStep(engine, Apply(engine, start, steps[0]), steps[1..], step);
    }
  }

  lemma ReachNext(engine: Engine, start: World, world: World, step: Step)
    requires Reaches(engine, start, world) && Enabled(engine, world, step)
    ensures Reaches(engine, start, Apply(engine, world, step))
  {
    var steps :| Legal(engine, start, steps) && After(engine, start, steps) == world;
    RunThenStep(engine, start, steps, step);
  }

  /** The only open session commits. */
  lemma ReachByCommit(engine: Engine, start: World, books: Books, pass: PassId, loaded: Loaded, work: Work)
    requires Reaches(engine, start, World(books, map[pass := loaded])) && loaded.intent in books.intents
    requires Possible(engine, books, loaded, work)
    ensures Reaches(engine, start, World(Do(books, loaded, work), map[]))
  {
    var world := World(books, map[pass := loaded]);
    ReachNext(engine, start, world, Commit(pass, work));
    assert world.passes - {pass} == map[];
  }

  lemma ReachByMove(engine: Engine, start: World, books: Books, order: OrderId, status: OrderStatus)
    requires Reaches(engine, start, World(books, map[])) && order in books.orders
    ensures Reaches(engine, start, World(books.(orders := books.orders[order := status]), map[]))
  {
    ReachNext(engine, start, World(books, map[]), MoveOrder(order, status));
  }

  /** One pass that loads and commits with nothing in between. */
  lemma ReachByPass(engine: Engine, start: World, world: World, intent: IntentId, work: Work)
    requires Reaches(engine, start, world) && 0 !in world.passes
    requires intent in world.books.intents && world.books.intents[intent].order in world.books.orders
    requires Possible(engine, world.books, LoadedNow(world.books, intent), work)
    ensures Reaches(engine, start, world.(books := Do(world.books, LoadedNow(world.books, intent), work)))
  {
    var loading := Load(0, intent);
    ReachNext(engine, start, world, loading);
    var loaded := Apply(engine, world, loading);
    assert Enabled(engine, loaded, Commit(0, work));
    ReachNext(engine, start, loaded, Commit(0, work));
    assert loaded.passes - {0} == world.passes;
  }

  /** Two pending orders, one intent each, with the same expectation. */
  function TwoOrders(e: Expectation): Books {
    Books(map[1 := Intent(1, AwaitingPayment, e, None), 2 := Intent(2, AwaitingPayment, e, None)],
          map[1 := PaymentPending, 2 := PaymentPending], map[], map[])
  }

  lemma TwoOrdersAreReached(engine: Engine, e: Expectation)
    ensures Reaches(engine, EMPTY, World(TwoOrders(e), map[]))
  {
    TwoNewIntents(engine, e);
    var unpaid := TwoOrders(e).(orders := map[1 := OrderCreated, 2 := OrderCreated]);
    ReachByMove(engine, EMPTY, unpaid, 1, PaymentPending);
    var first := unpaid.(orders := unpaid.orders[1 := PaymentPending]);
    ReachByMove(engine, EMPTY, first, 2, PaymentPending);
    assert first.orders[2 := PaymentPending] == TwoOrders(e).orders;
  }

  lemma TwoNewIntents(engine: Engine, e: Expectation)
    ensures Reaches(engine, EMPTY, World(TwoOrders(e).(orders := map[1 := OrderCreated, 2 := OrderCreated]), map[]))
  {
    var none: map<IntentId, Intent> := map[];
    var a := World(Books(none, map[1 := OrderCreated, 2 := OrderCreated], map[], map[]), map[]);
    TwoNewOrders(engine);
    ReachNext(engine, EMPTY, a, OpenIntent(1, 1, e));
    var b := World(a.books.(intents := map[1 := Intent(1, AwaitingPayment, e, None)]), map[]);
    assert Apply(engine, a, OpenIntent(1, 1, e)) == b;
    ReachNext(engine, EMPTY, b, OpenIntent(2, 2, e));
    assert Apply(engine, b, OpenIntent(2, 2, e)).books.intents == TwoOrders(e).intents;
  }

  lemma TwoNewOrders(engine: Engine)
    ensures Reaches(engine, EMPTY, World(Books(map[], map[1 := OrderCreated, 2 := OrderCreated], map[], map[]), map[]))
  {
    ReachesItself(engine, EMPTY);
    ReachNext(engine, EMPTY, EMPTY, OpenOrder(1));
    var one := Apply(engine, EMPTY, OpenOrder(1));
    ReachNext(engine, EMPTY, one, OpenOrder(2));
    assert Apply(engine, one, OpenOrder(2)).books.orders == map[1 := OrderCreated, 2 := OrderCreated];
  }

  /** The window lapsed: first the payment expired, then its order. */
  function FirstLapsed(e: Expectation): Books {
    TwoOrders(e).(intents := map[1 := Intent(1, Expired, e, None), 2 := Intent(2, AwaitingPayment, e, None)],
                  orders := map[1 := OrderExpired, 2 := PaymentPending])
  }

  lemma LapsingPass(e: Expectation)
    ensures ExpireDue(TwoOrders(e), LoadedNow(TwoOrders(e), 1)) == TwoOrders(e).(intents := FirstLapsed(e).intents)
  {
    assert SetPayment(TwoOrders(e), LoadedNow(TwoOrders(e), 1), Expired).intents == FirstLapsed(e).intents;
  }

  lemma FirstLapsedIsReached(engine: Engine, e: Expectation)
    ensures Reaches(engine, EMPTY, World(FirstLapsed(e), map[]))
  {
    LapsedPaymentIsReached(engine, e);
    var lapsed := TwoOrders(e).(intents := FirstLapsed(e).intents);
    ReachByMove(engine, EMPTY, lapsed, 1, OrderExpired);
    assert lapsed.orders[1 := OrderExpired] == FirstLapsed(e).orders;
  }

  lemma LapsedPaymentIsReached(engine: Engine, e: Expectation)
    ensures Reaches(engine, EMPTY, World(TwoOrders(e).(intents := FirstLapsed(e).intents), map[]))
  {
    TwoOrdersAreReached(engine, e);
    LapsingPass(e);
    ReachByPass(engine, EMPTY, World(TwoOrders(e), map[]), 1, Lapsing);
  }

  /** A good transfer that turns up then, however good, is neither credited nor reviewed: a
      pass over it changes nothing, and so the next one meets the same. */
  lemma LateTransferIsRolledBack(engine: Engine, e: Expectation, tx: Observed, decision: Decision, limits: Limits)
    requires engine(e, tx) == Success(decision) && decision.outcome == VerifiedOutcome
    ensures var books := FirstLapsed(e);
            && Reaches(engine, EMPTY, World(books, map[]))
            && Offered(engine, books.intents[1].expectation, Choice(Some(tx), decision))
            && Verify(books, LoadedNow(books, 1), Choice(Some(tx), decision), limits) == books
  {
    FirstLapsedIsReached(engine, e);
    var books, choice := FirstLapsed(e), Choice(Some(tx), decision);
    assert OutcomeOfClaim(books, 1, choice) == VerifiedOutcome;
    VerifiedPassNeedsOpenOrder(books, LoadedNow(books, 1), choice, limits);
  }

  /** A transfer to order 1 was seen, and has confirmations to wait for. */
  function FirstSeen(e: Expectation, tx: Observed): Books {
    TwoOrders(e).(intents := map[1 := Intent(1, PendingConfirmation, e, Some(tx.Amount())),
                                 2 := Intent(2, AwaitingPayment, e, None)])
  }

  lemma SeeingPass(e: Expectation, tx: Observed, decision: Decision)
    requires decision.outcome == PendingConfirmations
    ensures Verify(TwoOrders(e), LoadedNow(TwoOrders(e), 1), Choice(Some(tx), decision), Limits(false, false))
         == FirstSeen(e, tx)
  {
    var books, choice := TwoOrders(e), Choice(Some(tx), decision);
    var loaded := LoadedNow(books, 1);
    assert MayFinish(loaded, PendingConfirmations, Limits(false, false));
    assert SetPayment(SetReceived(books, 1, tx.Amount()), loaded, PendingConfirmation).intents
        == FirstSeen(e, tx).intents;
  }

  /** The provider then shows nothing for a while: the pass raises, and leaves no trace. */
  lemma SeenTransferThenNothing(engine: Engine, e: Expectation, tx: Observed, decision: Decision)
    requires engine(e, tx) == Success(decision) && decision.outcome == PendingConfirmations
    ensures var books := FirstSeen(e, tx);
            && Reaches(engine, EMPTY, World(books, map[]))
            && Verify(books, LoadedNow(books, 1), NothingFound(), Limits(false, false)) == books
  {
    TwoOrdersAreReached(engine, e);
    SeeingPass(e, tx, decision);
    ReachByPass(engine, EMPTY, World(TwoOrders(e), map[]), 1,
                Checking(Choice(Some(tx), decision), Limits(false, false)));
    NothingFoundNeedsAnUndetectedPayment(FirstSeen(e, tx), LoadedNow(FirstSeen(e, tx), 1));
  }

  /** Intent 1 as a session finds it there. */
  const AWAITED: Loaded := Loaded(1, AwaitingPayment, PaymentPending, None, false)

  /** The books once `tx` was credited to order 1. */
  function FirstPaid(e: Expectation, tx: Observed): Books {
    Books(map[1 := Intent(1, Verified, e, Some(tx.Amount())), 2 := Intent(2, AwaitingPayment, e, None)],
          map[1 := PaymentVerified, 2 := PaymentPending],
          map[tx.transfer := Claim(1, 1, tx)],
          map[CreditOf(1) := Credited(Some(tx.Amount()), e)])
  }

  lemma FirstPass(e: Expectation, tx: Observed, decision: Decision)
    requires decision.outcome == VerifiedOutcome
    ensures Verify(TwoOrders(e), AWAITED, Choice(Some(tx), decision),
            Limits(false, false))
         == FirstPaid(e, tx)
  {
    var books, choice := TwoOrders(e), Choice(Some(tx), decision);
    var loaded := AWAITED;
    var claimed := InsertClaim(books, 1, tx);
    assert claimed == books.(claims := map[tx.transfer := Claim(1, 1, tx)]);
    assert OutcomeOfClaim(books, 1, choice) == VerifiedOutcome;
    OpenOrders(loaded);
    FirstCredit(e, tx, Noted(claimed, 1, Some(tx)), tx.Amount());
  }

  lemma FirstCredit(e: Expectation, tx: Observed, noted: Books, amount: Decimal)
    requires noted.intents == map[1 := Intent(1, AwaitingPayment, e, Some(amount)), 2 := Intent(2, AwaitingPayment, e,
            None)]
    requires noted.orders == map[1 := PaymentPending, 2 := PaymentPending] && noted.journal == map[]
    requires noted.claims == map[tx.transfer := Claim(1, 1, tx)] && amount == tx.Amount()
    ensures MarkVerified(noted, AWAITED, Some(amount)) == FirstPaid(e, tx)
  {
    var now := MarkVerified(noted, AWAITED, Some(amount));
    assert now.intents == FirstPaid(e, tx).intents;
    assert now.orders == FirstPaid(e, tx).orders;
    assert now.journal == FirstPaid(e, tx).journal;
  }

  lemma FirstPaidIsReached(engine: Engine, e: Expectation, tx: Observed, decision: Decision)
    requires engine(e, tx) == Success(decision) && decision.outcome == VerifiedOutcome
    ensures Reaches(engine, EMPTY, World(FirstPaid(e, tx), map[]))
  {
    TwoOrdersAreReached(engine, e);
    FirstPass(e, tx, decision);
    ReachByPass(engine, EMPTY, World(TwoOrders(e), map[]), 1,
                Checking(Choice(Some(tx), decision), Limits(false, false)));
  }

  /** The books once the second order met the same transfer: a duplicate, for a human to look at. */
  function SecondInReview(e: Expectation, tx: Observed): Books {
    FirstPaid(e, tx).(
      intents := map[1 := Intent(1, Verified, e, Some(tx.Amount())), 2 := Intent(2, UnderReview, e, Some(tx.Amount()))],
      orders := map[1 := PaymentVerified, 2 := ManualReview])
  }

  /** The books with a payment of `amount` and its order under review. */
  function Reviewed(books: Books, intent: IntentId, amount: Decimal): Books
    requires intent in books.intents
  {
    var was := books.intents[intent];
    books.(intents := books.intents[intent := Intent(was.order, UnderReview, was.expectation, Some(amount))],
           orders := books.orders[was.order := ManualReview])
  }

  /** A duplicate found on a pending order puts payment and order in front of a human. */
  lemma DuplicateToReview(books: Books, loaded: Loaded, choice: Choice, limits: Limits)
    requires loaded.intent in books.intents && loaded.payment !in {Verified, Cancelled, UnderReview}
    requires choice.decision.outcome == VerifiedOutcome && choice.tx.Some? && loaded.order == PaymentPending
    requires !Holds(InsertClaim(books, loaded.intent, choice.tx.value), loaded.intent, choice.tx.value)
    ensures Verify(books, loaded, choice, limits) == Reviewed(books, loaded.intent, choice.tx.value.Amount())
  {
    var amount := choice.tx.value.Amount();
    InsertClaimCases(books, loaded.intent, choice.tx.value);
    assert OutcomeOfClaim(books, loaded.intent, choice) == Duplicate;
    assert Noted(Claimed(books, loaded.intent, choice), loaded.intent, choice.tx)
            == SetReceived(books, loaded.intent, amount);
    assert MayFinish(loaded, Duplicate, limits);
    ReviewOfPending(books, loaded, amount);
  }

  lemma ReviewOfPending(books: Books, loaded: Loaded, amount: Decimal)
    requires loaded.intent in books.intents && loaded.payment != UnderReview && loaded.order == PaymentPending
    ensures ToReview(SetReceived(books, loaded.intent, amount), loaded) == Reviewed(books, loaded.intent, amount)
  {
    assert ToReview(SetReceived(books, loaded.intent, amount), loaded).intents
            == Reviewed(books, loaded.intent, amount).intents;
  }

  lemma SecondInReviewIsReached(engine: Engine, e: Expectation, tx: Observed, decision: Decision)
    requires engine(e, tx) == Success(decision) && decision.outcome == VerifiedOutcome
    ensures Reaches(engine, EMPTY, World(SecondInReview(e, tx), map[]))
  {
    FirstPaidIsReached(engine, e, tx, decision);
    SecondPass(e, tx, decision);
    ReachByPass(engine, EMPTY, World(FirstPaid(e, tx), map[]), 2,
                Checking(Choice(Some(tx), decision), Limits(false, false)));
  }

  lemma SecondPass(e: Expectation, tx: Observed, decision: Decision)
    requires decision.outcome == VerifiedOutcome
    ensures Verify(FirstPaid(e, tx), LoadedNow(FirstPaid(e, tx), 2), Choice(Some(tx), decision), Limits(false, false))
         == SecondInReview(e, tx)
  {
    var books := FirstPaid(e, tx);
    DuplicateToReview(books, LoadedNow(books, 2), Choice(Some(tx), decision), Limits(false, false));
    assert Reviewed(books, 2, tx.Amount()).intents == SecondInReview(e, tx).intents;
  }

  /** A manual approval looks at the claims of its own order only. A transfer already
      credited to another order, caught as a duplicate, is credited again by approving:
      two paid orders and two journal lines over one transfer. */
  lemma OneTransferPaysTwoOrders(engine: Engine, e: Expectation, tx: Observed, decision: Decision)
    requires engine(e, tx) == Success(decision) && decision.outcome == VerifiedOutcome
    ensures exists books ::
              && Reaches(engine, EMPTY, World(books, map[]))
              && IsVerified(books, 1) && IsVerified(books, 2) && CreditOf(1) in books.journal
                      && CreditOf(2) in books.journal
              && books.orders == map[1 := PaymentVerified, 2 := PaymentVerified]
              && books.claims == map[tx.transfer := Claim(1, 1, tx)]
  {
    SecondInReviewIsReached(engine, e, tx, decision);
    var before := SecondInReview(e, tx);
    ReachByPass(engine, EMPTY, World(before, map[]), 2, Approving);
    ApprovedSecond(e, tx);
  }

  lemma ApprovedSecond(e: Expectation, tx: Observed)
    ensures var books := Approve(SecondInReview(e, tx), LoadedNow(SecondInReview(e, tx), 2));
            && IsVerified(books, 1) && IsVerified(books, 2)
            && CreditOf(1) in books.journal && CreditOf(2) in books.journal
            && books.orders == map[1 := PaymentVerified, 2 := PaymentVerified]
            && books.claims == map[tx.transfer := Claim(1, 1, tx)]
  {
    var before := SecondInReview(e, tx);
    var loaded := LoadedNow(before, 2);
    assert !OrderClaimedByOther(before, 2);
    ApprovalLeaves(before, loaded);
    assert before.orders[2 := PaymentVerified] == map[1 := PaymentVerified, 2 := PaymentVerified];
  }

  lemma ApprovalLeaves(books: Books, loaded: Loaded)
    requires loaded.intent in books.intents && loaded.order == ManualReview && loaded.payment == UnderReview
    requires !loaded.taken
    ensures var now := Approve(books, loaded);
            && IsVerified(now, loaded.intent) && CreditOf(loaded.intent) in now.journal
            && now.claims == books.claims
            && now.orders == books.orders[books.intents[loaded.intent].order := PaymentVerified]
            && (forall key :: key in books.journal ==> key in now.journal)
            && forall i :: i in books.intents && i != loaded.intent ==>
                    i in now.intents && now.intents[i] == books.intents[i]
  {
  }

  /** Two passes over one payment that sees two good transfers. The slower pass takes the
      second transfer for a duplicate, because an intent can claim only one, and sends
      the paid order and its verified payment to manual review. */
  lemma SlowerPassSendsPaidOrderToReview(engine: Engine, e: Expectation, tx: Observed, other: Observed,
                                         first: Decision, second: Decision)
    requires engine(e, tx) == Success(first) && first.outcome == VerifiedOutcome
    requires engine(e, other) == Success(second) && second.outcome == VerifiedOutcome
    requires tx.transfer != other.transfer
    ensures exists books ::
              && Reaches(engine, EMPTY, World(books, map[]))
              && CreditOf(1) in books.journal && HasClaim(books.claims, 1)
              && books.intents.Keys == {1, 2} && books.intents[1].status == UnderReview
              && books.orders == map[1 := ManualReview, 2 := PaymentPending]
  {
    LatePassIsReached(engine, e, tx, other, first, second);
    var books := Reviewed(FirstPaid(e, tx), 1, other.Amount());
    LateDuplicate(e, tx, other, second);
    assert books.claims[tx.transfer].intent == 1;
  }

  lemma LatePassIsReached(engine: Engine, e: Expectation, tx: Observed, other: Observed,
                          first: Decision, second: Decision)
    requires engine(e, tx) == Success(first) && first.outcome == VerifiedOutcome
    requires engine(e, other) == Success(second) && second.outcome == VerifiedOutcome
    requires tx.transfer != other.transfer
    ensures Reaches(engine, EMPTY, World(Reviewed(FirstPaid(e, tx), 1, other.Amount()), map[]))
  {
    PaidWhileLoaded(engine, e, tx, first);
    LateDuplicate(e, tx, other, second);
    ReachByCommit(engine, EMPTY, FirstPaid(e, tx), 7, AWAITED,
                  Checking(Choice(Some(other), second), Limits(false, false)));
  }

  lemma LateDuplicate(e: Expectation, tx: Observed, other: Observed, decision: Decision)
    requires decision.outcome == VerifiedOutcome && tx.transfer != other.transfer
    ensures Verify(FirstPaid(e, tx), AWAITED, Choice(Some(other), decision),
            Limits(false, false))
         == Reviewed(FirstPaid(e, tx), 1, other.Amount())
    ensures Reviewed(FirstPaid(e, tx), 1, other.Amount()).orders == map[1 := ManualReview, 2 := PaymentPending]
  {
    var paid := FirstPaid(e, tx);
    assert HasClaim(paid.claims, 1) by {
      assert paid.claims[tx.transfer].intent == 1;
    }
    DuplicateToReview(paid, AWAITED, Choice(Some(other), decision),
        Limits(false, false));
  }

  lemma PaidWhileLoaded(engine: Engine, e: Expectation, tx: Observed, decision: Decision)
    requires engine(e, tx) == Success(decision) && decision.outcome == VerifiedOutcome
    ensures Reaches(engine, EMPTY, World(FirstPaid(e, tx), map[7 := AWAITED]))
  {
    TwoOrdersAreReached(engine, e);
    FirstPass(e, tx, decision);
    var start := World(TwoOrders(e), map[]);
    ReachNext(engine, EMPTY, start, Load(7, 1));
    var loaded := World(TwoOrders(e), map[7 := AWAITED]);
    assert Apply(engine, start, Load(7, 1)) == loaded;
    ReachByPass(engine, EMPTY, loaded, 1, Checking(Choice(Some(tx), decision), Limits(false, false)));
  }

  // ------------------------------------------------------- replaced intents

  /** Opening another intent takes VERIFIED away exactly when the payment, as loaded, could
      still be cancelled and the order was not yet paid. */
  lemma ReplacementOverwrites(books: Books, loaded: Loaded, next: IntentId, expectation: Expectation)
    requires IsVerified(books, loaded.intent) && next !in books.intents
    ensures !IsVerified(Replace(books, loaded, next, expectation), loaded.intent)
       <==> loaded.payment in {Created, AwaitingPayment, Submitted, Detecting} && !loaded.order.IsPaid()
  {
    assert loaded.payment in {Created, AwaitingPayment, Submitted, Detecting}
      <==> loaded.payment.IsOpen() && PaymentStepAllowed(loaded.payment, Cancelled);
  }

  /** The customer opens a second intent while the first one is being verified: the paid,
      journalled payment ends up CANCELLED, which is final, its order is paid, and yet
      another intent waits for money. */
  lemma ReplacedWhilePaid(engine: Engine, e: Expectation, tx: Observed, decision: Decision)
    requires engine(e, tx) == Success(decision) && decision.outcome == VerifiedOutcome
    ensures exists books ::
              && Reaches(engine, EMPTY, World(books, map[]))
              && CreditOf(1) in books.journal && HasClaim(books.claims, 1)
              && books.orders == map[1 := PaymentVerified, 2 := PaymentPending]
              && books.intents.Keys == {1, 2, 3} && books.intents[1].status == Cancelled
              && books.intents[3] == Intent(1, AwaitingPayment, e, None)
  {
    PaidWhileLoaded(engine, e, tx, decision);
    ReplacedIsReached(engine, FirstPaid(e, tx), e);
    ReplacedBooks(e, tx);
  }

  lemma ReplacedIsReached(engine: Engine, books: Books, e: Expectation)
    requires Reaches(engine, EMPTY, World(books, map[7 := AWAITED])) && 1 in books.intents && 3 !in books.intents
    ensures Reaches(engine, EMPTY, World(Replace(books, AWAITED, 3, e), map[]))
  {
    ReachByCommit(engine, EMPTY, books, 7, AWAITED, Replacing(3, e));
  }

  lemma ReplacedBooks(e: Expectation, tx: Observed)
    ensures var books := Replace(FirstPaid(e, tx), AWAITED, 3, e);
            && CreditOf(1) in books.journal && HasClaim(books.claims, 1)
            && books.orders == map[1 := PaymentVerified, 2 := PaymentPending]
            && books.intents.Keys == {1, 2, 3} && books.intents[1].status == Cancelled
            && books.intents[3] == Intent(1, AwaitingPayment, e, None)
  {
    assert FirstPaid(e, tx).claims[tx.transfer].intent == 1;
  }
}
