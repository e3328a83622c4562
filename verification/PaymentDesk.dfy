/** The payment service at work: a session over the tables, holding the intent and the
    order it loaded. Each method does what the function of the same name in `Credit`
    says, writing row by row and rolling everything back when a guard raises. */
module PaymentDesk {
  import opened Wrappers
  import opened Walks
  import opened Decimals
  import opened Lifecycle
  import opened Verification
  import opened Credit

  class Session {
    var intents: map<IntentId, Intent>
    var orders: map<OrderId, OrderStatus>
    var claims: map<Transfer, Claim>
    var journal: map<Entry, Decimal>

    /** The loaded objects, as this session has changed them. */
    const loaded: Loaded
    var payment: PaymentStatus
    var order: OrderStatus

    ghost function Rows(): Books
      reads this
    {
      Books(intents, orders, claims, journal)
    }

    constructor (rows: Books, loaded: Loaded)
      requires loaded.intent in rows.intents
      ensures Rows() == rows && this.loaded == loaded && payment == loaded.payment && order == loaded.order
    {
      intents, orders, claims, journal := rows.intents, rows.orders, rows.claims, rows.journal;
      this.loaded := loaded;
      payment, order := loaded.payment, loaded.order;
    }

    /** `_transition`: one guarded step, written only when it changes the status. */
    method Transition(target: PaymentStatus) returns (ok: bool)
      requires loaded.intent in intents
      modifies this`intents, this`payment
      ensures ok <==> PaymentStepAllowed(old(payment), target)
      ensures !ok ==> intents == old(intents) && payment == old(payment)
      ensures ok ==> payment == target && Rows() == SetPayment(old(Rows()), loaded.(payment := old(payment)), target)
    {
      if !PaymentStepAllowed(payment, target) {
        return false;
      }
      if payment != target {
        intents := intents[loaded.intent := intents[loaded.intent].(status := target)];
        payment := target;
      }
      return true;
    }

    /** `_advance`: every status on the canonical path is entered in turn. */
    method Advance(target: PaymentStatus) returns (ok: bool)
      requires loaded.intent in intents
      modifies this`intents, this`payment
      ensures ok <==> CanReach(old(payment), target)
      ensures !ok ==> intents == old(intents) && payment == old(payment)
      ensures ok ==> payment == target && Rows() == SetPayment(old(Rows()), loaded.(payment := old(payment)), target)
    {
      var path := PaymentPath(payment, target);
      if path.Failure? {
        return false;
      }
      ghost var start := payment;
      var steps := path.value;
      for k := 0 to |steps|
        invariant loaded.intent in intents && payment == Before(start, steps, k)
        invariant intents == if k == 0 then old(intents)
                             else old(intents)[loaded.intent := old(intents)[loaded.intent].(status := payment)]
      {
        assert IsEdge(PAYMENT_TRANSITIONS, start, steps, k);
        var stepped := Transition(steps[k]);
        assert stepped;
      }
      assert steps == [] <==> start == target by {
        assert start == target ==> IsWalkTo(PAYMENT_TRANSITIONS, start, target, []);
      }
      return true;
    }

    /** The transition of the order service. */
    method MoveOrder(target: OrderStatus) returns (ok: bool)
      requires loaded.intent in intents
      modifies this`orders, this`order
      ensures ok <==> OrderStepAllowed(old(order), target)
      ensures !ok ==> orders == old(orders) && order == old(order)
      ensures ok ==> order == target && Rows() == SetOrder(old(Rows()), loaded.(order := old(order)), target)
    {
      if !OrderStepAllowed(order, target) {
        return false;
      }
      if order != target {
        orders := orders[intents[loaded.intent].order := target];
        order := target;
      }
      return true;
    }

    /** `_claim`: the insert under a savepoint, and the look at who holds the transfer. */
    method ClaimTransfer(tx: Observed) returns (claimed: bool)
      requires loaded.intent in intents
      modifies this`claims
      ensures Rows() == InsertClaim(old(Rows()), loaded.intent, tx)
      ensures claimed <==> Holds(Rows(), loaded.intent, tx)
    {
      if tx.transfer in claims || HasClaim(claims, loaded.intent) {
        return tx.transfer in claims && claims[tx.transfer].intent == loaded.intent;
      }
      claims := claims[tx.transfer := Claim(loaded.intent, intents[loaded.intent].order, tx)];
      return true;
    }

    /** `record`: appended unless the key is there. */
    method Record(key: Entry, amount: Decimal) returns (added: bool)
      modifies this`journal
      ensures journal == Journal(old(journal), key, amount)
      ensures added <==> key !in old(journal)
    {
      if key in journal {
        return false;
      }
      journal := journal[key := amount];
      return true;
    }

    /** `_mark_verified`. */
    method Credit(received: Option<Decimal>) returns (ok: bool)
      requires loaded.intent in intents && payment != Verified
      modifies this
      ensures ok <==> CanReach(old(payment), Verified) && OrderStepAllowed(old(order), PaymentVerified)
      ensures ok ==>
                Rows() == MarkVerified(old(Rows()), loaded.(payment := old(payment), order := old(order)), received)
      ensures ok && CreditOf(loaded.intent) !in old(journal) ==>
                && CreditOf(loaded.intent) in journal
                && journal[CreditOf(loaded.intent)]
                   == if received.Some? && received.value.Signed() != 0 then received.value
                      else old(intents[loaded.intent]).expectation.expectedAmount
    {
      var amount := Credited(received, intents[loaded.intent].expectation);
      ok := Advance(Verified);
      if !ok {
        return;
      }
      ok := MoveOrder(PaymentVerified);
      if !ok {
        return;
      }
      var _ := Record(CreditOf(loaded.intent), amount);
    }

    /** `_to_review`: a refusal of the order's guard is swallowed. */
    method SendToReview() returns (ok: bool)
      requires loaded.intent in intents
      modifies this`intents, this`payment, this`orders, this`order
      ensures ok <==> CanReach(old(payment), UnderReview)
      ensures ok ==> Rows() == ToReview(old(Rows()), loaded.(payment := old(payment), order := old(order)))
    {
      ok := Advance(UnderReview);
      if ok && !order.IsPaid() && !order.IsTerminal() {
        var _ := MoveOrder(ManualReview);
      }
    }

    /** One branch of `_record_outcome`. */
    method MoveTo(target: PaymentStatus, received: Option<Decimal>) returns (ok: bool)
      requires loaded.intent in intents && payment !in {Verified, Submitted, AwaitingPayment}
      modifies this
      ensures var now := loaded.(payment := old(payment), order := old(order));
              && (ok <==> MayMove(now, target))
              && (ok ==> Rows() == Move(old(Rows()), now, target, received))
    {
      if target == Verified {
        ok := Credit(received);
      } else if target == UnderReview {
        ok := SendToReview();
      } else if target == Detecting {
        ok := Transition(Detecting);
      } else {
        ok := Advance(target);
      }
    }

    /** The end of `_record_outcome`: what the outcome does to the payment and its order. */
    method Settle(outcome: Outcome, limits: Limits, received: Option<Decimal>) returns (ok: bool)
      requires loaded.intent in intents && payment !in {Verified, Submitted, AwaitingPayment}
      modifies this
      ensures var now := loaded.(payment := old(payment), order := old(order));
              && (ok <==> MayFinish(now, outcome, limits))
              && (ok ==> Rows() == Finish(old(Rows()), now, outcome, limits, received))
    {
      match TargetOf(outcome, limits)
      case None => ok := true;
      case Some(target) => ok := MoveTo(target, received);
    }

    /** A waiting payment is being looked for from now on. */
    method Start()
      requires loaded.intent in intents
      modifies this`intents, this`payment
      ensures payment == Started(old(payment))
      ensures Rows() == SetPayment(old(Rows()), loaded.(payment := old(payment)), Started(old(payment)))
    {
      if payment in {Submitted, AwaitingPayment} {
        var started := Transition(Detecting);
        assert started;
      }
    }

    /** The middle of `verify`: claim what is to be credited, and note what was received. */
    method Observe(choice: Choice) returns (outcome: Outcome, received: Option<Decimal>)
      requires loaded.intent in intents
      modifies this`claims, this`intents
      ensures outcome == OutcomeOfClaim(old(Rows()), loaded.intent, choice)
      ensures Rows() == Noted(Claimed(old(Rows()), loaded.intent, choice), loaded.intent, choice.tx)
      ensures received == if choice.tx.Some? then Some(choice.tx.value.Amount()) else loaded.received
    {
      outcome, received := choice.decision.outcome, loaded.received;
      if outcome == VerifiedOutcome && choice.tx.Some? {
        var claimed := ClaimTransfer(choice.tx.value);
        if !claimed {
          outcome := Duplicate;
        }
      }
      if choice.tx.Some? {
        received := Some(choice.tx.value.Amount());
        intents := intents[loaded.intent := intents[loaded.intent].(received := received)];
      }
    }

    /** `verify`, for a payment that is not verified yet, up to the commit. */
    method Proceed(choice: Choice, limits: Limits) returns (ok: bool)
      requires loaded.intent in intents && payment == loaded.payment != Verified && order == loaded.order
      modifies this
      ensures EndsIn(old(Rows()), loaded, choice, limits, ok, Rows())
    {
      Start();
      var outcome, received := Observe(choice);
      ok := Settle(outcome, limits, received);
    }

    /** `verify`, from the loaded intent to the commit. A guard that raises leaves the
        tables as they were. */
    method RunPass(choice: Choice, limits: Limits) returns (ok: bool)
      requires loaded.intent in intents && payment == loaded.payment && order == loaded.order
      modifies this
      ensures Rows() == Verify(old(Rows()), loaded, choice, limits)
    {
      if payment == Verified {
        return true;
      }
      var savedIntents, savedOrders, savedClaims, savedJournal := intents, orders, claims, journal;
      ok := Proceed(choice, limits);
      PassIsVerify(old(Rows()), loaded, choice, limits, ok, Rows());
      if !ok {
        intents, orders, claims, journal := savedIntents, savedOrders, savedClaims, savedJournal;
      }
    }

    /** `approve_manually`. */
    method ApproveByHand() returns (ok: bool)
      requires loaded.intent in intents && payment == loaded.payment && order == loaded.order
      modifies this
      ensures Rows() == Approve(old(Rows()), loaded)
    {
      if !Approvable(payment) || loaded.taken {
        return false;
      }
      var savedIntents, savedOrders, savedClaims, savedJournal := intents, orders, claims, journal;
      ok := Credit(loaded.received);
      if !ok {
        intents, orders, claims, journal := savedIntents, savedOrders, savedClaims, savedJournal;
        return;
      }
      var _ := Record(ApprovalOf(loaded.intent), Decimal(false, 0, 0));
    }

    /** `create_intent`, with the open intent the session has loaded. */
    method ReplaceIntent(next: IntentId, expectation: Expectation) returns (ok: bool)
      requires loaded.intent in intents && next !in intents && payment == loaded.payment && order == loaded.order
      modifies this
      ensures Rows() == Replace(old(Rows()), loaded, next, expectation)
      ensures ok <==> next in intents
    {
      if order.IsPaid() || !payment.IsOpen() {
        return false;
      }
      ok := Transition(Cancelled);
      if ok {
        intents := intents[next := Intent(intents[loaded.intent].order, AwaitingPayment, expectation, None)];
      }
    }
  }

  /** Whether a pass may end, and the rows it ends in, in terms of the rows once it started. */
  ghost predicate EndsIn(books: Books, loaded: Loaded, choice: Choice, limits: Limits, ok: bool, rows: Books)
    requires loaded.intent in books.intents
  {
    var began := SetPayment(books, loaded, Started(loaded.payment));
    var now := loaded.(payment := Started(loaded.payment));
    var outcome := OutcomeOfClaim(began, loaded.intent, choice);
    var received := if choice.tx.Some? then Some(choice.tx.value.Amount()) else loaded.received;
    var noted := Noted(Claimed(began, loaded.intent, choice), loaded.intent, choice.tx);
    && (ok <==> MayFinish(now, outcome, limits))
    && (ok ==> rows == Finish(noted, now, outcome, limits, received))
  }

  lemma PassIsVerify(books: Books, loaded: Loaded, choice: Choice, limits: Limits, ok: bool, rows: Books)
    requires loaded.intent in books.intents && loaded.payment != Verified
    requires EndsIn(books, loaded, choice, limits, ok, rows)
    ensures Verify(books, loaded, choice, limits) == if ok then rows else books
  {
    var outcome := OutcomeOfClaim(books, loaded.intent, choice);
    var received := if choice.tx.Some? then Some(choice.tx.value.Amount()) else loaded.received;
    StartIsAbsorbed(books, loaded, choice, outcome, limits, received);
  }

  /** Writing DETECTING first makes no difference to where the pass ends. */
  lemma StartIsAbsorbed(books: Books, loaded: Loaded, choice: Choice, outcome: Outcome, limits: Limits,
                        received: Option<Decimal>)
    requires loaded.intent in books.intents
    ensures var began := SetPayment(books, loaded, Started(loaded.payment));
            var now := loaded.(payment := Started(loaded.payment));
            && OutcomeOfClaim(began, loaded.intent, choice) == OutcomeOfClaim(books, loaded.intent, choice)
            && MayFinish(now, outcome, limits) == MayFinish(loaded, outcome, limits)
            && Finish(Noted(Claimed(began, loaded.intent, choice), loaded.intent, choice.tx), now, outcome, limits,
                    received)
            == Finish(Noted(Claimed(books, loaded.intent, choice), loaded.intent, choice.tx), loaded, outcome, limits,
                received)
  {
    var began := SetPayment(books, loaded, Started(loaded.payment));
    var noted := Noted(Claimed(books, loaded.intent, choice), loaded.intent, choice.tx);
    NotingCommutes(books, loaded, choice);
    FinishAfterStart(noted, loaded, outcome, limits, received);
  }

  lemma NotingCommutes(books: Books, loaded: Loaded, choice: Choice)
    requires loaded.intent in books.intents
    ensures var began := SetPayment(books, loaded, Started(loaded.payment));
            && Noted(Claimed(began, loaded.intent, choice), loaded.intent, choice.tx)
            == SetPayment(Noted(Claimed(books, loaded.intent, choice), loaded.intent, choice.tx), loaded,
                Started(loaded.payment))
            && OutcomeOfClaim(began, loaded.intent, choice) == OutcomeOfClaim(books, loaded.intent, choice)
  {
    var began := SetPayment(books, loaded, Started(loaded.payment));
    assert Claimed(began, loaded.intent, choice).intents == began.intents;
    assert Claimed(books, loaded.intent, choice).intents == books.intents;
    assert Noted(Claimed(began, loaded.intent, choice), loaded.intent, choice.tx).intents
        == SetPayment(Noted(Claimed(books, loaded.intent, choice), loaded.intent, choice.tx), loaded,
            Started(loaded.payment)).intents;
  }

  lemma FinishAfterStart(books: Books, loaded: Loaded, outcome: Outcome, limits: Limits, received: Option<Decimal>)
    requires loaded.intent in books.intents
    ensures var now := loaded.(payment := Started(loaded.payment));
            && MayFinish(now, outcome, limits) == MayFinish(loaded, outcome, limits)
            && Finish(SetPayment(books, loaded, Started(loaded.payment)), now, outcome, limits, received)
            == Finish(books, loaded, outcome, limits, received)
  {
    if loaded.payment in {Submitted, AwaitingPayment} {
      WaitingFinish(books, loaded, outcome, limits, received);
    }
  }

  lemma WaitingFinish(books: Books, loaded: Loaded, outcome: Outcome, limits: Limits, received: Option<Decimal>)
    requires loaded.intent in books.intents && loaded.payment in {Submitted, AwaitingPayment}
    ensures Finish(SetPayment(books, loaded, Detecting), loaded.(payment := Detecting), outcome, limits, received)
         == Finish(books, loaded, outcome, limits, received)
  {
    match TargetOf(outcome, limits)
    case None =>
    case Some(target) =>
      if target == Verified {
        CreditAfterStart(books, loaded, received);
      } else if target == UnderReview {
        ReviewAfterStart(books, loaded);
      } else {
        OverwriteStatus(books, loaded, target);
      }
  }

  lemma CreditAfterStart(books: Books, loaded: Loaded, received: Option<Decimal>)
    requires loaded.intent in books.intents && loaded.payment in {Submitted, AwaitingPayment}
    ensures MarkVerified(SetPayment(books, loaded, Detecting), loaded.(payment := Detecting), received)
         == MarkVerified(books, loaded, received)
  {
    OverwriteStatus(books, loaded, Verified);
  }

  lemma ReviewAfterStart(books: Books, loaded: Loaded)
    requires loaded.intent in books.intents && loaded.payment in {Submitted, AwaitingPayment}
    ensures ToReview(SetPayment(books, loaded, Detecting), loaded.(payment := Detecting)) == ToReview(books, loaded)
  {
    OverwriteStatus(books, loaded, UnderReview);
  }

  lemma OverwriteStatus(books: Books, loaded: Loaded, target: PaymentStatus)
    requires loaded.intent in books.intents
    requires loaded.payment in {Submitted, AwaitingPayment} && target !in {Submitted, AwaitingPayment}
    ensures SetPayment(SetPayment(books, loaded, Detecting), loaded.(payment := Detecting), target)
            == SetPayment(books, loaded, target)
  {
    assert SetPayment(SetPayment(books, loaded, Detecting), loaded.(payment := Detecting), target).intents
        == SetPayment(books, loaded, target).intents;
  }
}
