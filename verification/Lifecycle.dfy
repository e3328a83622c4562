/** Order and payment statuses, their transition tables (app/domain/enums.py) and
    the guards and projections over them (app/domain/state_machines.py). */
module Lifecycle {
  import opened Wrappers
  import opened Walks

  datatype OrderStatus =
    | OrderCreated | PaymentPending | PaymentVerified | Fulfilling | Delivered | Completed
    | OrderCancelled | OrderExpired | ManualReview | DeliveryFailed | Refunded
  {
    predicate IsPaid() {
      this in {PaymentVerified, Fulfilling, Delivered, Completed, DeliveryFailed, Refunded}
    }

    predicate IsTerminal() {
      this in {Completed, OrderCancelled, OrderExpired, Refunded}
    }
  }

  datatype PaymentStatus =
    | Created | AwaitingPayment | Submitted | Detecting | Detected | Verifying | PendingConfirmation
    | Verified | UnderReview | Failed | Expired | Cancelled
  {
    predicate IsTerminal() {
      this in {Verified, Failed, Expired, Cancelled}
    }

    predicate IsOpen() {
      this in {Created, AwaitingPayment, Submitted, Detecting, Detected, Verifying, PendingConfirmation}
    }
  }

  const ORDER_TRANSITIONS: Table<OrderStatus> := map[
    OrderCreated := {PaymentPending, OrderCancelled, OrderExpired},
    PaymentPending := {PaymentVerified, OrderCancelled, OrderExpired, ManualReview, PaymentPending},
    PaymentVerified := {Fulfilling, ManualReview, Refunded},
    Fulfilling := {Delivered, DeliveryFailed, ManualReview},
    Delivered := {Completed, Refunded},
    DeliveryFailed := {Fulfilling, ManualReview, Refunded},
    ManualReview := {PaymentVerified, Fulfilling, OrderCancelled, Refunded, PaymentPending},
    OrderExpired := {PaymentPending, ManualReview},
    Completed := {Refunded},
    OrderCancelled := {},
    Refunded := {}
  ]

  const PAYMENT_TRANSITIONS: Table<PaymentStatus> := map[
    Created := {AwaitingPayment, Cancelled, Expired},
    AwaitingPayment := {Submitted, Detecting, Detected, Expired, Cancelled, UnderReview},
    Submitted := {Detecting, Detected, Verifying, Failed, Expired, UnderReview, Cancelled},
    Detecting := {Detected, Verifying, Failed, Expired, UnderReview, Cancelled},
    Detected := {Verifying, PendingConfirmation, Verified, Failed, UnderReview, Expired},
    Verifying := {PendingConfirmation, Verified, Failed, UnderReview, Detected, Expired},
    PendingConfirmation := {Verified, Verifying, Failed, UnderReview, Expired},
    Verified := {},
    UnderReview := {Verified, Failed, Verifying, Cancelled},
    Failed := {UnderReview, Verifying},
    Expired := {UnderReview, Verifying},
    Cancelled := {}
  ]

  /** The guards accept a step along the table, and staying put. */
  predicate OrderStepAllowed(current: OrderStatus, target: OrderStatus) {
    current == target || target in Successors(ORDER_TRANSITIONS, current)
  }

  predicate PaymentStepAllowed(current: PaymentStatus, target: PaymentStatus) {
    current == target || target in Successors(PAYMENT_TRANSITIONS, current)
  }

  /** The order status a payment status implies, if any. */
  function OrderStatusForPayment(payment: PaymentStatus): Option<OrderStatus> {
    match payment
    case AwaitingPayment | Submitted | Detecting | Detected | Verifying | PendingConfirmation =>
      Some(PaymentPending)
    case Verified => Some(PaymentVerified)
    case UnderReview => Some(ManualReview)
    case Expired => Some(OrderExpired)
    case Created | Failed | Cancelled => None
  }

  /** The statuses an order can come from: unpaid ones to be cancelled or to expire, paid ones
      to be fulfilled, and any paid or reviewed one to be refunded, but not while it is
      being fulfilled. */
  function OrderSources(target: OrderStatus): set<OrderStatus> {
    match target
    case OrderCreated => {}
    case PaymentPending => {OrderCreated, ManualReview, OrderExpired}
    case OrderCancelled => {OrderCreated, PaymentPending, ManualReview}
    case OrderExpired => {OrderCreated, PaymentPending}
    case PaymentVerified => {PaymentPending, ManualReview}
    case ManualReview => {PaymentPending, PaymentVerified, Fulfilling, DeliveryFailed, OrderExpired}
    case Fulfilling => {PaymentVerified, DeliveryFailed, ManualReview}
    case Delivered | DeliveryFailed => {Fulfilling}
    case Completed => {Delivered}
    case Refunded => {PaymentVerified, Delivered, Completed, DeliveryFailed, ManualReview}
  }

  /** The statuses a payment can come from: cancelled before it was detected or from review,
      expired until it is verified, verified once it was detected or from review. */
  function PaymentSources(target: PaymentStatus): set<PaymentStatus> {
    match target
    case Created => {}
    case AwaitingPayment => {Created}
    case Submitted => {AwaitingPayment}
    case Detecting => {AwaitingPayment, Submitted}
    case Detected => {AwaitingPayment, Submitted, Detecting, Verifying}
    case Verifying => {Submitted, Detecting, Detected, PendingConfirmation, UnderReview, Failed, Expired}
    case PendingConfirmation => {Detected, Verifying}
    case Verified => {Detected, Verifying, PendingConfirmation, UnderReview}
    case UnderReview =>
      {AwaitingPayment, Submitted, Detecting, Detected, Verifying, PendingConfirmation, Failed, Expired}
    case Failed => {Submitted, Detecting, Detected, Verifying, PendingConfirmation, UnderReview}
    case Expired => {Created, AwaitingPayment, Submitted, Detecting, Detected, Verifying, PendingConfirmation}
    case Cancelled => {Created, AwaitingPayment, Submitted, Detecting, UnderReview}
  }

  /** Both tables read backwards. */
  lemma StepsBySource(order: OrderStatus, orderTarget: OrderStatus, payment: PaymentStatus, target: PaymentStatus)
    ensures OrderStepAllowed(order, orderTarget) <==> order == orderTarget || order in OrderSources(orderTarget)
    ensures PaymentStepAllowed(payment, target) <==> payment == target || payment in PaymentSources(target)
  {
    OrderStepBySource(order, orderTarget);
    PaymentStepBySource(payment, target);
  }

  lemma OrderStepBySource(order: OrderStatus, target: OrderStatus)
    ensures OrderStepAllowed(order, target) <==> order == target || order in OrderSources(target)
  {
  }

  lemma PaymentStepBySource(payment: PaymentStatus, target: PaymentStatus)
    ensures PaymentStepAllowed(payment, target) <==> payment == target || payment in PaymentSources(target)
  {
  }

  // ------------------------------------------------ runs under a guard

  /** A run the order guard accepts, one status after another. */
  ghost predicate OrderRun(start: OrderStatus, statuses: seq<OrderStatus>) {
    forall i :: 0 <= i < |statuses| ==> OrderStepAllowed(Before(start, statuses, i), statuses[i])
  }

  ghost predicate PaymentRun(start: PaymentStatus, statuses: seq<PaymentStatus>)
    decreases |statuses|
  {
    statuses == [] || (PaymentStepAllowed(start, statuses[0]) && PaymentRun(statuses[0], statuses[1..]))
  }

  /** A run that starts inside `keep` and never enters `avoid` stays inside `keep`,
      when `avoid` is the only way out. */
  lemma {:induction false} RunStaysInside(start: OrderStatus, statuses: seq<OrderStatus>,
                                          keep: set<OrderStatus>, avoid: set<OrderStatus>, n: nat)
    requires OrderRun(start, statuses) && start in keep && n <= |statuses|
    requires forall s :: s in keep ==> Successors(ORDER_TRANSITIONS, s) <= keep + avoid
    requires forall i :: 0 <= i < n ==> statuses[i] !in avoid
    ensures Before(start, statuses, n) in keep
  {
    if n > 0 {
      RunStaysInside(start, statuses, keep, avoid, n - 1);
      assert OrderStepAllowed(Before(start, statuses, n - 1), statuses[n - 1]);
    }
  }

  /** Once paid, an order stays paid along every run that does not enter manual review. */
  lemma PaidStaysPaid(start: OrderStatus, statuses: seq<OrderStatus>)
    requires OrderRun(start, statuses) && start.IsPaid() && ManualReview !in statuses
    ensures forall i :: 0 <= i <= |statuses| ==> Before(start, statuses, i).IsPaid()
  {
    var paid := {PaymentVerified, Fulfilling, Delivered, Completed, DeliveryFailed, Refunded};
    forall i | 0 <= i <= |statuses|
      ensures Before(start, statuses, i).IsPaid()
    {
      RunStaysInside(start, statuses, paid, {ManualReview}, i);
    }
  }

  /** A delivered order can only be completed or refunded; not even manual review takes it back. */
  lemma DeliveredIsKept(start: OrderStatus, statuses: seq<OrderStatus>)
    requires OrderRun(start, statuses) && start in {Delivered, Completed, Refunded}
    ensures forall i :: 0 <= i <= |statuses| ==> Before(start, statuses, i) in {Delivered, Completed, Refunded}
  {
    forall i | 0 <= i <= |statuses|
      ensures Before(start, statuses, i) in {Delivered, Completed, Refunded}
    {
      RunStaysInside(start, statuses, {Delivered, Completed, Refunded}, {}, i);
    }
  }

  /** No new order is fulfilled, delivered or refunded before it was verified or reviewed. */
  lemma FulfilmentNeedsVerification(statuses: seq<OrderStatus>, n: nat)
    requires OrderRun(OrderCreated, statuses) && n < |statuses|
    requires statuses[n] in {Fulfilling, Delivered, Completed, DeliveryFailed, Refunded}
    ensures exists i :: 0 <= i < n && statuses[i] in {PaymentVerified, ManualReview}
  {
    var unpaid := {OrderCreated, PaymentPending, OrderExpired, OrderCancelled};
    assert OrderStepAllowed(Before(OrderCreated, statuses, n), statuses[n]);
    if forall i :: 0 <= i < n ==> statuses[i] !in {PaymentVerified, ManualReview} {
      RunStaysInside(OrderCreated, statuses, unpaid, {PaymentVerified, ManualReview}, n);
    }
  }

  // ------------------------------------------- what can become of an order

  /** How far along an order is. From the first request for payment to its fulfilment the
      statuses form one loop. */
  function OrderStage(order: OrderStatus): nat {
    match order
    case OrderCreated => 0
    case PaymentPending | PaymentVerified | Fulfilling | DeliveryFailed | ManualReview | OrderExpired => 1
    case Delivered => 2
    case Completed => 3
    case Refunded => 4
    case OrderCancelled => 5
  }

  /** Only an order that was not delivered can still be cancelled. */
  predicate MayBecome(order: OrderStatus, target: OrderStatus) {
    || order == target || OrderStage(order) == OrderStage(target) == 1
    || (OrderStage(order) < OrderStage(target) && (target == OrderCancelled ==> OrderStage(order) <= 1))
  }

  lemma {:induction false} OrderWalksRespectStages(order: OrderStatus, steps: seq<OrderStatus>)
    requires IsWalk(ORDER_TRANSITIONS, order, steps)
    ensures MayBecome(order, End(order, steps))
    decreases |steps|
  {
    if steps != [] {
      var n := |steps| - 1;
      WalkPrefix(ORDER_TRANSITIONS, order, steps, n);
      OrderWalksRespectStages(order, steps[..n]);
      assert IsEdge(ORDER_TRANSITIONS, order, steps, n);
    }
  }

  lemma OneFurther(order: OrderStatus, mid: OrderStatus, target: OrderStatus)
    requires Reachable(ORDER_TRANSITIONS, order, mid) && target in Successors(ORDER_TRANSITIONS, mid)
    ensures Reachable(ORDER_TRANSITIONS, order, target)
  {
    var steps :| IsWalkTo(ORDER_TRANSITIONS, order, mid, steps);
    WalkAppend(ORDER_TRANSITIONS, order, steps, target);
  }

  lemma BackToPending(order: OrderStatus)
    requires OrderStage(order) <= 1
    ensures Reachable(ORDER_TRANSITIONS, order, PaymentPending)
  {
    assert IsWalkTo(ORDER_TRANSITIONS, order, order, []);
    if order in {PaymentVerified, Fulfilling, DeliveryFailed} {
      OneFurther(order, order, ManualReview);
      OneFurther(order, ManualReview, PaymentPending);
    } else {
      OneFurther(order, order, PaymentPending);
    }
  }

  lemma FromPending(order: OrderStatus, target: OrderStatus)
    requires Reachable(ORDER_TRANSITIONS, order, PaymentPending) && target != OrderCreated
    ensures Reachable(ORDER_TRANSITIONS, order, target)
  {
    OneFurther(order, PaymentPending, ManualReview);
    OneFurther(order, ManualReview, Fulfilling);
    match target
    case OrderExpired | OrderCancelled | PaymentVerified => OneFurther(order, PaymentPending, target);
    case Delivered | DeliveryFailed => OneFurther(order, Fulfilling, target);
    case Completed =>
      OneFurther(order, Fulfilling, Delivered);
      OneFurther(order, Delivered, Completed);
    case Refunded => OneFurther(order, ManualReview, Refunded);
    case _ =>
  }

  lemma FromDelivered(order: OrderStatus, target: OrderStatus)
    requires OrderStage(order) > 1 && MayBecome(order, target)
    ensures Reachable(ORDER_TRANSITIONS, order, target)
  {
    assert IsWalkTo(ORDER_TRANSITIONS, order, order, []);
    if order != target {
      OneFurther(order, order, target);
    }
  }

  /** Exactly what can still become of an order: anything up to the delivery, then completion
      or a refund only, and nothing after a refund or a cancellation. No order is new twice. */
  lemma WhatMayBecomeOfAnOrder(order: OrderStatus, target: OrderStatus)
    ensures Reachable(ORDER_TRANSITIONS, order, target) <==> MayBecome(order, target)
  {
    forall steps | IsWalk(ORDER_TRANSITIONS, order, steps)
      ensures MayBecome(order, End(order, steps))
    {
      OrderWalksRespectStages(order, steps);
    }
    if MayBecome(order, target) {
      if OrderStage(order) > 1 {
        FromDelivered(order, target);
      } else if target == OrderCreated {
        assert IsWalkTo(ORDER_TRANSITIONS, order, target, []);
      } else {
        BackToPending(order);
        FromPending(order, target);
      }
    }
  }

  // --------------------------------------------------- payment paths

  /** How far along the lifecycle a payment is. From detection on the statuses form
      one loop; before it there is no way back, and the last two have no way out. */
  function Stage(payment: PaymentStatus): nat {
    match payment
    case Created => 0
    case AwaitingPayment => 1
    case Submitted => 2
    case Detecting => 3
    case Detected | Verifying | PendingConfirmation | UnderReview | Failed | Expired => 4
    case Verified | Cancelled => 5
  }

  predicate CanReach(current: PaymentStatus, target: PaymentStatus) {
    current == target || Stage(current) < Stage(target) || Stage(current) == Stage(target) == 4
  }

  lemma {:induction false} WalksRespectStages(current: PaymentStatus, steps: seq<PaymentStatus>)
    requires IsWalk(PAYMENT_TRANSITIONS, current, steps)
    ensures CanReach(current, End(current, steps))
    decreases |steps|
  {
    if steps != [] {
      var n := |steps| - 1;
      WalkPrefix(PAYMENT_TRANSITIONS, current, steps, n);
      WalksRespectStages(current, steps[..n]);
      assert IsEdge(PAYMENT_TRANSITIONS, current, steps, n);
    }
  }

  /** A legal walk of at most three steps for every pair a walk exists for. */
  function SampleWalk(current: PaymentStatus, target: PaymentStatus): (steps: seq<PaymentStatus>)
    requires CanReach(current, target)
    ensures |steps| <= 3
  {
    if current == target then []
    else if target in Successors(PAYMENT_TRANSITIONS, current) then [target]
    else if current == Created && target == PendingConfirmation then [AwaitingPayment, Detected, target]
    else if current == Created && target in {Failed, Verified} then [AwaitingPayment, UnderReview, target]
    else if current == Created && target == Verifying then [Expired, target]
    else if current == Created then [AwaitingPayment, target]
    else if current == AwaitingPayment && target == PendingConfirmation then [Detected, target]
    else if current == AwaitingPayment || target == Cancelled then [UnderReview, target]
    else [Verifying, target]
  }

  lemma SampleWalkIsLegal(current: PaymentStatus, target: PaymentStatus)
    requires CanReach(current, target)
    ensures IsWalkTo(PAYMENT_TRANSITIONS, current, target, SampleWalk(current, target))
  {
    if current in {Created, AwaitingPayment} {
      SampleFromStart(current, target);
    } else {
      SampleFromDetection(current, target);
    }
  }

  lemma ShortWalk(current: PaymentStatus, steps: seq<PaymentStatus>)
    requires |steps| <= 3
    requires |steps| > 0 ==> steps[0] in Successors(PAYMENT_TRANSITIONS, current)
    requires |steps| > 1 ==> steps[1] in Successors(PAYMENT_TRANSITIONS, steps[0])
    requires |steps| > 2 ==> steps[2] in Successors(PAYMENT_TRANSITIONS, steps[1])
    ensures IsWalk(PAYMENT_TRANSITIONS, current, steps)
  {
    assert |steps| > 0 ==> IsEdge(PAYMENT_TRANSITIONS, current, steps, 0);
    assert |steps| > 1 ==> IsEdge(PAYMENT_TRANSITIONS, current, steps, 1);
    assert |steps| > 2 ==> IsEdge(PAYMENT_TRANSITIONS, current, steps, 2);
  }

  lemma SampleFromStart(current: PaymentStatus, target: PaymentStatus)
    requires CanReach(current, target) && current in {Created, AwaitingPayment}
    ensures IsWalkTo(PAYMENT_TRANSITIONS, current, target, SampleWalk(current, target))
  {
    ShortWalk(current, SampleWalk(current, target));
  }

  lemma SampleFromDetection(current: PaymentStatus, target: PaymentStatus)
    requires CanReach(current, target) && current !in {Created, AwaitingPayment}
    ensures IsWalkTo(PAYMENT_TRANSITIONS, current, target, SampleWalk(current, target))
  {
    ShortWalk(current, SampleWalk(current, target));
  }

  /** The canonical path of a payment. It exists exactly when the stages allow it,
      is a shortest legal walk, never longer than three steps and never visits a
      status twice. */
  method PaymentPath(current: PaymentStatus, target: PaymentStatus)
    returns (path: Result<seq<PaymentStatus>, SearchError>)
    ensures path.Success? <==> CanReach(current, target)
    ensures path.Success? ==>
              && IsShortest(PAYMENT_TRANSITIONS, current, target, path.value)
              && NoRepeats(current, path.value)
              && |path.value| <= 3
  {
    path := ShortestPath(PAYMENT_TRANSITIONS, current, target);
    if CanReach(current, target) {
      SampleWalkIsLegal(current, target);
    } else {
      forall steps | IsWalk(PAYMENT_TRANSITIONS, current, steps)
        ensures End(current, steps) != target
      {
        WalksRespectStages(current, steps);
      }
    }
  }

  /** A payment can still be verified unless it was cancelled, and a verified or
      cancelled payment can become nothing else: the terminal statuses failed and
      expired are not final. */
  lemma OnlyVerifiedAndCancelledAreFinal(current: PaymentStatus)
    ensures (forall target :: Reachable(PAYMENT_TRANSITIONS, current, target) ==> target == current)
       <==> current in {Verified, Cancelled}
    ensures Reachable(PAYMENT_TRANSITIONS, current, Verified) <==> current != Cancelled
  {
    forall steps | IsWalk(PAYMENT_TRANSITIONS, current, steps)
      ensures CanReach(current, End(current, steps))
    {
      WalksRespectStages(current, steps);
    }
    if current != Cancelled {
      SampleWalkIsLegal(current, Verified);
    }
    if current != Verified {
      SampleWalkIsLegal(current, Cancelled);
      assert Reachable(PAYMENT_TRANSITIONS, current, Cancelled);
    }
  }

  /** The path is not unique: an awaited payment is verified through either of two shortest walks. */
  lemma TwoShortestPaths()
    ensures IsShortest(PAYMENT_TRANSITIONS, AwaitingPayment, Verified, [Detected, Verified])
    ensures IsShortest(PAYMENT_TRANSITIONS, AwaitingPayment, Verified, [UnderReview, Verified])
  {
    forall mid | mid in {Detected, UnderReview}
      ensures IsShortest(PAYMENT_TRANSITIONS, AwaitingPayment, Verified, [mid, Verified])
    {
      assert IsEdge(PAYMENT_TRANSITIONS, AwaitingPayment, [mid, Verified], 0);
      assert IsEdge(PAYMENT_TRANSITIONS, AwaitingPayment, [mid, Verified], 1);
      forall other | IsWalkTo(PAYMENT_TRANSITIONS, AwaitingPayment, Verified, other)
        ensures 2 <= |other|
      {
        assert |other| > 0 ==> IsEdge(PAYMENT_TRANSITIONS, AwaitingPayment, other, 0);
      }
    }
  }

  // ------------------------------------ the order follows its payment

  /** The order after its payment moved to `payment`. */
  function Follow(order: OrderStatus, payment: PaymentStatus): OrderStatus {
    match OrderStatusForPayment(payment)
    case Some(status) => status
    case None => order
  }

  /** Every step that a run of the payment asks of the order is accepted. */
  ghost predicate OrderKeepsUp(order: OrderStatus, payments: seq<PaymentStatus>)
    decreases |payments|
  {
    payments == []
    || (OrderStepAllowed(order, Follow(order, payments[0])) && OrderKeepsUp(Follow(order, payments[0]), payments[1..]))
  }

  /** The order statuses from which every future of a payment is followed. */
  function InStep(payment: PaymentStatus): set<OrderStatus> {
    match payment
    case Created => {OrderCreated, PaymentPending, OrderExpired}
    case AwaitingPayment | Submitted | Detecting => {PaymentPending, OrderExpired}
    case Detected | Verifying | PendingConfirmation => {PaymentPending}
    case Verified => {PaymentPending, PaymentVerified, ManualReview}
    case UnderReview => {PaymentPending, ManualReview}
    case Failed => {PaymentPending, OrderExpired, ManualReview}
    case Expired => {PaymentPending, OrderExpired}
    case Cancelled =>
      {OrderCreated, PaymentPending, PaymentVerified, Fulfilling, Delivered, Completed,
       OrderCancelled, OrderExpired, ManualReview, DeliveryFailed, Refunded}
  }

  /** The orders that may take the step a payment's new status asks of them. */
  function MayFollow(payment: PaymentStatus): set<OrderStatus> {
    match OrderStatusForPayment(payment)
    case Some(PaymentPending) => {OrderCreated, PaymentPending, ManualReview, OrderExpired}
    case Some(PaymentVerified) => {PaymentPending, PaymentVerified, ManualReview}
    case Some(OrderExpired) => {OrderCreated, PaymentPending, OrderExpired}
    case Some(_) => {PaymentPending, PaymentVerified, Fulfilling, DeliveryFailed, OrderExpired, ManualReview}
    case None => InStep(Cancelled)
  }

  lemma FollowGuard(order: OrderStatus, payment: PaymentStatus)
    ensures OrderStepAllowed(order, Follow(order, payment)) <==> order in MayFollow(payment)
  {
  }

  lemma InStepMayFollow(payment: PaymentStatus, order: OrderStatus, next: PaymentStatus)
    requires order in InStep(payment) && PaymentStepAllowed(payment, next)
    ensures order in MayFollow(next)
  {
  }

  lemma FollowStaysInStep(payment: PaymentStatus, order: OrderStatus, next: PaymentStatus)
    requires order in InStep(payment) && PaymentStepAllowed(payment, next)
    ensures Follow(order, next) in InStep(next)
  {
  }

  lemma StepKeepsInStep(payment: PaymentStatus, order: OrderStatus, next: PaymentStatus)
    requires order in InStep(payment) && PaymentStepAllowed(payment, next)
    ensures OrderStepAllowed(order, Follow(order, next)) && Follow(order, next) in InStep(next)
  {
    InStepMayFollow(payment, order, next);
    FollowGuard(order, next);
    FollowStaysInStep(payment, order, next);
  }

  lemma {:induction false} InStepIsEnough(payment: PaymentStatus, order: OrderStatus, payments: seq<PaymentStatus>)
    requires order in InStep(payment) && PaymentRun(payment, payments)
    ensures OrderKeepsUp(order, payments)
    decreases |payments|
  {
    if payments != [] {
      StepKeepsInStep(payment, order, payments[0]);
      InStepIsEnough(payments[0], Follow(order, payments[0]), payments[1..]);
    }
  }

  /** A step the order guard refuses, for every pair that is out of step. */
  function RefusedStep(payment: PaymentStatus, order: OrderStatus): PaymentStatus {
    match payment
    case Created => Expired
    case AwaitingPayment | Submitted | Detecting => if order == OrderCreated then UnderReview else Expired
    case Detected | Verifying | PendingConfirmation =>
      if order in {OrderCreated, OrderExpired} then Verified else Expired
    case Verified => Verified
    case UnderReview => if order == OrderExpired then Verified
                        else if order in {PaymentVerified, Fulfilling, DeliveryFailed} then Verifying
                        else UnderReview
    case Failed => if order == OrderCreated then UnderReview else Verifying
    case Expired => if order == OrderCreated then UnderReview else Expired
    case Cancelled => Cancelled
  }

  lemma RefusedStepIsLegal(payment: PaymentStatus, order: OrderStatus)
    requires order !in InStep(payment)
    ensures PaymentStepAllowed(payment, RefusedStep(payment, order))
  {
  }

  lemma RefusedStepIsRefused(payment: PaymentStatus, order: OrderStatus)
    requires order !in InStep(payment)
    ensures order !in MayFollow(RefusedStep(payment, order))
  {
  }

  lemma OneStepRun(payment: PaymentStatus, order: OrderStatus, next: PaymentStatus)
    requires PaymentStepAllowed(payment, next) && !OrderStepAllowed(order, Follow(order, next))
    ensures exists payments :: PaymentRun(payment, payments) && !OrderKeepsUp(order, payments)
  {
    var run := [next];
    assert PaymentRun(next, run[1..]);
    assert PaymentRun(payment, run) && !OrderKeepsUp(order, run);
  }

  /** Every future of a payment is accepted by the order guard exactly when the
      order is in step with the payment. A fresh payment starts in step with a
      created or a pending order; a payment already detected is out of step with
      an expired one. */
  lemma OrderFollowsPayment(payment: PaymentStatus, order: OrderStatus)
    ensures (forall payments :: PaymentRun(payment, payments) ==> OrderKeepsUp(order, payments))
       <==> order in InStep(payment)
    ensures OrderCreated in InStep(Created) && PaymentPending in InStep(Created)
  {
    if order in InStep(payment) {
      forall payments | PaymentRun(payment, payments)
        ensures OrderKeepsUp(order, payments)
      {
        InStepIsEnough(payment, order, payments);
      }
    } else {
      var next := RefusedStep(payment, order);
      RefusedStepIsLegal(payment, order);
      RefusedStepIsRefused(payment, order);
      FollowGuard(order, next);
      OneStepRun(payment, order, next);
    }
  }

  /** A canonical path is a run of the payment, so the order follows it too. */
  lemma {:induction false} WalksAreRuns(payment: PaymentStatus, steps: seq<PaymentStatus>)
    requires IsWalk(PAYMENT_TRANSITIONS, payment, steps)
    ensures PaymentRun(payment, steps)
    decreases |steps|
  {
    if steps != [] {
      assert IsEdge(PAYMENT_TRANSITIONS, payment, steps, 0);
      forall i | 0 <= i < |steps[1..]|
        ensures IsEdge(PAYMENT_TRANSITIONS, steps[0], steps[1..], i)
      {
        assert IsEdge(PAYMENT_TRANSITIONS, payment, steps, i + 1);
      }
      WalksAreRuns(steps[0], steps[1..]);
    }
  }

  // -------------------------------- what the payment service asks of orders

  const PAYABLE: set<OrderStatus> := {PaymentPending, PaymentVerified, ManualReview}

  /** The service moves the order when its payment is verified, and a pending one when it
      goes to review. */
  function ServiceMove(order: OrderStatus, payment: PaymentStatus): OrderStatus {
    if payment == Verified then PaymentVerified
    else if payment == UnderReview && order == PaymentPending then ManualReview
    else order
  }

  ghost predicate ServiceKeepsUp(order: OrderStatus, payments: seq<PaymentStatus>)
    decreases |payments|
  {
    payments == []
    || (OrderStepAllowed(order, ServiceMove(order, payments[0]))
        && ServiceKeepsUp(ServiceMove(order, payments[0]), payments[1..]))
  }

  lemma {:induction false} PayableOrdersKeepUp(order: OrderStatus, payments: seq<PaymentStatus>)
    requires order in PAYABLE || Verified !in payments
    ensures ServiceKeepsUp(order, payments)
    decreases |payments|
  {
    if payments != [] {
      assert Verified in payments[1..] ==> Verified in payments;
      PayableOrdersKeepUp(ServiceMove(order, payments[0]), payments[1..]);
    }
  }

  lemma {:induction false} CancelledStays(payments: seq<PaymentStatus>)
    requires PaymentRun(Cancelled, payments)
    ensures Verified !in payments
    decreases |payments|
  {
    if payments != [] {
      CancelledStays(payments[1..]);
      assert payments == [payments[0]] + payments[1..];
    }
  }

  lemma {:induction false} OtherOrdersAreRefused(order: OrderStatus, payments: seq<PaymentStatus>)
    requires order !in PAYABLE && Verified in payments
    ensures !ServiceKeepsUp(order, payments)
    decreases |payments|
  {
    if payments[0] != Verified {
      assert payments == [payments[0]] + payments[1..];
      OtherOrdersAreRefused(order, payments[1..]);
    }
  }

  /** A way to VERIFIED for every payment that has one. */
  lemma RunToVerified(payment: PaymentStatus) returns (payments: seq<PaymentStatus>)
    requires payment != Cancelled
    ensures PaymentRun(payment, payments) && Verified in payments
  {
    if payment == Verified {
      payments := [Verified];
      assert PaymentRun(Verified, payments[1..]);
    } else {
      payments := SampleWalk(payment, Verified);
      SampleWalkIsLegal(payment, Verified);
      WalksAreRuns(payment, payments);
      assert End(payment, payments) == Verified;
    }
  }

  /** Every future of a payment is accepted by the order guard exactly when the payment
      was cancelled, or the order is pending, verified or in review. An order that expired
      or was cancelled blocks the credit of every payment that can still arrive. */
  lemma ServiceFollowsPayment(payment: PaymentStatus, order: OrderStatus)
    ensures (forall payments :: PaymentRun(payment, payments) ==> ServiceKeepsUp(order, payments))
       <==> payment == Cancelled || order in PAYABLE
  {
    if payment == Cancelled || order in PAYABLE {
      forall payments | PaymentRun(payment, payments)
        ensures ServiceKeepsUp(order, payments)
      {
        if payment == Cancelled {
          CancelledStays(payments);
        }
        PayableOrdersKeepUp(order, payments);
      }
    } else {
      var payments := RunToVerified(payment);
      OtherOrdersAreRefused(order, payments);
    }
  }
}
