/** How far the redemptions of a coupon can overshoot its limits when checkouts overlap. */
module CouponLimits {
  import opened Sets
  import opened Coupons
  import opened Wrappers

  /** The transactions between a passing `evaluate` and their `redeem`. */
  function Pending(shop: Shop, coupon: CouponId): set<TxnId> {
    set t | t in shop.open && shop.open[t].ToRedeem? && shop.open[t].coupon == coupon
  }

  function PendingOf(shop: Shop, coupon: CouponId, user: UserId): set<TxnId> {
    set t | t in shop.open && shop.open[t].ToRedeem? && shop.open[t].coupon == coupon && shop.open[t].user == user
  }

  /** No coupon ever has more than `k` checkouts in between. */
  ghost predicate Crowd(shop: Shop, k: nat) {
    forall c :: |Pending(shop, c)| <= k
  }

  ghost predicate CrowdedRun(rules: Rules, shop: Shop, steps: seq<Step>, k: nat)
    requires Legal(rules, shop, steps)
    decreases |steps|
  {
    Crowd(shop, k) && (steps == [] || CrowdedRun(rules, Apply(rules, shop, steps[0]), steps[1..], k))
  }

  /** What is redeemed and what is about to be. */
  ghost predicate RoomLeft(rules: Rules, shop: Shop, k: nat) {
    forall c :: c in rules && rules[c].total.Some? ==>
                  Count(shop.tables, c) + |Pending(shop, c)| <= rules[c].total.value + k - 1
  }

  ghost predicate RoomLeftPerUser(rules: Rules, shop: Shop, k: nat) {
    forall c, u :: c in rules ==>
                     |ActiveOrdersOf(shop.tables.usages, c, u)| + |PendingOf(shop, c, u)| <= rules[c].perUser + k - 1
  }

  /** The coupon a step adds to the checkouts under way, or takes from them. */
  predicate Opens(step: Step, c: CouponId) {
    step.Evaluate? && step.coupon == c
  }

  predicate Closes(rules: Rules, shop: Shop, step: Step, c: CouponId)
    requires Enabled(rules, shop, step)
  {
    step.CommitRedeem? && shop.open[step.t].coupon == c
  }

  lemma PendingChanges(rules: Rules, shop: Shop, step: Step, c: CouponId)
    requires Enabled(rules, shop, step)
    ensures |Pending(Apply(rules, shop, step), c)|
         <= |Pending(shop, c)| + (if Opens(step, c) then 1 else 0) - (if Closes(rules, shop, step, c) then 1 else 0)
  {
    var before, after := Pending(shop, c), Pending(Apply(rules, shop, step), c);
    if Opens(step, c) {
      assert after == before + {step.t};
    } else if Closes(rules, shop, step, c) {
      assert step.t in before && after == before - {step.t};
    } else {
      SubsetIsNoLarger(after, before);
    }
  }

  lemma StepKeepsRoom(rules: Rules, shop: Shop, step: Step, k: nat)
    requires Enabled(rules, shop, step) && RoomLeft(rules, shop, k) && Crowd(Apply(rules, shop, step), k)
    ensures RoomLeft(rules, Apply(rules, shop, step), k)
  {
    var now := Apply(rules, shop, step);
    forall c | c in rules && rules[c].total.Some?
      ensures Count(now.tables, c) + |Pending(now, c)| <= rules[c].total.value + k - 1
    {
      assert Count(shop.tables, c) + |Pending(shop, c)| <= rules[c].total.value + k - 1;
      PendingChanges(rules, shop, step, c);
      match step
      case CommitRedeem(t, order) =>
        if order !in shop.tables.usages {
          RedeemCounts(shop.tables, shop.open[t].coupon, shop.open[t].user, order, c);
        }
      case CommitRevert(t) => GiveBackCounts(shop.tables, shop.open[t].order, c);
      case _ =>
    }
  }

  /** With at most `k` checkouts in between, the counter exceeds the limit of a coupon by
      at most k - 1; with one at a time, not at all. */
  lemma {:induction false} OvershootIsBounded(rules: Rules, shop: Shop, steps: seq<Step>, k: nat)
    requires Legal(rules, shop, steps) && CrowdedRun(rules, shop, steps, k) && RoomLeft(rules, shop, k)
    ensures var now := After(rules, shop, steps);
            && RoomLeft(rules, now, k)
            && (forall c :: c in rules && rules[c].total.Some? ==> Count(now.tables, c) <= rules[c].total.value + k - 1)
    decreases |steps|
  {
    if steps == [] {
      forall c | c in rules && rules[c].total.Some?
        ensures Count(shop.tables, c) <= rules[c].total.value + k - 1
      {
        assert Count(shop.tables, c) + |Pending(shop, c)| <= rules[c].total.value + k - 1;
      }
    } else {
      StepKeepsRoom(rules, shop, steps[0], k);
      OvershootIsBounded(rules, Apply(rules, shop, steps[0]), steps[1..], k);
    }
  }

  // ----------------------------------------------------------- per user

  lemma UserRowsChange(rules: Rules, shop: Shop, step: Step, c: CouponId, u: UserId)
    requires Enabled(rules, shop, step)
    ensures var now := Apply(rules, shop, step);
            var mine := step.CommitRedeem? && shop.open[step.t].coupon == c && shop.open[step.t].user == u;
            |ActiveOrdersOf(now.tables.usages, c, u)|
            <= |ActiveOrdersOf(shop.tables.usages, c, u)| + (if mine then 1 else 0)
  {
    var before, now := shop.tables.usages, Apply(rules, shop, step).tables.usages;
    match step
    case CommitRedeem(t, order) =>
      var mine := if shop.open[t].coupon == c && shop.open[t].user == u then {order} else {};
      assert ActiveOrdersOf(now, c, u) <= ActiveOrdersOf(before, c, u) + mine;
      SubsetIsNoLarger(ActiveOrdersOf(now, c, u), ActiveOrdersOf(before, c, u) + mine);
    case CommitRevert(t) =>
      SubsetIsNoLarger(ActiveOrdersOf(now, c, u), ActiveOrdersOf(before, c, u));
    case _ =>
  }

  lemma UserPendingChanges(rules: Rules, shop: Shop, step: Step, c: CouponId, u: UserId)
    requires Enabled(rules, shop, step)
    ensures |PendingOf(Apply(rules, shop, step), c, u)|
         <= |PendingOf(shop, c, u)| + (if Opens(step, c) && step.user == u then 1 else 0)
            - (if Closes(rules, shop, step, c) && shop.open[step.t].user == u then 1 else 0)
  {
    if Opens(step, c) && step.user == u {
      OpenedPending(shop, step.t, c, u);
    } else if Closes(rules, shop, step, c) && shop.open[step.t].user == u {
      ClosedPending(rules, shop, step, c, u);
    } else {
      OthersLeavePending(rules, shop, step, c, u);
      SubsetIsNoLarger(PendingOf(Apply(rules, shop, step), c, u), PendingOf(shop, c, u));
    }
  }

  lemma OpenedPending(shop: Shop, t: TxnId, c: CouponId, u: UserId)
    requires t !in shop.open
    ensures |PendingOf(shop.(open := shop.open[t := ToRedeem(c, u)]), c, u)| == |PendingOf(shop, c, u)| + 1
  {
    assert PendingOf(shop.(open := shop.open[t := ToRedeem(c, u)]), c, u) == PendingOf(shop, c, u) + {t};
  }

  lemma ClosedPending(rules: Rules, shop: Shop, step: Step, c: CouponId, u: UserId)
    requires Enabled(rules, shop, step) && Closes(rules, shop, step, c) && shop.open[step.t].user == u
    ensures |PendingOf(Apply(rules, shop, step), c, u)| == |PendingOf(shop, c, u)| - 1
  {
    assert step.t in PendingOf(shop, c, u);
    assert PendingOf(Apply(rules, shop, step), c, u) == PendingOf(shop, c, u) - {step.t};
  }

  lemma OthersLeavePending(rules: Rules, shop: Shop, step: Step, c: CouponId, u: UserId)
    requires Enabled(rules, shop, step) && !(Opens(step, c) && step.user == u)
    ensures PendingOf(Apply(rules, shop, step), c, u) <= PendingOf(shop, c, u)
  {
    forall t | t in PendingOf(Apply(rules, shop, step), c, u)
      ensures t in PendingOf(shop, c, u)
    {
    }
  }

  lemma StepKeepsUserRoom(rules: Rules, shop: Shop, step: Step, k: nat)
    requires Enabled(rules, shop, step) && RoomLeftPerUser(rules, shop, k) && Crowd(Apply(rules, shop, step), k)
    ensures RoomLeftPerUser(rules, Apply(rules, shop, step), k)
  {
    var now := Apply(rules, shop, step);
    forall c, u | c in rules
      ensures |ActiveOrdersOf(now.tables.usages, c, u)| + |PendingOf(now, c, u)| <= rules[c].perUser + k - 1
    {
      assert |ActiveOrdersOf(shop.tables.usages, c, u)| + |PendingOf(shop, c, u)| <= rules[c].perUser + k - 1;
      UserRowsChange(rules, shop, step, c, u);
      UserPendingChanges(rules, shop, step, c, u);
      SubsetIsNoLarger(PendingOf(now, c, u), Pending(now, c));
      assert |Pending(now, c)| <= k;
    }
  }

  /** The same for one customer, whose own unreverted rows are counted. */
  lemma {:induction false} UserOvershootIsBounded(rules: Rules, shop: Shop, steps: seq<Step>, k: nat)
    requires Legal(rules, shop, steps) && CrowdedRun(rules, shop, steps, k) && RoomLeftPerUser(rules, shop, k)
    ensures var now := After(rules, shop, steps);
            && RoomLeftPerUser(rules, now, k)
            && forall c, u :: c in rules ==> |ActiveOrdersOf(now.tables.usages, c, u)| <= rules[c].perUser + k - 1
    decreases |steps|
  {
    if steps == [] {
      forall c, u | c in rules
        ensures |ActiveOrdersOf(shop.tables.usages, c, u)| <= rules[c].perUser + k - 1
      {
        assert |ActiveOrdersOf(shop.tables.usages, c, u)| + |PendingOf(shop, c, u)| <= rules[c].perUser + k - 1;
      }
    } else {
      StepKeepsUserRoom(rules, shop, steps[0], k);
      UserOvershootIsBounded(rules, Apply(rules, shop, steps[0]), steps[1..], k);
    }
  }

  /** One checkout at a time, and no revert overtaken: both limits hold exactly, counted
      in rows. */
  lemma OneAtATimeKeepsBothLimits(rules: Rules, steps: seq<Step>)
    requires forall c :: c in rules ==> rules[c].perUser >= 0
    requires Legal(rules, EMPTY, steps) && CrowdedRun(rules, EMPTY, steps, 1) && PromptRun(rules, EMPTY, steps)
    ensures var usages := After(rules, EMPTY, steps).tables.usages;
            && (forall c :: c in rules && rules[c].total.Some? ==> |ActiveOrders(usages, c)| <= rules[c].total.value)
            && forall c, u :: c in rules ==> |ActiveOrdersOf(usages, c, u)| <= rules[c].perUser
  {
    assert forall c :: Pending(EMPTY, c) == {} && ActiveOrders(EMPTY.tables.usages, c) == {};
    assert forall c, u :: PendingOf(EMPTY, c, u) == {} && ActiveOrdersOf(EMPTY.tables.usages, c, u) == {};
    OvershootIsBounded(rules, EMPTY, steps, 1);
    UserOvershootIsBounded(rules, EMPTY, steps, 1);
    CounterIsExact(rules, EMPTY, steps);
    var now := After(rules, EMPTY, steps);
    forall c | c in rules && rules[c].total.Some?
      ensures |ActiveOrders(now.tables.usages, c)| <= rules[c].total.value
    {
      assert Count(now.tables, c) == |ActiveOrders(now.tables.usages, c)|;
    }
  }

  // -------------------------------------------------- the bound is reached

  ghost predicate Reaches(rules: Rules, k: nat, shop: Shop) {
    exists steps :: Legal(rules, EMPTY, steps) && CrowdedRun(rules, EMPTY, steps, k)
        && After(rules, EMPTY, steps) == shop
  }

  lemma {:induction false} ExtendRun(rules: Rules, shop: Shop, steps: seq<Step>, step: Step, k: nat)
    requires Legal(rules, shop, steps) && CrowdedRun(rules, shop, steps, k)
    requires Enabled(rules, After(rules, shop, steps), step)
    requires Crowd(Apply(rules, After(rules, shop, steps), step), k)
    ensures Legal(rules, shop, steps + [step]) && CrowdedRun(rules, shop, steps + [step], k)
    ensures After(rules, shop, steps + [step]) == Apply(rules, After(rules, shop, steps), step)
    decreases |steps|
  {
    var run := steps + [step];
    if steps == [] {
      assert run[0] == step && run[1..] == [];
      assert CrowdedRun(rules, Apply(rules, shop, step), [], k);
    } else {
      assert run[0] == steps[0] && run[1..] == steps[1..] + [step];
      ExtendRun(rules, Apply(rules, shop, steps[0]), steps[1..], step, k);
    }
  }

  lemma ReachNext(rules: Rules, k: nat, shop: Shop, step: Step, next: Shop)
    requires Reaches(rules, k, shop) && Enabled(rules, shop, step) && Apply(rules, shop, step) == next
            && Crowd(next, k)
    ensures Reaches(rules, k, next)
  {
    var steps :| Legal(rules, EMPTY, steps) && CrowdedRun(rules, EMPTY, steps, k)
            && After(rules, EMPTY, steps) == shop;
    ExtendRun(rules, EMPTY, steps, step, k);
  }

  /** Who makes the checkout `t`: always the same customer, or each time another one. */
  function Buyer(one: Option<UserId>, t: nat): UserId {
    match one
    case Some(user) => user
    case None => t
  }

  /** Coupon `c` redeemed by the orders below `n`; checkouts n..hi under way. */
  ghost predicate Busy(shop: Shop, c: CouponId, one: Option<UserId>, n: nat, hi: nat) {
    && Count(shop.tables, c) == n
    && (forall o: nat :: o in shop.tables.usages <==> o < n)
    && (forall o: nat :: o < n ==> shop.tables.usages[o] == Usage(c, Buyer(one, o), false))
    && (forall t: nat :: t in shop.open <==> n <= t < hi)
    && (forall t: nat :: n <= t < hi ==> shop.open[t] == ToRedeem(c, Buyer(one, t)))
  }

  /** The limits leave room for a redemption after `n` of them. */
  predicate HasRoom(rules: Rules, c: CouponId, one: Option<UserId>, n: nat) {
    && c in rules
    && (rules[c].total.Some? ==> n < rules[c].total.value)
    && (if one.Some? then n else 0) < rules[c].perUser
  }

  lemma BusyCrowd(shop: Shop, c: CouponId, one: Option<UserId>, n: nat, hi: nat, k: nat)
    requires Busy(shop, c, one, n, hi) && hi - n <= k
    ensures Crowd(shop, k)
  {
    forall other
      ensures |Pending(shop, other)| <= k
    {
      RangeSize(n, hi);
      SubsetIsNoLarger(Pending(shop, other), Range(n, hi));
    }
  }

  function Range(lo: nat, hi: nat): (range: set<nat>)
    ensures forall t: nat :: t in range <==> lo <= t < hi
  {
    if lo < hi then Range(lo, hi - 1) + {hi - 1} else {}
  }

  lemma {:induction false} RangeSize(lo: nat, hi: nat)
    ensures |Range(lo, hi)| == if lo <= hi then hi - lo else 0
  {
    if lo < hi {
      RangeSize(lo, hi - 1);
    }
  }

  /** The rows of a customer: all of them when there is only one, none before the first. */
  lemma RowsOfBuyer(shop: Shop, c: CouponId, one: Option<UserId>, n: nat, hi: nat)
    requires Busy(shop, c, one, n, hi) && n <= hi
    ensures |ActiveOrdersOf(shop.tables.usages, c, Buyer(one, hi))| == if one.Some? then n else 0
  {
    RangeSize(0, n);
    assert ActiveOrdersOf(shop.tables.usages, c, Buyer(one, hi)) == if one.Some? then Range(0, n) else {};
  }

  lemma OpenCheckout(rules: Rules, k: nat, shop: Shop, c: CouponId, one: Option<UserId>, n: nat, hi: nat)
    returns (next: Shop)
    requires Reaches(rules, k, shop) && Busy(shop, c, one, n, hi) && HasRoom(rules, c, one, n)
    requires n <= hi && hi + 1 - n <= k
    ensures Reaches(rules, k, next) && Busy(next, c, one, n, hi + 1)
  {
    RowsOfBuyer(shop, c, one, n, hi);
    next := Apply(rules, shop, Evaluate(hi, c, Buyer(one, hi)));
    BusyCrowd(next, c, one, n, hi + 1, k);
    ReachNext(rules, k, shop, Evaluate(hi, c, Buyer(one, hi)), next);
  }

  lemma CloseCheckout(rules: Rules, k: nat, shop: Shop, c: CouponId, one: Option<UserId>, n: nat, hi: nat)
    returns (next: Shop)
    requires Reaches(rules, k, shop) && Busy(shop, c, one, n, hi) && n < hi && hi - n <= k
    ensures Reaches(rules, k, next) && Busy(next, c, one, n + 1, hi)
  {
    next := Apply(rules, shop, CommitRedeem(n, n));
    BusyCrowd(next, c, one, n + 1, hi, k);
    ReachNext(rules, k, shop, CommitRedeem(n, n), next);
  }

  lemma {:induction false} FillUp(rules: Rules, k: nat, c: CouponId, one: Option<UserId>, n: nat)
    returns (shop: Shop)
    requires k >= 1 && HasRoom(rules, c, one, n)
    ensures Reaches(rules, k, shop) && Busy(shop, c, one, n, n)
  {
    if n == 0 {
      shop := EMPTY;
      BusyCrowd(EMPTY, c, one, 0, 0, k);
      assert CrowdedRun(rules, EMPTY, [], k);
    } else {
      shop := FillUp(rules, k, c, one, n - 1);
      shop := OpenCheckout(rules, k, shop, c, one, n - 1, n - 1);
      shop := CloseCheckout(rules, k, shop, c, one, n - 1, n);
    }
  }

  /** The last redemption there is room for, made by `k` checkouts at once: all of them
      are opened, and then all of them redeem. */
  lemma Rush(rules: Rules, k: nat, c: CouponId, one: Option<UserId>, n: nat)
    returns (shop: Shop)
    requires k >= 1 && HasRoom(rules, c, one, n)
    ensures Reaches(rules, k, shop) && Busy(shop, c, one, n + k, n + k)
  {
    shop := FillUp(rules, k, c, one, n);
    for hi := n to n + k
      invariant Reaches(rules, k, shop) && Busy(shop, c, one, n, hi)
    {
      shop := OpenCheckout(rules, k, shop, c, one, n, hi);
    }
    for lo := n to n + k
      invariant Reaches(rules, k, shop) && Busy(shop, c, one, lo, n + k)
    {
      shop := CloseCheckout(rules, k, shop, c, one, lo, n + k);
    }
  }

  /** The overshoot does happen: with `k` overlapping checkouts a coupon for `max`
      redemptions is redeemed max + k - 1 times, by as many customers. */
  lemma OvershootIsReached(rules: Rules, k: nat, c: CouponId)
    requires k >= 1 && c in rules && rules[c].perUser >= 1 && rules[c].total.Some? && rules[c].total.value >= 1
    ensures exists shop :: Reaches(rules, k, shop) && Count(shop.tables, c) == rules[c].total.value + k - 1
  {
    var shop := Rush(rules, k, c, None, rules[c].total.value - 1);
  }

  /** And so does that of the limit per customer, unless the other limit is tighter: one
      customer with `k` overlapping checkouts. */
  lemma UserOvershootIsReached(rules: Rules, k: nat, c: CouponId, u: UserId)
    requires k >= 1 && c in rules && rules[c].perUser >= 1
    requires rules[c].total.Some? ==> rules[c].perUser <= rules[c].total.value
    ensures exists shop ::
              Reaches(rules, k, shop) && |ActiveOrdersOf(shop.tables.usages, c, u)| == rules[c].perUser + k - 1
  {
    var n: nat := rules[c].perUser - 1;
    var shop := Rush(rules, k, c, Some(u), n);
    RowsOfBuyer(shop, c, Some(u), n + k, n + k);
  }
}
