/** Coupon redemptions (CouponRepository in app/db/repositories/orders.py, and the limits
    that app/domain/coupons/service.py checks). A checkout reads the counters, decides,
    and redeems later; a cancellation reads the usage row and gives it back later. Other
    transactions commit in between. */
module Coupons {
  import opened Wrappers

  type CouponId = nat
  type UserId = nat
  type OrderId = nat
  type TxnId = nat

  /** The constant limits of a coupon. */
  datatype Limits = Limits(total: Option<nat>, perUser: int)

  /** The coupons there are. */
  type Rules = map<CouponId, Limits>

  /** A row of coupon_usage, keyed by its order: the column is UNIQUE, reverted rows included. */
  datatype Usage = Usage(coupon: CouponId, user: UserId, reverted: bool)

  datatype Tables = Tables(usages: map<OrderId, Usage>, counts: map<CouponId, int>)

  // ------------------------------------------------- single operations

  function Count(tables: Tables, coupon: CouponId): int {
    if coupon in tables.counts then tables.counts[coupon] else 0
  }

  /** The unreverted rows of a coupon. */
  function ActiveOrders(usages: map<OrderId, Usage>, coupon: CouponId): set<OrderId> {
    set o | o in usages && usages[o].coupon == coupon && !usages[o].reverted
  }

  function ActiveOrdersOf(usages: map<OrderId, Usage>, coupon: CouponId, user: UserId): set<OrderId> {
    set o | o in usages && usages[o].coupon == coupon && usages[o].user == user && !usages[o].reverted
  }

  /** The limits `evaluate` looks at. */
  predicate MayRedeem(limits: Limits, tables: Tables, coupon: CouponId, user: UserId) {
    && (limits.total.Some? ==> Count(tables, coupon) < limits.total.value)
    && |ActiveOrdersOf(tables.usages, coupon, user)| < limits.perUser
  }

  /** `redeem`: the row, then the counter. A second row for the order is refused. */
  function Redeem(tables: Tables, coupon: CouponId, user: UserId, order: OrderId): Tables {
    if order in tables.usages then tables
    else Tables(tables.usages[order := Usage(coupon, user, false)], tables.counts[coupon := Count(tables, coupon) + 1])
  }

  /** The writes of `revert`, for a usage row it has read as unreverted. */
  function GiveBack(tables: Tables, order: OrderId): Tables
    requires order in tables.usages
  {
    var coupon := tables.usages[order].coupon;
    var count := Count(tables, coupon);
    Tables(tables.usages[order := tables.usages[order].(reverted := true)],
           if count > 0 then tables.counts[coupon := count - 1] else tables.counts)
  }

  predicate Redeemed(tables: Tables, order: OrderId) {
    order in tables.usages && !tables.usages[order].reverted
  }

  /** `revert`, when nothing comes between its read and its writes. */
  function Revert(tables: Tables, order: OrderId): Tables {
    if Redeemed(tables, order) then GiveBack(tables, order) else tables
  }

  // ---------------------------------------------------------------- runs

  /** What an open transaction has decided to do. */
  datatype Plan = ToRedeem(coupon: CouponId, user: UserId) | ToGiveBack(order: OrderId)

  datatype Shop = Shop(tables: Tables, open: map<TxnId, Plan>)

  datatype Step =
    | Evaluate(t: TxnId, coupon: CouponId, user: UserId)
    | CommitRedeem(t: TxnId, order: OrderId)
    | ReadUsage(t: TxnId, order: OrderId)
    | CommitRevert(t: TxnId)
    | Abandon(t: TxnId)

  predicate Enabled(rules: Rules, shop: Shop, step: Step) {
    match step
    case Evaluate(t, coupon, user) =>
      t !in shop.open && coupon in rules && MayRedeem(rules[coupon], shop.tables, coupon, user)
    case CommitRedeem(t, order) => t in shop.open && shop.open[t].ToRedeem?
    case ReadUsage(t, order) => t !in shop.open && Redeemed(shop.tables, order)
    case CommitRevert(t) => t in shop.open && shop.open[t].ToGiveBack? && shop.open[t].order in shop.tables.usages
    case Abandon(t) => t in shop.open
  }

  function Apply(rules: Rules, shop: Shop, step: Step): Shop
    requires Enabled(rules, shop, step)
  {
    match step
    case Evaluate(t, coupon, user) => shop.(open := shop.open[t := ToRedeem(coupon, user)])
    case CommitRedeem(t, order) =>
      Shop(Redeem(shop.tables, shop.open[t].coupon, shop.open[t].user, order), shop.open - {t})
    case ReadUsage(t, order) => shop.(open := shop.open[t := ToGiveBack(order)])
    case CommitRevert(t) => Shop(GiveBack(shop.tables, shop.open[t].order), shop.open - {t})
    case Abandon(t) => shop.(open := shop.open - {t})
  }

  predicate Legal(rules: Rules, shop: Shop, steps: seq<Step>)
    decreases |steps|
  {
    steps == [] || (Enabled(rules, shop, steps[0]) && Legal(rules, Apply(rules, shop, steps[0]), steps[1..]))
  }

  function After(rules: Rules, shop: Shop, steps: seq<Step>): Shop
    requires Legal(rules, shop, steps)
    decreases |steps|
  {
    if steps == [] then shop else After(rules, Apply(rules, shop, steps[0]), steps[1..])
  }

  const EMPTY: Shop := Shop(Tables(map[], map[]), map[])

  /** The coupon tables as the object the repository works on. */
  class CouponRepository {
    var usages: map<OrderId, Usage>
    var counts: map<CouponId, int>

    ghost function Rows(): Tables
      reads this
    {
      Tables(usages, counts)
    }

    constructor ()
      ensures Rows() == EMPTY.tables
    {
      usages, counts := map[], map[];
    }

    /** The limits part of `evaluate`. */
    method Check(limits: Limits, coupon: CouponId, user: UserId) returns (passes: bool)
      ensures passes <==> MayRedeem(limits, Rows(), coupon, user)
    {
      var count := if coupon in counts then counts[coupon] else 0;
      if limits.total.Some? && count >= limits.total.value {
        return false;
      }
      var used := ActiveOrdersOf(usages, coupon, user);
      return |used| < limits.perUser;
    }

    /** `redeem`: the insert fails on a second row for the order, and the session is rolled back. */
    method RedeemFor(coupon: CouponId, user: UserId, order: OrderId) returns (redeemed: bool)
      modifies this
      ensures Rows() == Redeem(old(Rows()), coupon, user, order)
      ensures redeemed <==> order !in old(usages)
    {
      if order in usages {
        return false;
      }
      usages := usages[order := Usage(coupon, user, false)];
      counts := counts[coupon := (if coupon in counts then counts[coupon] else 0) + 1];
      return true;
    }

    /** The writes of `revert`. */
    method WriteRevert(order: OrderId)
      requires order in usages
      modifies this
      ensures Rows() == GiveBack(old(Rows()), order)
    {
      var usage := usages[order];
      usages := usages[order := usage.(reverted := true)];
      if usage.coupon in counts && counts[usage.coupon] > 0 {
        counts := counts[usage.coupon := counts[usage.coupon] - 1];
      }
    }

    /** `revert` in one go. */
    method RevertFor(order: OrderId)
      modifies this
      ensures Rows() == Revert(old(Rows()), order)
    {
      if order in usages && !usages[order].reverted {
        WriteRevert(order);
      }
    }
  }

  // -------------------------------------------------- counting the rows

  lemma RedeemCounts(tables: Tables, coupon: CouponId, user: UserId, order: OrderId, c: CouponId)
    requires order !in tables.usages
    ensures var now := Redeem(tables, coupon, user, order);
            && Count(now, c) == Count(tables, c) + (if c == coupon then 1 else 0)
            && |ActiveOrders(now.usages, c)| == |ActiveOrders(tables.usages, c)| + (if c == coupon then 1 else 0)
  {
    var now := Redeem(tables, coupon, user, order);
    if c == coupon {
      assert ActiveOrders(now.usages, c) == ActiveOrders(tables.usages, c) + {order};
    } else {
      assert ActiveOrders(now.usages, c) == ActiveOrders(tables.usages, c);
    }
  }

  lemma GiveBackCounts(tables: Tables, order: OrderId, c: CouponId)
    requires order in tables.usages
    ensures var now := GiveBack(tables, order);
            var hit := c == tables.usages[order].coupon;
            && Count(now, c) == Count(tables, c) - (if hit && Count(tables, c) > 0 then 1 else 0)
            && |ActiveOrders(now.usages, c)|
               == |ActiveOrders(tables.usages, c)| - (if hit && Redeemed(tables, order) then 1 else 0)
  {
    var now := GiveBack(tables, order);
    if c == tables.usages[order].coupon && Redeemed(tables, order) {
      assert order in ActiveOrders(tables.usages, c);
      assert ActiveOrders(now.usages, c) == ActiveOrders(tables.usages, c) - {order};
    } else {
      assert ActiveOrders(now.usages, c) == ActiveOrders(tables.usages, c);
    }
  }

  /** A redemption takes one place under the total limit and one under that of its customer,
      and none from anybody else. Giving it back frees both: afterwards everybody may
      redeem what they could before. A redemption given back cannot be given back again,
      nor made a second time. */
  lemma RevertFreesBothPlaces(tables: Tables, coupon: CouponId, user: UserId, order: OrderId,
                              limits: Limits, c: CouponId, u: UserId)
    requires order !in tables.usages && 0 <= Count(tables, coupon)
    ensures var redeemed := Redeem(tables, coupon, user, order);
            var back := Revert(redeemed, order);
            && Count(redeemed, c) == Count(tables, c) + (if c == coupon then 1 else 0)
            && |ActiveOrdersOf(redeemed.usages, c, u)|
               == |ActiveOrdersOf(tables.usages, c, u)| + (if c == coupon && u == user then 1 else 0)
            && Count(back, c) == Count(tables, c)
            && |ActiveOrdersOf(back.usages, c, u)| == |ActiveOrdersOf(tables.usages, c, u)|
            && (MayRedeem(limits, back, c, u) <==> MayRedeem(limits, tables, c, u))
            && Revert(back, order) == back && Redeem(back, coupon, user, order) == back
  {
    var redeemed := Redeem(tables, coupon, user, order);
    var before, after := ActiveOrdersOf(tables.usages, c, u), ActiveOrdersOf(redeemed.usages, c, u);
    assert after == if c == coupon && u == user then before + {order} else before;
    assert ActiveOrdersOf(Revert(redeemed, order).usages, c, u) == before;
  }

  ghost predicate CountsRows(tables: Tables) {
    forall c :: Count(tables, c) == |ActiveOrders(tables.usages, c)|
  }

  /** However late the reverts are, the counter never exceeds the rows, nor drops below zero. */
  ghost predicate CountsNoMore(tables: Tables) {
    forall c :: 0 <= Count(tables, c) <= |ActiveOrders(tables.usages, c)|
  }

  lemma StepCountsNoMore(rules: Rules, shop: Shop, step: Step)
    requires Enabled(rules, shop, step) && CountsNoMore(shop.tables)
    ensures CountsNoMore(Apply(rules, shop, step).tables)
  {
    var now := Apply(rules, shop, step).tables;
    forall c
      ensures 0 <= Count(now, c) <= |ActiveOrders(now.usages, c)|
    {
      assert 0 <= Count(shop.tables, c) <= |ActiveOrders(shop.tables.usages, c)|;
      match step
      case CommitRedeem(t, order) =>
        if order !in shop.tables.usages {
          RedeemCounts(shop.tables, shop.open[t].coupon, shop.open[t].user, order, c);
        }
      case CommitRevert(t) =>
        GiveBackCounts(shop.tables, shop.open[t].order, c);
        StaleStillFits(shop.tables, shop.open[t].order, c);
      case Evaluate(_, _, _) =>
      case ReadUsage(_, _) =>
      case Abandon(_) =>
    }
  }

  lemma StaleStillFits(tables: Tables, order: OrderId, c: CouponId)
    requires order in tables.usages && CountsNoMore(tables)
    ensures var now := GiveBack(tables, order); 0 <= Count(now, c) <= |ActiveOrders(now.usages, c)|
  {
    assert 0 <= Count(tables, c) <= |ActiveOrders(tables.usages, c)|;
    GiveBackCounts(tables, order, c);
    if c == tables.usages[order].coupon && Redeemed(tables, order) {
      assert order in ActiveOrders(tables.usages, c);
    }
  }

  /** In every interleaving, stale reverts included. */
  lemma {:induction false} CounterNeverExceedsRows(rules: Rules, shop: Shop, steps: seq<Step>)
    requires Legal(rules, shop, steps) && CountsNoMore(shop.tables)
    ensures CountsNoMore(After(rules, shop, steps).tables)
    decreases |steps|
  {
    if steps != [] {
      StepCountsNoMore(rules, shop, steps[0]);
      CounterNeverExceedsRows(rules, Apply(rules, shop, steps[0]), steps[1..]);
    }
  }

  /** The row a commit gives back is still unreverted. */
  predicate Prompt(shop: Shop, step: Step) {
    step.CommitRevert? && step.t in shop.open && shop.open[step.t].ToGiveBack? ==>
      Redeemed(shop.tables, shop.open[step.t].order)
  }

  /** A step keeps the counters exact precisely when it does not give back a row that
      another transaction gave back meanwhile. */
  lemma ExactlyPromptStepsCount(rules: Rules, shop: Shop, step: Step)
    requires Enabled(rules, shop, step) && CountsRows(shop.tables)
    ensures CountsRows(Apply(rules, shop, step).tables)
       <==> Prompt(shop, step) || Count(shop.tables, shop.tables.usages[shop.open[step.t].order].coupon) == 0
  {
    var now := Apply(rules, shop, step).tables;
    match step
    case CommitRedeem(t, order) =>
      forall c
        ensures Count(now, c) == |ActiveOrders(now.usages, c)|
      {
        if order !in shop.tables.usages {
          RedeemCounts(shop.tables, shop.open[t].coupon, shop.open[t].user, order, c);
        }
      }
    case CommitRevert(t) => RevertCounts(shop.tables, shop.open[t].order);
    case Evaluate(_, _, _) => assert now == shop.tables;
    case ReadUsage(_, _) => assert now == shop.tables;
    case Abandon(_) => assert now == shop.tables;
  }

  lemma RevertCounts(tables: Tables, order: OrderId)
    requires order in tables.usages && CountsRows(tables)
    ensures CountsRows(GiveBack(tables, order))
       <==> Redeemed(tables, order) || Count(tables, tables.usages[order].coupon) == 0
    ensures Redeemed(tables, order) ==> Count(tables, tables.usages[order].coupon) > 0
  {
    var coupon := tables.usages[order].coupon;
    if Redeemed(tables, order) {
      assert order in ActiveOrders(tables.usages, coupon);
    }
    forall c
      ensures Redeemed(tables, order) || Count(tables, coupon) == 0 ==>
                Count(GiveBack(tables, order), c) == |ActiveOrders(GiveBack(tables, order).usages, c)|
    {
      GiveBackCounts(tables, order, c);
      assert Count(tables, c) == |ActiveOrders(tables.usages, c)|;
    }
    GiveBackCounts(tables, order, coupon);
    assert Count(tables, coupon) == |ActiveOrders(tables.usages, coupon)|;
  }

  predicate PromptRun(rules: Rules, shop: Shop, steps: seq<Step>)
    requires Legal(rules, shop, steps)
    decreases |steps|
  {
    steps == [] || (Prompt(shop, steps[0]) && PromptRun(rules, Apply(rules, shop, steps[0]), steps[1..]))
  }

  /** When no revert is overtaken, the counter is the number of unreverted rows
      throughout, so the guard against negative counters never holds one back. */
  lemma {:induction false} CounterIsExact(rules: Rules, shop: Shop, steps: seq<Step>)
    requires Legal(rules, shop, steps) && PromptRun(rules, shop, steps) && CountsRows(shop.tables)
    ensures CountsRows(After(rules, shop, steps).tables)
    decreases |steps|
  {
    if steps != [] {
      ExactlyPromptStepsCount(rules, shop, steps[0]);
      CounterIsExact(rules, Apply(rules, shop, steps[0]), steps[1..]);
    }
  }

  /** Rows are for good: an order redeems once, for one coupon and customer, and what
      was given back stays given back. */
  predicate RowsKept(now: map<OrderId, Usage>, before: map<OrderId, Usage>) {
    forall o :: o in before ==>
                  && o in now && now[o].coupon == before[o].coupon && now[o].user == before[o].user
                  && (before[o].reverted ==> now[o].reverted)
  }

  lemma {:induction false} AnOrderRedeemsOnce(rules: Rules, shop: Shop, steps: seq<Step>)
    requires Legal(rules, shop, steps)
    ensures RowsKept(After(rules, shop, steps).tables.usages, shop.tables.usages)
    decreases |steps|
  {
    if steps != [] {
      assert RowsKept(Apply(rules, shop, steps[0]).tables.usages, shop.tables.usages);
      AnOrderRedeemsOnce(rules, Apply(rules, shop, steps[0]), steps[1..]);
    }
  }

  /** Two orders on one coupon; the first is reverted by two overlapping transactions.
      The counter ends at zero although one redemption stands. */
  lemma OverlappingRevertsLoseARedemption(rules: Rules)
    requires 7 in rules && (rules[7].total.Some? ==> rules[7].total.value >= 2)
    requires rules[7].perUser >= 1
    ensures var steps := [Evaluate(1, 7, 1), CommitRedeem(1, 10), Evaluate(2, 7, 2), CommitRedeem(2, 20),
                          ReadUsage(3, 10), ReadUsage(4, 10), CommitRevert(3), CommitRevert(4)];
            && Legal(rules, EMPTY, steps)
            && Count(After(rules, EMPTY, steps).tables, 7) == 0
            && Redeemed(After(rules, EMPTY, steps).tables, 20)
  {
    var one := Tables(map[10 := Usage(7, 1, false)], map[7 := 1]);
    var two := Tables(map[10 := Usage(7, 1, false), 20 := Usage(7, 2, false)], map[7 := 2]);
    TwoRedeemed(rules, one, two);
    OverlappingReverts(rules, two);
    Chain(rules, EMPTY, [Evaluate(1, 7, 1), CommitRedeem(1, 10), Evaluate(2, 7, 2), CommitRedeem(2, 20)],
          [ReadUsage(3, 10), ReadUsage(4, 10), CommitRevert(3), CommitRevert(4)]);
  }

  /** One run after another. */
  lemma {:induction false} Chain(rules: Rules, shop: Shop, first: seq<Step>, second: seq<Step>)
    requires Legal(rules, shop, first) && Legal(rules, After(rules, shop, first), second)
    ensures Legal(rules, shop, first + second)
    ensures After(rules, shop, first + second) == After(rules, After(rules, shop, first), second)
    decreases |first|
  {
    if first == [] {
      assert first + second == second;
    } else {
      assert (first + second)[1..] == first[1..] + second;
      Chain(rules, Apply(rules, shop, first[0]), first[1..], second);
    }
  }

  lemma Link(rules: Rules, shop: Shop, step: Step, next: Shop, rest: seq<Step>)
    requires Enabled(rules, shop, step) && Apply(rules, shop, step) == next && Legal(rules, next, rest)
    ensures Legal(rules, shop, [step] + rest) && After(rules, shop, [step] + rest) == After(rules, next, rest)
  {
    assert ([step] + rest)[1..] == rest;
  }

  lemma TwoRedeemed(rules: Rules, one: Tables, two: Tables)
    requires 7 in rules && (rules[7].total.Some? ==> rules[7].total.value >= 2)
    requires rules[7].perUser >= 1
    requires one == Tables(map[10 := Usage(7, 1, false)], map[7 := 1])
    requires two == Tables(map[10 := Usage(7, 1, false), 20 := Usage(7, 2, false)], map[7 := 2])
    ensures var steps := [Evaluate(1, 7, 1), CommitRedeem(1, 10), Evaluate(2, 7, 2), CommitRedeem(2, 20)];
            Legal(rules, EMPTY, steps) && After(rules, EMPTY, steps) == Shop(two, map[])
  {
    var first, second := EMPTY.(open := map[1 := ToRedeem(7, 1)]), Shop(one, map[2 := ToRedeem(7, 2)]);
    assert ActiveOrdersOf(EMPTY.tables.usages, 7, 1) == {} && ActiveOrdersOf(one.usages, 7, 2) == {};
    Link(rules, second, CommitRedeem(2, 20), Shop(two, map[]), []);
    Link(rules, Shop(one, map[]), Evaluate(2, 7, 2), second, [CommitRedeem(2, 20)]);
    Link(rules, first, CommitRedeem(1, 10), Shop(one, map[]), [Evaluate(2, 7, 2), CommitRedeem(2, 20)]);
    Link(rules, EMPTY, Evaluate(1, 7, 1), first, [CommitRedeem(1, 10), Evaluate(2, 7, 2), CommitRedeem(2, 20)]);
  }

  lemma OverlappingReverts(rules: Rules, two: Tables)
    requires two == Tables(map[10 := Usage(7, 1, false), 20 := Usage(7, 2, false)], map[7 := 2])
    ensures var steps := [ReadUsage(3, 10), ReadUsage(4, 10), CommitRevert(3), CommitRevert(4)];
            && Legal(rules, Shop(two, map[]), steps)
            && After(rules, Shop(two, map[]), steps)
               == Shop(Tables(map[10 := Usage(7, 1, true), 20 := Usage(7, 2, false)], map[7 := 0]), map[])
  {
    var both := Shop(two, map[3 := ToGiveBack(10), 4 := ToGiveBack(10)]);
    var once := Shop(Tables(map[10 := Usage(7, 1, true), 20 := Usage(7, 2, false)], map[7 := 1]),
            map[4 := ToGiveBack(10)]);
    var twice := Shop(once.tables.(counts := map[7 := 0]), map[]);
    Link(rules, once, CommitRevert(4), twice, []);
    Link(rules, both, CommitRevert(3), once, [CommitRevert(4)]);
    Link(rules, Shop(two, map[3 := ToGiveBack(10)]), ReadUsage(4, 10), both, [CommitRevert(3), CommitRevert(4)]);
    Link(rules, Shop(two, map[]), ReadUsage(3, 10), Shop(two, map[3 := ToGiveBack(10)]),
         [ReadUsage(4, 10), CommitRevert(3), CommitRevert(4)]);
  }
}
