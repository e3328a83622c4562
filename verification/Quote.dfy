/** The amount a customer is asked for (`quote_expected_amount` in
    app/domain/payments/verification.py): the order total over the price of the asset,
    divided in the 28-digit context and then rounded up at the asset's precision. */
module Quote {
  import opened Rounding
  import opened Decimals
  import opened Money
  import opened Wrappers

  datatype QuoteError = RateNotPositive | TooManyDigits

  /** The fewest decimals that bring the quotient a / r to 28 digits before the point. */
  function DivScale(a: nat, r: nat): (k: nat)
    requires 0 < a && 0 < r
    ensures Pow10(27) * r <= a * Pow10(k)
    ensures k > 0 ==> a * Pow10(k) < LIMIT * r
  {
    DivScaleFrom(a, r, 0)
  }

  function DivScaleFrom(a: nat, r: nat, k: nat): (scale: nat)
    requires 0 < a && 0 < r
    requires k > 0 ==> a * Pow10(k) < LIMIT * r
    ensures Pow10(27) * r <= a * Pow10(scale)
    ensures scale > 0 ==> a * Pow10(scale) < LIMIT * r
    decreases Pow10(27) * r - a * Pow10(k)
  {
    NextScale(a, r, k);
    if Pow10(27) * r <= a * Pow10(k) then k else DivScaleFrom(a, r, k + 1)
  }

  lemma NextScale(a: nat, r: nat, k: nat)
    requires 0 < a
    ensures a * Pow10(k) > 0 && a * Pow10(k + 1) == 10 * (a * Pow10(k))
    ensures a * Pow10(k) < Pow10(27) * r ==> a * Pow10(k + 1) < LIMIT * r
  {
    StrictMul(0, a, Pow10(k));
    MulAssociative(a, Pow10(k), 10);
    LimitIsPow10();
  }

  lemma LimitIsPow10()
    ensures 10 * Pow10(27) == LIMIT
  {
    assert Pow10(7) == 10_000_000;
    Pow10Add(7, 7);
    Pow10Add(14, 7);
    Pow10Add(21, 6);
    assert Pow10(6) == 1_000_000;
  }

  /** The coefficient of the quotient: a / r in units of 10^-k, rounded half even. */
  function Quotient(a: nat, r: nat, k: nat): nat
    requires 0 < r
  {
    HalfEven(a * Pow10(k), r)
  }

  /** ROUND_UP: away from zero whenever anything is cut off. */
  function DivUp(n: nat, m: nat): nat
    requires 0 < m
  {
    n / m + if n % m > 0 then 1 else 0
  }

  /** The number n * 10^-k in units of 10^-d, rounded up. */
  function UnitsUp(n: nat, k: nat, d: nat): nat {
    if k <= d then n * Pow10(d - k) else DivUp(n, Pow10(k - d))
  }

  /** What is asked for, in units of 10^-d. */
  function AskedUnits(a: nat, r: nat, d: nat): nat
    requires 0 < r
  {
    if a == 0 then 0 else UnitsUp(Quotient(a, r, DivScale(a, r)), DivScale(a, r), d)
  }

  function QuoteExpectedAmount(amount: Decimal, rate: Decimal, decimals: nat): Result<Decimal, QuoteError>
    requires 0 <= amount.Signed()
  {
    if rate.Signed() <= 0 then Failure(RateNotPositive)
    else
      Common(amount, rate);
      var e := Decimals.Min(amount.exp, rate.exp);
      var units := AskedUnits(amount.AtScale(e), rate.AtScale(e), decimals);
      if units < LIMIT then Success(Decimal(false, units, 0 - decimals)) else Failure(TooManyDigits)
  }

  lemma Common(amount: Decimal, rate: Decimal)
    requires 0 <= amount.Signed() && 0 < rate.Signed()
    ensures var e := Decimals.Min(amount.exp, rate.exp); 0 <= amount.AtScale(e) && 0 < rate.AtScale(e)
  {
    var e := Decimals.Min(amount.exp, rate.exp);
    NonNegativeProduct(amount.Signed(), Pow10(amount.exp - e));
    StrictMul(0, rate.Signed(), Pow10(rate.exp - e));
  }

  // ------------------------------------------------- what is asked for

  lemma DivUpBounds(n: nat, m: nat)
    requires 0 < m
    ensures n <= DivUp(n, m) * m < n + m
    ensures n == DivUp(n, m) * m <==> n % m == 0
  {
    Split(n, m);
    assert (n / m + 1) * m == (n / m) * m + m;
  }

  /** Scaling both sides: the asked units times the rate against the order, at the scale
      of the quotient. */
  lemma AtQuotientScale(a: nat, r: nat, d: nat, k: nat, u: int)
    requires d <= k
    ensures (u * Pow10(k - d)) * r == (u * r) * Pow10(k - d)
    ensures a * Pow10(k) == (a * Pow10(d)) * Pow10(k - d)
    ensures u * r < a * Pow10(d) <==> (u * Pow10(k - d)) * r < a * Pow10(k)
  {
    var m := Pow10(k - d);
    Pow10Add(d, k - d);
    MulAssociative(a, Pow10(d), m);
    Commute(u, m, r);
    EqualProducts(a * Pow10(d), u * r, m);
  }

  lemma Commute(u: int, m: int, r: int)
    ensures (u * m) * r == (u * r) * m
  {
  }

  /** A quotient coarser than the asset's precision does not fit in 28 digits there. */
  lemma FitsOnlyWhenFine(a: nat, r: nat, d: nat)
    requires 0 < a && 0 < r && AskedUnits(a, r, d) < LIMIT
    ensures d <= DivScale(a, r)
  {
    var k := DivScale(a, r);
    if k < d {
      QuotientIsLong(a * Pow10(k), r);
      PaddedIsTooLong(Quotient(a, r, k), d - k);
    }
  }

  lemma QuotientIsLong(x: nat, r: nat)
    requires 0 < r && Pow10(27) * r <= x
    ensures Pow10(27) <= HalfEven(x, r)
  {
    HalfEvenExact(Pow10(27), r);
    HalfEvenMonotone(Pow10(27) * r, x, r);
  }

  lemma PaddedIsTooLong(n: nat, more: nat)
    requires Pow10(27) <= n && more > 0
    ensures LIMIT <= n * Pow10(more)
  {
    LimitIsPow10();
    Pow10Monotone(1, more);
    assert Pow10(1) == 10 * Pow10(0) && Pow10(0) == 1;
    MulMonotone(Pow10(27), n, Pow10(more));
    MulMonotone(10, Pow10(more), Pow10(27));
  }

  /** A quotient n of x / r, off by at most half a unit, and a number above it. */
  lemma AboveTheQuotient(x: int, r: int, n: int, up: int, m: int)
    requires 0 < r && 0 < m && n <= up < n + m
    requires 2 * x - r <= 2 * (n * r) <= 2 * x + r
    ensures x <= up * r <==> x <= n * r || up != n
    ensures (up - m) * r < x
    ensures up * r < x ==> 2 * (x - up * r) <= r
  {
    MulMonotone(n, up, r);
    if n < up {
      MulMonotone(n + 1, up, r);
      assert (n + 1) * r == n * r + r;
    }
    MulMonotone(up - m, n - 1, r);
    assert (n - 1) * r == n * r - r;
  }

  /** What is asked for, brought to the scale of the quotient. */
  lemma AskedAtQuotientScale(a: nat, r: nat, d: nat, k: nat)
    requires 0 < a && 0 < r && d <= k == DivScale(a, r)
    ensures var n, m, u := Quotient(a, r, k), Pow10(k - d), AskedUnits(a, r, d);
            && n <= u * m < n + m && (u * m == n <==> n % m == 0)
            && 2 * (a * Pow10(k)) - r <= 2 * (n * r) <= 2 * (a * Pow10(k)) + r
  {
    var n, m := Quotient(a, r, k), Pow10(k - d);
    assert Pow10(0) == 1;
    DivUpBounds(n, m);
    HalfEvenError(a * Pow10(k), r);
    if k == d {
      DivUpOne(n);
    }
  }

  lemma DivUpOne(n: nat)
    ensures DivUp(n, 1) == n && n * 1 == n
  {
  }

  /** The quotient of the 28-digit context is below a / r, and a multiple of 10^-d. */
  predicate RoundedDownToUnit(a: int, r: int, d: nat) {
    && 0 < a && 0 < r && d <= DivScale(a, r)
    && var k := DivScale(a, r);
       Quotient(a, r, k) * r < a * Pow10(k) && Quotient(a, r, k) % Pow10(k - d) == 0
  }

  lemma CoversExactlyWhen(a: nat, r: nat, d: nat)
    requires 0 < a && 0 < r && d <= DivScale(a, r)
    ensures a * Pow10(d) <= AskedUnits(a, r, d) * r <==> !RoundedDownToUnit(a, r, d)
  {
    var k, u := DivScale(a, r), AskedUnits(a, r, d);
    AskedAtQuotientScale(a, r, d, k);
    AboveTheQuotient(a * Pow10(k), r, Quotient(a, r, k), u * Pow10(k - d), Pow10(k - d));
    AtQuotientScale(a, r, d, k, u);
  }

  /** Never more than the next unit up. */
  lemma AsksNoMoreThanNeeded(a: nat, r: nat, d: nat)
    requires 0 < a && 0 < r && d <= DivScale(a, r)
    ensures (AskedUnits(a, r, d) - 1) * r < a * Pow10(d)
  {
    var k := DivScale(a, r);
    AskedAtQuotientScale(a, r, d, k);
    WorthAtQuotientScale(a, d, k);
    OneUnitLess(a * Pow10(k), a * Pow10(d), Pow10(k - d), r, Quotient(a, r, k), AskedUnits(a, r, d));
  }

  lemma WorthAtQuotientScale(a: nat, d: nat, k: nat)
    requires d <= k
    ensures a * Pow10(k) == (a * Pow10(d)) * Pow10(k - d)
  {
    Pow10Add(d, k - d);
    MulAssociative(a, Pow10(d), Pow10(k - d));
  }

  /** One unit less than the rounded up quotient n of x / r is below y = x / m. */
  lemma OneUnitLess(x: int, y: int, m: int, r: int, n: int, u: int)
    requires 0 < r && 0 < m && x == y * m && n <= u * m < n + m
    requires 2 * x - r <= 2 * (n * r) <= 2 * x + r
    ensures (u - 1) * r < y
  {
    AboveTheQuotient(x, r, n, u * m, m);
    OneLess(u, m);
    Commute(u - 1, m, r);
    EqualProducts(y, (u - 1) * r, m);
  }

  lemma OneLess(u: int, m: int)
    ensures (u - 1) * m == u * m - m
  {
  }

  /** Orders below 2 * 10^27 units, counted in the asset's units and the rate's, are
      always covered. */
  lemma SmallOrdersAreCovered(a: nat, r: nat, d: nat)
    requires 0 < a && 0 < r && d <= DivScale(a, r) && a * Pow10(d) < 2 * Pow10(27)
    ensures a * Pow10(d) <= AskedUnits(a, r, d) * r
  {
    var k, u := DivScale(a, r), AskedUnits(a, r, d);
    AskedAtQuotientScale(a, r, d, k);
    AboveTheQuotient(a * Pow10(k), r, Quotient(a, r, k), u * Pow10(k - d), Pow10(k - d));
    AtQuotientScale(a, r, d, k, u);
    if u * r < a * Pow10(d) {
      LostTooMuch(a * Pow10(d), u * r, Pow10(k - d), r, Pow10(27));
    }
  }

  /** A shortfall of whole units is at least one of them, so the rate, and with it the
      order, has to be large. */
  lemma LostTooMuch(order: int, asked: int, m: int, r: int, p: int)
    requires asked < order && 0 < m && 0 < p
    requires 2 * (order * m - asked * m) <= r && p * r <= order * m
    ensures 2 * p <= order
  {
    MulMonotone(1, order - asked, m);
    assert (order - asked) * m == order * m - asked * m;
    MulMonotone(2 * m, r, p);
    assert (2 * m) * p == (2 * p) * m;
    EqualProducts(2 * p, order, m);
  }

  /** The quote of an order: less than a unit above what the order is worth at the rate,
      and not below it unless the order counts 2 * 10^27 units or more. */
  lemma QuoteIsTheNextUnitUp(amount: Decimal, rate: Decimal, decimals: nat)
    requires 0 < amount.Signed() && QuoteExpectedAmount(amount, rate, decimals).Success?
    ensures var e := Decimals.Min(amount.exp, rate.exp);
            var asked := QuoteExpectedAmount(amount, rate, decimals).value;
            var worth, price := amount.AtScale(e) * Pow10(decimals), rate.AtScale(e);
            && 0 < price && asked == Decimal(false, asked.digits, 0 - decimals)
            && (asked.digits - 1) * price < worth
            && (worth < 2 * Pow10(27) ==> worth <= asked.digits * price)
  {
    Common(amount, rate);
    var e := Decimals.Min(amount.exp, rate.exp);
    StrictMul(0, amount.Signed(), Pow10(amount.exp - e));
    QuotedUnits(amount.AtScale(e), rate.AtScale(e), decimals);
  }

  /** A quote covers the order exactly when the quotient was not rounded down to a multiple
      of the asset's unit: what the division loses the rounding up cannot make good. */
  lemma QuoteCoversExactlyWhen(amount: Decimal, rate: Decimal, decimals: nat)
    requires 0 < amount.Signed() && QuoteExpectedAmount(amount, rate, decimals).Success?
    ensures var e := Decimals.Min(amount.exp, rate.exp);
            var asked := QuoteExpectedAmount(amount, rate, decimals).value;
            var order, price := amount.AtScale(e), rate.AtScale(e);
            order * Pow10(decimals) <= asked.digits * price <==> !RoundedDownToUnit(order, price, decimals)
  {
    Common(amount, rate);
    var e := Decimals.Min(amount.exp, rate.exp);
    StrictMul(0, amount.Signed(), Pow10(amount.exp - e));
    QuotedCovers(amount.AtScale(e), rate.AtScale(e), decimals);
  }

  lemma QuotedCovers(a: nat, r: nat, d: nat)
    requires 0 < a && 0 < r && AskedUnits(a, r, d) < LIMIT
    ensures a * Pow10(d) <= AskedUnits(a, r, d) * r <==> !RoundedDownToUnit(a, r, d)
  {
    FitsOnlyWhenFine(a, r, d);
    CoversExactlyWhen(a, r, d);
  }

  lemma QuotedUnits(a: nat, r: nat, d: nat)
    requires 0 < a && 0 < r && AskedUnits(a, r, d) < LIMIT
    ensures (AskedUnits(a, r, d) - 1) * r < a * Pow10(d)
    ensures a * Pow10(d) < 2 * Pow10(27) ==> a * Pow10(d) <= AskedUnits(a, r, d) * r
  {
    FitsOnlyWhenFine(a, r, d);
    AsksNoMoreThanNeeded(a, r, d);
    if a * Pow10(d) < 2 * Pow10(27) {
      SmallOrdersAreCovered(a, r, d);
    }
  }

  /** A rate that is not positive is refused, whatever the order; a free order is quoted at
      nothing. */
  lemma QuoteAtTheEnds(amount: Decimal, rate: Decimal, decimals: nat)
    requires 0 <= amount.Signed()
    ensures QuoteExpectedAmount(amount, rate, decimals) == Failure(RateNotPositive) <==> rate.Signed() <= 0
    ensures amount.Signed() == 0 < rate.Signed() ==>
              QuoteExpectedAmount(amount, rate, decimals) == Success(Decimal(false, 0, 0 - decimals))
  {
    if amount.Signed() == 0 < rate.Signed() {
      assert amount.AtScale(Decimals.Min(amount.exp, rate.exp)) == 0;
    }
  }

  /** A 3000.00000077 rate, an order of 34.91313897 and an asset of 18 decimals: the
      customer is asked for less than the order is worth. */
  lemma UnderchargedOrder()
    ensures var amount, rate := Decimal(false, 3491313897, -8), Decimal(false, 300000000077, -8);
            && QuoteExpectedAmount(amount, rate, 18) == Success(Decimal(false, 11637712987012987, -18))
            && 11637712987012987 * 300000000077 == 3491313897 * Pow10(18) - 1
  {
    var a, r := 3491313897, 300000000077;
    assert Pow10(0) == 1;
    PowersUsed();
    var k := DivScale(a, r);
    ScaleIs29(k);
    DivOfScaled(11637712987012987 * 100_000_000_000, r, 100_000_000_000);
    assert Quotient(a, r, 29) == 11637712987012987 * 100_000_000_000;
    DivOfScaled(11637712987012987, 100_000_000_000, 0);
    assert AskedUnits(a, r, 18) == 11637712987012987;
  }

  lemma PowersUsed()
    ensures Pow10(11) == 100_000_000_000 && Pow10(18) == 1_000_000_000_000_000_000
    ensures Pow10(27) == 1_000_000_000_000_000_000_000_000_000
    ensures Pow10(28) == 10 * Pow10(27) && Pow10(29) == 100 * Pow10(27) && Pow10(30) == 1000 * Pow10(27)
  {
    assert Pow10(3) == 1000;
    Pow10Add(3, 3);
    Pow10Add(6, 3);
    assert Pow10(2) == 100;
    Pow10Add(9, 2);
    Pow10Add(9, 9);
    Pow10Add(18, 9);
    Pow10Add(1, 27);
    Pow10Add(2, 27);
    Pow10Add(3, 27);
  }

  lemma ScaleIs29(k: nat)
    requires k == DivScale(3491313897, 300000000077)
    ensures k == 29
  {
    PowersUsed();
    if k < 29 {
      Pow10Monotone(k, 28);
    } else if k > 29 {
      Pow10Monotone(30, k);
    }
  }
}
