/** The arithmetic of a coupon (app/domain/coupons/service.py): discount and new
    total. Money columns are NUMERIC(30, 8), so every amount here is an integer
    number of units of 10^-8. */
module CouponDiscount {
  import opened Rounding
  import opened Decimals
  import opened Money
  import opened Wrappers

  datatype CouponType = Percentage | Fixed

  datatype Terms = Terms(kind: CouponType, value: int, maxDiscount: Option<int>)

  /** Quantising an amount that has 8 decimals already only checks its size. */
  function QuantizeUnits(n: int): Result<int, MoneyError> {
    if Abs(n) < LIMIT then Success(n) else Failure(InvalidOperation)
  }

  /** 100 percent, as a stored value. */
  const WHOLE: nat := 10_000_000_000

  /** subtotal * value / 100: the product counts units of 10^-16 and is rounded to 28
      digits, dividing by 100 only moves the point, and the quotient is quantised. */
  function PercentOf(subtotal: int, value: int): int {
    HalfUpSigned(RoundSigned(subtotal * value), WHOLE)
  }

  function ComputeDiscount(terms: Terms, subtotal: int): Result<int, MoneyError> {
    var raw :- if terms.kind == Percentage then QuantizeUnits(PercentOf(subtotal, terms.value))
               else Success(terms.value);
    var capped := match terms.maxDiscount
      case Some(most) => Min(raw, most)
      case None => raw;
    QuantizeUnits(Min(capped, subtotal))
  }

  datatype Pricing = Pricing(discount: int, newTotal: int)

  datatype PricingError = NoDiscount | Arithmetic(error: MoneyError)

  /** The last part of `evaluate`: refuse a coupon that takes nothing off, then price. */
  function Price(terms: Terms, subtotal: int): Result<Pricing, PricingError> {
    match ComputeDiscount(terms, subtotal)
    case Failure(e) => Failure(Arithmetic(e))
    case Success(discount) =>
      if discount <= 0 then Failure(NoDiscount)
      else
        match QuantizeUnits(RoundSigned(subtotal - discount))
        case Failure(e) => Failure(Arithmetic(e))
        case Success(newTotal) => Success(Pricing(discount, newTotal))
  }

  lemma LimitIsExact()
    ensures RoundToPrecision(LIMIT) == LIMIT
  {
    PaddedFits(LIMIT / 10, 1);
    assert Pow10(1) == 10 * Pow10(0);
  }

  /** Discount and new total split the subtotal exactly, with nothing below zero. */
  lemma PriceSplitsSubtotal(terms: Terms, subtotal: int)
    requires Price(terms, subtotal).Success?
    ensures var p := Price(terms, subtotal).value;
            p.discount + p.newTotal == subtotal && 0 < p.discount && 0 <= p.newTotal
    ensures terms.maxDiscount.Some? ==> Price(terms, subtotal).value.discount <= terms.maxDiscount.value
  {
    var rest := subtotal - Price(terms, subtotal).value.discount;
    assert 0 <= rest;
    LimitIsExact();
    if rest < LIMIT {
      RoundSignedExact(rest);
    } else {
      RoundMonotone(LIMIT, rest);
    }
  }

  lemma PercentMonotone(less: int, more: int, value: int)
    requires less <= more && 0 < value
    ensures PercentOf(less, value) <= PercentOf(more, value)
  {
    MulMonotone(less, more, value);
    RoundSignedMonotone(less * value, more * value);
    HalfUpSignedMonotone(RoundSigned(less * value), RoundSigned(more * value), WHOLE);
  }

  /** A larger subtotal never gets a smaller discount, through every rounding and cap. */
  lemma DiscountMonotone(terms: Terms, less: int, more: int)
    requires less <= more && 0 < terms.value
    requires ComputeDiscount(terms, less).Success? && ComputeDiscount(terms, more).Success?
    ensures ComputeDiscount(terms, less).value <= ComputeDiscount(terms, more).value
  {
    PercentMonotone(less, more, terms.value);
  }

  /** What a coupon takes off before its cap and the subtotal: its value, or the nearest to
      the percentage of the subtotal, a half upwards, where the product counts 10^-16 and
      has been rounded to 28 digits. */
  ghost predicate TakesOff(terms: Terms, subtotal: int, off: int) {
    match terms.kind
    case Fixed => off == terms.value
    case Percentage =>
      var product := RoundSigned(subtotal * terms.value);
      2 * product - WHOLE < 2 * off * WHOLE <= 2 * product + WHOLE
  }

  /** The discount is the smallest of what the coupon takes off, its cap and the subtotal. */
  lemma DiscountIsSmallest(terms: Terms, subtotal: int) returns (off: int)
    requires 0 <= subtotal && 0 <= terms.value && ComputeDiscount(terms, subtotal).Success?
    ensures TakesOff(terms, subtotal, off)
    ensures var discount := ComputeDiscount(terms, subtotal).value;
            && discount <= off && discount <= subtotal
            && (terms.maxDiscount.Some? ==> discount <= terms.maxDiscount.value)
            && (discount == off || discount == subtotal || Some(discount) == terms.maxDiscount)
  {
    off := if terms.kind == Fixed then terms.value else PercentOf(subtotal, terms.value);
    if terms.kind == Percentage {
      PercentIsHalfUp(subtotal, terms.value);
      HalfUpError(RoundToPrecision(subtotal * terms.value), WHOLE);
    }
  }

  /** A coupon is refused exactly when it takes nothing off: when its cap, its value or the
      subtotal is nothing, or so little that the percentage rounds to nothing. */
  lemma PricedWhenSomethingIsTakenOff(terms: Terms, subtotal: int) returns (off: int)
    requires 0 <= subtotal < LIMIT && 0 <= terms.value && ComputeDiscount(terms, subtotal).Success?
    ensures TakesOff(terms, subtotal, off)
    ensures Price(terms, subtotal).Success?
       <==> 0 < off && 0 < subtotal && (terms.maxDiscount.Some? ==> 0 < terms.maxDiscount.value)
    ensures Price(terms, subtotal).Failure? ==> Price(terms, subtotal) == Failure(NoDiscount)
  {
    off := DiscountIsSmallest(terms, subtotal);
    var discount := ComputeDiscount(terms, subtotal).value;
    if discount > 0 {
      RoundSignedExact(subtotal - discount);
    }
  }

  // ------------------------------------------------ the new total

  /** The digits of the product that the context rounds away. */
  function LostDigits(terms: Terms, subtotal: nat): nat
    requires 0 < terms.value
  {
    Excess(subtotal * terms.value)
  }

  /** `raw(more) <= raw(less) + (more - less) + slack`: how much faster than the
      subtotal the percentage can grow. */
  ghost predicate GrowsBy(less: nat, more: nat, value: nat, slack: nat) {
    PercentOf(more, value) <= PercentOf(less, value) + (more - less) + slack
  }

  lemma PercentIsHalfUp(subtotal: nat, value: nat)
    ensures 0 <= subtotal * value
    ensures PercentOf(subtotal, value) == HalfUp(RoundToPrecision(subtotal * value), WHOLE)
  {
  }

  lemma QuotientStep(x: nat, y: nat, t: nat, m: nat, added: nat)
    requires m > 0 && t * m == added && y < x + added
    ensures HalfEven(y, m) * m <= HalfEven(x, m) * m + added
  {
    HalfEvenShift(y, x, t, m);
    MulMonotone(HalfEven(y, m), HalfEven(x, m) + t, m);
    Distribute(HalfEven(x, m), t, m);
  }

  /** Adding less than `n` wholes to a product raises its half-even quotient by no
      more than those wholes are worth. */
  lemma QuotientGrowth(x: nat, y: nat, n: nat, k: nat)
    requires k <= 10 && y < x + n * WHOLE
    ensures HalfEven(y, Pow10(k)) * Pow10(k) <= HalfEven(x, Pow10(k)) * Pow10(k) + n * WHOLE
  {
    Pow10Add(10 - k, k);
    WholeIsPow10();
    FactoredGrowth(x, y, n, Pow10(10 - k), Pow10(k));
  }

  lemma FactoredGrowth(x: nat, y: nat, n: nat, a: nat, m: nat)
    requires m > 0 && a * m == WHOLE && y < x + n * WHOLE
    ensures HalfEven(y, m) * m <= HalfEven(x, m) * m + n * WHOLE
  {
    MulAssociative(n, a, m);
    NonNegativeProduct(n, a);
    QuotientStep(x, y, n * a, m, n * WHOLE);
  }

  lemma Distribute(a: int, b: int, m: int)
    ensures (a + b) * m == a * m + b * m
  {
  }

  /** Two products that lose the same number of digits: the rounding moves with the
      product, so the percentage grows no faster than the subtotal. */
  lemma SameBandGrowth(less: nat, more: nat, value: nat)
    requires less < more && 0 < value < WHOLE
    requires Excess(less * value) == Excess(more * value) <= 10
    ensures GrowsBy(less, more, value, 0)
  {
    var n := more - less;
    var x, y := less * value, more * value;
    Distribute(less, n, value);
    EqualProducts(value + 1, WHOLE, n);
    Distribute(value, 1, n);
    QuotientGrowth(x, y, n, Excess(x));
    HalfUpMonotone(RoundToPrecision(y), RoundToPrecision(x) + n * WHOLE, WHOLE);
    HalfUpShift(RoundToPrecision(x), n, WHOLE);
    PercentIsHalfUp(less, value);
    PercentIsHalfUp(more, value);
  }

  lemma WholeIsPow10()
    ensures Pow10(10) == WHOLE
  {
    assert Pow10(5) == 100_000;
    Pow10Add(5, 5);
  }

  /** A subtotal that fits the context loses at most ten digits to a percentage below 100. */
  lemma LostAtMostTen(subtotal: nat, value: nat)
    requires subtotal < LIMIT && value < WHOLE
    ensures 0 <= subtotal * value && Excess(subtotal * value) <= 10
  {
    MulMonotone(subtotal, LIMIT, value);
    MulMonotone(value, WHOLE, LIMIT);
    WholeIsPow10();
    ExcessBounds(subtotal * value);
    if Excess(subtotal * value) > 0 {
      assert subtotal * value <= LIMIT * value;
      if value > 0 {
        EqualProducts(subtotal + 1, LIMIT, value);
      }
      CancelMul(Pow10(Excess(subtotal * value) - 1), Pow10(10), LIMIT);
      Pow10Order(Excess(subtotal * value) - 1, 10);
    }
  }

  /** Four roundings of at most half a whole each, two of them strict. */
  lemma RoundingChain(x: int, y: int, rx: int, ry: int, p: int, q: int, n: int, whole: int)
    requires 0 < whole && y <= x + n * whole
    requires 2 * x - whole <= 2 * rx && 2 * ry <= 2 * y + whole
    requires 2 * rx - whole < 2 * (p * whole) && 2 * (q * whole) <= 2 * ry + whole
    ensures q <= p + n + 1
  {
    Distribute(p, n + 2, whole);
    Distribute(n, 2, whole);
    CancelMul(q, p + n + 2, whole);
  }

  lemma ErrorWithinWhole(n: nat)
    requires Excess(n) <= 10
    ensures 2 * n - WHOLE <= 2 * RoundToPrecision(n) <= 2 * n + WHOLE
  {
    WholeIsPow10();
    Pow10Monotone(Excess(n), 10);
    RoundError(n);
  }

  /** In every case the percentage outgrows the subtotal by one unit at most. */
  lemma AnyBandGrowth(less: nat, more: nat, value: nat)
    requires less < more < LIMIT && 0 < value < WHOLE
    ensures GrowsBy(less, more, value, 1)
  {
    var n := more - less;
    LostAtMostTen(less, value);
    LostAtMostTen(more, value);
    ErrorWithinWhole(less * value);
    ErrorWithinWhole(more * value);
    Distribute(less, n, value);
    MulMonotone(value, WHOLE, n);
    HalfUpError(RoundToPrecision(less * value), WHOLE);
    HalfUpError(RoundToPrecision(more * value), WHOLE);
    PercentIsHalfUp(less, value);
    PercentIsHalfUp(more, value);
    RoundingChain(less * value, more * value, RoundToPrecision(less * value), RoundToPrecision(more * value),
                  PercentOf(less, value), PercentOf(more, value), n, WHOLE);
  }

  /** A percentage of 100 or more takes off the whole subtotal before the caps. */
  lemma WholePercent(subtotal: nat, value: nat)
    requires subtotal < LIMIT && WHOLE <= value
    ensures subtotal <= PercentOf(subtotal, value)
  {
    MulMonotone(WHOLE, value, subtotal);
    RoundMonotone(subtotal * WHOLE, subtotal * value);
    WholeIsPow10();
    PaddedFits(subtotal, 10);
    HalfUpMonotone(subtotal * WHOLE, RoundToPrecision(subtotal * value), WHOLE);
    HalfUpExact(subtotal, WHOLE);
    PercentIsHalfUp(subtotal, value);
  }

  /** The totals after the coupon, one unit apart at most in the wrong order. */
  lemma TotalsFollow(terms: Terms, less: nat, more: nat, slack: nat)
    requires less < more < LIMIT && 0 < terms.value
    requires Price(terms, less).Success? && Price(terms, more).Success?
    requires terms.kind == Percentage && terms.value < WHOLE ==> GrowsBy(less, more, terms.value, slack)
    ensures Price(terms, less).value.newTotal <= Price(terms, more).value.newTotal + slack
  {
    PriceSplitsSubtotal(terms, less);
    PriceSplitsSubtotal(terms, more);
    if terms.kind == Percentage && WHOLE <= terms.value {
      WholePercent(less, terms.value);
      WholePercent(more, terms.value);
    }
  }

  /** For any two quantised subtotals the larger one never ends up more than one unit
      (10^-8) below the smaller one, and never below it when the two products lose
      the same number of digits, for instance none. */
  lemma TotalMonotone(terms: Terms, less: nat, more: nat)
    requires less < more < LIMIT && 0 < terms.value
    requires Price(terms, less).Success? && Price(terms, more).Success?
    ensures Price(terms, less).value.newTotal <= Price(terms, more).value.newTotal + 1
    ensures terms.kind == Fixed || WHOLE <= terms.value || LostDigits(terms, less) == LostDigits(terms, more)
        ==> Price(terms, less).value.newTotal <= Price(terms, more).value.newTotal
  {
    if terms.kind == Percentage && terms.value < WHOLE {
      AnyBandGrowth(less, more, terms.value);
      LostAtMostTen(less, terms.value);
      if LostDigits(terms, less) == LostDigits(terms, more) {
        SameBandGrowth(less, more, terms.value);
        TotalsFollow(terms, less, more, 0);
      }
      TotalsFollow(terms, less, more, 1);
    } else {
      TotalsFollow(terms, less, more, 0);
    }
  }

  /** The rounded product outgrows the subtotal by enough to cross one more half unit. */
  predicate Overtakes(less: nat, more: nat, value: nat) {
    var x, y := RoundToPrecision(less * value), RoundToPrecision(more * value);
    y - x - (more - less) * WHOLE >= WHOLE - (x + WHOLE / 2) % WHOLE
  }

  /** A percentage below 100 whose rounded products overtake the subtotal, unless the cap cuts in. */
  predicate Drops(terms: Terms, less: nat, more: nat)
    requires 0 < terms.value
  {
    && terms.kind == Percentage && terms.value < WHOLE && Overtakes(less, more, terms.value)
    && (terms.maxDiscount.Some? ==> PercentOf(more, terms.value) <= terms.maxDiscount.value)
  }

  lemma HalfUpIsDiv(z: nat)
    ensures HalfUp(z, WHOLE) == (z + WHOLE / 2) / WHOLE
  {
  }

  /** Adding to a number raises its quotient by more than n exactly from this gap on. */
  lemma Crossing(x: nat, y: nat, n: nat)
    ensures HalfUp(y, WHOLE) > HalfUp(x, WHOLE) + n <==> y - x - n * WHOLE >= WHOLE - (x + WHOLE / 2) % WHOLE
  {
    HalfUpIsDiv(x);
    HalfUpIsDiv(y);
  }

  lemma PercentCrosses(less: nat, more: nat, value: nat)
    requires less < more
    ensures PercentOf(more, value) > PercentOf(less, value) + (more - less) <==> Overtakes(less, more, value)
  {
    PercentIsHalfUp(less, value);
    PercentIsHalfUp(more, value);
    Crossing(RoundToPrecision(less * value), RoundToPrecision(more * value), more - less);
  }

  /** A percentage below 100 takes off no more than the subtotal, rounding included. */
  lemma PercentFits(subtotal: nat, value: nat)
    requires subtotal < LIMIT && value < WHOLE
    ensures 0 <= PercentOf(subtotal, value) <= subtotal
  {
    MulMonotone(value, WHOLE, subtotal);
    RoundMonotone(subtotal * value, subtotal * WHOLE);
    WholeIsPow10();
    PaddedFits(subtotal, 10);
    PercentIsHalfUp(subtotal, value);
    HalfUpMonotone(RoundToPrecision(subtotal * value), subtotal * WHOLE, WHOLE);
    HalfUpExact(subtotal, WHOLE);
  }

  lemma PercentPrice(terms: Terms, subtotal: nat)
    requires terms.kind == Percentage && 0 < terms.value < WHOLE && subtotal < LIMIT && Price(terms, subtotal).Success?
    ensures var off := match terms.maxDiscount
                       case Some(most) => Min(PercentOf(subtotal, terms.value), most)
                       case None => PercentOf(subtotal, terms.value);
            Price(terms, subtotal).value.newTotal == subtotal - off
  {
    PercentFits(subtotal, terms.value);
    PriceSplitsSubtotal(terms, subtotal);
  }

  /** Exactly when the larger of two subtotals ends up cheaper, for every kind of coupon,
      with a cap and without. */
  lemma TotalDropsExactlyWhen(terms: Terms, less: nat, more: nat)
    requires less < more < LIMIT && 0 < terms.value
    requires Price(terms, less).Success? && Price(terms, more).Success?
    ensures Price(terms, more).value.newTotal < Price(terms, less).value.newTotal <==> Drops(terms, less, more)
  {
    if terms.kind == Percentage && terms.value < WHOLE {
      PercentPrice(terms, less);
      PercentPrice(terms, more);
      PercentCrosses(less, more, terms.value);
      PercentMonotone(less, more, terms.value);
      AnyBandGrowth(less, more, terms.value);
    } else {
      TotalsFollow(terms, less, more, 0);
    }
  }

  lemma ProductsOfTheDrop()
    ensures RoundToPrecision(99_999_999_999_999_999_994_999_999_990) == 99_999_999_999_999_999_994_999_999_990
    ensures RoundToPrecision(100_000_000_000_000_000_004_999_999_985) == 100_000_000_000_000_000_005_000_000_000
  {
    assert Pow10(1) == 10 * Pow10(0) && Pow10(2) == 10 * Pow10(1);
    assert Excess(99_999_999_999_999_999_994_999_999_990) == 1;
    assert Excess(10_000_000_000_000_000_000_499_999_998) == 1;
    assert Excess(100_000_000_000_000_000_004_999_999_985) == 2;
  }

  /** The unit is really lost where the number of lost digits changes: a subtotal of
      100000000050.00000003 ends up cheaper than one of 100000000050.00000002. */
  lemma TotalCanDrop()
    ensures var terms := Terms(Percentage, 9_999_999_995, None);
            var less, more := 10_000_000_005_000_000_002, 10_000_000_005_000_000_003;
            && Price(terms, less) == Success(Pricing(9_999_999_999_999_999_999, 5_000_000_003))
            && Price(terms, more) == Success(Pricing(10_000_000_000_000_000_001, 5_000_000_002))
  {
    var value := 9_999_999_995;
    var less, more := 10_000_000_005_000_000_002, 10_000_000_005_000_000_003;
    ProductsOfTheDrop();
    assert less * value == 99_999_999_999_999_999_994_999_999_990;
    assert more * value == 100_000_000_000_000_000_004_999_999_985;
    PercentIsHalfUp(less, value);
    PercentIsHalfUp(more, value);
    assert PercentOf(less, value) == 9_999_999_999_999_999_999;
    assert PercentOf(more, value) == 10_000_000_000_000_000_001;
    RoundSignedExact(5_000_000_003);
    RoundSignedExact(5_000_000_002);
  }
}
