/** Exact money: conversion to and from on-chain base units, quantisation to the
    storage scale and the comparison of a received amount with an expected one. */
module Money {
  import opened Rounding
  import opened Decimals
  import opened Wrappers

  /** Decimal places of the NUMERIC money columns. */
  const MONEY_SCALE: int := 8

  datatype MoneyError = InexactAmount | InvalidOperation

  // ---------------------------------------------------------- base units

  predicate IsIntegral(d: Decimal) {
    d.exp >= 0 || d.digits % Pow10(-d.exp) == 0
  }

  function ToInt(d: Decimal): int
    requires IsIntegral(d)
  {
    if d.exp >= 0 then d.Signed() * Pow10(d.exp)
    else if d.negative then 0 - d.digits / Pow10(-d.exp)
    else d.digits / Pow10(-d.exp)
  }

  function BaseUnits(amount: Decimal, decimals: int): Result<int, MoneyError> {
    var scaled := Scaleb(amount, decimals);
    if IsIntegral(scaled) then Success(ToInt(scaled)) else Failure(InexactAmount)
  }

  function FromBaseUnits(units: int, decimals: int): Decimal {
    PlusZero(Normalize(Scaleb(Units(units, 0), -decimals)))
  }

  /** A decimal is the integer `n` exactly when it is integral and `n` is its value. */
  lemma IntegralValue(d: Decimal, n: int)
    ensures IsIntegral(d) && ToInt(d) == n <==> SameValue(d, Units(n, 0))
  {
    if d.exp >= 0 {
      CompareAt(d, Units(n, 0), 0);
    } else {
      var m := Pow10(-d.exp);
      CompareAt(d, Units(n, 0), d.exp);
      Split(d.digits, m);
      if IsIntegral(d) {
        assert d.Signed() == ToInt(d) * m;
        EqualProducts(ToInt(d), n, m);
      } else if d.Signed() == n * m {
        assert d.digits == Abs(n) * m;
        DivOfScaled(Abs(n), m, 0);
      }
    }
  }

  lemma ShiftKeepsValue(a: Decimal, b: Decimal, n: int)
    ensures SameValue(Decimal(a.negative, a.digits, a.exp + n), Decimal(b.negative, b.digits, b.exp + n))
       <==> SameValue(a, b)
  {
    var e := Min(a.exp, b.exp);
    CompareAt(a, b, e);
    CompareAt(Decimal(a.negative, a.digits, a.exp + n), Decimal(b.negative, b.digits, b.exp + n), e + n);
  }

  /** `base_units` gives `n` exactly when the amount, as the 28-digit context sees
      it, is n base units; it fails exactly when it is no whole number of them. */
  lemma BaseUnitsMeaning(amount: Decimal, decimals: int, n: int)
    ensures BaseUnits(amount, decimals) == Success(n) <==> SameValue(Fix(amount), Units(n, -decimals))
  {
    var scaled := Scaleb(amount, decimals);
    assert scaled == Decimal(Fix(amount).negative, Fix(amount).digits, Fix(amount).exp + decimals);
    IntegralValue(scaled, n);
    ShiftKeepsValue(Fix(amount), Units(n, -decimals), decimals);
  }

  lemma FixSameValue(d: Decimal)
    ensures SameValue(Fix(d), d) <==> FitsPrecision(d.digits)
  {
    FixRounds(d);
    CompareAt(Fix(d), d, d.exp);
    RoundIsExactWhenFits(d.digits);
  }

  /** A success of `base_units` is the exact amount if and only if the amount has at
      most 28 significant digits; beyond that the context has already rounded it. */
  lemma BaseUnitsExactness(amount: Decimal, decimals: int)
    requires BaseUnits(amount, decimals).Success?
    ensures SameValue(amount, Units(BaseUnits(amount, decimals).value, -decimals)) <==> FitsPrecision(amount.digits)
  {
    var n := BaseUnits(amount, decimals).value;
    BaseUnitsMeaning(amount, decimals, n);
    FixSameValue(amount);
    var e := Min(amount.exp, Min(Fix(amount).exp, -decimals));
    CompareAt(Fix(amount), Units(n, -decimals), e);
    CompareAt(Fix(amount), amount, e);
    CompareAt(amount, Units(n, -decimals), e);
  }

  lemma FromBaseUnitsValue(units: int, decimals: int)
    ensures FromBaseUnits(units, decimals).digits < LIMIT
    ensures SameValue(FromBaseUnits(units, decimals), Units(RoundSigned(units), -decimals))
  {
    var raw := Units(units, -decimals);
    var scaled := Scaleb(Units(units, 0), -decimals);
    FixRounds(raw);
    assert scaled == Fix(raw);
    assert scaled.AtScale(-decimals) == Units(RoundSigned(units), -decimals).AtScale(-decimals);
    CompareAt(scaled, Units(RoundSigned(units), -decimals), -decimals);
    NormalizeKeepsValue(scaled);
    PlusZeroKeepsValue(Normalize(scaled));
    SameValueTransitive(PlusZero(Normalize(scaled)), Normalize(scaled), scaled);
    SameValueTransitive(FromBaseUnits(units, decimals), scaled, Units(RoundSigned(units), -decimals));
  }

  /** An amount that comes from base units has no zeros at the end of its decimals, and zero
      has none at all. */
  lemma NoSpareDecimals(units: int, decimals: int)
    ensures FromBaseUnits(units, decimals).exp < 0 ==> FromBaseUnits(units, decimals).digits % 10 != 0
    ensures units == 0 ==> FromBaseUnits(units, decimals) == Decimal(false, 0, 0)
  {
    NormalizedForm(Scaleb(Units(units, 0), -decimals));
  }

  /** Base units survive the trip to an amount and back exactly when they have at
      most 28 significant digits. Otherwise the trip still succeeds, rounded. */
  lemma UnitsRoundTrip(units: int, decimals: int)
    ensures BaseUnits(FromBaseUnits(units, decimals), decimals) == Success(RoundSigned(units))
    ensures BaseUnits(FromBaseUnits(units, decimals), decimals) == Success(units) <==> FitsPrecision(Abs(units))
  {
    FromBaseUnitsValue(units, decimals);
    BaseUnitsMeaning(FromBaseUnits(units, decimals), decimals, RoundSigned(units));
    RoundIsExactWhenFits(Abs(units));
  }

  lemma LimitAndNext()
    ensures RoundToPrecision(LIMIT) == LIMIT && RoundToPrecision(LIMIT + 1) == LIMIT
  {
    assert Excess(LIMIT) == 1 && Excess(LIMIT + 1) == 1;
    assert Pow10(1) == 10 * Pow10(0);
  }

  /** The bound is tight: 10^28 survives, 10^28 + 1 comes back as 10^28. */
  lemma UnitsRoundTripIsTight(decimals: int)
    ensures BaseUnits(FromBaseUnits(LIMIT, decimals), decimals) == Success(LIMIT)
    ensures BaseUnits(FromBaseUnits(LIMIT + 1, decimals), decimals) == Success(LIMIT)
  {
    LimitAndNext();
    UnitsRoundTrip(LIMIT, decimals);
    UnitsRoundTrip(LIMIT + 1, decimals);
  }

  /** One digit more than the context keeps: `base_units` takes 10^28 + 1 for a whole number
      of units and silently gives 10^28. */
  lemma BaseUnitsCanLoseAUnit(decimals: int)
    ensures var amount := Decimal(false, LIMIT + 1, -decimals);
            BaseUnits(amount, decimals) == Success(LIMIT) && !SameValue(amount, Units(LIMIT, -decimals))
  {
    var amount := Decimal(false, LIMIT + 1, -decimals);
    LimitAndNext();
    FixRounds(amount);
    CompareAt(Fix(amount), Units(LIMIT, -decimals), -decimals);
    BaseUnitsMeaning(amount, decimals, LIMIT);
    CompareAt(amount, Units(LIMIT, -decimals), -decimals);
  }

  /** An amount `base_units` accepts comes back from `from_base_units` as the context sees
      it, and therefore as it was exactly when it has at most 28 significant digits. */
  lemma AmountRoundTrip(amount: Decimal, decimals: int)
    requires BaseUnits(amount, decimals).Success?
    ensures var back := FromBaseUnits(BaseUnits(amount, decimals).value, decimals);
            SameValue(back, Fix(amount)) && (SameValue(back, amount) <==> FitsPrecision(amount.digits))
  {
    var seen, n := Fix(amount), BaseUnits(amount, decimals).value;
    var back := FromBaseUnits(n, decimals);
    FixRounds(amount);
    BaseUnitsMeaning(amount, decimals, n);
    BaseUnitsMeaning(seen, decimals, n);
    FittingRoundTrip(seen, decimals);
    FixSameValue(amount);
    SameValueFollows(back, seen, amount);
  }

  lemma SameValueFollows(a: Decimal, b: Decimal, c: Decimal)
    requires SameValue(a, b)
    ensures SameValue(a, c) <==> SameValue(b, c)
  {
    var e := Min(a.exp, Min(b.exp, c.exp));
    CompareAt(a, b, e);
    CompareAt(a, c, e);
    CompareAt(b, c, e);
  }

  lemma FittingRoundTrip(amount: Decimal, decimals: int)
    requires amount.digits < LIMIT && BaseUnits(amount, decimals).Success?
    ensures SameValue(FromBaseUnits(BaseUnits(amount, decimals).value, decimals), amount)
  {
    var n := BaseUnits(amount, decimals).value;
    BaseUnitsMeaning(amount, decimals, n);
    if amount.exp + decimals >= 0 {
      CompareAt(amount, Units(n, -decimals), -decimals);
      assert n == amount.Signed() * Pow10(amount.exp + decimals);
      SignedPaddedFits(amount.Signed(), amount.exp + decimals);
    } else {
      CompareAt(amount, Units(n, -decimals), amount.exp);
      assert amount.Signed() == n * Pow10(-decimals - amount.exp);
      MagnitudeOfFactor(n, Pow10(-decimals - amount.exp));
      RoundSignedExact(n);
    }
    FromBaseUnitsValue(n, decimals);
    SameValueTransitive(FromBaseUnits(n, decimals), Units(n, -decimals), amount);
  }

  lemma MagnitudeOfFactor(n: int, m: nat)
    requires m > 0 && 0 - LIMIT < n * m < LIMIT
    ensures 0 - LIMIT < n < LIMIT
  {
    if n >= LIMIT {
      MulMonotone(1, m, n);
    } else if n <= 0 - LIMIT {
      MulMonotone(1, m, -n);
    }
  }

  // -------------------------------------------------------- quantisation

  /** The magnitude of `d` in units of 10^-scale, rounded half away from zero. */
  function QuantizedDigits(d: Decimal, scale: int): nat {
    if d.exp + scale >= 0 then d.digits * Pow10(d.exp + scale) else HalfUp(d.digits, Pow10(-scale - d.exp))
  }

  /** `quantize`: refused when the result needs more than 28 digits. */
  function Quantize(d: Decimal, scale: int): Result<Decimal, MoneyError> {
    var digits := QuantizedDigits(d, scale);
    if digits < LIMIT then Success(Decimal(d.negative, digits, -scale)) else Failure(InvalidOperation)
  }

  function QuantizeMoney(d: Decimal): Result<Decimal, MoneyError> {
    Quantize(d, MONEY_SCALE)
  }

  function HalfUpSigned(n: int, m: nat): int
    requires m > 0
  {
    if n < 0 then 0 - HalfUp(-n, m) else HalfUp(n, m)
  }

  lemma HalfUpSignedMonotone(x: int, y: int, m: nat)
    requires x <= y && m > 0
    ensures HalfUpSigned(x, m) <= HalfUpSigned(y, m)
  {
    if 0 <= x {
      HalfUpMonotone(x, y, m);
    } else if y < 0 {
      HalfUpMonotone(-y, -x, m);
    }
  }

  lemma HalfUpScaled(n: nat, m: nat, k: nat)
    requires m > 0 && k > 0
    ensures m * k > 0
    ensures HalfUp(n * k, m * k) == HalfUp(n, m)
  {
    MulMonotone(1, k, m);
    Split(n, m);
    var q, r := n / m, n % m;
    assert n * k == q * (m * k) + r * k by {
      MulAssociative(q, m, k);
    }
    MulMonotone(r + 1, m, k);
    DivOfScaled(q, m * k, r * k);
    EqualProducts(m, 2 * r, k);
  }

  lemma QuantizeCoarse(digits: nat, shift: nat, m: nat)
    requires m > 0
    ensures 0 <= digits * (Pow10(shift) * m)
    ensures HalfUp(digits * (Pow10(shift) * m), m) == digits * Pow10(shift)
  {
    MulAssociative(digits, Pow10(shift), m);
    HalfUpExact(digits * Pow10(shift), m);
  }

  /** Quantising the magnitude, read at any finer scale: rounded half up there. */
  lemma QuantizedAtScale(d: Decimal, scale: int, e: int)
    requires e <= d.exp && e <= -scale
    ensures QuantizedDigits(d, scale) == HalfUp(d.digits * Pow10(d.exp - e), Pow10(-scale - e))
  {
    if d.exp + scale >= 0 {
      Pow10Add(d.exp + scale, -scale - e);
      QuantizeCoarse(d.digits, d.exp + scale, Pow10(-scale - e));
    } else {
      Pow10Add(-scale - d.exp, d.exp - e);
      HalfUpScaled(d.digits, Pow10(-scale - d.exp), Pow10(d.exp - e));
    }
  }

  /** What quantisation computes, read at any finer scale: the value rounded to the
      nearest unit, a half away from zero. */
  lemma QuantizeAtScale(d: Decimal, scale: int, e: int)
    requires e <= d.exp && e <= -scale
    ensures Decimal(d.negative, QuantizedDigits(d, scale), -scale).Signed()
         == HalfUpSigned(d.AtScale(e), Pow10(-scale - e))
  {
    QuantizedAtScale(d, scale, e);
    SignedProduct(d.negative, d.digits, Pow10(d.exp - e));
    HalfUpOfSigned(d.negative, d.digits * Pow10(d.exp - e), Pow10(-scale - e));
  }

  lemma HalfUpOfSigned(negative: bool, n: nat, m: nat)
    requires m > 0
    ensures HalfUpSigned(if negative then 0 - n else n, m) == if negative then 0 - HalfUp(n, m) else HalfUp(n, m)
  {
    HalfUpExact(0, m);
  }

  // ---------------------------------------------------------- comparison

  datatype AmountMatch = Underpaid | Exact | Overpaid {
    function Rank(): nat {
      match this
      case Underpaid => 0
      case Exact => 1
      case Overpaid => 2
    }
  }

  function CompareAmounts(expected: Decimal, received: Decimal,
                          underpaymentTolerance: Decimal, overpaymentTolerance: Decimal)
    : Result<AmountMatch, MoneyError>
  {
    var expectedQ :- QuantizeMoney(expected);
    var receivedQ :- QuantizeMoney(received);
    // The difference is computed in the context too.
    Classify(RoundSigned(receivedQ.Signed() - expectedQ.Signed()), underpaymentTolerance, overpaymentTolerance)
  }

  /** Only the tolerance on the side of the difference is looked at. */
  function Classify(delta: int, underpaymentTolerance: Decimal, overpaymentTolerance: Decimal)
    : Result<AmountMatch, MoneyError>
  {
    if delta == 0 then Success(Exact)
    else if delta < 0 then
      var tolerance :- QuantizeMoney(underpaymentTolerance);
      Success(if -delta <= tolerance.Signed() then Exact else Underpaid)
    else
      var tolerance :- QuantizeMoney(overpaymentTolerance);
      Success(if delta <= tolerance.Signed() then Exact else Overpaid)
  }

  lemma QuantizeMonotone(a: Decimal, b: Decimal, scale: int)
    requires AtMost(a, b) && Quantize(a, scale).Success? && Quantize(b, scale).Success?
    ensures Quantize(a, scale).value.Signed() <= Quantize(b, scale).value.Signed()
  {
    var e := Min(Min(a.exp, b.exp), -scale);
    CompareAt(a, b, e);
    QuantizeAtScale(a, scale, e);
    QuantizeAtScale(b, scale, e);
    HalfUpSignedMonotone(a.AtScale(e), b.AtScale(e), Pow10(-scale - e));
  }

  /** Receiving more never lowers the verdict: underpaid, then exact, then overpaid. */
  lemma CompareIsMonotone(expected: Decimal, less: Decimal, more: Decimal, under: Decimal, over: Decimal)
    requires AtMost(less, more)
    requires CompareAmounts(expected, less, under, over).Success?
    requires CompareAmounts(expected, more, under, over).Success?
    ensures CompareAmounts(expected, less, under, over).value.Rank()
         <= CompareAmounts(expected, more, under, over).value.Rank()
  {
    QuantizeMonotone(less, more, MONEY_SCALE);
    var expectedUnits := QuantizeMoney(expected).value.Signed();
    var lessUnits := QuantizeMoney(less).value.Signed();
    var moreUnits := QuantizeMoney(more).value.Signed();
    RoundSignedMonotone(lessUnits - expectedUnits, moreUnits - expectedUnits);
    RoundSignedExact(0);
  }

  /** How far a non-negative amount is from its quantised value: less than one half
      below it, at most one half above. */
  lemma QuantizeError(d: Decimal, e: int)
    requires QuantizeMoney(d).Success? && 0 <= d.Signed() && e <= d.exp && e <= -8
    ensures 2 * d.AtScale(e) < (2 * QuantizeMoney(d).value.Signed() + 1) * Pow10(-8 - e)
    ensures (2 * QuantizeMoney(d).value.Signed() - 1) * Pow10(-8 - e) <= 2 * d.AtScale(e)
  {
    QuantizeAtScale(d, MONEY_SCALE, e);
    NonNegativeProduct(d.Signed(), Pow10(d.exp - e));
    HalfUpError(d.AtScale(e), Pow10(-8 - e));
    OddMultiple(QuantizeMoney(d).value.Signed(), Pow10(-8 - e));
  }

  lemma NonNegativeProduct(x: int, m: nat)
    requires 0 <= x
    ensures 0 <= x * m
  {
  }

  lemma OddMultiple(u: int, m: int)
    ensures (2 * u + 1) * m == 2 * (u * m) + m
    ensures (2 * u - 1) * m == 2 * (u * m) - m
  {
  }

  /** The part of a shortfall or of an excess that the operator's tolerance covers. */
  function Allowance(tolerance: Decimal): int {
    match QuantizeMoney(tolerance)
    case Success(q) => if q.Signed() > 0 then q.Signed() else 0
    case Failure(_) => 0
  }

  lemma ExactMeansAllowed(delta: int, under: Decimal, over: Decimal)
    requires Classify(delta, under, over) == Success(Exact)
    ensures -delta <= Allowance(under) && delta <= Allowance(over)
  {
  }

  lemma ExactInUnits(expected: Decimal, received: Decimal, under: Decimal, over: Decimal)
    requires CompareAmounts(expected, received, under, over) == Success(Exact)
    requires 0 <= expected.Signed() && 0 <= received.Signed()
    ensures QuantizeMoney(expected).Success? && QuantizeMoney(received).Success?
    ensures QuantizeMoney(expected).value.Signed() - QuantizeMoney(received).value.Signed() <= Allowance(under)
    ensures QuantizeMoney(received).value.Signed() - QuantizeMoney(expected).value.Signed() <= Allowance(over)
  {
    CompareUnits(expected, received, under, over);
    ExactMeansAllowed(QuantizeMoney(received).value.Signed() - QuantizeMoney(expected).value.Signed(), under, over);
  }

  lemma QuantizedFits(d: Decimal)
    requires QuantizeMoney(d).Success? && 0 <= d.Signed()
    ensures 0 <= QuantizeMoney(d).value.Signed() < LIMIT
  {
    if d.negative {
      ZeroQuantizes(d);
    }
  }

  lemma ZeroQuantizes(d: Decimal)
    requires d.digits == 0
    ensures QuantizedDigits(d, MONEY_SCALE) == 0
  {
    if d.exp + MONEY_SCALE < 0 {
      HalfUpExact(0, Pow10(-MONEY_SCALE - d.exp));
    }
  }

  /** Between amounts that are not negative the difference needs no rounding. */
  lemma CompareUnits(expected: Decimal, received: Decimal, under: Decimal, over: Decimal)
    requires CompareAmounts(expected, received, under, over).Success?
    requires 0 <= expected.Signed() && 0 <= received.Signed()
    ensures QuantizeMoney(expected).Success? && QuantizeMoney(received).Success?
    ensures CompareAmounts(expected, received, under, over)
         == Classify(QuantizeMoney(received).value.Signed() - QuantizeMoney(expected).value.Signed(), under, over)
  {
    QuantizedFits(expected);
    QuantizedFits(received);
    RoundSignedExact(QuantizeMoney(received).value.Signed() - QuantizeMoney(expected).value.Signed());
  }

  /** Which verdict a difference gets, in units of 10^-8: exact within the tolerance of its
      own side, the ends included, and underpaid or overpaid beyond it. */
  lemma VerdictByTolerance(expected: Decimal, received: Decimal, under: Decimal, over: Decimal)
    requires CompareAmounts(expected, received, under, over).Success?
    requires 0 <= expected.Signed() && 0 <= received.Signed()
    ensures QuantizeMoney(expected).Success? && QuantizeMoney(received).Success?
    ensures var delta := QuantizeMoney(received).value.Signed() - QuantizeMoney(expected).value.Signed();
            CompareAmounts(expected, received, under, over).value
            == if delta < 0 - Allowance(under) then Underpaid else if delta > Allowance(over) then Overpaid else Exact
  {
    CompareUnits(expected, received, under, over);
  }

  /** An amount accepted as exact is short by less than the quantised tolerance plus
      one unit of 10^-8, and exceeds the expectation by less than the other
      tolerance plus one unit. */
  lemma ExactIsCloseEnough(expected: Decimal, received: Decimal, under: Decimal, over: Decimal, e: int)
    requires CompareAmounts(expected, received, under, over) == Success(Exact)
    requires 0 <= expected.Signed() && 0 <= received.Signed()
    requires e <= expected.exp && e <= received.exp && e <= -8
    ensures expected.AtScale(e) - received.AtScale(e) < (Allowance(under) + 1) * Pow10(-8 - e)
    ensures received.AtScale(e) - expected.AtScale(e) < (Allowance(over) + 1) * Pow10(-8 - e)
  {
    ExactInUnits(expected, received, under, over);
    QuantizedGap(expected, received, Allowance(under), e);
    QuantizedGap(received, expected, Allowance(over), e);
  }

  lemma QuantizedGap(x: Decimal, y: Decimal, allowance: int, e: int)
    requires QuantizeMoney(x).Success? && QuantizeMoney(y).Success?
    requires QuantizeMoney(x).value.Signed() - QuantizeMoney(y).value.Signed() <= allowance
    requires 0 <= x.Signed() && 0 <= y.Signed() && e <= x.exp && e <= y.exp && e <= -8
    ensures x.AtScale(e) - y.AtScale(e) < (allowance + 1) * Pow10(-8 - e)
  {
    QuantizeError(x, e);
    QuantizeError(y, e);
    var p, q := QuantizeMoney(x).value.Signed(), QuantizeMoney(y).value.Signed();
    MulMonotone(p - q, allowance, Pow10(-8 - e));
    Doubled(x.AtScale(e), y.AtScale(e), p, q, allowance, Pow10(-8 - e));
  }

  lemma Doubled(x: int, y: int, p: int, q: int, allowance: int, m: nat)
    requires 2 * x < (2 * p + 1) * m && (2 * q - 1) * m <= 2 * y && (p - q) * m <= allowance * m
    ensures x - y < (allowance + 1) * m
  {
    OddMultiple(p, m);
    OddMultiple(q, m);
    Distributes(p, q, m);
    Distributes(allowance, -1, m);
  }

  lemma Distributes(x: int, y: int, m: int)
    ensures (x - y) * m == x * m - y * m
  {
  }

  /** Without tolerances only equal quantised amounts are exact. */
  lemma ZeroTolerance(expected: Decimal, received: Decimal, zero: Decimal)
    requires zero.digits == 0
    requires CompareAmounts(expected, received, zero, zero).Success?
    requires 0 <= expected.Signed() && 0 <= received.Signed()
    ensures CompareAmounts(expected, received, zero, zero).value == Exact
       <==> QuantizeMoney(expected).value.Signed() == QuantizeMoney(received).value.Signed()
  {
    CompareUnits(expected, received, zero, zero);
    ZeroClassifies(QuantizeMoney(received).value.Signed() - QuantizeMoney(expected).value.Signed(), zero);
  }

  lemma ZeroClassifies(delta: int, zero: Decimal)
    requires zero.digits == 0 && Classify(delta, zero, zero).Success?
    ensures Classify(delta, zero, zero).value == Exact <==> delta == 0
  {
    ZeroQuantizes(zero);
  }
}
