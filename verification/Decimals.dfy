/** Decimal numbers as app/core/money.py handles them: a sign, a coefficient and an
    exponent, in a context of 28 digits. The sign is kept apart because Python has a
    negative zero. */
module Decimals {
  import opened Rounding

  datatype Decimal = Decimal(negative: bool, digits: nat, exp: int) {
    function Signed(): int {
      if negative then 0 - digits else digits
    }

    /** The value counted in units of 10^e. */
    function AtScale(e: int): int
      requires e <= exp
    {
      Signed() * Pow10(exp - e)
    }
  }

  function Min(a: int, b: int): int {
    if a <= b then a else b
  }

  function Abs(n: int): nat {
    if n < 0 then -n else n
  }

  /** The number n * 10^exp. */
  function Units(n: int, exp: int): Decimal {
    Decimal(n < 0, Abs(n), exp)
  }

  predicate SameValue(a: Decimal, b: Decimal) {
    a.AtScale(Min(a.exp, b.exp)) == b.AtScale(Min(a.exp, b.exp))
  }

  predicate AtMost(a: Decimal, b: Decimal) {
    a.AtScale(Min(a.exp, b.exp)) <= b.AtScale(Min(a.exp, b.exp))
  }

  lemma AtScaleShift(d: Decimal, e: int, finer: int)
    requires finer <= e <= d.exp
    ensures d.AtScale(finer) == d.AtScale(e) * Pow10(e - finer)
  {
    Pow10Add(d.exp - e, e - finer);
    MulAssociative(d.Signed(), Pow10(d.exp - e), Pow10(e - finer));
  }

  lemma MulAssociative(a: int, b: int, c: int)
    ensures a * (b * c) == a * b * c
  {
  }

  lemma EqualProducts(x: int, y: int, m: int)
    requires m > 0
    ensures x * m == y * m <==> x == y
    ensures x * m <= y * m <==> x <= y
  {
    if x < y {
      MulMonotone(x + 1, y, m);
    } else if y < x {
      MulMonotone(y + 1, x, m);
    }
  }

  /** Values can be compared at any scale fine enough for both. */
  lemma CompareAt(a: Decimal, b: Decimal, e: int)
    requires e <= a.exp && e <= b.exp
    ensures SameValue(a, b) <==> a.AtScale(e) == b.AtScale(e)
    ensures AtMost(a, b) <==> a.AtScale(e) <= b.AtScale(e)
  {
    var m := Min(a.exp, b.exp);
    AtScaleShift(a, m, e);
    AtScaleShift(b, m, e);
    EqualProducts(a.AtScale(m), b.AtScale(m), Pow10(m - e));
  }

  lemma SameValueTransitive(a: Decimal, b: Decimal, c: Decimal)
    requires SameValue(a, b) && SameValue(b, c)
    ensures SameValue(a, c)
  {
    var e := Min(a.exp, Min(b.exp, c.exp));
    CompareAt(a, b, e);
    CompareAt(b, c, e);
    CompareAt(a, c, e);
  }

  // ------------------------------------------------- context operations

  /** Rounds the coefficient half-even to the 28 digits of the context. */
  function Fix(d: Decimal): (r: Decimal)
    ensures d.digits < LIMIT ==> r == d
  {
    var k := Excess(d.digits);
    if k == 0 then d
    else
      var q := HalfEven(d.digits, Pow10(k));
      if q == LIMIT then Decimal(d.negative, LIMIT / 10, d.exp + k + 1) else Decimal(d.negative, q, d.exp + k)
  }

  lemma Carry(k: nat)
    ensures (LIMIT / 10) * Pow10(k + 1) == LIMIT * Pow10(k)
  {
    MulAssociative(LIMIT / 10, 10, Pow10(k));
  }

  lemma RoundedFits(n: nat)
    ensures HalfEven(n, Pow10(Excess(n))) <= LIMIT
  {
    ExcessBounds(n);
    var m := Pow10(Excess(n));
    HalfEvenMonotone(n, LIMIT * m, m);
    HalfEvenExact(LIMIT, m);
  }

  lemma FixMagnitude(d: Decimal)
    ensures Fix(d).digits < LIMIT && Fix(d).exp >= d.exp && Fix(d).negative == d.negative
    ensures Fix(d).digits * Pow10(Fix(d).exp - d.exp) == RoundToPrecision(d.digits)
  {
    var k := Excess(d.digits);
    RoundedFits(d.digits);
    if k == 0 {
      RoundIsExactWhenFits(d.digits);
    } else if HalfEven(d.digits, Pow10(k)) == LIMIT {
      Carry(k);
    }
  }

  lemma FixRounds(d: Decimal)
    ensures Fix(d).digits < LIMIT && Fix(d).exp >= d.exp
    ensures Fix(d).AtScale(d.exp) == RoundSigned(d.Signed())
  {
    FixMagnitude(d);
    ZeroRoundsToZero();
    SignedProduct(Fix(d).negative, Fix(d).digits, Pow10(Fix(d).exp - d.exp));
  }

  lemma ZeroRoundsToZero()
    ensures RoundToPrecision(0) == 0
  {
    RoundIsExactWhenFits(0);
  }

  lemma SignedProduct(negative: bool, digits: nat, m: nat)
    ensures Decimal(negative, digits, 0).Signed() * m == if negative then 0 - digits * m else digits * m
  {
  }

  /** Moves the decimal point `n` places to the right. */
  function Scaleb(d: Decimal, n: int): Decimal {
    Fix(Decimal(d.negative, d.digits, d.exp + n))
  }

  /** Drops trailing zeros of the coefficient. */
  function Normalize(d: Decimal): (r: Decimal)
    ensures r.digits <= d.digits && (d.digits > 0 ==> r.exp >= d.exp)
    decreases d.digits
  {
    if d.digits == 0 then Decimal(d.negative, 0, 0)
    else if d.digits % 10 == 0 then Normalize(Decimal(d.negative, d.digits / 10, d.exp + 1))
    else d
  }

  lemma {:induction false} NormalizeKeepsValue(d: Decimal)
    ensures SameValue(Normalize(d), d)
    decreases d.digits
  {
    if d.digits > 0 && d.digits % 10 == 0 {
      var shorter := Decimal(d.negative, d.digits / 10, d.exp + 1);
      NormalizeKeepsValue(shorter);
      assert Pow10(1) == 10 * Pow10(0);
      assert SameValue(shorter, d);
      SameValueTransitive(Normalize(d), shorter, d);
    }
  }

  lemma {:induction false} NormalizedForm(d: Decimal)
    ensures Normalize(d).digits % 10 != 0 || Normalize(d) == Decimal(d.negative, 0, 0)
    decreases d.digits
  {
    if d.digits > 0 && d.digits % 10 == 0 {
      NormalizedForm(Decimal(d.negative, d.digits / 10, d.exp + 1));
    }
  }

  /** Adding zero pads a positive exponent down towards zero. */
  function PlusZero(d: Decimal): Decimal {
    if d.exp <= 0 then d
    else
      var e := if d.exp - 29 > 0 then d.exp - 29 else 0;
      Fix(Decimal(d.negative, d.digits * Pow10(d.exp - e), e))
  }

  /** Padding 28 digits with `j` zeros leaves no more than `j` digits in excess. */
  lemma PaddedExcess(digits: nat, j: nat)
    requires digits < LIMIT
    ensures Excess(digits * Pow10(j)) <= j
  {
    var n := digits * Pow10(j);
    ExcessBounds(n);
    if Excess(n) > 0 {
      StrictMul(digits, LIMIT, Pow10(j));
      CancelMul(Pow10(Excess(n) - 1), Pow10(j), LIMIT);
      Pow10Order(Excess(n) - 1, j);
    }
  }

  lemma MultipleHasNoRemainder(digits: nat, j: nat, k: nat)
    requires k <= j
    ensures (digits * Pow10(j)) % Pow10(k) == 0
  {
    Pow10Monotone(k, j);
    MulAssociative(digits, Pow10(j - k), Pow10(k));
    DivOfScaled(digits * Pow10(j - k), Pow10(k), 0);
  }

  lemma PaddedFits(digits: nat, j: nat)
    requires digits < LIMIT
    ensures RoundToPrecision(digits * Pow10(j)) == digits * Pow10(j)
  {
    PaddedExcess(digits, j);
    MultipleHasNoRemainder(digits, j, Excess(digits * Pow10(j)));
    RoundIsExactWhenFits(digits * Pow10(j));
  }

  lemma SignedPaddedFits(n: int, j: nat)
    requires 0 - LIMIT < n < LIMIT
    ensures RoundSigned(n * Pow10(j)) == n * Pow10(j)
  {
    PaddedFits(Abs(n), j);
    SignedProduct(n < 0, Abs(n), Pow10(j));
  }

  lemma PaddingKeepsValue(d: Decimal, e: int)
    requires d.digits < LIMIT && e <= d.exp
    ensures 0 <= d.digits * Pow10(d.exp - e)
    ensures SameValue(Fix(Decimal(d.negative, d.digits * Pow10(d.exp - e), e)), d)
    ensures Fix(Decimal(d.negative, d.digits * Pow10(d.exp - e), e)).digits < LIMIT
  {
    var padded := Decimal(d.negative, d.digits * Pow10(d.exp - e), e);
    SignedProduct(d.negative, d.digits, Pow10(d.exp - e));
    SignedPaddedFits(d.Signed(), d.exp - e);
    FixRounds(padded);
    CompareAt(Fix(padded), d, e);
  }

  lemma PlusZeroKeepsValue(d: Decimal)
    requires d.digits < LIMIT
    ensures SameValue(PlusZero(d), d) && PlusZero(d).digits < LIMIT
  {
    if d.exp > 0 {
      PaddingKeepsValue(d, if d.exp - 29 > 0 then d.exp - 29 else 0);
    }
  }
}
