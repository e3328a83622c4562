/** Powers of ten and the two roundings Python's decimal module applies here:
    half-even to the context's 28 digits, half-up in every quantize. */
module Rounding {
  /** 10^28: the first coefficient that does not fit the default decimal context. */
  const LIMIT: nat := 10_000_000_000_000_000_000_000_000_000

  function Pow10(n: nat): (p: nat)
    ensures p > 0
  {
    if n == 0 then 1 else 10 * Pow10(n - 1)
  }

  lemma {:induction false} Pow10Add(a: nat, b: nat)
    ensures Pow10(a + b) == Pow10(a) * Pow10(b)
  {
    if a > 0 {
      Pow10Add(a - 1, b);
    }
  }

  lemma Pow10Monotone(a: nat, b: nat)
    requires a <= b
    ensures Pow10(a) <= Pow10(b)
    ensures Pow10(b) == Pow10(b - a) * Pow10(a)
  {
    Pow10Add(b - a, a);
    MulMonotone(1, Pow10(b - a), Pow10(a));
  }

  lemma Pow10Order(a: nat, b: nat)
    requires Pow10(a) < Pow10(b)
    ensures a < b
  {
    if b <= a {
      Pow10Monotone(b, a);
    }
  }

  lemma MulMonotone(x: int, y: int, m: int)
    requires x <= y && 0 <= m
    ensures x * m <= y * m
  {
  }

  lemma StrictMul(x: int, y: int, m: int)
    requires x < y && 0 < m
    ensures x * m < y * m
  {
  }

  lemma CancelMul(x: int, y: int, m: int)
    requires x * m < y * m && 0 < m
    ensures x < y
  {
    if y <= x {
      MulMonotone(y, x, m);
    }
  }

  /** Dividing a scaled number by the scale gives it back, whatever remainder is added. */
  lemma DivOfScaled(q: nat, m: nat, r: nat)
    requires r < m
    ensures (q * m + r) / m == q && (q * m + r) % m == r
  {
    var n := q * m + r;
    assert n == (n / m) * m + n % m;
    if n / m < q {
      MulMonotone(n / m + 1, q, m);
    } else if n / m > q {
      MulMonotone(q + 1, n / m, m);
    }
  }

  // ---------------------------------------------------------- half even

  function HalfEven(n: nat, m: nat): nat
    requires m > 0
  {
    var q, r := n / m, n % m;
    if 2 * r > m || (2 * r == m && q % 2 == 1) then q + 1 else q
  }

  function HalfUp(n: nat, m: nat): nat
    requires m > 0
  {
    var q, r := n / m, n % m;
    if 2 * r >= m then q + 1 else q
  }

  lemma Split(n: nat, m: nat)
    requires m > 0
    ensures n == (n / m) * m + n % m && 0 <= n % m < m
  {
  }

  lemma HalfEvenError(n: nat, m: nat)
    requires m > 0
    ensures 2 * n - m <= 2 * (HalfEven(n, m) * m) <= 2 * n + m
  {
    Split(n, m);
  }

  /** The half-even quotient is a nearest one, and of two nearest ones the even one. */
  lemma NearestEven(n: nat, m: nat, q: nat)
    requires m > 0
    ensures 2 * (q * m) - m < 2 * n < 2 * (q * m) + m ==> HalfEven(n, m) == q
    ensures 2 * n == 2 * (q * m) + m ==> HalfEven(n, m) == if q % 2 == 0 then q else q + 1
  {
    if 2 * (q * m) - m < 2 * n < 2 * (q * m) + m {
      HalfEvenError(n, m);
      NoOtherMultiple(HalfEven(n, m), q, m, 2 * n);
    } else if 2 * n == 2 * (q * m) + m {
      DivOfScaled(q, m, n - q * m);
    }
  }

  /** Two multiples within half a step of the same number, one strictly, are the same. */
  lemma NoOtherMultiple(p: int, q: int, m: int, x: int)
    requires m > 0 && x - m <= 2 * (p * m) <= x + m && x - m < 2 * (q * m) < x + m
    ensures p == q
  {
    assert (p + 1) * m == p * m + m && (q + 1) * m == q * m + m;
    if p < q {
      MulMonotone(p + 1, q, m);
    } else if q < p {
      MulMonotone(q + 1, p, m);
    }
  }

  lemma HalfUpError(n: nat, m: nat)
    requires m > 0
    ensures 2 * n - m < 2 * (HalfUp(n, m) * m) <= 2 * n + m
  {
    Split(n, m);
  }

  /** The quotient a rounding starts from, ordered like the numbers. */
  lemma DivMonotone(x: nat, y: nat, m: nat)
    requires x <= y && m > 0
    ensures x / m <= y / m
    ensures x / m == y / m ==> x % m <= y % m
  {
    Split(x, m);
    Split(y, m);
    if x / m > y / m {
      MulMonotone(y / m + 1, x / m, m);
    }
  }

  lemma HalfEvenMonotone(x: nat, y: nat, m: nat)
    requires x <= y && m > 0
    ensures HalfEven(x, m) <= HalfEven(y, m)
  {
    DivMonotone(x, y, m);
  }

  lemma HalfUpMonotone(x: nat, y: nat, m: nat)
    requires x <= y && m > 0
    ensures HalfUp(x, m) <= HalfUp(y, m)
  {
    DivMonotone(x, y, m);
  }

  lemma DivShift(x: nat, t: nat, m: nat)
    requires m > 0
    ensures (x + t * m) / m == x / m + t && (x + t * m) % m == x % m
  {
    Split(x, m);
    assert x + t * m == (x / m + t) * m + x % m;
    DivOfScaled(x / m + t, m, x % m);
  }

  lemma HalfUpShift(x: nat, t: nat, m: nat)
    requires m > 0
    ensures HalfUp(x + t * m, m) == HalfUp(x, m) + t
  {
    DivShift(x, t, m);
  }

  lemma HalfEvenExact(q: nat, m: nat)
    requires m > 0
    ensures HalfEven(q * m, m) == q
  {
    DivOfScaled(q, m, 0);
  }

  lemma HalfUpExact(q: nat, m: nat)
    requires m > 0
    ensures HalfUp(q * m, m) == q
  {
    DivOfScaled(q, m, 0);
  }

  /** Rounding half to even moves a number strictly below `y + t * m` no higher
      than `t` above the rounded `y`. With equality a tie can break it. */
  lemma HalfEvenShift(x: nat, y: nat, t: nat, m: nat)
    requires m > 0 && x < y + t * m
    ensures HalfEven(x, m) <= HalfEven(y, m) + t
  {
    DivShift(y, t, m);
    DivMonotone(x, y + t * m, m);
    Split(x, m);
    Split(y + t * m, m);
  }

  // ------------------------------------------------- 28-digit precision

  /** How many digits of `n` are beyond the precision of the context. */
  function Excess(n: nat): nat {
    if n < LIMIT then 0 else 1 + Excess(n / 10)
  }

  lemma {:induction false} ExcessBounds(n: nat)
    ensures n < LIMIT * Pow10(Excess(n))
    ensures Excess(n) > 0 ==> LIMIT * Pow10(Excess(n) - 1) <= n
  {
    if n >= LIMIT {
      ExcessBounds(n / 10);
      var k := Excess(n / 10);
      assert Excess(n) == k + 1;
      assert Pow10(k + 1) == 10 * Pow10(k);
      if k > 0 {
        assert Pow10(k) == 10 * Pow10(k - 1);
      }
    }
  }

  lemma ExcessMonotone(x: nat, y: nat)
    requires x <= y
    ensures Excess(x) <= Excess(y)
  {
    ExcessBounds(x);
    ExcessBounds(y);
    if Excess(x) > 0 {
      CancelMul(Pow10(Excess(x) - 1), Pow10(Excess(y)), LIMIT);
      Pow10Order(Excess(x) - 1, Excess(y));
    }
  }

  /** `n` rounded half-even to 28 significant digits. */
  function RoundToPrecision(n: nat): nat {
    HalfEven(n, Pow10(Excess(n))) * Pow10(Excess(n))
  }

  function RoundSigned(n: int): int {
    if n < 0 then 0 - RoundToPrecision(-n) else RoundToPrecision(n)
  }

  /** At most 28 significant digits: the digits beyond the 28th are zeros. */
  predicate FitsPrecision(n: nat) {
    n % Pow10(Excess(n)) == 0
  }

  /** Rounding changes a number exactly when it does not fit. */
  lemma RoundIsExactWhenFits(n: nat)
    ensures RoundToPrecision(n) == n <==> FitsPrecision(n)
    ensures n < LIMIT ==> FitsPrecision(n)
  {
    var m := Pow10(Excess(n));
    Split(n, m);
    if n % m == 0 {
      HalfEvenExact(n / m, m);
    }
    if RoundToPrecision(n) == n {
      DivOfScaled(HalfEven(n, m), m, 0);
    }
  }

  lemma RoundStaysAboveBand(n: nat, k: nat)
    requires LIMIT * Pow10(k) <= n
    ensures LIMIT * Pow10(k) <= RoundToPrecision(n)
  {
    ExcessBounds(n);
    var e := Excess(n);
    CancelMul(Pow10(k), Pow10(e), LIMIT);
    Pow10Order(k, e);
    Pow10Monotone(k, e - 1);
    MulMonotone(Pow10(k), Pow10(e - 1), LIMIT);
    var base := LIMIT / 10;
    assert LIMIT * Pow10(e - 1) == base * Pow10(e);
    HalfEvenMonotone(base * Pow10(e), n, Pow10(e));
    HalfEvenExact(base, Pow10(e));
    MulMonotone(base, HalfEven(n, Pow10(e)), Pow10(e));
  }

  lemma RoundStaysInBand(n: nat)
    ensures RoundToPrecision(n) <= LIMIT * Pow10(Excess(n))
  {
    ExcessBounds(n);
    var m := Pow10(Excess(n));
    HalfEvenMonotone(n, LIMIT * m, m);
    HalfEvenExact(LIMIT, m);
    MulMonotone(HalfEven(n, m), LIMIT, m);
  }

  /** Rounding to 28 digits never reverses an order, also across the points where
      the number of digits changes. */
  lemma RoundMonotone(x: nat, y: nat)
    requires x <= y
    ensures RoundToPrecision(x) <= RoundToPrecision(y)
  {
    ExcessMonotone(x, y);
    var k := Excess(x);
    if Excess(y) == k {
      HalfEvenMonotone(x, y, Pow10(k));
      MulMonotone(HalfEven(x, Pow10(k)), HalfEven(y, Pow10(k)), Pow10(k));
    } else {
      RoundStaysInBand(x);
      ExcessBounds(y);
      Pow10Monotone(k, Excess(y) - 1);
      MulMonotone(Pow10(k), Pow10(Excess(y) - 1), LIMIT);
      RoundStaysAboveBand(y, k);
    }
  }

  lemma RoundSignedMonotone(x: int, y: int)
    requires x <= y
    ensures RoundSigned(x) <= RoundSigned(y)
  {
    if 0 <= x {
      RoundMonotone(x, y);
    } else if y < 0 {
      RoundMonotone(-y, -x);
    }
  }

  lemma RoundSignedExact(n: int)
    requires 0 - LIMIT < n < LIMIT
    ensures RoundSigned(n) == n
  {
    RoundIsExactWhenFits(if n < 0 then -n else n);
  }

  /** The rounding error, at most half a unit of the last kept digit. */
  lemma RoundError(n: nat)
    ensures 2 * n - Pow10(Excess(n)) <= 2 * RoundToPrecision(n) <= 2 * n + Pow10(Excess(n))
  {
    HalfEvenError(n, Pow10(Excess(n)));
  }
}
