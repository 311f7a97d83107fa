/**
 The monthly payment of a loan. Amounts are in cents, rates and balances are exact reals; only the payment
 itself is rounded, to whole cents.
 */
module Annuity {
  import opened Common

  // ----- powers and geometric sums

  function Power(x: real, n: nat): real {
    if n == 0 then 1.0 else x * Power(x, n - 1)
  }

  /** `1 + x + ... + x^(n-1)` */
  function Geometric(x: real, n: nat): real {
    if n == 0 then 0.0 else x * Geometric(x, n - 1) + 1.0
  }

  lemma {:induction false} GeometricClosed(x: real, n: nat)
    ensures (x - 1.0) * Geometric(x, n) == Power(x, n) - 1.0
  {
    if n > 0 {
      GeometricClosed(x, n - 1);
      var g := Geometric(x, n - 1);
      assert (x - 1.0) * (x * g + 1.0) == x * ((x - 1.0) * g) + (x - 1.0);
    }
  }

  lemma {:induction false} PowerAtLeastOne(x: real, n: nat)
    requires x >= 1.0
    ensures Power(x, n) >= 1.0
    ensures x > 1.0 && n > 0 ==> Power(x, n) > 1.0
  {
    if n > 0 {
      PowerAtLeastOne(x, n - 1);
      var p := Power(x, n - 1);
      assert x * p >= p;
    }
  }

  /** For growing powers, the sum is at least its number of terms and at most that often its last factor. */
  lemma {:induction false} GeometricBounds(x: real, n: nat)
    requires x >= 1.0
    ensures n as real <= Geometric(x, n) <= n as real * Power(x, n)
  {
    if n > 0 {
      GeometricBounds(x, n - 1);
      PowerAtLeastOne(x, n);
      OneMoreTerm(x, Geometric(x, n - 1), Power(x, n - 1), (n - 1) as real);
    }
  }

  lemma OneMoreTerm(x: real, g: real, p: real, m: real)
    requires x >= 1.0 && 0.0 <= m <= g <= m * p && x * p >= 1.0
    ensures m + 1.0 <= x * g + 1.0 <= (m + 1.0) * (x * p)
  {
    Scaled(x, g, m * p);
    assert x * (m * p) == m * (x * p);
    assert (m + 1.0) * (x * p) == m * (x * p) + x * p;
    Scaled(g, 1.0, x);
  }

  lemma Scaled(k: real, a: real, b: real)
    requires k >= 0.0 && a <= b
    ensures k * a <= k * b
  {
  }

  // ----- the balance under a fixed payment

  /** What is owed after `n` months at monthly rate `r`, paying `p` at the end of each. */
  function BalanceAfter(amount: real, r: real, p: real, n: nat): real {
    if n == 0 then amount else BalanceAfter(amount, r, p, n - 1) * (1.0 + r) - p
  }

  lemma {:induction false} BalanceClosed(amount: real, r: real, p: real, n: nat)
    ensures BalanceAfter(amount, r, p, n) == amount * Power(1.0 + r, n) - p * Geometric(1.0 + r, n)
  {
    if n > 0 {
      BalanceClosed(amount, r, p, n - 1);
      OneMoreMonth(amount, Power(1.0 + r, n - 1), p, Geometric(1.0 + r, n - 1), 1.0 + r);
    }
  }

  lemma OneMoreMonth(amount: real, w: real, p: real, g: real, x: real)
    ensures (amount * w - p * g) * x - p == amount * (x * w) - p * (x * g + 1.0)
  {
    assert (amount * w - p * g) * x == (amount * w) * x - (p * g) * x;
    assert (amount * w) * x == amount * (x * w) && (p * g) * x == p * (x * g);
    assert p * (x * g + 1.0) == p * (x * g) + p;
  }

  // ----- the payment

  datatype PaymentError = MonthsNotPositive | DivisionByZero

  /** The payment before rounding. */
  function Unrounded(amount: real, r: real, months: nat): real
    requires months > 0 && (r != 0.0 ==> Power(1.0 + r, months) != 1.0)
  {
    if r == 0.0 then amount / months as real
    else Annuitized(amount, r, Power(1.0 + r, months))
  }

  function Annuitized(amount: real, r: real, factor: real): real
    requires factor != 1.0
  {
    amount * r * factor / (factor - 1.0)
  }

  /** `quantize` to cents with ROUND_HALF_UP: to the nearest cent, halves away from zero. */
  function RoundHalfUp(x: real): int {
    if x >= 0.0 then (x + 0.5).Floor else -((-x + 0.5).Floor)
  }

  lemma RoundsToNearest(x: real)
    ensures Abs(x - RoundHalfUp(x) as real) <= 0.5
  {
    if x < 0.0 {
      var f := (-x + 0.5).Floor;
      assert f as real <= -x + 0.5 < f as real + 1.0;
      assert RoundHalfUp(x) as real == -(f as real);
    }
  }

  /** A half goes away from zero, on both sides. */
  lemma HalvesGoOutward(k: nat)
    ensures RoundHalfUp(k as real + 0.5) == k + 1 && RoundHalfUp(-(k as real + 0.5)) == -(k + 1)
  {
  }

  function MonthlyRate(annualPercent: real): real {
    annualPercent / 100.0 / 12.0
  }

  /** `monthly_payment`, in cents */
  function MonthlyPayment(amount: int, annualPercent: real, months: int): Result<int, PaymentError> {
    var r := MonthlyRate(annualPercent);
    if months <= 0 then Err(MonthsNotPositive)
    else if r != 0.0 && Power(1.0 + r, months) == 1.0 then Err(DivisionByZero)
    else Ok(RoundHalfUp(Unrounded(amount as real, r, months)))
  }

  /** A loan over one month returns the amount and a twelfth of the year's interest, rounded. */
  lemma SingleMonth(amount: int, annualPercent: real)
    ensures MonthlyPayment(amount, annualPercent, 1) == Ok(RoundHalfUp(amount as real + amount as real * annualPercent / 1200.0))
  {
    Twelfth(amount as real, annualPercent);
    OneMonthUnrounded(amount as real, MonthlyRate(annualPercent));
    hide Power, Unrounded, MonthlyRate, RoundHalfUp;
    var r := MonthlyRate(annualPercent);
    var exact := amount as real + amount as real * annualPercent / 1200.0;
    assert Unrounded(amount as real, r, 1) == exact;
    assert MonthlyPayment(amount, annualPercent, 1) == Ok(RoundHalfUp(exact));
  }

  lemma Twelfth(a: real, annualPercent: real)
    ensures a * MonthlyRate(annualPercent) == a * annualPercent / 1200.0
  {
    assert MonthlyRate(annualPercent) == annualPercent / 1200.0;
  }

  lemma OneMonthUnrounded(a: real, r: real)
    ensures r != 0.0 ==> Power(1.0 + r, 1) != 1.0
    ensures Unrounded(a, r, 1) == a + a * r
  {
    assert Power(1.0 + r, 1) == (1.0 + r) * Power(1.0 + r, 0) == 1.0 + r;
    if r != 0.0 {
      assert a * r * (1.0 + r) == (a + a * r) * r;
    }
  }

  /** A payment exists for every rate that is not negative, as soon as there is a month to pay in. */
  lemma PaymentExists(amount: int, annualPercent: real, months: int)
    requires annualPercent >= 0.0
    ensures MonthlyPayment(amount, annualPercent, months).Ok? <==> months > 0
  {
    if months > 0 {
      PowerAtLeastOne(1.0 + MonthlyRate(annualPercent), months);
    }
  }

  /** The unrounded payment is the loan's final value spread over the geometric sum. */
  lemma UnroundedTimesSum(amount: real, r: real, months: nat)
    requires months > 0 && (r != 0.0 ==> Power(1.0 + r, months) != 1.0)
    ensures Unrounded(amount, r, months) * Geometric(1.0 + r, months) == amount * Power(1.0 + r, months)
  {
    if r == 0.0 {
      FlatTimesSum(amount, months);
    } else {
      hide Annuitized, Geometric, Power;
      assert Unrounded(amount, r, months) == Annuitized(amount, r, Power(1.0 + r, months));
      GeometricClosed(1.0 + r, months);
      SpreadOverSum(amount, r, Power(1.0 + r, months), Unrounded(amount, r, months), Geometric(1.0 + r, months));
    }
  }

  lemma FlatTimesSum(amount: real, months: nat)
    requires months > 0
    ensures Unrounded(amount, 0.0, months) * Geometric(1.0 + 0.0, months) == amount * Power(1.0 + 0.0, months)
  {
    FlatSums(months);
    QuotientCancels(amount, months as real);
  }

  lemma SpreadOverSum(amount: real, r: real, w: real, p: real, g: real)
    requires r != 0.0 && w != 1.0 && p == Annuitized(amount, r, w) && (1.0 + r - 1.0) * g == w - 1.0
    ensures p * g == amount * w
  {
    QuotientCancels(amount * r * w, w - 1.0);
    assert r * g == w - 1.0;
    assert r * (p * g) == p * (r * g);
    assert amount * r * w == r * (amount * w);
    CancelFactor(r, p * g, amount * w);
  }

  lemma QuotientCancels(a: real, b: real)
    requires b != 0.0
    ensures a / b * b == a
  {
  }

  lemma CancelFactor(k: real, a: real, b: real)
    requires k != 0.0 && k * a == k * b
    ensures a == b
  {
  }

  lemma {:induction false} FlatSums(n: nat)
    ensures Geometric(1.0, n) == n as real && Power(1.0, n) == 1.0
  {
    if n > 0 {
      FlatSums(n - 1);
    }
  }

  /** The unrounded payment pays the loan off exactly, at any rate for which it exists. */
  lemma UnroundedPaysOff(amount: real, r: real, months: nat)
    requires months > 0 && (r != 0.0 ==> Power(1.0 + r, months) != 1.0)
    ensures BalanceAfter(amount, r, Unrounded(amount, r, months), months) == 0.0
  {
    BalanceClosed(amount, r, Unrounded(amount, r, months), months);
    UnroundedTimesSum(amount, r, months);
  }

  /** A product that the solver is to treat as one term. */
  function Times(a: real, b: real): real {
    a * b
  }

  /** Any payment misses zero by its distance from the unrounded one, times the geometric sum. */
  lemma Residual(amount: real, r: real, months: nat, p: real)
    requires months > 0 && (r != 0.0 ==> Power(1.0 + r, months) != 1.0)
    ensures BalanceAfter(amount, r, p, months) == Times(Unrounded(amount, r, months) - p, Geometric(1.0 + r, months))
  {
    BalanceClosed(amount, r, p, months);
    UnroundedTimesSum(amount, r, months);
    var u, g := Unrounded(amount, r, months), Geometric(1.0 + r, months);
    assert (u - p) * g == u * g - p * g;
  }

  /** Residuals `y` and `z` of two payments that miss by `d` and `e`. */
  lemma ResidualsCompare(d: real, e: real, g: real, y: real, z: real)
    requires y == Times(d, g) && z == Times(e, g) && g >= 0.0 && Abs(d) <= 0.5 && Abs(d) <= Abs(e)
    ensures Abs(y) <= 0.5 * g && Abs(y) <= Abs(z)
  {
    AbsProduct(d, g);
    AbsProduct(e, g);
    ScaledRight(Abs(d), 0.5, g);
    ScaledRight(Abs(d), Abs(e), g);
  }

  lemma AbsProduct(a: real, g: real)
    requires g >= 0.0
    ensures Abs(a * g) == Abs(a) * g
  {
    if a < 0.0 {
      assert (-a) * g == -(a * g);
      ScaledRight(a, 0.0, g);
    } else {
      ScaledRight(0.0, a, g);
    }
  }

  lemma ScaledRight(a: real, b: real, k: real)
    requires k >= 0.0 && a <= b
    ensures a * k <= b * k
  {
  }

  /**
   The cent-rounded payment leaves, after the last month, at most half a cent times the geometric sum, and no
   other whole number of cents leaves less.
   */
  lemma RoundedPaymentIsBest(amount: int, annualPercent: real, months: nat, other: int)
    requires annualPercent >= 0.0 && months > 0
    ensures MonthlyPayment(amount, annualPercent, months).Ok?
    ensures var r, p := MonthlyRate(annualPercent), MonthlyPayment(amount, annualPercent, months).value;
            && Abs(BalanceAfter(amount as real, r, p as real, months)) <= 0.5 * Geometric(1.0 + r, months)
            && Abs(BalanceAfter(amount as real, r, p as real, months)) <= Abs(BalanceAfter(amount as real, r, other as real, months))
  {
    PaymentExists(amount, annualPercent, months);
    RateDefined(annualPercent, months);
    NearestResidual(amount as real, MonthlyRate(annualPercent), months, other);
    hide BalanceAfter, Geometric, Unrounded, RoundHalfUp, Power, Abs, MonthlyRate;
  }

  lemma NearestResidual(amount: real, r: real, months: nat, other: int)
    requires r >= 0.0 && months > 0 && (r != 0.0 ==> Power(1.0 + r, months) != 1.0)
    ensures var p := RoundHalfUp(Unrounded(amount, r, months));
            && Abs(BalanceAfter(amount, r, p as real, months)) <= 0.5 * Geometric(1.0 + r, months)
            && Abs(BalanceAfter(amount, r, p as real, months)) <= Abs(BalanceAfter(amount, r, other as real, months))
  {
    hide BalanceAfter, Geometric, Unrounded, RoundHalfUp, Power, Abs, Times;
    var u, g := Unrounded(amount, r, months), Geometric(1.0 + r, months);
    var p := RoundHalfUp(u);
    RoundsToNearest(u);
    NearestIsNearest(u, other);
    assert g >= 0.0 by {
      GeometricBounds(1.0 + r, months);
    }
    Residual(amount, r, months, p as real);
    Residual(amount, r, months, other as real);
    ResidualsCompare(u - p as real, u - other as real, g,
                     BalanceAfter(amount, r, p as real, months), BalanceAfter(amount, r, other as real, months));
  }

  lemma RateDefined(annualPercent: real, months: nat)
    requires annualPercent >= 0.0 && months > 0
    ensures var r := MonthlyRate(annualPercent);
            r >= 0.0 && (r != 0.0 ==> Power(1.0 + r, months) != 1.0)
  {
    PowerAtLeastOne(1.0 + MonthlyRate(annualPercent), months);
  }

  lemma NearestIsNearest(x: real, k: int)
    ensures Abs(x - RoundHalfUp(x) as real) <= Abs(x - k as real)
  {
    RoundsToNearest(x);
    var m := RoundHalfUp(x);
    if k != m {
      assert k <= m - 1 || k >= m + 1;
      assert k as real <= m as real - 1.0 || k as real >= m as real + 1.0;
    }
  }

  /** The same bound in closed form, for a rate above zero. */
  lemma ResidualBound(amount: int, annualPercent: real, months: nat)
    requires annualPercent > 0.0 && months > 0
    ensures MonthlyPayment(amount, annualPercent, months).Ok?
    ensures var r, p := MonthlyRate(annualPercent), MonthlyPayment(amount, annualPercent, months).value;
            Abs(BalanceAfter(amount as real, r, p as real, months)) <= 0.5 * (Power(1.0 + r, months) - 1.0) / r
  {
    RoundedPaymentIsBest(amount, annualPercent, months, 0);
    var r := MonthlyRate(annualPercent);
    assert r != 0.0;
    hide MonthlyPayment, BalanceAfter, Geometric, Power, Abs, MonthlyRate;
    var g, w := Geometric(1.0 + r, months), Power(1.0 + r, months);
    assert 0.5 * g == 0.5 * (w - 1.0) / r by {
      GeometricClosed(1.0 + r, months);
      HalfSum(r, g, w);
    }
  }

  lemma HalfSum(r: real, g: real, w: real)
    requires r != 0.0 && (1.0 + r - 1.0) * g == w - 1.0
    ensures 0.5 * g == 0.5 * (w - 1.0) / r
  {
    assert r * (0.5 * g) == 0.5 * (w - 1.0);
    QuotientOf(0.5 * g, r, 0.5 * (w - 1.0));
  }

  lemma QuotientOf(a: real, b: real, c: real)
    requires b != 0.0 && b * a == c
    ensures a == c / b
  {
  }

  /** The payments together return the principal, up to half a cent for each. */
  lemma PaymentsReturnPrincipal(amount: nat, annualPercent: real, months: nat)
    requires annualPercent >= 0.0 && months > 0
    ensures MonthlyPayment(amount, annualPercent, months).Ok?
    ensures var p := MonthlyPayment(amount, annualPercent, months).value;
            2 * p * months >= 2 * amount - months
  {
    PaymentExists(amount, annualPercent, months);
    RateDefined(annualPercent, months);
    var p := MonthlyPayment(amount, annualPercent, months).value;
    RoundedReturnsPrincipal(amount, MonthlyRate(annualPercent), months);
    hide MonthlyPayment, MonthlyRate, Unrounded, RoundHalfUp;
    IntProduct(p, months);
  }

  lemma RoundedReturnsPrincipal(amount: nat, r: real, months: nat)
    requires r >= 0.0 && months > 0 && (r != 0.0 ==> Power(1.0 + r, months) != 1.0)
    ensures var p := RoundHalfUp(Unrounded(amount as real, r, months));
            2.0 * (months as real * p as real) >= 2.0 * amount as real - months as real
  {
    hide Unrounded, RoundHalfUp, Power;
    var u := Unrounded(amount as real, r, months);
    assert u - 0.5 <= RoundHalfUp(u) as real by {
      RoundsToNearest(u);
    }
    UnroundedReturnsPrincipal(amount, r, months);
    ReturnsWithin(amount as real, months as real, u, RoundHalfUp(u) as real);
  }

  lemma ReturnsWithin(a: real, n: real, u: real, p: real)
    requires n >= 0.0 && a <= n * u && u - 0.5 <= p
    ensures 2.0 * (n * p) >= 2.0 * a - n
  {
    Scaled(n, u - 0.5, p);
    assert n * (u - 0.5) == n * u - 0.5 * n;
  }

  lemma UnroundedReturnsPrincipal(amount: nat, r: real, months: nat)
    requires r >= 0.0 && months > 0 && (r != 0.0 ==> Power(1.0 + r, months) != 1.0)
    ensures amount as real <= months as real * Unrounded(amount as real, r, months)
  {
    hide Unrounded, Geometric, Power;
    var a, n := amount as real, months as real;
    var u, g, w := Unrounded(a, r, months), Geometric(1.0 + r, months), Power(1.0 + r, months);
    assert a <= n * u by {
      UnroundedTimesSum(a, r, months);
      GeometricBounds(1.0 + r, months);
      SpreadReturns(a, n, w, u, g);
    }
  }

  lemma SpreadReturns(a: real, n: real, w: real, u: real, g: real)
    requires a >= 0.0 && g > 0.0 && g <= n * w && u * g == a * w
    ensures a <= n * u
  {
    Scaled(a, g, n * w);
    assert a * (n * w) == n * (a * w);
    assert (n * u) * g == n * (u * g);
    CancelPositive(g, a, n * u);
  }

  lemma IntProduct(p: int, n: nat)
    ensures (2 * p * n) as real == 2.0 * (n as real * p as real)
  {
    assert (p * n) as real == p as real * n as real;
  }

  lemma CancelPositive(g: real, a: real, b: real)
    requires g > 0.0 && a * g <= b * g
    ensures a <= b
  {
    assert a > b ==> (a - b) * g > 0.0;
    assert (a - b) * g == a * g - b * g;
  }

  /** With interest, the unrounded payment more than covers it, so what is owed falls month by month. */
  lemma UnroundedCoversInterest(amount: real, r: real, months: nat)
    requires amount > 0.0 && r > 0.0 && months > 0
    ensures Power(1.0 + r, months) > 1.0
    ensures Unrounded(amount, r, months) > amount * r
  {
    PowerAtLeastOne(1.0 + r, months);
    hide Unrounded, Geometric, Power;
    assert Unrounded(amount, r, months) > amount * r by {
      UnroundedTimesSum(amount, r, months);
      GeometricClosed(1.0 + r, months);
      assert Geometric(1.0 + r, months) > 0.0 by {
        GeometricBounds(1.0 + r, months);
      }
      Covers(amount, r, Unrounded(amount, r, months), Geometric(1.0 + r, months), Power(1.0 + r, months));
    }
  }

  lemma Covers(a: real, r: real, u: real, g: real, w: real)
    requires a > 0.0 && g > 0.0 && u * g == a * w && (1.0 + r - 1.0) * g == w - 1.0
    ensures u > a * r
  {
    assert (a * r) * g == a * (r * g) == a * w - a;
    assert u <= a * r ==> u * g <= (a * r) * g;
  }

  lemma {:induction false} BalanceFalls(amount: real, r: real, p: real, n: nat)
    requires r >= 0.0 && p > amount * r
    ensures BalanceAfter(amount, r, p, n) <= amount
    ensures BalanceAfter(amount, r, p, n + 1) < BalanceAfter(amount, r, p, n)
  {
    if n > 0 {
      BalanceFalls(amount, r, p, n - 1);
    }
    var b := BalanceAfter(amount, r, p, n);
    Scaled(r, b, amount);
    assert b * (1.0 + r) == b + r * b;
  }
}
