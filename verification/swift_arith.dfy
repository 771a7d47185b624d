/** Swift's integer remainder operator.

    Swift's `%` on `Int` is a truncated remainder: the quotient is rounded
    toward zero and the remainder takes the sign of the dividend, so
    `-7 % 12 == -7`. Dafny's `%` is Euclidean (never negative), so the
    clock arithmetic goes through `SwiftRem` whenever a negative field is
    possible. Only positive divisors are modelled: the clock divides by 12
    and 60 and nothing else.
 */
module SwiftArith {

  /** The quotient rounded toward zero, as Swift's `a / n` would give it. The
      clock never divides integers; this exists only to state the division
      identity that characterises `SwiftRem`. */
  function SwiftQuot(a: int, n: int): (q: int)
    requires n > 0
    ensures a >= 0 ==> 0 <= q
    ensures a <= 0 ==> q <= 0
    ensures 0 <= a < n || -n < a <= 0 ==> q == 0
  {
    if a >= 0 then a / n else -((-a) / n)
  }

  /** Swift's `a % n`: the remainder of the truncated division. */
  function SwiftRem(a: int, n: int): (r: int)
    requires n > 0
    ensures a == n * SwiftQuot(a, n) + r
    ensures -n < r < n
    ensures a >= 0 ==> 0 <= r
    ensures a <= 0 ==> r <= 0
  {
    if a >= 0 then a % n else -((-a) % n)
  }

  /** Truncated division is characterised by the division identity, a bound
      on the remainder and the remainder's sign following the dividend: any
      pair meeting those is Swift's quotient and remainder. */
  lemma SwiftRemUnique(a: int, n: int, q: int, r: int)
    requires n > 0
    requires a == n * q + r
    requires -n < r < n
    requires a >= 0 ==> 0 <= r
    requires a <= 0 ==> r <= 0
    ensures q == SwiftQuot(a, n)
    ensures r == SwiftRem(a, n)
  {
    var q0, r0 := SwiftQuot(a, n), SwiftRem(a, n);
    assert n * (q - q0) == r0 - r by {
      assert n * q - n * q0 == n * (q - q0);
    }
    OnlyZeroMultipleIsSmall(n, q - q0);
  }

  /** The only multiple of `n` strictly between `-n` and `n` is zero. */
  lemma OnlyZeroMultipleIsSmall(n: int, d: int)
    requires n > 0
    requires -n < n * d < n
    ensures d == 0
  {
    if d > 0 {
      MultipleAtLeast(n, d);
    } else if d < 0 {
      MultipleAtLeast(n, -d);
    }
  }

  /** A positive multiple of a positive `n` is at least `n`. */
  lemma {:induction false} MultipleAtLeast(n: int, d: int)
    requires n > 0
    requires d >= 1
    ensures n * d >= n
    decreases d
  {
    if d > 1 {
      MultipleAtLeast(n, d - 1);
      assert n * d == n * (d - 1) + n;
    }
  }

  /** Swift's remainder agrees with Dafny's Euclidean one on non-negative
      dividends and on exact multiples, and is `n` less otherwise. */
  lemma SwiftRemVersusEuclidean(a: int, n: int)
    requires n > 0
    ensures a >= 0 || a % n == 0 ==> SwiftRem(a, n) == a % n
    ensures a < 0 && a % n != 0 ==> SwiftRem(a, n) == a % n - n
  {
    if a < 0 {
      var r := a % n;
      if r == 0 {
        SwiftRemUnique(a, n, a / n, 0);
      } else {
        SwiftRemUnique(a, n, a / n + 1, r - n);
      }
    }
  }

  /** Adding a whole number of periods to a non-negative dividend does not
      change the remainder. */
  lemma {:induction false} SwiftRemPeriodic(a: int, n: int, k: nat)
    requires n > 0
    requires a >= 0
    ensures SwiftRem(a + k * n, n) == SwiftRem(a, n)
  {
    if k > 0 {
      SwiftRemPeriodic(a, n, k - 1);
      var q := SwiftQuot(a + (k - 1) * n, n);
      SwiftRemUnique(a + k * n, n, q + 1, SwiftRem(a, n));
    }
  }

  /** Swift's remainder is odd: negating the dividend negates the remainder. */
  lemma SwiftRemOdd(a: int, n: int)
    requires n > 0
    ensures SwiftRem(-a, n) == -SwiftRem(a, n)
  {
  }
}
