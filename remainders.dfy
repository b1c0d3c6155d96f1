/**
 * Facts about the remainder by a variable divisor, which the solver does not
 * find on its own. Both wrap-around rules (vector selection and button
 * focus) step an index by one modulo a count.
 */
module Remainders {
  /** A quotient is pinned down by bounds on the dividend. */
  lemma QuotientBounds(q: int, n: int)
    requires n > 0
    ensures q >= 1 ==> q * n >= n
    ensures q >= 2 ==> q * n >= 2 * n
    ensures q <= -1 ==> q * n <= -n
    ensures q <= 0 ==> q * n <= 0
  {
  }

  /** An index already below the count is its own remainder. */
  lemma ModBelow(a: int, n: int)
    requires 0 <= a < n
    ensures a % n == a
  {
    var q := a / n;
    assert a == q * n + a % n;
    QuotientBounds(q, n);
  }

  /** The count itself wraps to 0. */
  lemma ModSelf(n: int)
    requires n > 0
    ensures n % n == 0
  {
    var q := n / n;
    assert n == q * n + n % n;
    QuotientBounds(q, n);
  }

  /** Adding the count once does not change an index below the count. */
  lemma ModShift(a: int, n: int)
    requires 0 <= a < n
    ensures (a + n) % n == a
  {
    var q := (a + n) / n;
    assert a + n == q * n + (a + n) % n;
    QuotientBounds(q, n);
  }
}
