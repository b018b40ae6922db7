/**
 * Kotlin's 32-bit `Int` as far as the stopwatch uses it: the increment
 * `time++`, which wraps around at the top of the range, and the operators
 * `/` and `%`, which round toward zero (unlike Dafny's Euclidean ones).
 */
module KotlinInt {
  const MIN_INT: int := -0x8000_0000
  const MAX_INT: int := 0x7fff_ffff
  const MODULUS: int := 0x1_0000_0000

  predicate IsInt(x: int) {
    MIN_INT <= x <= MAX_INT
  }

  /** `x + 1` on a Kotlin `Int`: the successor modulo 2^32, kept in range. */
  function Inc(x: int): (r: int)
    requires IsInt(x)
    ensures IsInt(r)
    ensures (r - (x + 1)) % MODULUS == 0
  {
    if x == MAX_INT then MIN_INT else x + 1
  }

  /** Kotlin `a / d` for a positive divisor: the quotient rounded toward zero. */
  function Quot(a: int, d: int): (q: int)
    requires d > 0
    ensures 0 <= a ==> 0 <= a - d * q < d
    ensures a < 0 ==> -d < a - d * q <= 0
  {
    if a >= 0 then a / d else -((-a) / d)
  }

  /**
   * Kotlin `a % d` for a positive divisor: what `Quot` leaves over, so that
   * `(a / d) * d + a % d == a`; it has the sign of `a` and is smaller than `d`.
   */
  function Rem(a: int, d: int): (r: int)
    requires d > 0
    ensures d * Quot(a, d) + r == a
    ensures 0 <= a ==> 0 <= r < d
    ensures a < 0 ==> -d < r <= 0
  {
    a - d * Quot(a, d)
  }

  /** On a non-negative dividend Kotlin's operators agree with Dafny's. */
  lemma NonNegativeDivision(a: int, d: int)
    requires 0 <= a && d > 0
    ensures Quot(a, d) == a / d && Rem(a, d) == a % d
    ensures 0 <= Rem(a, d) < d
  {
  }

  /** The value reached from `t` after `n` increments. */
  function After(t: int, n: nat): (r: int)
    requires IsInt(t)
    ensures IsInt(r)
  {
    if n == 0 then t else Inc(After(t, n - 1))
  }

  /** Below the top of the range, `n` increments add `n`. */
  lemma {:induction false} AfterAdds(t: int, n: nat)
    requires IsInt(t) && t + n <= MAX_INT
    ensures After(t, n) == t + n
  {
    if n > 0 {
      AfterAdds(t, n - 1);
    }
  }

  /** One increment past the top of the range lands on the bottom. */
  lemma {:induction false} AfterWraps(t: int, n: nat)
    requires IsInt(t) && t + n == MAX_INT + 1
    ensures After(t, n) == MIN_INT
  {
    AfterAdds(t, n - 1);
  }
}
