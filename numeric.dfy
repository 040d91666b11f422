/** `Math.exp`, `Math.sqrt` and the other numeric built-ins the core uses.
    JavaScript numbers are modelled as mathematical reals; `Math.exp`,
    `Math.sqrt` and `Math.sin` are left abstract, as function values that callers
    supply, constrained only by the facts about them that the model's proofs use. */
module Numeric {

  datatype Math = Math(exp: real -> real, sqrt: real -> real, sin: real -> real)

  /** The facts about `Math.exp` and the sign of `Math.sqrt` the model relies on. */
  ghost predicate ValidMath(m: Math)
  {
    && m.exp(0.0) == 1.0
    && m.sqrt(0.0) == 0.0
    && (forall x :: 0.0 < m.exp(x))
    && (forall x :: x < 0.0 ==> m.exp(x) < 1.0)
    && (forall x, y :: x <= y ==> m.exp(x) <= m.exp(y))
    && (forall x :: x >= 0.0 ==> m.sqrt(x) >= 0.0 && (x > 0.0 ==> m.sqrt(x) > 0.0))
  }

  /** `Math.sqrt` returns the exact root; only the proofs about norms need it. */
  ghost predicate ExactSqrt(m: Math)
  {
    forall x :: x >= 0.0 ==> m.sqrt(x) * m.sqrt(x) == x
  }

  /** `Math.max` and `Math.min` on two reals. */
  function Max(a: real, b: real): real
  {
    if a >= b then a else b
  }

  function Min(a: real, b: real): real
  {
    if a <= b then a else b
  }

  /** `Math.ceil(n / d)` for a natural numerator and positive divisor. */
  function CeilDiv(n: nat, d: nat): (r: nat)
    requires d > 0
    ensures (r - 1) * d < n <= r * d
  {
    (n + d - 1) / d
  }

  /** Scaling by a factor of at most one does not grow a non-negative value. */
  lemma ScaleAtMost(a: real, e: real)
    requires a >= 0.0 && e <= 1.0
    ensures a * e <= a
  {
    MulNonNegative(a, 1.0 - e);
    assert a * (1.0 - e) == a - a * e;
  }

  /** Scaling by a factor below one strictly shrinks a positive value. */
  lemma ScaleBelow(a: real, e: real)
    requires a > 0.0 && e < 1.0
    ensures a * e < a
  {
    MulPositive(a, 1.0 - e);
    assert a * (1.0 - e) == a - a * e;
  }

  lemma MulNonNegative(a: real, b: real)
    requires a >= 0.0 && b >= 0.0
    ensures a * b >= 0.0
  {
  }

  lemma MulPositive(a: real, b: real)
    requires a > 0.0 && b > 0.0
    ensures a * b > 0.0
  {
  }

  /** Milliseconds per day: `1000 * 60 * 60 * 24` and `86400000`. */
  const MsPerDay: real := 86400000.0

  /** Elapsed days between two millisecond timestamps (negative if `from` is later). */
  function DaysBetween(from: int, to: int): real
  {
    (to - from) as real / MsPerDay
  }
}
