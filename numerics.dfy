/** The numeric ground the model stands on.

    The source computes in IEEE doubles and calls the C/ROOT math library.  The model
    computes in Dafny's exact `real` and takes the math library as a parameter:
    a `MathLib` value bundles the transcendental functions and `MathLaws` states the
    few facts about them that the proofs rely on.  Results that IEEE arithmetic can
    make non-finite (a division by zero the source does not guard) are returned as a
    `Num`, so that the guards the source relies on implicitly become explicit cases. */
module Numerics {

  /** std::sqrt / TMath::Sqrt, exp, pow, cos, sin, cosh and sinh as used by the source,
      and the value of TMath::Pi(). */
  datatype MathLib = MathLib(
    pi: real,
    sqrt: real -> real,
    exp: real -> real,
    pow: (real, real) -> real,
    cos: real -> real,
    sin: real -> real,
    cosh: real -> real,
    sinh: real -> real)

  /** The square of a real number.  Squares are written through this function so that
      facts about them are stated once, in the lemmas below. */
  function Sq(a: real): real {
    a * a
  }

  /** The square root of a non-negative number is the non-negative number whose square it is. */
  ghost predicate SqrtLaw(m: MathLib) {
    forall y: real {:trigger m.sqrt(y)} :: 0.0 <= y ==> 0.0 <= m.sqrt(y) && Sq(m.sqrt(y)) == y
  }

  /** The exponential is positive everywhere, one at zero and at most one below zero. */
  ghost predicate ExpLaw(m: MathLib) {
    m.exp(0.0) == 1.0 &&
    forall t: real {:trigger m.exp(t)} :: 0.0 < m.exp(t) && (t <= 0.0 ==> m.exp(t) <= 1.0)
  }

  /** A positive base raised to any power is positive; a base of at least one raised to a
      non-negative power is at least one. */
  ghost predicate PowLaw(m: MathLib) {
    forall b: real, p: real {:trigger m.pow(b, p)} ::
      (0.0 < b ==> 0.0 < m.pow(b, p)) && (1.0 <= b && 0.0 <= p ==> 1.0 <= m.pow(b, p))
  }

  /** cos^2 + sin^2 = 1 and cosh^2 - sinh^2 = 1. */
  ghost predicate TrigLaw(m: MathLib) {
    (forall t: real {:trigger m.cos(t)} :: Sq(m.cos(t)) + Sq(m.sin(t)) == 1.0) &&
    (forall t: real {:trigger m.cosh(t)} :: Sq(m.cosh(t)) - Sq(m.sinh(t)) == 1.0)
  }

  ghost predicate MathLaws(m: MathLib) {
    3.0 < m.pi && SqrtLaw(m) && ExpLaw(m) && PowLaw(m) && TrigLaw(m)
  }

  /** The value of a double-precision expression: a finite number, or one of
      +inf, -inf and NaN (the model does not tell these apart where no guard does). */
  datatype Num = Finite(v: real) | NonFinite

  datatype Option<+T> = None | Some(value: T)

  function Max(a: real, b: real): (r: real)
    ensures a <= r && b <= r && (r == a || r == b)
  {
    if a < b then b else a
  }

  function Abs(a: real): (r: real)
    ensures 0.0 <= r && (r == a || r == -a)
  {
    if a < 0.0 then -a else a
  }

  /** A product is zero only when a factor is. */
  lemma ZeroProduct(a: real, b: real)
    requires a * b == 0.0
    ensures a == 0.0 || b == 0.0
  {
    if a != 0.0 {
      assert b == (a * b) / a;
    }
  }

  lemma SqNonNegative(a: real)
    ensures 0.0 <= Sq(a)
  {
  }

  lemma SqPositive(a: real)
    requires a != 0.0
    ensures 0.0 < Sq(a)
  {
    SqNonNegative(a);
    if Sq(a) == 0.0 {
      ZeroProduct(a, a);
    }
  }

  lemma MulPositive(a: real, b: real)
    requires 0.0 < a && 0.0 < b
    ensures 0.0 < a * b
  {
  }

  /** Multiplying by a non-negative number keeps an inequality. */
  lemma MulLeftMono(c: real, a: real, b: real)
    requires 0.0 <= c && a <= b
    ensures c * a <= c * b
  {
    var d := b - a;
    assert c * b - c * a == c * d;
    assert 0.0 <= c * d;
  }

  /** Products of bounded non-negative numbers are bounded by the product of the bounds. */
  lemma ProductBounds(a: real, b: real, bigA: real, bigB: real)
    requires 0.0 <= a <= bigA && 0.0 <= b <= bigB
    ensures 0.0 <= a * b <= bigA * bigB
  {
    MulLeftMono(a, 0.0, b);
    MulLeftMono(a, b, bigB);
    MulLeftMono(bigB, a, bigA);
  }

  lemma MulLeftStrict(c: real, a: real, b: real)
    requires 0.0 < c && a < b
    ensures c * a < c * b
  {
    MulPositive(c, b - a);
    assert c * b - c * a == c * (b - a);
  }

  lemma BelowQuotient(a: real, b: real, x: real)
    requires 0.0 < b && x < a / b
    ensures b * x < a
  {
    assert a == b * (a / b);
    MulLeftStrict(b, x, a / b);
  }

  lemma QuotientNonNegative(a: real, d: real)
    requires 0.0 <= a && 0.0 < d
    ensures 0.0 <= a / d
  {
  }

  /** Dividing by a positive number and comparing is multiplying the other side. */
  lemma DivLeIff(a: real, b: real, x: real)
    requires 0.0 < b
    ensures a / b <= x <==> a <= x * b
  {
    if a / b <= x {
      assert a == b * (a / b);
      MulLeftMono(b, a / b, x);
    } else {
      BelowQuotient(a, b, x);
    }
  }

  /** Squaring is monotone on the non-negative numbers. */
  lemma SqMonotone(a: real, b: real)
    requires 0.0 <= a <= b
    ensures Sq(a) <= Sq(b)
  {
    MulLeftMono(a, a, b);
    MulLeftMono(b, a, b);
  }

  /** Two non-negative numbers with the same square are equal. */
  lemma SqInjective(s: real, b: real)
    requires 0.0 <= s && 0.0 <= b && Sq(s) == Sq(b)
    ensures s == b
  {
    assert (s - b) * (s + b) == Sq(s) - Sq(b);
    ZeroProduct(s - b, s + b);
  }

  lemma SqScale(a: real, k: real)
    ensures Sq(a * k) == Sq(a) * Sq(k)
  {
  }

  lemma SqAbs(a: real)
    ensures Sq(Abs(a)) == Sq(a)
  {
  }

  /** The square root of a square is the magnitude. */
  lemma SqrtOfSq(m: MathLib, a: real)
    requires SqrtLaw(m)
    ensures m.sqrt(Sq(a)) == Abs(a)
  {
    SqNonNegative(a);
    SqAbs(a);
    SqInjective(m.sqrt(Sq(a)), Abs(a));
  }

  /** The square root is zero exactly at zero, and positive above. */
  lemma SqrtPositive(m: MathLib, y: real)
    requires SqrtLaw(m) && 0.0 <= y
    ensures m.sqrt(y) == 0.0 <==> y == 0.0
    ensures 0.0 < y ==> 0.0 < m.sqrt(y)
  {
    if m.sqrt(y) != 0.0 {
      SqPositive(m.sqrt(y));
    }
  }

  /** The square root is monotone on the non-negative numbers. */
  lemma SqrtMonotone(m: MathLib, a: real, b: real)
    requires SqrtLaw(m) && 0.0 <= a <= b
    ensures m.sqrt(a) <= m.sqrt(b)
  {
    var sa, sb := m.sqrt(a), m.sqrt(b);
    if sb < sa {
      SqMonotone(sb, sa);
    }
  }
}
