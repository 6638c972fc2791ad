/**
 * NumPy's `log`, `exp` and `sqrt` and Python's `round`, taken as parameters.
 * Nothing is known about them beyond the laws stated below, and every
 * property that depends on a law names it in its `requires`.
 */
module RealMath {
  import opened Sequences

  datatype Transcendentals = Transcendentals(
    ln: real -> real,
    exp: real -> real,
    sqrt: real -> real,
    round: (real, nat) -> real)

  ghost predicate ExpAdd(exp: real -> real, a: real, b: real) {
    exp(a + b) == exp(a) * exp(b)
  }

  ghost predicate ExpPositive(exp: real -> real, x: real) {
    exp(x) > 0.0
  }

  ghost predicate ExpIncreasing(exp: real -> real, a: real, b: real) {
    a < b ==> exp(a) < exp(b)
  }

  /** `exp` turns sums into products, is positive, strictly increasing, and `exp(0) = 1`. */
  ghost predicate ExpLaws(exp: real -> real) {
    && exp(0.0) == 1.0
    && (forall a, b :: ExpAdd(exp, a, b))
    && (forall x :: ExpPositive(exp, x))
    && (forall a, b :: ExpIncreasing(exp, a, b))
  }

  ghost predicate ExpOfLn(exp: real -> real, ln: real -> real, x: real) {
    x > 0.0 ==> exp(ln(x)) == x
  }

  /** `ln` is a right inverse of `exp` on the positive reals. */
  ghost predicate LnLaws(exp: real -> real, ln: real -> real) {
    forall x :: ExpOfLn(exp, ln, x)
  }

  ghost predicate SqrtAt(sqrt: real -> real, x: real) {
    x >= 0.0 ==> sqrt(x) >= 0.0 && sqrt(x) * sqrt(x) == x
  }

  /** `sqrt` is the non-negative square root on the non-negative reals. */
  ghost predicate SqrtLaws(sqrt: real -> real) {
    forall x :: SqrtAt(sqrt, x)
  }

  ghost predicate Lawful(m: Transcendentals) {
    ExpLaws(m.exp) && LnLaws(m.exp, m.ln) && SqrtLaws(m.sqrt)
  }

  /** Compounding one more return multiplies by its exponential. */
  lemma ExpOfSumAppend(exp: real -> real, s: seq<real>, x: real)
    requires ExpLaws(exp)
    ensures exp(Sum(s + [x])) == exp(Sum(s)) * exp(x)
  {
    SumAppend(s, x);
    assert ExpAdd(exp, Sum(s), x);
  }

  /** `exp(r)` is above, at or below 1 exactly as `r` is above, at or below 0. */
  lemma ExpComparedToOne(exp: real -> real, r: real)
    requires ExpLaws(exp)
    ensures exp(r) > 1.0 <==> r > 0.0
    ensures exp(r) == 1.0 <==> r == 0.0
    ensures exp(r) < 1.0 <==> r < 0.0
  {
    assert ExpIncreasing(exp, 0.0, r);
    assert ExpIncreasing(exp, r, 0.0);
  }
}
