/**
 * What one verifier call ends in, and the approximate comparison every
 * verifier uses.  The verifiers are test oracles: the first failing `assert`
 * or Python exception aborts the call, so a call either passes or raises
 * exactly one error.
 */
module Assertions {
  import opened IntMath

  datatype Error =
    | AssertionError     // a failed `assert`
    | NameError          // a local variable read on a path that never bound it
    | ZeroDivisionError  // `//` or `/` by zero, or Decimal division of a non-zero by zero
    | InvalidOperation   // Decimal division of zero by zero
    | AttributeError     // a hook the resolver class does not define

  datatype Outcome = Pass | Raised(error: Error) {
    predicate IsFailure() { Raised? }

    function PropagateFailure(): Outcome
      requires Raised?
    {
      this
    }
  }

  /** Python's `assert condition`. */
  function Check(condition: bool): Outcome
  {
    if condition then Pass else Raised(AssertionError)
  }

  /**
   * `approx(actual, expected, tolerance)` from helpers/utils.py, which is not
   * part of this model.  Its arguments are integers, Decimals or floats, all
   * read here as exact reals.  The verifiers take the relation as a
   * parameter; what is proved about them assumes at most that it is
   * reflexive.
   */
  type ApproxRelation = (real, real, int) -> bool

  ghost predicate Reflexive(approx: ApproxRelation)
  {
    forall a: real, t: int :: 0 <= t ==> approx(a, a, t)
  }

  /** An assumed instance of `approx`, an absolute tolerance: `|actual - expected| <= tolerance`. */
  function AbsoluteApprox(actual: real, expected: real, tolerance: int): bool
  {
    -tolerance as real <= actual - expected <= tolerance as real
  }

  lemma AbsoluteApproxIsReflexive()
    ensures Reflexive(AbsoluteApprox)
  {
  }

  /**
   * Under the absolute tolerance, comparing an integer with a quotient
   * `num / den` is an integer comparison after cross-multiplication.
   */
  lemma AbsoluteApproxQuotient(actual: int, num: int, den: int, tolerance: int)
    requires den != 0
    ensures AbsoluteApprox(actual as real, num as real / den as real, tolerance)
            <==> Abs(actual * den - num) <= tolerance * Abs(den)
  {
    var diff := actual as real - num as real / den as real;
    var d := Abs(den) as real;
    // |actual*den - num| is |diff| scaled by |den|
    var e := if den > 0 then actual * den - num else num - actual * den;
    assert e as real == diff * d;
    var bound := tolerance * Abs(den);
    assert bound as real == tolerance as real * d;
    ScaledBounds(diff, tolerance as real, d, e as real, bound as real);
    assert Abs(actual * den - num) == Abs(e);
  }

  /** Scaling by a positive factor preserves a symmetric bound. */
  lemma ScaledBounds(x: real, t: real, d: real, scaledX: real, scaledT: real)
    requires d > 0.0 && scaledX == x * d && scaledT == t * d
    ensures (-t <= x <= t) <==> (-scaledT <= scaledX <= scaledT)
  {
    assert scaledT - scaledX == (t - x) * d;
    assert scaledX + scaledT == (x + t) * d;
  }
}
