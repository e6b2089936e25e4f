/**
 * Integer arithmetic with Python's semantics.  Python's `//` floors toward
 * negative infinity for every non-zero divisor, whereas Dafny's `/` is
 * Euclidean; the two agree only for positive divisors.
 */
module IntMath {

  /** Python's `a // b`; Python raises ZeroDivisionError when `b == 0`. */
  function FloorDiv(a: int, b: int): (q: int)
    requires b != 0
    ensures b > 0 ==> b * q <= a < b * q + b
    ensures b < 0 ==> b * q >= a > b * q + b
  {
    if b > 0 then a / b else (-a) / (-b)
  }

  /** Python's `10 ** n` for a non-negative exponent. */
  function Pow10(n: nat): (p: nat)
    ensures p >= 1
  {
    if n == 0 then 1 else 10 * Pow10(n - 1)
  }

  /** `10 ** (a + b) == 10 ** a * 10 ** b` */
  lemma {:induction false} Pow10Add(a: nat, b: nat)
    ensures Pow10(a + b) == Pow10(a) * Pow10(b)
  {
    if a > 0 {
      Pow10Add(a - 1, b);
    }
  }

  /** The 18 decimals of the vault's share token. */
  lemma Pow10Of18()
    ensures Pow10(18) == 1_000_000_000_000_000_000
  {
    Pow10Add(9, 9);
  }

  function Abs(x: int): nat
  {
    if x < 0 then -x else x
  }

  lemma MulLeft(a: int, b: int, c: int)
    requires a <= b && c >= 0
    ensures c * a <= c * b
  {
  }

  lemma MulCancelLe(a: int, b: int, c: int)
    requires c > 0 && c * a <= c * b
    ensures a <= b
  {
    if a > b {
      MulLeft(b + 1, a, c);
    }
  }

  lemma MulCancelLt(a: int, b: int, c: int)
    requires c > 0 && c * a < c * b
    ensures a < b
  {
    if a >= b {
      MulLeft(b, a, c);
    }
  }

  /** The floor quotient is the only `q` with `b*q <= a < b*q + b`. */
  lemma {:induction false} FloorDivUnique(a: int, b: int, q: int)
    requires b > 0 && b * q <= a < b * q + b
    ensures FloorDiv(a, b) == q
  {
    var q' := FloorDiv(a, b);
    if q' < q {
      MulLeft(q' + 1, q, b);
    } else if q' > q {
      MulLeft(q + 1, q', b);
    }
  }

  /** Flooring by a positive divisor is monotone in the dividend. */
  lemma {:induction false} FloorDivMonotone(a1: int, a2: int, b: int)
    requires b > 0 && a1 <= a2
    ensures FloorDiv(a1, b) <= FloorDiv(a2, b)
  {
    var q1, q2 := FloorDiv(a1, b), FloorDiv(a2, b);
    if q1 > q2 {
      MulLeft(q2 + 1, q1, b);
    }
  }

  /** Two successive floors by positive divisors equal one floor by their product. */
  lemma {:induction false} FloorDivNested(a: int, b: int, c: int)
    requires b > 0 && c > 0
    ensures FloorDiv(FloorDiv(a, b), c) == FloorDiv(a, b * c)
  {
    var q := FloorDiv(a, b);
    var r1 := a - b * q;
    var q2 := FloorDiv(q, c);
    var r2 := q - c * q2;
    assert 0 <= r1 < b && 0 <= r2 < c;
    MulLeft(r2, c - 1, b);
    assert b * r2 <= b * c - b;
    assert a == b * (c * q2 + r2) + r1;
    assert a == (b * c) * q2 + (b * r2 + r1);
    FloorDivUnique(a, b * c, q2);
  }
}
