/** C's integer division and remainder, which truncate toward zero (Dafny's `/` and
    `%` are Euclidean). */
module CArith {

  function Abs(x: int): nat {
    if x < 0 then -x else x
  }

  /** `a / b` in C: the quotient of the magnitudes, negated when the signs differ. */
  function CDiv(a: int, b: int): int
    requires b != 0
  {
    if (a < 0) == (b < 0) then Abs(a) / Abs(b) else -(Abs(a) / Abs(b))
  }

  /** `a % b` in C: what is left after subtracting b times the truncated quotient. */
  function CMod(a: int, b: int): int
    requires b != 0
  {
    a - b * CDiv(a, b)
  }

  lemma MulNeg(x: int, y: int)
    ensures (-x) * y == -(x * y) && x * (-y) == -(x * y)
  {
  }

  lemma EuclideanOfNat(x: nat, y: nat)
    requires y > 0
    ensures x == y * (x / y) + x % y && 0 <= x % y < y && x / y >= 0
  {
  }

  /** Subtracting b times the truncated quotient q (the magnitudes' quotient, signed)
      leaves the magnitudes' remainder r with the sign of a. */
  lemma SignedRemainder(a: int, b: int, q: int, r: int)
    requires b != 0 && Abs(a) == Abs(b) * q + r
    ensures a - b * (if (a < 0) == (b < 0) then q else -q) == (if a < 0 then -r else r)
  {
    var m: int := Abs(b);
    MulNeg(m, q);
    MulNeg(-m, q);
  }

  /** The remainder is the remainder of the magnitudes, with the sign of the dividend. */
  lemma CModMagnitude(a: int, b: int)
    requires b != 0
    ensures CMod(a, b) == (if a < 0 then -(Abs(a) % Abs(b)) else Abs(a) % Abs(b))
  {
    EuclideanOfNat(Abs(a), Abs(b));
    SignedRemainder(a, b, Abs(a) / Abs(b), Abs(a) % Abs(b));
  }

  /** The remainder is smaller than the divisor, carries the sign of the dividend, and the
      quotient is rounded toward zero. */
  lemma CDivModTruncate(a: int, b: int)
    requires b != 0
    ensures Abs(CMod(a, b)) < Abs(b)
    ensures CMod(a, b) == 0 || (CMod(a, b) < 0 <==> a < 0)
    ensures CMod(a, b) == (if a < 0 then -(Abs(a) % Abs(b)) else Abs(a) % Abs(b))
    ensures Abs(CDiv(a, b)) == Abs(a) / Abs(b)
  {
    CModMagnitude(a, b);
    EuclideanOfNat(Abs(a), Abs(b));
  }

  /** Dividing by 10 shrinks the magnitude the same way for either sign. */
  lemma CDivTenAbs(n: int)
    ensures Abs(CDiv(n, 10)) == Abs(n) / 10
    ensures CDiv(n, 10) == 0 <==> -10 < n < 10
  {
    CDivModTruncate(n, 10);
  }

  /** On non-negative operands C's division and remainder are Dafny's. */
  lemma CDivModNonNegative(a: int, b: int)
    requires a >= 0 && b > 0
    ensures CDiv(a, b) == a / b && CMod(a, b) == a % b
  {
  }
}
