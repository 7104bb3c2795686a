/** Real-arithmetic facts shared by the scorers: quotients and monotone products. */
module RealArith {

  /** `part / whole`, named so that each quotient is a single term in proofs. */
  function Fraction(part: real, whole: real): real
    requires whole != 0.0
  {
    part / whole
  }

  lemma MulLeMono(a: real, b: real, c: real)
    requires a <= b && c > 0.0
    ensures a * c <= b * c
  {
  }

  lemma MulLtMono(a: real, b: real, c: real)
    requires a < b && c > 0.0
    ensures a * c < b * c
  {
  }

  lemma MulLeCancel(a: real, b: real, c: real)
    requires a * c <= b * c && c > 0.0
    ensures a <= b
  {
    if a > b {
      MulLtMono(b, a, c);
    }
  }

  lemma MulLtCancel(a: real, b: real, c: real)
    requires a * c < b * c && c > 0.0
    ensures a < b
  {
    if a >= b {
      MulLeMono(b, a, c);
    }
  }

  lemma DivCancel(x: real, c: real)
    requires c > 0.0
    ensures (x / c) * c == x
  {
  }

  /** Whole multiples of `c` up to the floor of `x / c` do not exceed `x`. */
  lemma FloorScaled(x: real, c: real, k: int)
    requires c > 0.0 && k <= (x / c).Floor
    ensures k as real * c <= x
  {
    var q := x / c;
    assert k as real <= q;
    DivCancel(x, c);
    MulLeMono(k as real, q, c);
  }

  /** How a quotient by a positive whole compares with 0 and 1. */
  lemma FractionSign(part: real, whole: real)
    requires whole > 0.0
    ensures part >= whole <==> Fraction(part, whole) >= 1.0
    ensures part <= whole <==> Fraction(part, whole) <= 1.0
    ensures part > 0.0 <==> Fraction(part, whole) > 0.0
    ensures part == 0.0 <==> Fraction(part, whole) == 0.0
  {
    FractionBelowOne(part, whole);
    FractionAboveOne(part, whole);
    FractionPositive(part, whole);
    FractionNegative(part, whole);
  }

  lemma FractionBelowOne(part: real, whole: real)
    requires whole > 0.0
    ensures part < whole <==> Fraction(part, whole) < 1.0
  {
    var f := Fraction(part, whole);
    DivCancel(part, whole);
    if f < 1.0 {
      MulLtMono(f, 1.0, whole);
    } else {
      MulLeMono(1.0, f, whole);
    }
  }

  lemma FractionAboveOne(part: real, whole: real)
    requires whole > 0.0
    ensures part > whole <==> Fraction(part, whole) > 1.0
  {
    var f := Fraction(part, whole);
    DivCancel(part, whole);
    if f > 1.0 {
      MulLtMono(1.0, f, whole);
    } else {
      MulLeMono(f, 1.0, whole);
    }
  }

  lemma FractionPositive(part: real, whole: real)
    requires whole > 0.0
    ensures part > 0.0 <==> Fraction(part, whole) > 0.0
  {
    var f := Fraction(part, whole);
    DivCancel(part, whole);
    if f > 0.0 {
      MulLtMono(0.0, f, whole);
    } else {
      MulLeMono(f, 0.0, whole);
    }
  }

  lemma FractionNegative(part: real, whole: real)
    requires whole > 0.0
    ensures part < 0.0 <==> Fraction(part, whole) < 0.0
  {
    var f := Fraction(part, whole);
    DivCancel(part, whole);
    if f < 0.0 {
      MulLtMono(f, 0.0, whole);
    } else {
      MulLeMono(0.0, f, whole);
    }
  }

  /** `x * x`, through a named product so that sign facts about it are single terms. */
  function Sq(x: real): real {
    Mul(x, x)
  }

  /** `x * y`, named for the same reason as `Fraction`. */
  function Mul(x: real, y: real): real {
    x * y
  }

  lemma MulPos(x: real, y: real)
    requires x > 0.0 && y > 0.0
    ensures Mul(x, y) > 0.0
  {
  }

  lemma MulNeg(x: real, y: real)
    requires x < 0.0 && y < 0.0
    ensures Mul(x, y) > 0.0
  {
  }

  /** A square is never negative, and is zero only at zero. */
  lemma SqSign(x: real)
    ensures Sq(x) >= 0.0
    ensures Sq(x) == 0.0 <==> x == 0.0
  {
    if x > 0.0 {
      MulPos(x, x);
    } else if x < 0.0 {
      MulNeg(x, x);
    }
  }
}
