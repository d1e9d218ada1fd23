/**
 * Real-number helpers standing in for the float arithmetic of the library:
 * absolute value, `**` with a whole-number exponent, and the law that a
 * square-root function (numpy's `sqrt`) must obey.
 */
module RealMath {

  function Abs(x: real): (r: real)
    ensures r >= 0.0 && (r == x || r == -x)
  {
    if x < 0.0 then -x else x
  }

  function NatPow(b: real, n: nat): real {
    if n == 0 then 1.0 else b * NatPow(b, n - 1)
  }

  lemma {:induction false} NatPowNonZero(b: real, n: nat)
    requires b != 0.0
    ensures NatPow(b, n) != 0.0
  {
    if n > 0 {
      NatPowNonZero(b, n - 1);
    }
  }

  lemma {:induction false} NatPowPositive(b: real, n: nat)
    requires b > 0.0
    ensures NatPow(b, n) > 0.0
  {
    if n > 0 {
      NatPowPositive(b, n - 1);
    }
  }

  /** Multiplying by a non-zero number and dividing by it again gives the number back. */
  lemma MulDivCancel(a: real, x: real)
    requires a != 0.0
    ensures a * x / a == x
  {
  }

  lemma MulPositive(x: real, y: real)
    requires x > 0.0 && y > 0.0
    ensures x * y > 0.0
  {
  }

  lemma MulNonNegative(x: real, y: real)
    requires x >= 0.0 && y >= 0.0
    ensures x * y >= 0.0
  {
    if x > 0.0 && y > 0.0 {
      MulPositive(x, y);
    }
  }

  lemma DivNonNegative(x: real, y: real)
    requires x >= 0.0 && y >= 0.0
    ensures (if y == 0.0 then 0.0 else x / y) >= 0.0
  {
  }

  /** `b ** e` for a whole-number exponent; a negative exponent needs `b != 0`. */
  function IntPow(b: real, e: int): real
    requires b != 0.0 || e >= 0
  {
    if e >= 0 then NatPow(b, e)
    else
      NatPowNonZero(b, -e);
      1.0 / NatPow(b, -e)
  }

  lemma IntPowPositive(b: real, e: int)
    requires b > 0.0
    ensures IntPow(b, e) > 0.0
  {
    NatPowPositive(b, if e >= 0 then e else -e);
  }

  /** `fa / fb * sa / sb`, the shape of a conversion factor between two scaled units. */
  function Ratio(fa: real, fb: real, sa: real, sb: real): real
    requires fb != 0.0 && sb != 0.0
  {
    fa / fb * sa / sb
  }

  lemma RatioRegroup(fa: real, fb: real, sa: real, sb: real)
    requires fb != 0.0 && sb != 0.0
    ensures Ratio(fa, fb, sa, sb) == (fa * sa) / (fb * sb)
  {
    calc {
      fa / fb * sa / sb;
      (fa * sa / fb) / sb;
      (fa * sa) / (fb * sb);
    }
  }

  lemma RatioPositive(fa: real, fb: real, sa: real, sb: real)
    requires fb != 0.0 && sb != 0.0
    ensures fa > 0.0 && fb > 0.0 && sa > 0.0 && sb > 0.0 ==> Ratio(fa, fb, sa, sb) > 0.0
  {
    RatioRegroup(fa, fb, sa, sb);
  }

  /** A ratio of a quantity to itself is 1. */
  lemma RatioSelf(f: real, s: real)
    requires f != 0.0 && s != 0.0
    ensures Ratio(f, f, s, s) == 1.0
  {
    RatioRegroup(f, f, s, s);
  }

  /** `f` and `g` are multiplicative inverses. */
  predicate Inverses(f: real, g: real) {
    f * g == 1.0
  }

  /** The ratio one way times the ratio the other way is 1. */
  lemma RatioInverse(fa: real, fb: real, sa: real, sb: real)
    requires fa != 0.0 && fb != 0.0 && sa != 0.0 && sb != 0.0
    ensures Ratio(fa, fb, sa, sb) * Ratio(fb, fa, sb, sa) == 1.0
  {
    RatioRegroup(fa, fb, sa, sb);
    RatioRegroup(fb, fa, sb, sa);
    var p, q := fa * sa, fb * sb;
    assert p != 0.0 && q != 0.0;
    assert (p / q) * (q / p) == 1.0;
  }

  /** A non-negative number whose square lies strictly between `lo * lo` and `hi * hi` lies between `lo` and `hi`. */
  lemma SquareBetween(s: real, lo: real, hi: real)
    requires s >= 0.0 && lo >= 0.0 && hi >= 0.0
    requires lo * lo < s * s < hi * hi
    ensures lo < s < hi
  {
    assert (s - lo) * (s + lo) == s * s - lo * lo > 0.0;
    assert (hi - s) * (hi + s) == hi * hi - s * s > 0.0;
  }

  /** What is asked of a square-root function: on non-negative input it returns the non-negative root. */
  ghost predicate IsSqrt(sqrt: real -> real) {
    forall x :: x >= 0.0 ==> sqrt(x) >= 0.0 && sqrt(x) * sqrt(x) == x
  }
}
