/**
 * CosineSimilarity.cosine: the cosine of the angle between two vectors,
 * computed in one pass, with 0 for a vector of norm 0. Vector elements are
 * real numbers, and the square root is a parameter that every lemma takes
 * to be the non-negative square root (IsSqrt).
 */
module Cosine {
  import opened Wrappers

  /** sqrt is the non-negative square root on the non-negative reals. */
  ghost predicate IsSqrt(sqrt: real -> real) {
    forall x :: 0.0 <= x ==> 0.0 <= sqrt(x) && sqrt(x) * sqrt(x) == x
  }

  /** The invalid-argument conditions cosine raises. */
  datatype VectorError = NullVector | DimensionMismatch(lengthA: nat, lengthB: nat)

  /** The dot product, summed from the first element to the last. */
  function Dot(a: seq<real>, b: seq<real>): real
    requires |a| == |b|
  {
    if |a| == 0 then 0.0 else Dot(a[..|a| - 1], b[..|b| - 1]) + a[|a| - 1] * b[|b| - 1]
  }

  /** The squared Euclidean norm, that is the dot product of a with itself. */
  function SumOfSquares(a: seq<real>): (r: real)
    ensures r >= 0.0
    ensures r == Dot(a, a)
  {
    if |a| == 0 then 0.0
    else
      SquareNonNegative(a[|a| - 1]);
      SumOfSquares(a[..|a| - 1]) + a[|a| - 1] * a[|a| - 1]
  }

  /** The similarity of two vectors of the same length, as the loop and the final division compute it. */
  function CosineOf(a: seq<real>, b: seq<real>, sqrt: real -> real): real
    requires |a| == |b|
    requires IsSqrt(sqrt)
  {
    Similarity(Dot(a, b), SumOfSquares(a), SumOfSquares(b), sqrt)
  }

  /** The final step of cosine: 0 when a squared norm is 0, else the dot product over the product of the norms. */
  function Similarity(dot: real, na: real, nb: real, sqrt: real -> real): real
    requires na >= 0.0 && nb >= 0.0
    requires IsSqrt(sqrt)
  {
    if na == 0.0 || nb == 0.0 then 0.0
    else
      NormsPositive(na, nb, sqrt);
      dot / (sqrt(na) * sqrt(nb))
  }

  lemma RootPositive(x: real, sqrt: real -> real)
    requires IsSqrt(sqrt) && x > 0.0
    ensures sqrt(x) > 0.0
  {
    var r := sqrt(x);
    assert r >= 0.0 && r * r == x;
  }

  lemma PositiveProduct(x: real, y: real)
    requires x > 0.0 && y > 0.0
    ensures x * y > 0.0
  {
  }

  lemma NormsPositive(na: real, nb: real, sqrt: real -> real)
    requires IsSqrt(sqrt) && na > 0.0 && nb > 0.0
    ensures sqrt(na) > 0.0 && sqrt(nb) > 0.0 && sqrt(na) * sqrt(nb) > 0.0
  {
    RootPositive(na, sqrt);
    RootPositive(nb, sqrt);
    PositiveProduct(sqrt(na), sqrt(nb));
  }

  lemma SimilarityNonZero(dot: real, na: real, nb: real, sqrt: real -> real)
    requires IsSqrt(sqrt) && na > 0.0 && nb > 0.0
    ensures Similarity(dot, na, nb, sqrt) == dot / (sqrt(na) * sqrt(nb))
  {
    NormsPositive(na, nb, sqrt);
  }

  /**
   * cosine(a, b): null vectors and vectors of different lengths are invalid
   * arguments; otherwise the loop accumulates the dot product and both
   * squared norms, and the result is CosineOf.
   */
  method Cosine(a: Option<seq<real>>, b: Option<seq<real>>, sqrt: real -> real) returns (r: Result<real, VectorError>)
    requires IsSqrt(sqrt)
    ensures a.None? || b.None? ==> r == Failure(NullVector)
    ensures a.Some? && b.Some? && |a.value| != |b.value| ==>
              r == Failure(DimensionMismatch(|a.value|, |b.value|))
    ensures a.Some? && b.Some? && |a.value| == |b.value| ==>
              r == Success(CosineOf(a.value, b.value, sqrt))
  {
    if a.None? || b.None? {
      return Failure(NullVector);
    }
    var x, y := a.value, b.value;
    if |x| != |y| {
      return Failure(DimensionMismatch(|x|, |y|));
    }
    var dot, na, nb := 0.0, 0.0, 0.0;
    for i := 0 to |x|
      invariant dot == Dot(x[..i], y[..i])
      invariant na == SumOfSquares(x[..i])
      invariant nb == SumOfSquares(y[..i])
    {
      assert x[..i + 1][..i] == x[..i];
      assert y[..i + 1][..i] == y[..i];
      dot := dot + x[i] * y[i];
      na := na + x[i] * x[i];
      nb := nb + y[i] * y[i];
    }
    assert x[..|x|] == x && y[..|y|] == y;
    assert dot == Dot(x, y) && na == SumOfSquares(x) && nb == SumOfSquares(y);
    if na == 0.0 || nb == 0.0 {
      return Success(0.0);
    }
    NormsPositive(na, nb, sqrt);
    r := Success(dot / (sqrt(na) * sqrt(nb)));
    SimilarityNonZero(dot, na, nb, sqrt);
  }

  lemma {:induction false} DotSymmetric(a: seq<real>, b: seq<real>)
    requires |a| == |b|
    ensures Dot(a, b) == Dot(b, a)
  {
    if |a| > 0 {
      DotSymmetric(a[..|a| - 1], b[..|b| - 1]);
    }
  }

  /** A squared norm is 0 exactly when every element is 0. */
  lemma {:induction false} SumOfSquaresZero(a: seq<real>)
    ensures SumOfSquares(a) == 0.0 <==> forall i :: 0 <= i < |a| ==> a[i] == 0.0
  {
    if |a| > 0 {
      var p := a[..|a| - 1];
      SumOfSquaresZero(p);
      assert SumOfSquares(a) == SumOfSquares(p) + a[|a| - 1] * a[|a| - 1];
      SquareNonNegative(a[|a| - 1]);
      SquareZero(a[|a| - 1]);
      if forall i :: 0 <= i < |a| ==> a[i] == 0.0 {
        assert forall i :: 0 <= i < |p| ==> p[i] == a[i];
      }
      if SumOfSquares(a) == 0.0 {
        assert a[|a| - 1] * a[|a| - 1] == 0.0;
        assert SumOfSquares(p) == 0.0;
        forall i | 0 <= i < |a|
          ensures a[i] == 0.0
        {
          if i < |p| {
            assert a[i] == p[i];
          }
        }
      }
    }
  }

  lemma SquareNonNegative(x: real)
    ensures x * x >= 0.0
  {
    if x < 0.0 {
      assert (-x) * (-x) == x * x;
    }
  }

  lemma SquareZero(x: real)
    ensures x * x == 0.0 ==> x == 0.0
  {
    if x != 0.0 {
      assert (x * x) / x == x;
    }
  }

  /** cosine(a, b) == cosine(b, a). */
  lemma CosineSymmetric(a: seq<real>, b: seq<real>, sqrt: real -> real)
    requires |a| == |b|
    requires IsSqrt(sqrt)
    ensures CosineOf(a, b, sqrt) == CosineOf(b, a, sqrt)
  {
    DotSymmetric(a, b);
    var na, nb := SumOfSquares(a), SumOfSquares(b);
    if na != 0.0 && nb != 0.0 {
      SimilarityNonZero(Dot(a, b), na, nb, sqrt);
      SimilarityNonZero(Dot(a, b), nb, na, sqrt);
      assert sqrt(na) * sqrt(nb) == sqrt(nb) * sqrt(na);
    }
  }

  /** A vector with a non-zero element is fully similar to itself. */
  lemma CosineSelf(v: seq<real>, sqrt: real -> real)
    requires IsSqrt(sqrt)
    requires exists i :: 0 <= i < |v| && v[i] != 0.0
    ensures CosineOf(v, v, sqrt) == 1.0
  {
    SumOfSquaresZero(v);
    var n := SumOfSquares(v);
    assert n > 0.0;
    SelfSimilarity(n, sqrt);
  }

  lemma SelfSimilarity(n: real, sqrt: real -> real)
    requires IsSqrt(sqrt) && n > 0.0
    ensures Similarity(n, n, n, sqrt) == 1.0
  {
    SimilarityNonZero(n, n, n, sqrt);
    assert sqrt(n) * sqrt(n) == n;
    assert n / n == 1.0;
  }

  /** The zero-norm fallback: an all-zero vector on either side gives exactly 0. */
  lemma CosineZeroVector(a: seq<real>, b: seq<real>, sqrt: real -> real)
    requires |a| == |b|
    requires IsSqrt(sqrt)
    requires (forall i :: 0 <= i < |a| ==> a[i] == 0.0) || (forall i :: 0 <= i < |b| ==> b[i] == 0.0)
    ensures CosineOf(a, b, sqrt) == 0.0
  {
    SumOfSquaresZero(a);
    SumOfSquaresZero(b);
  }

  lemma NonNegativeSquareLe(u: real, v: real)
    requires v >= 0.0 && u * u <= v * v
    ensures u <= v
  {
    assert (u - v) * (u + v) == u * u - v * v;
    if u + v > 0.0 {
      assert (u - v) * (u + v) <= 0.0;
    }
  }

  /** The step of Cauchy-Schwarz: 2dxy <= A y^2 + B x^2 when d^2 <= AB. */
  lemma CrossTermBound(d: real, na: real, nb: real, x: real, y: real)
    requires na >= 0.0 && nb >= 0.0 && d * d <= na * nb
    ensures 2.0 * d * x * y <= na * (y * y) + nb * (x * x)
  {
    var u := 2.0 * d * x * y;
    var v := na * (y * y) + nb * (x * x);
    assert y * y >= 0.0 && x * x >= 0.0;
    assert v >= 0.0;
    var w := na * (y * y) - nb * (x * x);
    assert v * v == w * w + 4.0 * (na * nb) * ((x * y) * (x * y));
    assert (x * y) * (x * y) >= 0.0;
    assert u * u == 4.0 * (d * d) * ((x * y) * (x * y));
    assert 4.0 * (d * d) * ((x * y) * (x * y)) <= 4.0 * (na * nb) * ((x * y) * (x * y));
    assert w * w >= 0.0;
    NonNegativeSquareLe(u, v);
  }

  /** One element more on each side keeps d^2 <= AB: the induction step of Cauchy-Schwarz. */
  lemma CauchySchwarzStep(d: real, na: real, nb: real, x: real, y: real)
    requires na >= 0.0 && nb >= 0.0 && d * d <= na * nb
    ensures (d + x * y) * (d + x * y) <= (na + x * x) * (nb + y * y)
  {
    CrossTermBound(d, na, nb, x, y);
    assert (d + x * y) * (d + x * y) == d * d + 2.0 * d * x * y + (x * y) * (x * y);
    assert (na + x * x) * (nb + y * y) == na * nb + na * (y * y) + nb * (x * x) + (x * x) * (y * y);
    assert (x * y) * (x * y) == (x * x) * (y * y);
  }

  /** Cauchy-Schwarz: the squared dot product is at most the product of the squared norms. */
  lemma {:induction false} CauchySchwarz(a: seq<real>, b: seq<real>)
    requires |a| == |b|
    ensures Dot(a, b) * Dot(a, b) <= SumOfSquares(a) * SumOfSquares(b)
  {
    if |a| > 0 {
      var pa, pb := a[..|a| - 1], b[..|b| - 1];
      CauchySchwarz(pa, pb);
      CauchySchwarzStep(Dot(pa, pb), SumOfSquares(pa), SumOfSquares(pb), a[|a| - 1], b[|b| - 1]);
    }
  }

  /** The similarity always lies in [-1, 1]. */
  lemma CosineBounded(a: seq<real>, b: seq<real>, sqrt: real -> real)
    requires |a| == |b|
    requires IsSqrt(sqrt)
    ensures -1.0 <= CosineOf(a, b, sqrt) <= 1.0
  {
    CauchySchwarz(a, b);
    SimilarityBounded(Dot(a, b), SumOfSquares(a), SumOfSquares(b), sqrt);
  }

  lemma SimilarityBounded(d: real, na: real, nb: real, sqrt: real -> real)
    requires IsSqrt(sqrt) && na >= 0.0 && nb >= 0.0 && d * d <= na * nb
    ensures -1.0 <= Similarity(d, na, nb, sqrt) <= 1.0
  {
    if na != 0.0 && nb != 0.0 {
      var c := RatioBoundedAt(d, na, nb, sqrt);
      SimilarityNonZero(d, na, nb, sqrt);
    }
  }

  lemma RatioBoundedAt(d: real, na: real, nb: real, sqrt: real -> real) returns (c: real)
    requires IsSqrt(sqrt) && na > 0.0 && nb > 0.0 && d * d <= na * nb
    ensures sqrt(na) * sqrt(nb) > 0.0
    ensures c == d / (sqrt(na) * sqrt(nb)) && -1.0 <= c <= 1.0
  {
    NormsPositive(na, nb, sqrt);
    c := RatioBounded(d, na, nb, sqrt(na), sqrt(nb));
  }

  /** d / (ra * rb) lies in [-1, 1] when ra, rb are the positive roots of na, nb and d^2 <= na nb. */
  lemma RatioBounded(d: real, na: real, nb: real, ra: real, rb: real) returns (c: real)
    requires ra > 0.0 && rb > 0.0 && ra * ra == na && rb * rb == nb
    requires d * d <= na * nb
    ensures c == d / (ra * rb) && -1.0 <= c <= 1.0
  {
    c := d / (ra * rb);
    var p := ra * rb;
    assert p > 0.0;
    assert p * p == na * nb by {
      assert p * p == (ra * ra) * (rb * rb);
    }
    NonNegativeSquareLe(d, p);
    NonNegativeSquareLe(-d, p);
    QuotientBounded(d, p);
  }

  lemma QuotientBounded(d: real, p: real)
    requires p > 0.0 && -p <= d <= p
    ensures -1.0 <= d / p <= 1.0
  {
    var q := d / p;
    assert q * p == d;
    assert (1.0 - q) * p == p - d;
    assert (1.0 + q) * p == p + d;
    PositiveFactor(1.0 - q, p);
    PositiveFactor(1.0 + q, p);
  }

  lemma PositiveFactor(x: real, p: real)
    requires p > 0.0 && x * p >= 0.0
    ensures x >= 0.0
  {
  }
}
