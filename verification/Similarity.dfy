/** Cosine similarity over the reals. The square root is a parameter, known by its squares. */
module Similarity {

  const EPSILON: real := 1.0 / 8388608.0

  type Vector = seq<real>

  ghost predicate IsSquareRoot(sqrt: real -> real) {
    forall x: real :: x >= 0.0 ==> sqrt(x) >= 0.0 && sqrt(x) * sqrt(x) == x
  }

  function Dot(a: Vector, b: Vector): real
    requires |a| == |b|
  {
    if a == [] then 0.0 else Dot(a[..|a| - 1], b[..|b| - 1]) + a[|a| - 1] * b[|b| - 1]
  }

  function Cosine(sqrt: real -> real, a: Vector, b: Vector): real {
    if |a| != |b| || a == [] then 0.0
    else
      var denom := sqrt(Dot(a, a)) * sqrt(Dot(b, b));
      if denom < EPSILON then 0.0 else Dot(a, b) / denom
  }

  method CosineSimilarity(sqrt: real -> real, a: Vector, b: Vector) returns (c: real)
    ensures c == Cosine(sqrt, a, b)
  {
    if |a| != |b| || a == [] {
      return 0.0;
    }
    var dot, normA, normB := 0.0, 0.0, 0.0;
    for i := 0 to |a|
      invariant dot == Dot(a[..i], b[..i])
      invariant normA == Dot(a[..i], a[..i]) && normB == Dot(b[..i], b[..i])
    {
      assert a[..i + 1][..i] == a[..i] && b[..i + 1][..i] == b[..i];
      dot := dot + a[i] * b[i];
      normA := normA + a[i] * a[i];
      normB := normB + b[i] * b[i];
    }
    assert a[..|a|] == a && b[..|b|] == b;
    var denom := sqrt(normA) * sqrt(normB);
    if denom < EPSILON {
      c := 0.0;
    } else {
      c := dot / denom;
    }
  }

  lemma {:induction false} DotSymmetric(a: Vector, b: Vector)
    requires |a| == |b|
    ensures Dot(a, b) == Dot(b, a)
  {
    if a != [] {
      DotSymmetric(a[..|a| - 1], b[..|b| - 1]);
    }
  }

  lemma Square(s: real, x: real, t: real, y: real)
    ensures s * s * (x * x) + 2.0 * s * t * (x * y) + t * t * (y * y) >= 0.0
  {
    var v := s * x + t * y;
    assert v * v >= 0.0;
    assert v * v == s * s * (x * x) + 2.0 * s * t * (x * y) + t * t * (y * y);
  }

  /** The sum of the squares `(s * a[i] + t * b[i])^2`, multiplied out. */
  lemma {:induction false} QuadraticForm(a: Vector, b: Vector, s: real, t: real)
    requires |a| == |b|
    ensures s * s * Dot(a, a) + 2.0 * s * t * Dot(a, b) + t * t * Dot(b, b) >= 0.0
  {
    if a != [] {
      var a', b', x, y := a[..|a| - 1], b[..|b| - 1], a[|a| - 1], b[|b| - 1];
      QuadraticForm(a', b', s, t);
      Square(s, x, t, y);
      Distribute(s * s, Dot(a', a'), x * x);
      Distribute(2.0 * s * t, Dot(a', b'), x * y);
      Distribute(t * t, Dot(b', b'), y * y);
    }
  }

  lemma Distribute(k: real, x: real, y: real)
    ensures k * (x + y) == k * x + k * y
  {
  }

  lemma {:induction false} NormNonNegative(a: Vector)
    ensures Dot(a, a) >= 0.0
  {
    if a != [] {
      NormNonNegative(a[..|a| - 1]);
      assert a[|a| - 1] * a[|a| - 1] >= 0.0;
    }
  }

  /** One more coordinate keeps the inequality. */
  lemma ExtendInequality(d: real, n: real, m: real, x: real, y: real)
    requires d * d <= n * m
    requires y * y * n - 2.0 * (y * x) * d + x * x * m >= 0.0
    ensures (d + x * y) * (d + x * y) <= (n + x * x) * (m + y * y)
  {
    assert (d + x * y) * (d + x * y) == d * d + 2.0 * (y * x) * d + (x * x) * (y * y);
    assert (n + x * x) * (m + y * y) == n * m + n * (y * y) + (x * x) * m + (x * x) * (y * y);
  }

  lemma FlipSign(n: real, d: real, m: real, x: real, y: real)
    requires y * y * n + 2.0 * y * -x * d + -x * -x * m >= 0.0
    ensures y * y * n - 2.0 * (y * x) * d + x * x * m >= 0.0
  {
    assert 2.0 * y * -x * d == - (2.0 * (y * x) * d);
    assert -x * -x * m == x * x * m;
  }

  /** What `QuadraticForm` says for the coefficients `y` and `-x`. */
  lemma QuadraticDifference(a: Vector, b: Vector, x: real, y: real)
    requires |a| == |b|
    ensures y * y * Dot(a, a) - 2.0 * (y * x) * Dot(a, b) + x * x * Dot(b, b) >= 0.0
  {
    QuadraticForm(a, b, y, -x);
    hide Dot;
    FlipSign(Dot(a, a), Dot(a, b), Dot(b, b), x, y);
  }

  /** Cauchy-Schwarz, by induction over the accumulating loop. */
  lemma {:induction false} CauchySchwarz(a: Vector, b: Vector)
    requires |a| == |b|
    ensures Dot(a, b) * Dot(a, b) <= Dot(a, a) * Dot(b, b)
  {
    if a != [] {
      var a', b' := a[..|a| - 1], b[..|b| - 1];
      CauchySchwarz(a', b');
      CauchySchwarzStep(a, b);
    }
  }

  lemma CauchySchwarzStep(a: Vector, b: Vector)
    requires |a| == |b| > 0
    requires var a', b' := a[..|a| - 1], b[..|b| - 1];
      Dot(a', b') * Dot(a', b') <= Dot(a', a') * Dot(b', b')
    ensures Dot(a, b) * Dot(a, b) <= Dot(a, a) * Dot(b, b)
  {
    hide Dot;
    var a', b', x, y := a[..|a| - 1], b[..|b| - 1], a[|a| - 1], b[|b| - 1];
    assert Dot(a, b) == Dot(a', b') + x * y by { DotStep(a, b); }
    assert Dot(a, a) == Dot(a', a') + x * x by { DotStep(a, a); }
    assert Dot(b, b) == Dot(b', b') + y * y by { DotStep(b, b); }
    assert y * y * Dot(a', a') - 2.0 * (y * x) * Dot(a', b') + x * x * Dot(b', b') >= 0.0 by {
      QuadraticDifference(a', b', x, y);
    }
    Combine(Dot(a, b), Dot(a, a), Dot(b, b), Dot(a', b'), Dot(a', a'), Dot(b', b'), x, y);
  }

  lemma Combine(dd: real, nn: real, mm: real, d: real, n: real, m: real, x: real, y: real)
    requires dd == d + x * y && nn == n + x * x && mm == m + y * y
    requires d * d <= n * m
    requires y * y * n - 2.0 * (y * x) * d + x * x * m >= 0.0
    ensures dd * dd <= nn * mm
  {
    ExtendInequality(d, n, m, x, y);
  }

  lemma DotStep(a: Vector, b: Vector)
    requires |a| == |b| > 0
    ensures Dot(a, b) == Dot(a[..|a| - 1], b[..|b| - 1]) + a[|a| - 1] * b[|b| - 1]
  {
  }

  lemma RootsMultiply(x: real, y: real, p: real, q: real)
    requires p * p == x && q * q == y
    ensures (p * q) * (p * q) == x * y
  {
    assert (p * q) * (p * q) == (p * p) * (q * q);
  }

  lemma SquareBound(d: real, e: real)
    requires e > 0.0 && d * d <= e * e
    ensures -e <= d <= e
  {
    assert d * d - e * e == (d - e) * (d + e);
  }

  lemma QuotientBound(d: real, e: real)
    requires e > 0.0 && -e <= d <= e
    ensures -1.0 <= d / e <= 1.0
  {
    var c := d / e;
    assert c * e == d;
  }

  /** The similarity lies between -1 and 1, whatever the vectors. */
  lemma CosineBounded(sqrt: real -> real, a: Vector, b: Vector)
    requires IsSquareRoot(sqrt)
    ensures -1.0 <= Cosine(sqrt, a, b) <= 1.0
  {
    if |a| == |b| && a != [] {
      NormNonNegative(a);
      NormNonNegative(b);
      CauchySchwarz(a, b);
      var d, n, m := Dot(a, b), Dot(a, a), Dot(b, b);
      hide Dot;
      var p, q := sqrt(n), sqrt(m);
      RootsMultiply(n, m, p, q);
      if p * q >= EPSILON {
        SquareBound(d, p * q);
        QuotientBound(d, p * q);
      }
    }
  }

  /** The order of the arguments does not matter. */
  lemma CosineSymmetric(sqrt: real -> real, a: Vector, b: Vector)
    ensures Cosine(sqrt, a, b) == Cosine(sqrt, b, a)
  {
    if |a| == |b| && a != [] {
      DotSymmetric(a, b);
      hide Dot;
      assert sqrt(Dot(a, a)) * sqrt(Dot(b, b)) == sqrt(Dot(b, b)) * sqrt(Dot(a, a));
    }
  }

  /** A vector that is not vanishingly short is as similar to itself as can be. */
  lemma CosineOfItself(sqrt: real -> real, a: Vector)
    requires IsSquareRoot(sqrt) && a != []
    ensures Cosine(sqrt, a, a) == if Dot(a, a) < EPSILON then 0.0 else 1.0
  {
    NormNonNegative(a);
    hide Dot;
    var n := Dot(a, a);
    if n >= EPSILON {
      assert n / n == 1.0;
    }
  }

  // ----- what the similarity is -----

  /** Sums of products, told without computing them: one coordinate gives the product, and joined
      vectors give the sum. */
  ghost predicate IsSumOfProducts(sum: (Vector, Vector) -> real) {
    && (forall x: real, y: real :: sum([x], [y]) == x * y)
    && (forall a: Vector, b: Vector, c: Vector, d: Vector {:trigger sum(a + c, b + d)} ::
          |a| == |b| && |c| == |d| ==> sum(a + c, b + d) == sum(a, b) + sum(c, d))
  }

  lemma SumOfOne(sum: (Vector, Vector) -> real, x: real, y: real)
    requires IsSumOfProducts(sum)
    ensures sum([x], [y]) == x * y
  {
  }

  lemma SumJoins(sum: (Vector, Vector) -> real, a: Vector, b: Vector, c: Vector, d: Vector)
    requires IsSumOfProducts(sum) && |a| == |b| && |c| == |d|
    ensures sum(a + c, b + d) == sum(a, b) + sum(c, d)
  {
  }

  /** `Dot` obeys both laws, ... */
  lemma DotOfOne(x: real, y: real)
    ensures Dot([x], [y]) == x * y
  {
    assert [x][..0] == [] && [y][..0] == [];
  }

  lemma {:induction false} DotJoins(a: Vector, b: Vector, c: Vector, d: Vector)
    requires |a| == |b| && |c| == |d|
    ensures Dot(a + c, b + d) == Dot(a, b) + Dot(c, d)
  {
    if c == [] {
      assert a + c == a && b + d == b;
    } else {
      var n := |c| - 1;
      DotJoins(a, b, c[..n], d[..n]);
      assert (a + c)[..|a + c| - 1] == a + c[..n] && (b + d)[..|b + d| - 1] == b + d[..n];
    }
  }

  /** ... and nothing else does. */
  lemma {:induction false} DotIsTheSum(sum: (Vector, Vector) -> real, a: Vector, b: Vector)
    requires IsSumOfProducts(sum) && |a| == |b|
    ensures Dot(a, b) == sum(a, b)
  {
    hide IsSumOfProducts;
    if a == [] {
      SumJoins(sum, a, b, a, b);
      assert a + a == a && b + b == b;
    } else {
      var n := |a| - 1;
      DotIsTheSum(sum, a[..n], b[..n]);
      SumJoins(sum, a[..n], b[..n], [a[n]], [b[n]]);
      SumOfOne(sum, a[n], b[n]);
      assert a == a[..n] + [a[n]] && b == b[..n] + [b[n]];
    }
  }

  lemma RootsOfProducts(sqrt: real -> real, n: real, m: real)
    requires IsSquareRoot(sqrt) && n >= 0.0 && m >= 0.0
    ensures n * m >= 0.0 && sqrt(n * m) == sqrt(n) * sqrt(m)
  {
    var p, q := sqrt(n), sqrt(m);
    RootsMultiply(n, m, p, q);
    assert n * m >= 0.0 && p * q >= 0.0;
    RootIsUnique(sqrt(n * m), p * q, n * m);
  }

  lemma RootIsUnique(r: real, s: real, x: real)
    requires r >= 0.0 && s >= 0.0 && r * r == x && s * s == x
    ensures r == s
  {
    if r != s {
      assert (r - s) * (r + s) == r * r - s * s;
      NoDivisorsOfZero(r - s, r + s);
    }
  }

  lemma NoDivisorsOfZero(x: real, y: real)
    requires x != 0.0 && x * y == 0.0
    ensures y == 0.0
  {
    assert y == x * y / x;
  }

  /** The similarity times the root of the product of the two sums of squares is the sum of the
      products; it is 0 when that root is below the threshold or the vectors do not match. */
  lemma CosineMeans(sqrt: real -> real, a: Vector, b: Vector, n: real, m: real)
    requires IsSquareRoot(sqrt) && n == Dot(a, a) && m == Dot(b, b)
    ensures if |a| != |b| || sqrt(n * m) < EPSILON then Cosine(sqrt, a, b) == 0.0
            else Cosine(sqrt, a, b) * sqrt(n * m) == Dot(a, b)
  {
    if |a| == |b| {
      RootOfNorms(sqrt, a, b, n, m);
      if a == [] {
        RootIsUnique(sqrt(0.0), 0.0, 0.0);
      } else {
        CosineOfRoot(sqrt, a, b, n, m, sqrt(n * m));
      }
    }
  }

  lemma RootOfNorms(sqrt: real -> real, a: Vector, b: Vector, n: real, m: real)
    requires IsSquareRoot(sqrt) && n == Dot(a, a) && m == Dot(b, b)
    ensures sqrt(n) * sqrt(m) == sqrt(n * m)
  {
    NormNonNegative(a);
    NormNonNegative(b);
    hide *;
    RootsOfProducts(sqrt, n, m);
  }

  lemma CosineOfRoot(sqrt: real -> real, a: Vector, b: Vector, n: real, m: real, root: real)
    requires |a| == |b| && a != [] && n == Dot(a, a) && m == Dot(b, b)
    requires sqrt(n) * sqrt(m) == root
    ensures if root < EPSILON then Cosine(sqrt, a, b) == 0.0 else Cosine(sqrt, a, b) * root == Dot(a, b)
  {
    hide Dot;
    QuotientBack(Dot(a, b), root);
  }

  lemma QuotientBack(d: real, e: real)
    ensures e >= EPSILON ==> (d / e) * e == d && (-d) / e == -(d / e)
  {
  }

  function Negated(a: Vector): Vector {
    seq(|a|, i requires 0 <= i < |a| => -a[i])
  }

  lemma {:induction false} DotNegated(a: Vector, b: Vector)
    requires |a| == |b|
    ensures Dot(Negated(a), b) == -Dot(a, b) && Dot(Negated(a), Negated(a)) == Dot(a, a)
  {
    if a != [] {
      var n := |a| - 1;
      assert Negated(a)[..n] == Negated(a[..n]) && Negated(a)[n] == -a[n];
      DotNegated(a[..n], b[..n]);
      var x, y := a[n], b[n];
      assert -x * y == -(x * y) && -x * -x == x * x;
    }
  }

  /** Turning one vector round turns the sign of the similarity. */
  lemma CosineNegated(sqrt: real -> real, a: Vector, b: Vector)
    ensures Cosine(sqrt, Negated(a), b) == -Cosine(sqrt, a, b)
  {
    if |a| == |b| && a != [] {
      DotNegated(a, b);
      hide Dot, Negated;
      QuotientBack(Dot(a, b), sqrt(Dot(a, a)) * sqrt(Dot(b, b)));
    }
  }

  /** Orthogonal vectors have similarity 0. */
  lemma CosineOrthogonal(sqrt: real -> real, sum: (Vector, Vector) -> real, a: Vector, b: Vector)
    requires IsSumOfProducts(sum) && |a| == |b| && sum(a, b) == 0.0
    ensures Cosine(sqrt, a, b) == 0.0
  {
    hide IsSumOfProducts, Dot;
    DotIsTheSum(sum, a, b);
    QuotientOfNothing(sqrt(Dot(a, a)) * sqrt(Dot(b, b)));
  }

  lemma QuotientOfNothing(e: real)
    ensures e >= EPSILON ==> 0.0 / e == 0.0
  {
  }
}
