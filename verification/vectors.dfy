/**
  Embedding vectors over the reals and the cosine similarity of `src/memory/store.rs`.
  The square root is a parameter, known only by what a square root is.
 */
module Vectors {

  type Vec = seq<real>

  type SqrtFn = real -> real

  ghost predicate IsSqrt(sqrt: SqrtFn) {
    forall x: real :: x >= 0.0 ==> sqrt(x) >= 0.0 && sqrt(x) * sqrt(x) == x
  }

  /** `f32::EPSILON`, that is 2^-23. */
  const EPSILON: real := 0.00000011920928955078125

  function Dot(a: Vec, b: Vec): real
    requires |a| == |b|
  {
    if a == [] then 0.0
    else Dot(a[..|a| - 1], b[..|b| - 1]) + Times(a[|a| - 1], b[|b| - 1])
  }

  function Times(x: real, y: real): real {
    x * y
  }

  function Zeros(n: nat): Vec {
    seq(n, _ => 0.0)
  }

  function Add(a: Vec, b: Vec): Vec
    requires |a| == |b|
  {
    seq(|a|, i requires 0 <= i < |a| => a[i] + b[i])
  }

  function Scale(a: Vec, c: real): (r: Vec)
    ensures |r| == |a|
  {
    seq(|a|, i requires 0 <= i < |a| => a[i] * c)
  }

  function Norm(sqrt: SqrtFn, a: Vec): real {
    sqrt(Dot(a, a))
  }

  /** Element-wise division, `&array / scalar`. */
  function Divide(a: Vec, c: real): (r: Vec)
    requires c != 0.0
    ensures |r| == |a|
  {
    seq(|a|, i requires 0 <= i < |a| => a[i] / c)
  }

  lemma DivideIsScale(a: Vec, c: real)
    requires c != 0.0
    ensures Divide(a, c) == Scale(a, 1.0 / c)
  {
    forall i | 0 <= i < |a|
      ensures Divide(a, c)[i] == Scale(a, 1.0 / c)[i]
    {
    }
  }

  predicate IsUnit(a: Vec) {
    Dot(a, a) == 1.0
  }

  function CosineSimilarity(sqrt: SqrtFn, a: Vec, b: Vec): real
    requires |a| == |b|
  {
    Quotient(Dot(a, b), Norm(sqrt, a), Norm(sqrt, b))
  }

  /** The dot product over the product of the norms, 0 when that product is below epsilon. */
  function Quotient(dot: real, r: real, s: real): real {
    var denom := r * s;
    if denom < EPSILON then 0.0 else dot / denom
  }

  // ------------------------------------------------------------------
  // Algebra
  // ------------------------------------------------------------------

  lemma {:induction false} DotSymmetric(a: Vec, b: Vec)
    requires |a| == |b|
    ensures Dot(a, b) == Dot(b, a)
  {
    if a != [] {
      DotSymmetric(a[..|a| - 1], b[..|b| - 1]);
    }
  }

  lemma {:induction false} DotSelfNonNegative(a: Vec)
    ensures Dot(a, a) >= 0.0
  {
    if a != [] {
      DotSelfNonNegative(a[..|a| - 1]);
    }
  }

  lemma {:induction false} DotScale(a: Vec, b: Vec, c: real)
    requires |a| == |b|
    ensures Dot(a, Scale(b, c)) == Dot(a, b) * c
  {
    if a != [] {
      var n := |a| - 1;
      assert forall i :: 0 <= i < n ==> Scale(b, c)[..n][i] == Scale(b[..n], c)[i];
      assert Scale(b, c)[..n] == Scale(b[..n], c);
      DotScale(a[..n], b[..n], c);
    }
  }

  lemma {:induction false} DotAdd(a: Vec, b: Vec, c: Vec)
    requires |a| == |b| == |c|
    ensures Dot(a, Add(b, c)) == Dot(a, b) + Dot(a, c)
  {
    if a != [] {
      var n := |a| - 1;
      assert Add(b, c)[..n] == Add(b[..n], c[..n]);
      DotAdd(a[..n], b[..n], c[..n]);
      assert a[n] * (b[n] + c[n]) == a[n] * b[n] + a[n] * c[n];
    }
  }

  lemma {:induction false} DotZero(a: Vec)
    ensures Dot(a, Zeros(|a|)) == 0.0
  {
    if a != [] {
      var n := |a| - 1;
      assert Zeros(|a|)[..n] == Zeros(n);
      DotZero(a[..n]);
    }
  }

  lemma DotPush(a: Vec, b: Vec, x: real, y: real)
    requires |a| == |b|
    ensures Dot(a + [x], b + [y]) == Dot(a, b) + x * y
  {
    hide Times;
    var a', b' := a + [x], b + [y];
    assert a'[..|a|] == a && b'[..|b|] == b;
    assert Dot(a', b') == Dot(a, b) + Times(x, y);
    TimesIs(x, y);
  }

  lemma TimesIs(x: real, y: real)
    ensures Times(x, y) == x * y
  {
  }

  lemma DotNothing()
    ensures Dot([], []) == 0.0
  {
  }

  /** A dot product adds up over parts, and is a product in one dimension. */
  lemma {:induction false} DotConcat(a: Vec, b: Vec, c: Vec, d: Vec)
    requires |a| == |b| && |c| == |d|
    ensures Dot(a + c, b + d) == Dot(a, b) + Dot(c, d)
    ensures |c| == 1 ==> Dot(c, d) == c[0] * d[0]
  {
    hide Dot;
    DotNothing();
    if c == [] {
      assert a + c == a && b + d == b && d == [];
    } else {
      var n := |c| - 1;
      DotConcat(a, b, c[..n], d[..n]);
      DotPush(a + c[..n], b + d[..n], c[n], d[n]);
      DotPush(c[..n], d[..n], c[n], d[n]);
      assert a + c == a + c[..n] + [c[n]] && b + d == b + d[..n] + [d[n]];
      assert c == c[..n] + [c[n]] && d == d[..n] + [d[n]];
      assert n == 0 ==> c[..n] == [] && d[..n] == [];
    }
  }

  /** The Cauchy-Schwarz inequality, in every dimension. */
  lemma {:induction false} CauchySchwarz(a: Vec, b: Vec)
    requires |a| == |b|
    ensures Dot(a, b) * Dot(a, b) <= Dot(a, a) * Dot(b, b)
  {
    if a != [] {
      var n := |a| - 1;
      var a', b' := a[..n], b[..n];
      CauchySchwarz(a', b');
      DotSelfNonNegative(a');
      DotSelfNonNegative(b');
      OneMoreDimension(Dot(a', b'), Dot(a', a'), Dot(b', b'), a[n], b[n]);
    }
  }

  lemma OneMoreDimension(p: real, s: real, t: real, x: real, y: real)
    requires s >= 0.0 && t >= 0.0 && p * p <= s * t
    ensures (p + x * y) * (p + x * y) <= (s + x * x) * (t + y * y)
  {
    MixedTerm(p, s, t, x, y);
    assert (p + x * y) * (p + x * y) == p * p + 2.0 * (p * (x * y)) + (x * y) * (x * y);
    assert (s + x * x) * (t + y * y) == s * t + s * (y * y) + t * (x * x) + (x * x) * (y * y);
    assert (x * y) * (x * y) == (x * x) * (y * y);
  }

  lemma MixedTerm(p: real, s: real, t: real, x: real, y: real)
    requires s >= 0.0 && t >= 0.0 && p * p <= s * t
    ensures 2.0 * (p * (x * y)) <= s * (y * y) + t * (x * x)
  {
    var excess := s * (y * y) + t * (x * x) - 2.0 * (p * (x * y));
    if t == 0.0 {
      SquareZero(p);
      SquareNonNegative(y);
      ProductNonNegative(s, y * y);
    } else {
      assert t * excess == (s * t) * (y * y) + (t * x) * (t * x) - 2.0 * ((p * y) * (t * x));
      SquareNonNegative(p * y - t * x);
      assert (p * y - t * x) * (p * y - t * x) == (p * p) * (y * y) + (t * x) * (t * x) - 2.0 * ((p * y) * (t * x));
      SquareNonNegative(y);
      ProductNonNegative(s * t - p * p, y * y);
      assert (s * t - p * p) * (y * y) == (s * t) * (y * y) - (p * p) * (y * y);
      assert t * excess >= 0.0;
      SignOfFactor(t, excess);
    }
  }

  lemma SquareNonNegative(x: real)
    ensures x * x >= 0.0
  {
  }

  lemma ProductPositive(x: real, y: real)
    requires x > 0.0 && y > 0.0
    ensures x * y > 0.0
  {
  }

  lemma ProductNegative(x: real, y: real)
    requires x > 0.0 && y < 0.0
    ensures x * y < 0.0
  {
  }

  lemma SquareZero(x: real)
    requires x * x <= 0.0
    ensures x == 0.0
  {
    assert (-x) * (-x) == x * x;
    if x > 0.0 {
      SquareStrict(x, 0.0);
    } else if x < 0.0 {
      SquareStrict(-x, 0.0);
    }
  }

  lemma ProductNonNegative(x: real, y: real)
    requires x >= 0.0 && y >= 0.0
    ensures x * y >= 0.0
  {
  }

  lemma SignOfFactor(t: real, e: real)
    requires t > 0.0 && t * e >= 0.0
    ensures e >= 0.0
  {
    if e < 0.0 {
      ProductNegative(t, e);
    }
  }

  lemma SquareStrict(x: real, y: real)
    requires x > y >= 0.0
    ensures x * x > y * y
  {
    ProductPositive(x - y, x + y);
    assert (x - y) * (x + y) == x * x - y * y;
  }

  /** Non-negative numbers are ordered as their squares are. */
  lemma SquareOrder(x: real, y: real)
    requires y >= 0.0 && x * x <= y * y
    ensures -y <= x <= y
  {
    if x > y {
      SquareStrict(x, y);
    } else if x < -y {
      SquareStrict(-x, y);
    }
  }

  lemma SqrtUnique(sqrt: SqrtFn, x: real, r: real)
    requires IsSqrt(sqrt) && r >= 0.0 && r * r == x
    ensures sqrt(x) == r
  {
    SquareNonNegative(r);
    SquareOrder(sqrt(x), r);
    SquareOrder(r, sqrt(x));
  }

  // ------------------------------------------------------------------
  // Cosine similarity
  // ------------------------------------------------------------------

  /** The cosine similarity of any two vectors of one dimension lies in [-1, 1]. */
  lemma CosineBounded(sqrt: SqrtFn, a: Vec, b: Vec)
    requires IsSqrt(sqrt) && |a| == |b|
    ensures -1.0 <= CosineSimilarity(sqrt, a, b) <= 1.0
  {
    hide Dot;
    DotSelfNonNegative(a);
    DotSelfNonNegative(b);
    CauchySchwarz(a, b);
    ProductOfRoots(Dot(a, b), Norm(sqrt, a), Norm(sqrt, b));
    var denom := Norm(sqrt, a) * Norm(sqrt, b);
    if denom >= EPSILON {
      QuotientBounded(Dot(a, b), denom);
    }
  }

  lemma ProductOfRoots(x: real, r: real, s: real)
    requires r >= 0.0 && s >= 0.0 && x * x <= (r * r) * (s * s)
    ensures -(r * s) <= x <= r * s
  {
    ProductNonNegative(r, s);
    assert (r * s) * (r * s) == (r * r) * (s * s);
    SquareOrder(x, r * s);
  }

  lemma QuotientBounded(x: real, y: real)
    requires y > 0.0 && -y <= x <= y
    ensures -1.0 <= x / y <= 1.0
  {
    var q := x / y;
    assert q * y == x;
    if q > 1.0 {
      ProductPositive(q - 1.0, y);
    }
    if q < -1.0 {
      ProductPositive(-1.0 - q, y);
    }
  }

  /** What the similarity is: the dot product over the product of the norms, 0 if that is below epsilon. */
  lemma CosineIs(sqrt: SqrtFn, a: Vec, b: Vec)
    requires |a| == |b|
    ensures var norms, c := Norm(sqrt, a) * Norm(sqrt, b), CosineSimilarity(sqrt, a, b);
            && (norms >= EPSILON ==> c * norms == Dot(a, b))
            && (norms < EPSILON ==> c == 0.0)
  {
    hide Dot, Norm, Quotient;
    QuotientOf(Dot(a, b), Norm(sqrt, a), Norm(sqrt, b));
  }

  lemma QuotientOf(dot: real, r: real, s: real)
    ensures r * s >= EPSILON ==> Quotient(dot, r, s) * (r * s) == dot
    ensures r * s < EPSILON ==> Quotient(dot, r, s) == 0.0
  {
    var denom := r * s;
    if denom >= EPSILON {
      QuotientTimes(dot, denom);
    }
  }

  lemma QuotientTimes(x: real, y: real)
    requires y != 0.0
    ensures x / y * y == x
  {
  }

  /** For unit vectors it is the dot product. */
  lemma CosineOfUnits(sqrt: SqrtFn, a: Vec, b: Vec)
    requires IsSqrt(sqrt) && |a| == |b| && IsUnit(a) && IsUnit(b)
    ensures Norm(sqrt, a) == 1.0 && CosineSimilarity(sqrt, a, b) == Dot(a, b)
  {
    SqrtUnique(sqrt, 1.0, 1.0);
  }

  lemma CosineSymmetric(sqrt: SqrtFn, a: Vec, b: Vec)
    requires |a| == |b|
    ensures CosineSimilarity(sqrt, a, b) == CosineSimilarity(sqrt, b, a)
  {
    DotSymmetric(a, b);
    assert Norm(sqrt, a) * Norm(sqrt, b) == Norm(sqrt, b) * Norm(sqrt, a);
  }

  /** Scaling by a positive factor scales the norm. */
  lemma NormScale(sqrt: SqrtFn, a: Vec, c: real)
    requires IsSqrt(sqrt) && c > 0.0
    ensures Norm(sqrt, Scale(a, c)) == Norm(sqrt, a) * c
  {
    var s, r := Scale(a, c), Norm(sqrt, a);
    DotScale(s, a, c);
    DotSymmetric(s, a);
    DotScale(a, a, c);
    DotSelfNonNegative(a);
    assert Dot(s, s) == Dot(a, a) * c * c;
    assert (r * c) * (r * c) == r * r * c * c;
    ProductNonNegative(r, c);
    SqrtUnique(sqrt, Dot(s, s), r * c);
  }

  /**
    Scaling one side down leaves the cosine similarity as it was, unless it pushes the product of the
    norms below epsilon: then the result is 0, which is a change exactly when the dot product is not 0.
   */
  lemma CosineScaleDown(sqrt: SqrtFn, a: Vec, b: Vec, c: real)
    requires IsSqrt(sqrt) && |a| == |b| && 0.0 < c <= 1.0
    ensures CosineSimilarity(sqrt, a, Scale(b, c)) == CosineSimilarity(sqrt, a, b)
            <==> || Dot(a, b) == 0.0
                 || Norm(sqrt, a) * Norm(sqrt, b) * c >= EPSILON
                 || Norm(sqrt, a) * Norm(sqrt, b) < EPSILON
  {
    hide Dot, Norm, IsSqrt, Scale, Quotient;
    NormScale(sqrt, b, c);
    DotScale(a, b, c);
    NormNonNegative(sqrt, a);
    NormNonNegative(sqrt, b);
    ScaledQuotient(Dot(a, b), Dot(a, Scale(b, c)), Norm(sqrt, a), Norm(sqrt, b), Norm(sqrt, Scale(b, c)), c);
  }

  lemma NormNonNegative(sqrt: SqrtFn, a: Vec)
    requires IsSqrt(sqrt)
    ensures Norm(sqrt, a) >= 0.0
  {
    DotSelfNonNegative(a);
  }

  lemma ScaledQuotient(dot: real, dot': real, r: real, s: real, s': real, c: real)
    requires r >= 0.0 && s >= 0.0 && 0.0 < c <= 1.0
    requires dot' == dot * c && s' == s * c
    ensures Quotient(dot', r, s') == Quotient(dot, r, s) <==> dot == 0.0 || r * s * c >= EPSILON || r * s < EPSILON
  {
    var denom := r * s;
    assert r * s' == denom * c;
    ProductNonNegative(r, s);
    ShrinkProduct(denom, c);
    if denom * c >= EPSILON {
      CancelFactor(dot, denom, c);
    } else if denom >= EPSILON {
      QuotientZero(dot, denom);
    }
  }

  lemma ShrinkProduct(x: real, c: real)
    requires x >= 0.0 && 0.0 < c <= 1.0
    ensures x * c <= x
  {
  }

  lemma CancelFactor(x: real, y: real, c: real)
    requires y > 0.0 && c > 0.0
    ensures y * c != 0.0 && (x * c) / (y * c) == x / y
  {
    ProductPositive(y, c);
    var q := x / y;
    assert q * y == x;
    assert q * (y * c) == x * c;
    QuotientIs(x * c, y * c, q);
  }

  lemma QuotientIs(x: real, y: real, q: real)
    requires y > 0.0 && q * y == x
    ensures x / y == q
  {
  }

  lemma QuotientZero(x: real, y: real)
    requires y > 0.0
    ensures x / y == 0.0 <==> x == 0.0
  {
    var q := x / y;
    assert q * y == x;
  }
}
