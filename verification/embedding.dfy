/**
  The arithmetic behind an embedding: masked mean pooling, truncation, L2 normalisation and int8
  quantisation (`src/embedding/backend.rs`, `src/embedding/engine.rs`), over the reals.
 */
module Embedding {
  import opened Wrappers
  import opened Vectors

  type Int8 = x: int | -128 <= x <= 127

  datatype EmbeddingOutput = Float32(v: Vec) | Quantized(q: seq<Int8>) {
    /** `to_f32`. */
    function ToF32(): Vec {
      match this
      case Float32(v) => v
      case Quantized(q) => seq(|q|, i requires 0 <= i < |q| => q[i] as real / 127.0)
    }
  }

  datatype OutputPrecision = FullPrecision | Int8Precision

  datatype EmbeddingError = DimensionMismatch(expected: nat, got: nat)

  /** `f32::round`: to the nearest integer, halves away from zero. */
  function Round(x: real): (n: int)
    ensures -0.5 <= x - n as real <= 0.5
    ensures x == x.Floor as real ==> n == x.Floor
    ensures x - n as real == 0.5 ==> x < 0.0
    ensures x - n as real == -0.5 ==> x > 0.0
  {
    if x >= 0.0 then (x + 0.5).Floor else -((-x + 0.5).Floor)
  }

  function Clamp(n: int): Int8 {
    if n < -128 then -128 else if n > 127 then 127 else n
  }

  function QuantizeOne(x: real): Int8 {
    Clamp(Round(x * 127.0))
  }

  /** `quantize_int8`. */
  function Quantize(v: Vec): (q: seq<Int8>)
    ensures |q| == |v|
  {
    seq(|v|, i requires 0 <= i < |v| => QuantizeOne(v[i]))
  }

  /** `l2_normalize`. */
  function Normalize(sqrt: SqrtFn, v: Vec): (r: Vec)
    ensures |r| == |v|
  {
    var norm := Norm(sqrt, v);
    if norm < EPSILON then Zeros(|v|) else Divide(v, norm)
  }

  /** The last three steps of `embed_raw`: truncate, normalise, quantise. */
  function Finish(sqrt: SqrtFn, full: Vec, dim: nat, precision: OutputPrecision)
    : Fallible<EmbeddingOutput, EmbeddingError>
  {
    if |full| < dim then Err(DimensionMismatch(dim, |full|))
    else
      var normalized := Normalize(sqrt, full[..dim]);
      Ok(match precision
         case FullPrecision => Float32(normalized)
         case Int8Precision => Quantized(Quantize(normalized)))
  }

  // ------------------------------------------------------------------
  // Normalisation
  // ------------------------------------------------------------------

  /** The normalised vector has length one, or is zero when the norm was below epsilon. */
  lemma NormalizedIsUnit(sqrt: SqrtFn, v: Vec)
    requires IsSqrt(sqrt)
    ensures var r := Normalize(sqrt, v);
            if Norm(sqrt, v) < EPSILON then r == Zeros(|v|) && Dot(r, r) == 0.0
            else Dot(r, r) == 1.0 && Norm(sqrt, r) == 1.0
  {
    var norm := Norm(sqrt, v);
    if norm < EPSILON {
      DotZeros(|v|);
    } else {
      var r, c := Divide(v, norm), 1.0 / norm;
      DivideIsScale(v, norm);
      DotScale(r, v, c);
      DotSymmetric(r, v);
      DotScale(v, v, c);
      DotSelfNonNegative(v);
      SquareOfReciprocal(norm);
      assert Dot(r, r) == (norm * norm) * (c * c);
      SqrtUnique(sqrt, 1.0, 1.0);
    }
  }

  lemma SquareOfReciprocal(x: real)
    requires x > 0.0
    ensures (x * x) * ((1.0 / x) * (1.0 / x)) == 1.0
  {
    var c := 1.0 / x;
    assert c * x == 1.0;
    assert (x * x) * (c * c) == (c * x) * (c * x);
  }

  lemma {:induction false} DotZeros(n: nat)
    ensures Dot(Zeros(n), Zeros(n)) == 0.0
  {
    if n > 0 {
      assert Zeros(n)[..n - 1] == Zeros(n - 1);
      DotZeros(n - 1);
    }
  }

  /** Normalising keeps the direction: scaled by the norm, the result is the vector itself. */
  lemma NormalizeKeepsDirection(sqrt: SqrtFn, v: Vec, i: nat)
    requires i < |v| && Norm(sqrt, v) >= EPSILON
    ensures Normalize(sqrt, v)[i] * Norm(sqrt, v) == v[i]
  {
    hide Norm;
  }

  lemma NormalizedVector(sqrt: SqrtFn, v: Vec)
    requires IsSqrt(sqrt)
    ensures var r := Normalize(sqrt, v);
            if Norm(sqrt, v) < EPSILON then r == Zeros(|v|)
            else Dot(r, r) == 1.0 && forall i :: 0 <= i < |v| ==> r[i] * Norm(sqrt, v) == v[i]
  {
    hide Dot, Norm, Normalize, IsSqrt;
    NormalizedIsUnit(sqrt, v);
    if Norm(sqrt, v) >= EPSILON {
      forall i | 0 <= i < |v|
        ensures Normalize(sqrt, v)[i] * Norm(sqrt, v) == v[i]
      {
        NormalizeKeepsDirection(sqrt, v, i);
      }
    }
  }

  /** Normalising twice changes nothing. */
  lemma NormalizeIdempotent(sqrt: SqrtFn, v: Vec)
    requires IsSqrt(sqrt)
    ensures Normalize(sqrt, Normalize(sqrt, v)) == Normalize(sqrt, v)
  {
    var r := Normalize(sqrt, v);
    NormalizedIsUnit(sqrt, v);
    if Norm(sqrt, v) < EPSILON {
      SqrtUnique(sqrt, 0.0, 0.0);
    } else {
      assert Divide(r, 1.0) == r;
    }
  }

  lemma {:induction false} ComponentBounded(v: Vec, i: nat)
    requires i < |v|
    ensures v[i] * v[i] <= Dot(v, v)
  {
    var n := |v| - 1;
    DotSelfNonNegative(v[..n]);
    SquareNonNegative(v[n]);
    if i < n {
      ComponentBounded(v[..n], i);
    }
  }

  lemma NormalizedComponents(sqrt: SqrtFn, v: Vec, i: nat)
    requires IsSqrt(sqrt) && i < |v|
    ensures -1.0 <= Normalize(sqrt, v)[i] <= 1.0
  {
    NormalizedIsUnit(sqrt, v);
    var r := Normalize(sqrt, v);
    ComponentBounded(r, i);
    SquareOrder(r[i], 1.0);
  }

  // ------------------------------------------------------------------
  // Quantisation
  // ------------------------------------------------------------------

  /** Quantising a dequantised int8 vector returns the same vector, for all 256 values. */
  lemma QuantizeInvertsDequantize(q: seq<Int8>)
    ensures Quantize(Quantized(q).ToF32()) == q
  {
    var v := Quantized(q).ToF32();
    forall i | 0 <= i < |q|
      ensures Quantize(v)[i] == q[i]
    {
      assert v[i] * 127.0 == q[i] as real;
    }
  }

  /** Within [-1, 1] the clamp never fires and the rounding error is at most 1/254. */
  lemma QuantizeOneError(x: real)
    requires -1.0 <= x <= 1.0
    ensures QuantizeOne(x) == Round(x * 127.0) && -127 <= QuantizeOne(x) <= 127
    ensures -1.0 / 254.0 <= QuantizeOne(x) as real / 127.0 - x <= 1.0 / 254.0
  {
    var n := Round(x * 127.0);
    assert -127.0 <= x * 127.0 <= 127.0;
    assert -127.5 <= n as real <= 127.5;
    assert n as real / 127.0 - x == (n as real - x * 127.0) / 127.0;
  }

  /** The clamp fires exactly outside [-128.5, 127.5) / 127, and then saturates. */
  lemma ClampFiresIff(x: real)
    ensures QuantizeOne(x) != Round(x * 127.0) <==> x * 127.0 <= -128.5 || x * 127.0 >= 127.5
    ensures x * 127.0 >= 127.5 ==> QuantizeOne(x) == 127
    ensures x * 127.0 <= -128.5 ==> QuantizeOne(x) == -128
  {
  }

  function Sub(a: Vec, b: Vec): Vec
    requires |a| == |b|
  {
    seq(|a|, i requires 0 <= i < |a| => a[i] - b[i])
  }

  lemma {:induction false} DotSub(a: Vec, b: Vec, c: Vec)
    requires |a| == |b| == |c|
    ensures Dot(Sub(a, b), c) == Dot(a, c) - Dot(b, c)
  {
    if a != [] {
      var n := |a| - 1;
      assert Sub(a, b)[..n] == Sub(a[..n], b[..n]);
      DotSub(a[..n], b[..n], c[..n]);
      assert (a[n] - b[n]) * c[n] == a[n] * c[n] - b[n] * c[n];
    }
  }

  lemma {:induction false} SmallErrors(v: Vec, bound: real)
    requires bound >= 0.0 && forall i :: 0 <= i < |v| ==> -bound <= v[i] <= bound
    ensures Dot(v, v) <= |v| as real * (bound * bound)
  {
    if v != [] {
      var n := |v| - 1;
      SmallErrors(v[..n], bound);
      SquareBound(v[n], bound);
      assert |v| as real * (bound * bound) == n as real * (bound * bound) + bound * bound;
    }
  }

  lemma SquareBound(x: real, b: real)
    requires -b <= x <= b
    ensures x * x <= b * b
  {
    ProductNonNegative(b - x, b + x);
    assert (b - x) * (b + x) == b * b - x * x;
  }

  /**
    Replacing a normalised vector by its int8 version changes each component by at most 1/254, and a
    dot product with any `b` of dimension d by at most sqrt(d) * |b| / 254.
   */
  lemma QuantizationDrift(sqrt: SqrtFn, full: Vec, b: Vec)
    requires IsSqrt(sqrt) && |full| == |b|
    ensures var v := Normalize(sqrt, full);
            var w := Quantized(Quantize(v)).ToF32();
            && |w| == |v|
            && (forall i :: 0 <= i < |v| ==> -1.0 / 254.0 <= w[i] - v[i] <= 1.0 / 254.0)
            && var drift := Dot(w, b) - Dot(v, b);
               var bound := sqrt(|b| as real) * Norm(sqrt, b) / 254.0;
               -bound <= drift <= bound
  {
    hide Normalize, Dot, Norm;
    var v := Normalize(sqrt, full);
    forall i | 0 <= i < |v|
      ensures -1.0 / 254.0 <= QuantizeOne(v[i]) as real / 127.0 - v[i] <= 1.0 / 254.0
    {
      NormalizedComponents(sqrt, full, i);
      QuantizeOneError(v[i]);
    }
    DriftIsBounded(sqrt, v, Quantized(Quantize(v)).ToF32(), b);
  }

  /** A componentwise error of at most 1/254, lifted to dot products. */
  lemma DriftIsBounded(sqrt: SqrtFn, v: Vec, w: Vec, b: Vec)
    requires IsSqrt(sqrt) && |v| == |w| == |b|
    requires forall i :: 0 <= i < |v| ==> -1.0 / 254.0 <= w[i] - v[i] <= 1.0 / 254.0
    ensures var drift := Dot(w, b) - Dot(v, b);
            var bound := sqrt(|b| as real) * Norm(sqrt, b) / 254.0;
            -bound <= drift <= bound
  {
    hide Dot, IsSqrt, Sub;
    var error := Sub(w, v);
    SubAt(w, v);
    SmallErrors(error, 1.0 / 254.0);
    DotSub(w, v, b);
    CauchySchwarz(error, b);
    DotSelfNonNegative(b);
    BoundFromCauchy(sqrt, |b| as real, Dot(error, error), Dot(b, b), Dot(w, b) - Dot(v, b));
  }

  lemma SubAt(a: Vec, b: Vec)
    requires |a| == |b|
    ensures |Sub(a, b)| == |a| && forall i :: 0 <= i < |a| ==> Sub(a, b)[i] == a[i] - b[i]
  {
  }

  lemma BoundFromCauchy(sqrt: SqrtFn, d: real, ee: real, bb: real, drift: real)
    requires IsSqrt(sqrt) && d >= 0.0 && bb >= 0.0
    requires ee <= d * (1.0 / 254.0 * (1.0 / 254.0)) && drift * drift <= ee * bb
    ensures var bound := sqrt(d) * sqrt(bb) / 254.0; -bound <= drift <= bound
  {
    hide IsSqrt;
    ProductMonotone(ee, d * (1.0 / 254.0 * (1.0 / 254.0)), bb);
    BoundFromSquare(sqrt, d, bb, drift);
  }

  lemma BoundFromSquare(sqrt: SqrtFn, d: real, bb: real, drift: real)
    requires IsSqrt(sqrt) && d >= 0.0 && bb >= 0.0
    requires drift * drift <= (d * (1.0 / 254.0 * (1.0 / 254.0))) * bb
    ensures var bound := sqrt(d) * sqrt(bb) / 254.0; -bound <= drift <= bound
  {
    var r, s := sqrt(d), sqrt(bb);
    var bound := r * s / 254.0;
    ProductNonNegative(r, s);
    SquareOfProduct(r, s);
    assert (d * (1.0 / 254.0 * (1.0 / 254.0))) * bb == d * bb / 64516.0;
    assert bound * bound == d * bb / 64516.0;
    SquareOrder(drift, bound);
  }

  lemma SquareOfProduct(r: real, s: real)
    ensures (r * s / 254.0) * (r * s / 254.0) == (r * r) * (s * s) / 64516.0
  {
  }

  lemma ProductMonotone(x: real, y: real, z: real)
    requires x <= y && z >= 0.0
    ensures x * z <= y * z
  {
    ProductNonNegative(y - x, z);
    assert (y - x) * z == y * z - x * z;
  }

  /**
    Both precisions have the configured dimension and differ by at most 1/254 in each component; the
    float one has length 1 and the direction of the first `dim` components, or is zero when the norm of
    those was below epsilon.
   */
  lemma FinishPrecisions(sqrt: SqrtFn, full: Vec, dim: nat)
    requires IsSqrt(sqrt)
    ensures var float, int8 := Finish(sqrt, full, dim, FullPrecision), Finish(sqrt, full, dim, Int8Precision);
            if |full| < dim then float == int8 == Err(DimensionMismatch(dim, |full|))
            else
              && float.Ok? && int8.Ok?
              && |float.value.ToF32()| == |int8.value.ToF32()| == dim
              && (if Norm(sqrt, full[..dim]) < EPSILON then float.value.ToF32() == Zeros(dim)
                  else
                    && Dot(float.value.ToF32(), float.value.ToF32()) == 1.0
                    && forall i :: 0 <= i < dim ==> float.value.ToF32()[i] * Norm(sqrt, full[..dim]) == full[i])
              && forall i :: 0 <= i < dim ==>
                   -1.0 / 254.0 <= int8.value.ToF32()[i] - float.value.ToF32()[i] <= 1.0 / 254.0
  {
    hide Dot, Norm, Normalize, Quantize, IsSqrt;
    if dim <= |full| {
      NormalizedVector(sqrt, full[..dim]);
      QuantizationDrift(sqrt, full[..dim], Zeros(dim));
    }
  }

  // ------------------------------------------------------------------
  // Masked mean pooling
  // ------------------------------------------------------------------

  function MaskSum(mask: seq<nat>): real {
    if mask == [] then 0.0 else MaskSum(mask[..|mask| - 1]) + mask[|mask| - 1] as real
  }

  /** A value under its mask. */
  function Weighted(x: real, w: nat): real {
    x * w as real
  }

  /** The hidden states of the tokens, one row a token. */
  function MaskedSum(rows: seq<Vec>, mask: seq<nat>, d: nat): real
    requires |rows| == |mask| && forall t :: 0 <= t < |rows| ==> d < |rows[t]|
  {
    if rows == [] then 0.0
    else
      var n := |rows| - 1;
      MaskedSum(rows[..n], mask[..n], d) + Weighted(rows[n][d], mask[n])
  }

  function Pooled(rows: seq<Vec>, mask: seq<nat>, d: nat): real
    requires |rows| == |mask| && forall t :: 0 <= t < |rows| ==> d < |rows[t]|
  {
    if MaskSum(mask) > EPSILON then MaskedSum(rows, mask, d) / MaskSum(mask) else MaskedSum(rows, mask, d)
  }

  /** The fallback pooling of `embed_raw`, in place. */
  method MeanPool(rows: seq<Vec>, mask: seq<nat>, hidden: nat) returns (pooled: array<real>)
    requires |rows| == |mask| && forall t :: 0 <= t < |rows| ==> |rows[t]| == hidden
    ensures fresh(pooled) && pooled.Length == hidden
    ensures forall d :: 0 <= d < hidden ==> pooled[d] == Pooled(rows, mask, d)
  {
    pooled := new real[hidden](_ => 0.0);
    var maskSum := 0.0;
    for t := 0 to |rows|
      invariant maskSum == MaskSum(mask[..t])
      invariant forall d :: 0 <= d < hidden ==> pooled[d] == MaskedSum(rows[..t], mask[..t], d)
    {
      var maskVal := mask[t] as real;
      assert mask[..t + 1][..t] == mask[..t] && rows[..t + 1][..t] == rows[..t];
      maskSum := maskSum + maskVal;
      for d := 0 to hidden
        invariant forall c :: 0 <= c < d ==> pooled[c] == MaskedSum(rows[..t + 1], mask[..t + 1], c)
        invariant forall c :: d <= c < hidden ==> pooled[c] == MaskedSum(rows[..t], mask[..t], c)
      {
        pooled[d] := pooled[d] + rows[t][d] * maskVal;
      }
    }
    assert mask[..|mask|] == mask && rows[..|rows|] == rows;
    if maskSum > EPSILON {
      for d := 0 to hidden
        invariant forall c :: 0 <= c < d ==> pooled[c] == Pooled(rows, mask, c)
        invariant forall c :: d <= c < hidden ==> pooled[c] == MaskedSum(rows, mask, c)
      {
        pooled[d] := pooled[d] / maskSum;
      }
    }
  }

  /** Sums of masked values add up over groups of tokens; a single token counts with its value times its mask. */
  lemma {:induction false} PoolingAdds(rows: seq<Vec>, mask: seq<nat>, more: seq<Vec>, moreMask: seq<nat>, d: nat)
    requires |rows| == |mask| && |more| == |moreMask|
    requires forall t :: 0 <= t < |rows| ==> d < |rows[t]|
    requires forall t :: 0 <= t < |more| ==> d < |more[t]|
    ensures MaskSum(mask + moreMask) == MaskSum(mask) + MaskSum(moreMask)
    ensures MaskedSum(rows + more, mask + moreMask, d) == MaskedSum(rows, mask, d) + MaskedSum(more, moreMask, d)
    ensures |more| == 1 ==> MaskSum(moreMask) == moreMask[0] as real
                            && MaskedSum(more, moreMask, d) == more[0][d] * moreMask[0] as real
  {
    hide MaskSum, MaskedSum;
    LastRow(more, moreMask, d);
    if more == [] {
      assert mask + moreMask == mask && rows + more == rows;
    } else {
      var n := |more| - 1;
      PoolingAdds(rows, mask, more[..n], moreMask[..n], d);
      LastRow(rows + more, mask + moreMask, d);
      LastRow(more[..n], moreMask[..n], d);
      assert (mask + moreMask)[..|mask| + n] == mask + moreMask[..n];
      assert (rows + more)[..|rows| + n] == rows + more[..n];
    }
  }

  lemma {:induction false} PaddingIsZero(padding: seq<Vec>, zeros: seq<nat>, d: nat)
    requires |padding| == |zeros|
    requires forall t :: 0 <= t < |padding| ==> d < |padding[t]| && zeros[t] == 0
    ensures MaskSum(zeros) == 0.0 && MaskedSum(padding, zeros, d) == 0.0
  {
    if padding != [] {
      var n := |padding| - 1;
      PaddingIsZero(padding[..n], zeros[..n], d);
    }
  }

  /** Padding tokens, whose mask is 0, do not influence the pooled embedding. */
  lemma PoolingIgnoresPadding(rows: seq<Vec>, mask: seq<nat>, padding: seq<Vec>, zeros: seq<nat>, d: nat)
    requires |rows| == |mask| && |padding| == |zeros|
    requires forall t :: 0 <= t < |rows| ==> d < |rows[t]|
    requires forall t :: 0 <= t < |padding| ==> d < |padding[t]| && zeros[t] == 0
    ensures Pooled(rows + padding, mask + zeros, d) == Pooled(rows, mask, d)
  {
    hide MaskSum, MaskedSum;
    PoolingAdds(rows, mask, padding, zeros, d);
    PaddingIsZero(padding, zeros, d);
  }

  /** `sum` is what weights of the given total make of values between `lo` and `hi`. */
  predicate Between(lo: real, hi: real, weights: real, sum: real) {
    lo * weights <= sum <= hi * weights
  }

  lemma {:induction false} MaskedSumBounded(rows: seq<Vec>, mask: seq<nat>, d: nat, lo: real, hi: real)
    requires |rows| == |mask| && forall t :: 0 <= t < |rows| ==> d < |rows[t]|
    requires forall t :: 0 <= t < |rows| && mask[t] > 0 ==> lo <= rows[t][d] <= hi
    ensures Between(lo, hi, MaskSum(mask), MaskedSum(rows, mask, d))
  {
    hide Between, MaskSum, MaskedSum;
    LastRow(rows, mask, d);
    if rows == [] {
      NothingBetween(lo, hi);
    } else {
      var n := |rows| - 1;
      MaskedSumBounded(rows[..n], mask[..n], d, lo, hi);
      WeightedStep(lo, hi, MaskSum(mask[..n]), MaskedSum(rows[..n], mask[..n], d), rows[n][d], mask[n]);
    }
  }

  lemma LastRow(rows: seq<Vec>, mask: seq<nat>, d: nat)
    requires |rows| == |mask| && forall t :: 0 <= t < |rows| ==> d < |rows[t]|
    ensures rows == [] ==> MaskSum(mask) == 0.0 && MaskedSum(rows, mask, d) == 0.0
    ensures rows != [] ==>
              var n := |rows| - 1;
              && MaskSum(mask) == MaskSum(mask[..n]) + mask[n] as real
              && MaskedSum(rows, mask, d) == MaskedSum(rows[..n], mask[..n], d) + Weighted(rows[n][d], mask[n])
  {
  }

  lemma NothingBetween(lo: real, hi: real)
    ensures Between(lo, hi, 0.0, 0.0)
  {
  }

  lemma WeightedStep(lo: real, hi: real, weights: real, sum: real, x: real, w: nat)
    requires Between(lo, hi, weights, sum) && (w > 0 ==> lo <= x <= hi)
    ensures Between(lo, hi, weights + w as real, sum + Weighted(x, w))
  {
    if w > 0 {
      ProductMonotone(lo, x, w as real);
      ProductMonotone(x, hi, w as real);
      Distribute(lo, weights, w as real);
      Distribute(hi, weights, w as real);
    }
  }

  lemma Distribute(x: real, y: real, z: real)
    ensures x * (y + z) == x * y + x * z
  {
  }

  /** Tokens that are all masked out pool to zero; otherwise the pooled value times the mask sum is the masked sum. */
  lemma PooledScales(rows: seq<Vec>, mask: seq<nat>, d: nat)
    requires |rows| == |mask| && forall t :: 0 <= t < |rows| ==> d < |rows[t]|
    ensures (forall t :: 0 <= t < |mask| ==> mask[t] == 0) ==> Pooled(rows, mask, d) == 0.0
    ensures Pooled(rows, mask, d) * MaskSum(mask) == MaskedSum(rows, mask, d) || MaskSum(mask) <= EPSILON
  {
    hide MaskSum, MaskedSum;
    if forall t :: 0 <= t < |mask| ==> mask[t] == 0 {
      PaddingIsZero(rows, mask, d);
    }
    if MaskSum(mask) > EPSILON {
      QuotientTimes(MaskedSum(rows, mask, d), MaskSum(mask));
    }
  }

  /** The pooled value is a mean: it lies between any bounds on the values that are not masked out. */
  lemma PooledIsMean(rows: seq<Vec>, mask: seq<nat>, d: nat, lo: real, hi: real)
    requires |rows| == |mask| && forall t :: 0 <= t < |rows| ==> d < |rows[t]|
    requires forall t :: 0 <= t < |rows| && mask[t] > 0 ==> lo <= rows[t][d] <= hi
    requires MaskSum(mask) > EPSILON
    ensures lo <= Pooled(rows, mask, d) <= hi
  {
    MaskedSumBounded(rows, mask, d, lo, hi);
    QuotientBetween(MaskedSum(rows, mask, d), MaskSum(mask), lo, hi);
  }

  lemma QuotientBetween(x: real, y: real, lo: real, hi: real)
    requires y > 0.0 && lo * y <= x <= hi * y
    ensures lo <= x / y <= hi
  {
    var q := x / y;
    assert q * y == x;
    assert (lo - q) * y == lo * y - q * y && (q - hi) * y == q * y - hi * y;
    if q < lo {
      ProductPositive(lo - q, y);
    }
    if q > hi {
      ProductPositive(q - hi, y);
    }
  }
}
