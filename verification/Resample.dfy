// Nearest-neighbour resampling and its gradient, over exact reals.
module Resample {
  import opened Arithmetic

  // NearestIndexOp and NearestBwIndexOp, or the "exact" pair that samples at pixel
  // centres.
  datatype Variant = Plain | Exact

  function Half(v: Variant): real
  {
    if v.Exact? then 0.5 else 0.0
  }

  datatype Scale = Unset | Given(factor: real)

  predicate Usable(scale: Scale)
  {
    scale.Given? && scale.factor > 0.0
  }

  // compute_scales_value: input pixels per output pixel.
  function ForwardScale(scale: Scale, src: nat, dst: nat): (s: real)
    requires src > 0 && dst > 0
    ensures s > 0.0
  {
    if Usable(scale) then 1.0 / scale.factor else src as real / dst as real
  }

  // compute_scales_value_backwards, called with the two sizes exchanged.
  function BackwardScale(scale: Scale, src: nat, dst: nat): (s: real)
    requires src > 0 && dst > 0
    ensures s > 0.0
  {
    if Usable(scale) then scale.factor else src as real / dst as real
  }

  // The position of output pixel `dst` in the input, before it is clamped.
  function SourcePixel(v: Variant, scale: real, dst: nat): int
  {
    ((dst as real + Half(v)) * scale).Floor
  }

  // The input pixel that output pixel `dst` copies.
  function NearestIndex(v: Variant, scale: real, dst: nat, inputSize: nat): int
  {
    Min(SourcePixel(v, scale, dst), inputSize - 1)
  }

  // An output pixel copies the input pixel that contains its sampling point, or the last
  // one if that lies beyond the input.  The point is the pixel's left edge in the plain
  // variant and its centre in the exact one; one output pixel is as wide as inSize /
  // outSize input pixels, or as 1 / factor for a given factor.
  lemma NearestContainsSample(v: Variant, scale: Scale, inSize: nat, outSize: nat, d: nat)
    requires inSize > 0 && outSize > 0
    ensures var width := ForwardScale(scale, inSize, outSize);
            var sample := width * if v == Exact then d as real + 0.5 else d as real;
            var i := NearestIndex(v, width, d, inSize);
            && (if scale.Given? && scale.factor > 0.0 then width * scale.factor == 1.0 else width * outSize as real == inSize as real)
            && if sample < inSize as real then i as real <= sample < i as real + 1.0 else i == inSize - 1
  {
    var width := ForwardScale(scale, inSize, outSize);
    assert width * (d as real + Half(v)) == (d as real + Half(v)) * width;
  }

  // So doubling the size copies each pixel twice, and halving it takes the left one of two
  // pixels, or the right one in the exact variant, whose centre lies on its edge.
  lemma DoubleAndHalve(v: Variant, n: nat, d: nat)
    requires n > 0
    ensures d < 2 * n ==> NearestIndex(v, ForwardScale(Unset, n, 2 * n), d, n) == d / 2
    ensures d < n ==> NearestIndex(v, ForwardScale(Unset, 2 * n, n), d, 2 * n) == if v == Exact then 2 * d + 1 else 2 * d
  {
    var up, down := ForwardScale(Unset, n, 2 * n), ForwardScale(Unset, 2 * n, n);
    HalfAndTwo(n as real, up, down);
    NearestContainsSample(v, Unset, n, 2 * n, d);
    NearestContainsSample(v, Unset, 2 * n, n, d);
    hide ForwardScale, NearestIndex;
  }

  lemma HalfAndTwo(n: real, up: real, down: real)
    requires n > 0.0 && up == n / (2.0 * n) && down == 2.0 * n / n
    ensures up == 0.5 && down == 2.0
  {
  }

  // The first output pixel whose gradient goes to input pixel i or a later one.
  function NearestBwIndex(v: Variant, scale: real, i: nat, outputSize: nat): int
  {
    Min(Ceil(i as real * scale - Half(v)), outputSize)
  }

  // ---- Scaling back and forth ----

  lemma ScalesInverse(scale: Scale, inSize: nat, outSize: nat)
    requires inSize > 0 && outSize > 0
    ensures ForwardScale(scale, inSize, outSize) * BackwardScale(scale, outSize, inSize) == 1.0
  {
    if !Usable(scale) {
      var a, b := inSize as real, outSize as real;
      var x, y := a / b, b / a;
      assert x * b == a && y * a == b;
      assert (x * y - 1.0) * a == 0.0;
    }
  }

  // x reaches the threshold t after scaling exactly when it reaches t scaled back.
  lemma ScaleCompare(x: real, t: real, f: real, s: real)
    requires f > 0.0 && s > 0.0 && f * s == 1.0
    ensures x * f >= t <==> x >= t * s
  {
    if x >= t * s {
      ScaleUp(t * s, x, f);
      assert t * s * f == t * (f * s);
    }
    if x * f >= t {
      ScaleUp(t, x * f, s);
      assert x * f * s == x * (f * s);
    }
  }

  lemma ScaleUp(a: real, b: real, f: real)
    requires f > 0.0 && a <= b
    ensures a * f <= b * f
  {
    assert (b - a) * f >= 0.0;
  }

  lemma FloorAtLeast(x: real, k: int)
    ensures x.Floor >= k <==> x >= k as real
  {
  }

  lemma CeilAtMost(x: real, k: int)
    ensures Ceil(x) <= k <==> x <= k as real
  {
    FloorAtLeast(-x, -k);
  }

  // Output pixel d starts no earlier than the interval of i exactly when the
  // unclamped forward index of d is at least i.
  lemma StartsBefore(v: Variant, f: real, s: real, d: nat, i: nat, outSize: nat)
    requires f > 0.0 && s > 0.0 && f * s == 1.0 && d < outSize
    ensures NearestBwIndex(v, s, i, outSize) <= d <==> SourcePixel(v, f, d) >= i
  {
    CeilAtMost(i as real * s - Half(v), d);
    ScaleCompare(d as real + Half(v), i as real, f, s);
    FloorAtLeast((d as real + Half(v)) * f, i);
  }

  predicate InInterval(v: Variant, s: real, outSize: nat, i: nat, d: nat)
  {
    NearestBwIndex(v, s, i, outSize) <= d < NearestBwIndex(v, s, i + 1, outSize)
  }

  lemma ClampedIndex(k: int, n: nat, i: nat)
    requires i < n
    ensures k >= i && !(k >= i + 1) <==> Min(k, n - 1) == i && k < n
  {
  }

  // The interval of input pixel i holds the output pixels that copy it, except those
  // that only copy it because their index was clamped to the last pixel.
  lemma IntervalIsFibre(v: Variant, f: real, s: real, inSize: nat, outSize: nat, i: nat, d: nat)
    requires f > 0.0 && s > 0.0 && f * s == 1.0 && i < inSize && d < outSize
    ensures InInterval(v, s, outSize, i, d)
            <==> NearestIndex(v, f, d, inSize) == i && SourcePixel(v, f, d) < inSize
  {
    StartsBefore(v, f, s, d, i, outSize);
    StartsBefore(v, f, s, d, i + 1, outSize);
    hide NearestBwIndex, SourcePixel, Min;
    ClampedIndex(SourcePixel(v, f, d), inSize, i);
  }

  // No output pixel is clamped.
  predicate Unclamped(v: Variant, scale: Scale, inSize: nat, outSize: nat)
    requires inSize > 0 && outSize > 0
  {
    (outSize - 1) as real + Half(v) < inSize as real * BackwardScale(scale, outSize, inSize)
  }

  lemma SourcePixelBelow(v: Variant, f: real, s: real, d: nat, n: nat)
    requires f > 0.0 && s > 0.0 && f * s == 1.0
    ensures SourcePixel(v, f, d) < n <==> d as real + Half(v) < n as real * s
  {
    FloorAtLeast((d as real + Half(v)) * f, n);
    ScaleCompare(d as real + Half(v), n as real, f, s);
  }

  lemma UnclampedBelow(v: Variant, scale: Scale, inSize: nat, outSize: nat, d: nat)
    requires inSize > 0 && outSize > 0 && d < outSize && (Unclamped(v, scale, inSize, outSize) || d == outSize - 1)
    ensures SourcePixel(v, ForwardScale(scale, inSize, outSize), d) < inSize <==> Unclamped(v, scale, inSize, outSize)
  {
    ScalesInverse(scale, inSize, outSize);
    hide ForwardScale, BackwardScale, SourcePixel, Half;
    SourcePixelBelow(v, ForwardScale(scale, inSize, outSize), BackwardScale(scale, outSize, inSize), d, inSize);
  }

  lemma NearestIndexInRange(v: Variant, f: real, d: nat, inSize: nat)
    requires f > 0.0 && inSize > 0
    ensures 0 <= NearestIndex(v, f, d, inSize) < inSize
  {
    ScaleUp(0.0, d as real + Half(v), f);
    FloorAtLeast((d as real + Half(v)) * f, 0);
  }

  ghost predicate Fibres(v: Variant, scale: Scale, inSize: nat, outSize: nat)
    requires inSize > 0 && outSize > 0
  {
    forall i, d :: 0 <= i < inSize && 0 <= d < outSize ==>
      (InInterval(v, BackwardScale(scale, outSize, inSize), outSize, i, d)
       <==> NearestIndex(v, ForwardScale(scale, inSize, outSize), d, inSize) == i)
  }

  // The intervals of the gradient are the fibres of the forward map exactly when the
  // scale does not push an output pixel beyond the input ...
  lemma FibresIffUnclamped(v: Variant, scale: Scale, inSize: nat, outSize: nat)
    requires inSize > 0 && outSize > 0
    ensures Fibres(v, scale, inSize, outSize) <==> Unclamped(v, scale, inSize, outSize)
  {
    var f, s := ForwardScale(scale, inSize, outSize), BackwardScale(scale, outSize, inSize);
    ScalesInverse(scale, inSize, outSize);
    hide ForwardScale, BackwardScale, SourcePixel, NearestIndex, InInterval;
    if Unclamped(v, scale, inSize, outSize) {
      forall i, d | 0 <= i < inSize && 0 <= d < outSize
        ensures InInterval(v, s, outSize, i, d) <==> NearestIndex(v, f, d, inSize) == i
      {
        IntervalIsFibre(v, f, s, inSize, outSize, i, d);
        UnclampedBelow(v, scale, inSize, outSize, d);
      }
    } else {
      var d := outSize - 1;
      var i := NearestIndex(v, f, d, inSize);
      NearestIndexInRange(v, f, d, inSize);
      UnclampedBelow(v, scale, inSize, outSize, d);
      IntervalIsFibre(v, f, s, inSize, outSize, i, d);
      assert !InInterval(v, s, outSize, i, d);
    }
  }

  // ... which never happens without a user-given scale.
  lemma DefaultScaleUnclamped(v: Variant, scale: Scale, inSize: nat, outSize: nat)
    requires inSize > 0 && outSize > 0 && !Usable(scale)
    ensures Unclamped(v, scale, inSize, outSize)
  {
    var a, b := inSize as real, outSize as real;
    assert b / a * a == b;
  }

  // ---- The intervals are consecutive ----

  lemma CeilMonotone(x: real, y: real)
    requires x <= y
    ensures Ceil(x) <= Ceil(y)
  {
    CeilAtMost(x, Ceil(y));
    CeilAtMost(y, Ceil(y));
  }

  lemma IntervalsOrdered(v: Variant, s: real, i: nat, outSize: nat)
    requires s > 0.0
    ensures NearestBwIndex(v, s, 0, outSize) == 0
    ensures 0 <= NearestBwIndex(v, s, i, outSize) <= NearestBwIndex(v, s, i + 1, outSize) <= outSize
  {
    ScaleUp(i as real, (i + 1) as real, s);
    ScaleUp(0.0, i as real, s);
    var x, y := i as real * s, (i + 1) as real * s;
    CeilMonotone(x - Half(v), y - Half(v));
    CeilMonotone(0.0 - Half(v), x - Half(v));
    CeilAtMost(0.0 - Half(v), 0);
    CeilAtMost(0.0 - Half(v), -1);
    hide Ceil;
  }

  lemma LastIntervalEnds(v: Variant, scale: Scale, inSize: nat, outSize: nat)
    requires inSize > 0 && outSize > 0
    ensures NearestBwIndex(v, BackwardScale(scale, outSize, inSize), inSize, outSize) == outSize <==> Unclamped(v, scale, inSize, outSize)
  {
    CeilAtMost(inSize as real * BackwardScale(scale, outSize, inSize) - Half(v), outSize - 1);
  }

  // ---- The gradient ----

  function Sum(g: seq<real>, from: nat, to: nat): real
    requires from <= to <= |g|
  {
    if from == to then 0.0 else Sum(g, from, to - 1) + g[to - 1]
  }

  lemma {:induction false} SumSplit(g: seq<real>, a: nat, b: nat, c: nat)
    requires a <= b <= c <= |g|
    ensures Sum(g, a, c) == Sum(g, a, b) + Sum(g, b, c)
    decreases c
  {
    if b < c {
      SumSplit(g, a, b, c - 1);
    }
  }

  // What the backward kernel stores for input pixel i of a row of outSize gradients.
  function GradAt(v: Variant, s: real, g: seq<real>, i: nat): real
    requires s > 0.0
  {
    IntervalsOrdered(v, s, i, |g|);
    Sum(g, NearestBwIndex(v, s, i, |g|), NearestBwIndex(v, s, i + 1, |g|))
  }

  // The gradient of the whole row, by input pixel.
  function Grads(v: Variant, s: real, g: seq<real>, n: nat): (r: seq<real>)
    requires s > 0.0
    ensures |r| == n && forall i :: 0 <= i < n ==> r[i] == GradAt(v, s, g, i)
  {
    seq(n, i requires 0 <= i < n => GradAt(v, s, g, i))
  }

  // The row that the forward map makes of x.
  function Forward(v: Variant, f: real, x: seq<real>, n: nat): (y: seq<real>)
    requires f > 0.0 && x != []
    ensures |y| == n
  {
    seq(n, d requires 0 <= d < n =>
      NearestIndexInRange(v, f, d, |x|);
      x[NearestIndex(v, f, d, |x|)])
  }

  function Inner(a: seq<real>, b: seq<real>, from: nat, to: nat): real
    requires from <= to <= |a| && to <= |b|
  {
    if from == to then 0.0 else Inner(a, b, from, to - 1) + a[to - 1] * b[to - 1]
  }

  lemma {:induction false} InnerSplit(x: seq<real>, y: seq<real>, a: nat, b: nat, c: nat)
    requires a <= b <= c <= |x| && c <= |y|
    ensures Inner(x, y, a, c) == Inner(x, y, a, b) + Inner(x, y, b, c)
    decreases c
  {
    if b < c {
      InnerSplit(x, y, a, b, c - 1);
    }
  }

  lemma {:induction false} InnerConstant(g: seq<real>, y: seq<real>, a: nat, b: nat, c: real)
    requires a <= b <= |g| && b <= |y| && forall d :: a <= d < b ==> y[d] == c
    ensures Inner(g, y, a, b) == Sum(g, a, b) * c
    decreases b
  {
    if a < b {
      InnerConstant(g, y, a, b - 1, c);
      assert (Sum(g, a, b - 1) + g[b - 1]) * c == Sum(g, a, b - 1) * c + g[b - 1] * c;
    }
  }

  // Over the output pixels of the first i intervals, pairing the incoming gradient
  // with the resampled row is pairing the stored gradient with the row itself.
  lemma {:induction false} AdjointUpTo(v: Variant, f: real, s: real, g: seq<real>, x: seq<real>, i: nat)
    requires f > 0.0 && s > 0.0 && f * s == 1.0 && i <= |x| && x != []
    ensures 0 <= NearestBwIndex(v, s, i, |g|) <= |g|
    ensures Inner(g, Forward(v, f, x, |g|), 0, NearestBwIndex(v, s, i, |g|)) == Inner(Grads(v, s, g, |x|), x, 0, i)
    decreases i
  {
    hide NearestBwIndex, Forward, Grads, GradAt;
    IntervalsOrdered(v, s, i, |g|);
    if i > 0 {
      AdjointUpTo(v, f, s, g, x, i - 1);
      IntervalsOrdered(v, s, i - 1, |g|);
      AdjointInterval(v, f, s, g, x, i - 1);
      InnerSplit(g, Forward(v, f, x, |g|), 0, NearestBwIndex(v, s, i - 1, |g|), NearestBwIndex(v, s, i, |g|));
      assert Grads(v, s, g, |x|)[i - 1] == GradAt(v, s, g, i - 1);
    }
  }

  lemma AdjointInterval(v: Variant, f: real, s: real, g: seq<real>, x: seq<real>, i: nat)
    requires f > 0.0 && s > 0.0 && f * s == 1.0 && i < |x|
    requires 0 <= NearestBwIndex(v, s, i, |g|) <= NearestBwIndex(v, s, i + 1, |g|) <= |g|
    ensures Inner(g, Forward(v, f, x, |g|), NearestBwIndex(v, s, i, |g|), NearestBwIndex(v, s, i + 1, |g|)) == GradAt(v, s, g, i) * x[i]
  {
    hide NearestBwIndex, NearestIndex, SourcePixel;
    var a, b := NearestBwIndex(v, s, i, |g|), NearestBwIndex(v, s, i + 1, |g|);
    forall d | a <= d < b ensures Forward(v, f, x, |g|)[d] == x[i] {
      IntervalIsFibre(v, f, s, |x|, |g|, i, d);
    }
    InnerConstant(g, Forward(v, f, x, |g|), a, b, x[i]);
  }

  // The stored gradient is that of the forward map for these two rows.
  ghost predicate Adjoint(v: Variant, scale: Scale, g: seq<real>, x: seq<real>)
    requires g != [] && x != []
  {
    var f, s := ForwardScale(scale, |x|, |g|), BackwardScale(scale, |g|, |x|);
    Inner(g, Forward(v, f, x, |g|), 0, |g|) == Inner(Grads(v, s, g, |x|), x, 0, |x|)
  }

  lemma UnclampedIsAdjoint(v: Variant, scale: Scale, g: seq<real>, x: seq<real>)
    requires g != [] && x != [] && Unclamped(v, scale, |x|, |g|)
    ensures Adjoint(v, scale, g, x)
  {
    ScalesInverse(scale, |x|, |g|);
    LastIntervalEnds(v, scale, |x|, |g|);
    AdjointUpTo(v, ForwardScale(scale, |x|, |g|), BackwardScale(scale, |g|, |x|), g, x, |x|);
  }

  lemma ClampedPairing(v: Variant, f: real, s: real, g: seq<real>, x: seq<real>)
    requires f > 0.0 && s > 0.0 && f * s == 1.0 && x != [] && g != []
    requires forall i :: 0 <= i < |x| ==> x[i] == 1.0
    requires forall d :: 0 <= d < |g| - 1 ==> g[d] == 0.0
    requires g[|g| - 1] == 1.0 && NearestBwIndex(v, s, |x|, |g|) < |g|
    ensures Inner(g, Forward(v, f, x, |g|), 0, |g|) == 1.0 && Inner(Grads(v, s, g, |x|), x, 0, |x|) == 0.0
  {
    var y, end := Forward(v, f, x, |g|), NearestBwIndex(v, s, |x|, |g|);
    NearestIndexInRange(v, f, |g| - 1, |x|);
    assert y[|g| - 1] == 1.0;
    IntervalsOrdered(v, s, |x|, |g|);
    hide Forward, NearestBwIndex, Grads, NearestIndex, Inner;
    AdjointUpTo(v, f, s, g, x, |x|);
    InnerOfZeros(g, y, 0, end);
    InnerOfUnit(g, y);
  }

  lemma InnerOfUnit(g: seq<real>, y: seq<real>)
    requires g != [] && |g| == |y| && g[|g| - 1] == 1.0 == y[|g| - 1]
    requires forall d :: 0 <= d < |g| - 1 ==> g[d] == 0.0
    ensures Inner(g, y, 0, |g|) == 1.0
  {
    InnerOfZeros(g, y, 0, |g| - 1);
  }

  // A gradient on the last output pixel only, and an input of ones.
  lemma ClampedIsNotAdjoint(v: Variant, scale: Scale, inSize: nat, outSize: nat) returns (g: seq<real>, x: seq<real>)
    requires inSize > 0 && outSize > 0 && !Unclamped(v, scale, inSize, outSize)
    ensures |g| == outSize && |x| == inSize && !Adjoint(v, scale, g, x)
  {
    g, x := seq(outSize, d => if d == outSize - 1 then 1.0 else 0.0), seq(inSize, _ => 1.0);
    ScalesInverse(scale, inSize, outSize);
    IntervalsOrdered(v, BackwardScale(scale, outSize, inSize), inSize, outSize);
    LastIntervalEnds(v, scale, inSize, outSize);
    hide ForwardScale, BackwardScale, NearestBwIndex, Forward, Grads, Unclamped, Inner;
    ClampedPairing(v, ForwardScale(scale, inSize, outSize), BackwardScale(scale, outSize, inSize), g, x);
  }

  lemma {:induction false} InnerOfZeros(g: seq<real>, y: seq<real>, a: nat, b: nat)
    requires a <= b <= |g| && b <= |y| && forall d :: a <= d < b ==> g[d] == 0.0
    ensures Inner(g, y, a, b) == 0.0
    decreases b
  {
    if a < b {
      InnerOfZeros(g, y, a, b - 1);
    }
  }

  // The backward kernel computes the gradient of the forward kernel, for all rows of
  // these sizes, exactly when no output pixel is clamped.
  lemma GradientIffUnclamped(v: Variant, scale: Scale, inSize: nat, outSize: nat)
    requires inSize > 0 && outSize > 0
    ensures (forall g, x :: |g| == outSize && |x| == inSize ==> Adjoint(v, scale, g, x)) <==> Unclamped(v, scale, inSize, outSize)
  {
    if Unclamped(v, scale, inSize, outSize) {
      forall g: seq<real>, x: seq<real> | |g| == outSize && |x| == inSize ensures Adjoint(v, scale, g, x) {
        UnclampedIsAdjoint(v, scale, g, x);
      }
    } else {
      var g, x := ClampedIsNotAdjoint(v, scale, inSize, outSize);
    }
  }

  // The stored gradients add up to the incoming ones of the covered output pixels.
  lemma {:induction false} GradientConserved(v: Variant, s: real, g: seq<real>, i: nat)
    requires s > 0.0
    ensures 0 <= NearestBwIndex(v, s, i, |g|) <= |g|
    ensures Sum(Grads(v, s, g, i), 0, i) == Sum(g, 0, NearestBwIndex(v, s, i, |g|))
    decreases i
  {
    IntervalsOrdered(v, s, i, |g|);
    if i > 0 {
      GradientConserved(v, s, g, i - 1);
      IntervalsOrdered(v, s, i - 1, |g|);
      assert Grads(v, s, g, i)[..i - 1] == Grads(v, s, g, i - 1);
      SumPrefix(Grads(v, s, g, i), i - 1);
      SumSplit(g, 0, NearestBwIndex(v, s, i - 1, |g|), NearestBwIndex(v, s, i, |g|));
    }
  }

  lemma {:induction false} SumPrefix(g: seq<real>, n: nat)
    requires n <= |g|
    ensures Sum(g, 0, n) == Sum(g[..n], 0, n)
    decreases n
  {
    if n > 0 {
      SumPrefix(g, n - 1);
      SumPrefix(g[..n], n - 1);
      assert g[..n][..n - 1] == g[..n - 1];
    }
  }

  // ---- When a given scale clamps ----

  // Sizes computed from the scale never do: the output is then no larger than the
  // scaled input.
  lemma ComputedSizesUnclamped(v: Variant, factor: real, inSize: nat, outSize: nat)
    requires inSize > 0 && outSize > 0 && outSize as real <= inSize as real * factor
    ensures Unclamped(v, Given(factor), inSize, outSize)
  {
    if factor <= 0.0 {
      DefaultScaleUnclamped(v, Given(factor), inSize, outSize);
    }
  }

  // A caller who passes both can clamp: three output pixels for one input pixel at
  // scale 1.  The gradient of the last one is lost.
  lemma GivenScaleCanClamp(v: Variant) returns (g: seq<real>, x: seq<real>)
    ensures !Unclamped(v, Given(1.0), 1, 3)
    ensures |g| == 3 && |x| == 1 && !Adjoint(v, Given(1.0), g, x)
  {
    g, x := ClampedIsNotAdjoint(v, Given(1.0), 1, 3);
  }
}
