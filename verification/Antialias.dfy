// Antialiased resampling in one dimension, over exact reals: which input pixels an
// output pixel looks at, how they are weighted, and what comes out.
module Antialias {
  import opened Arithmetic

  function Max(a: int, b: int): int
  {
    if a > b then a else b
  }

  // The window [xmin, xmin + xsize) of output pixel i, and its centre.
  datatype Span = Span(xmin: int, xsize: int, center: real)

  function WeightsSpan(i: nat, inputSize: nat, scale: real, support: real): Span
  {
    var center := scale * (i as real + 0.5);
    var xmin := Max(Trunc(center - support + 0.5), 0);
    var xsize := Min(Trunc(center + support + 0.5), inputSize) - xmin;
    Span(xmin, xsize, center)
  }

  // The centres of the output pixels are a pixel's width apart, the first one half a width
  // from the edge ...
  lemma Centres(i: nat, inputSize: nat, scale: real, support: real)
    ensures WeightsSpan(0, inputSize, scale, support).center == scale / 2.0
    ensures WeightsSpan(i + 1, inputSize, scale, support).center - WeightsSpan(i, inputSize, scale, support).center == scale
  {
    hide *;
    CentreAt(0, inputSize, scale, support);
    CentreAt(i, inputSize, scale, support);
    CentreAt(i + 1, inputSize, scale, support);
    NextMultiple(scale, i);
  }

  // ... and, if all widths together are the input, the last one as far from the other edge.
  lemma LastCentre(inputSize: nat, outputSize: nat, scale: real, support: real)
    requires outputSize > 0 && scale * outputSize as real == inputSize as real
    ensures WeightsSpan(outputSize - 1, inputSize, scale, support).center == inputSize as real - scale / 2.0
  {
    hide *;
    CentreAt(outputSize - 1, inputSize, scale, support);
    NextMultiple(scale, outputSize - 1);
  }

  lemma CentreAt(i: nat, inputSize: nat, scale: real, support: real)
    ensures WeightsSpan(i, inputSize, scale, support).center == scale * i as real + scale / 2.0
  {
    assert scale * (i as real + 0.5) == scale * i as real + scale * 0.5;
  }

  lemma NextMultiple(s: real, i: nat)
    ensures s * (i + 1) as real == s * i as real + s && s * 0 as real == 0.0
  {
    assert (i + 1) as real == i as real + 1.0;
  }

  // The support the kernels pass for a filter of this size.
  function Support(size: nat, scale: real): real
  {
    if scale >= 1.0 then size as real * 0.5 * scale else size as real * 0.5
  }

  lemma TruncNonNegative(x: real)
    requires x >= 0.0
    ensures Trunc(x) as real <= x < Trunc(x) as real + 1.0
  {
  }

  lemma TruncNegative(x: real)
    requires x < 0.0
    ensures Trunc(x) <= 0
  {
  }

  // The window lies inside the input and fits the weight buffer of
  // 2 * ceil(support) + 1 entries; it is non-empty exactly when its left edge is left
  // of the end of the input.
  lemma WindowInsideInput(i: nat, inputSize: nat, scale: real, support: real)
    requires scale >= 0.0 && support >= 0.5
    ensures var w := WeightsSpan(i, inputSize, scale, support);
            && 0 <= w.xmin && w.xmin + w.xsize <= inputSize
            && w.xsize <= Ceil(2.0 * support) <= 2 * Ceil(support)
            && (w.xsize > 0 <==> inputSize > 0 && w.center - support + 0.5 < inputSize as real)
  {
    var c := scale * (i as real + 0.5);
    assert c >= 0.0;
    var left, right := c - support + 0.5, c + support + 0.5;
    TruncNonNegative(right);
    if left >= 0.0 {
      TruncNonNegative(left);
    } else {
      TruncNegative(left);
    }
  }

  // The window is exactly the pixels whose centre lies within the support.
  lemma WindowIsSupport(i: nat, inputSize: nat, scale: real, support: real, j: nat)
    requires scale >= 0.0 && support >= 0.5 && j < inputSize
    ensures var w := WeightsSpan(i, inputSize, scale, support);
            w.xmin <= j < w.xmin + w.xsize <==> w.center - support < j as real + 0.5 <= w.center + support
  {
    var c := scale * (i as real + 0.5);
    NonNegativeProduct(scale, i as real + 0.5);
    TruncNonNegative(c + support + 0.5);
    if c - support + 0.5 >= 0.0 {
      TruncNonNegative(c - support + 0.5);
    } else {
      TruncNegative(c - support + 0.5);
    }
  }

  // In particular for every output pixel whose centre lies in the input, which is so
  // for all of them unless the user gave a smaller scale factor.
  lemma CenteredWindow(i: nat, inputSize: nat, scale: real, support: real)
    requires scale >= 0.0 && support >= 0.5 && scale * (i as real + 0.5) < inputSize as real
    ensures var w := WeightsSpan(i, inputSize, scale, support);
            w.xsize > 0 && w.xmin <= w.center.Floor < w.xmin + w.xsize
  {
    var c := scale * (i as real + 0.5);
    assert c >= 0.0;
    TruncNonNegative(c + support + 0.5);
    if c - support + 0.5 >= 0.0 {
      TruncNonNegative(c - support + 0.5);
    } else {
      TruncNegative(c - support + 0.5);
    }
  }

  lemma NonNegativeProduct(a: real, b: real)
    requires a >= 0.0 && b >= 0.0
    ensures a * b >= 0.0
    ensures a > 0.0 && b > 0.0 ==> a * b > 0.0
  {
  }

  lemma DefaultScaleCentered(i: nat, inputSize: nat, outputSize: nat)
    requires i < outputSize && inputSize > 0
    ensures inputSize as real / outputSize as real * (i as real + 0.5) < inputSize as real
  {
    SlopeBelow(inputSize as real / outputSize as real, outputSize as real, inputSize as real, i as real + 0.5);
  }

  lemma SlopeBelow(s: real, n: real, m: real, x: real)
    requires n > 0.0 && m > 0.0 && s == m / n && x < n
    ensures s * x < m
  {
    assert s * n == m && s > 0.0;
    NonNegativeProduct(s, n - x);
    assert s * (n - x) == s * n - s * x;
  }

  // ---- Weights ----

  function Bilinear(x: real): real
  {
    var a := if x < 0.0 then -x else x;
    if a < 1.0 then 1.0 - a else 0.0
  }

  // The tent: 1 in the middle, straight lines to 0 at -1 and 1.
  lemma BilinearIsTent(x: real)
    ensures Bilinear(0.0) == 1.0 && Bilinear(-x) == Bilinear(x)
    ensures 0.0 <= x <= 1.0 ==> Bilinear(x) == 1.0 - x
    ensures x >= 1.0 ==> Bilinear(x) == 0.0
  {
  }

  // Downsampling widens the filter by the scale, upsampling leaves it as it is.
  lemma FilterWidth(scale: real)
    ensures scale >= 1.0 ==> Support(2, scale) == scale && InvScale(scale) * scale == 1.0
    ensures scale <= 1.0 ==> Support(2, scale) == 1.0 && InvScale(scale) == 1.0
    ensures Support(4, scale) == 2.0 * Support(2, scale)
  {
  }

  function InvScale(scale: real): real
  {
    if scale >= 1.0 then 1.0 / scale else 1.0
  }

  // The weight of pixel j of the window before normalisation.
  function Raw(filter: real -> real, scale: real, offset: real, j: nat): real
  {
    filter((j as real + offset + 0.5) * InvScale(scale))
  }

  function RawTotal(filter: real -> real, scale: real, offset: real, n: nat): real
  {
    if n == 0 then 0.0 else RawTotal(filter, scale, offset, n - 1) + Raw(filter, scale, offset, n - 1)
  }

  function Weight(filter: real -> real, scale: real, offset: real, xsize: int, j: nat): real
  {
    if j >= xsize then 0.0 else
      var total := RawTotal(filter, scale, offset, xsize);
      if total != 0.0 then Raw(filter, scale, offset, j) / total else Raw(filter, scale, offset, j)
  }

  lemma RawIs(filter: real -> real, scale: real, offset: real, j: nat, invscale: real)
    requires invscale == InvScale(scale)
    ensures Raw(filter, scale, offset, j) == filter((j as real + offset + 0.5) * invscale)
  {
  }

  // The first loop of _compute_weights: the raw weights and their sum.
  method RawWeights(wt: array<real>, scale: real, filter: real -> real, offset: real, xsize: int) returns (total: real)
    requires xsize <= wt.Length
    modifies wt
    ensures xsize >= 0 ==> total == RawTotal(filter, scale, offset, xsize)
    ensures forall k :: 0 <= k < xsize ==> wt[k] == Raw(filter, scale, offset, k)
    ensures forall k :: 0 <= k < wt.Length && k >= xsize ==> wt[k] == old(wt[k])
  {
    hide InvScale, Raw;
    var invscale := InvScale(scale);
    total := 0.0;
    var j := 0;
    while j < xsize
      invariant 0 <= j && (j <= xsize || j == 0) && total == RawTotal(filter, scale, offset, j)
      invariant forall k :: 0 <= k < j ==> wt[k] == Raw(filter, scale, offset, k)
      invariant forall k :: 0 <= k < wt.Length && k >= xsize ==> wt[k] == old(wt[k])
    {
      var w := filter((j as real + offset + 0.5) * invscale);
      RawIs(filter, scale, offset, j, invscale);
      wt[j] := w;
      total := total + w;
      j := j + 1;
    }
  }

  // _compute_weights; an empty window leaves only zeros.
  method ComputeWeights(wt: array<real>, scale: real, interpSize: nat, filter: real -> real, offset: real, xsize: int)
    requires xsize <= interpSize <= wt.Length
    modifies wt
    ensures forall j :: 0 <= j < interpSize ==> wt[j] == Weight(filter, scale, offset, xsize, j)
    ensures forall j :: interpSize <= j < wt.Length ==> wt[j] == old(wt[j])
  {
    hide Raw, RawTotal, Weight;
    var total := RawWeights(wt, scale, filter, offset, xsize);
    var j := 0;
    while j < xsize
      invariant 0 <= j && (j <= xsize || j == 0)
      invariant forall k :: 0 <= k < j ==> wt[k] == Weight(filter, scale, offset, xsize, k)
      invariant forall k :: j <= k < xsize ==> wt[k] == Raw(filter, scale, offset, k)
      invariant forall k :: interpSize <= k < wt.Length ==> wt[k] == old(wt[k])
    {
      WeightInside(filter, scale, offset, xsize, j, total);
      if total != 0.0 {
        wt[j] := wt[j] / total;
      }
      j := j + 1;
    }
    while j < interpSize
      invariant 0 <= j <= interpSize && j >= xsize
      invariant forall k :: 0 <= k < j ==> wt[k] == Weight(filter, scale, offset, xsize, k)
      invariant forall k :: interpSize <= k < wt.Length ==> wt[k] == old(wt[k])
    {
      WeightBeyond(filter, scale, offset, xsize, j);
      wt[j] := 0.0;
      j := j + 1;
    }
  }

  lemma WeightBeyond(filter: real -> real, scale: real, offset: real, xsize: int, j: nat)
    requires j >= xsize
    ensures Weight(filter, scale, offset, xsize, j) == 0.0
  {
  }

  lemma WeightInside(filter: real -> real, scale: real, offset: real, xsize: nat, j: nat, total: real)
    requires j < xsize && total == RawTotal(filter, scale, offset, xsize)
    ensures Weight(filter, scale, offset, xsize, j)
            == if total != 0.0 then Raw(filter, scale, offset, j) / total else Raw(filter, scale, offset, j)
  {
  }

  function WeightTotal(filter: real -> real, scale: real, offset: real, xsize: int, n: nat): real
  {
    if n == 0 then 0.0 else WeightTotal(filter, scale, offset, xsize, n - 1) + Weight(filter, scale, offset, xsize, n - 1)
  }

  lemma {:induction false} WeightTotalScales(filter: real -> real, scale: real, offset: real, xsize: int, n: nat)
    requires n <= xsize && RawTotal(filter, scale, offset, xsize) != 0.0
    ensures WeightTotal(filter, scale, offset, xsize, n) == RawTotal(filter, scale, offset, n) / RawTotal(filter, scale, offset, xsize)
    decreases n
  {
    if n > 0 {
      WeightTotalScales(filter, scale, offset, xsize, n - 1);
      AddFractions(RawTotal(filter, scale, offset, n - 1), Raw(filter, scale, offset, n - 1), RawTotal(filter, scale, offset, xsize));
    }
  }

  lemma AddFractions(a: real, b: real, t: real)
    requires t != 0.0
    ensures a / t + b / t == (a + b) / t
  {
  }

  // Any filter: the weights of the window sum to 1 unless the raw ones cancel out.
  lemma WeightsSumToOne(filter: real -> real, scale: real, offset: real, xsize: nat)
    requires RawTotal(filter, scale, offset, xsize) != 0.0
    ensures WeightTotal(filter, scale, offset, xsize, xsize) == 1.0
  {
    WeightTotalScales(filter, scale, offset, xsize, xsize);
  }

  lemma {:induction false} RawTotalAtLeast(scale: real, offset: real, n: nat, j: nat)
    ensures RawTotal(Bilinear, scale, offset, n) >= 0.0
    ensures j < n ==> RawTotal(Bilinear, scale, offset, n) >= Raw(Bilinear, scale, offset, j)
    decreases n
  {
    if n > 0 {
      RawTotalAtLeast(scale, offset, n - 1, j);
    }
  }

  // The pixel under the centre has a raw weight of at least one half.
  lemma CenterWeight(scale: real, offset: real, j: nat)
    requires -0.5 <= j as real + offset + 0.5 <= 0.5
    ensures Raw(Bilinear, scale, offset, j) >= 0.5
  {
    var x, inv := j as real + offset + 0.5, InvScale(scale);
    InvScaleBounds(scale);
    ShrinkBounds(x, inv);
  }

  lemma InvScaleBounds(scale: real)
    ensures 0.0 < InvScale(scale) <= 1.0
  {
  }

  lemma ShrinkBounds(x: real, inv: real)
    requires -0.5 <= x <= 0.5 && 0.0 < inv <= 1.0
    ensures -0.5 <= x * inv <= 0.5
  {
    NonNegativeProduct(0.5 - x, inv);
    NonNegativeProduct(0.5 + x, inv);
    assert (0.5 - x) * inv == 0.5 * inv - x * inv && (0.5 + x) * inv == 0.5 * inv + x * inv;
  }

  ghost predicate NonNegativeWeights(scale: real, offset: real, xsize: int)
  {
    forall j :: 0 <= j ==> Weight(Bilinear, scale, offset, xsize, j) >= 0.0 && (j >= xsize ==> Weight(Bilinear, scale, offset, xsize, j) == 0.0)
  }

  // What the bilinear filter gives pixel j for a window centred here.
  function FilterAt(scale: real, center: real, j: nat): real
  {
    Bilinear((j as real + 0.5 - center) * InvScale(scale))
  }

  // The window loses nothing: the filter vanishes on every other pixel.
  lemma OutsideWindowVanishes(i: nat, inputSize: nat, scale: real, j: nat)
    requires scale >= 0.0 && j < inputSize
    ensures var w := WeightsSpan(i, inputSize, scale, Support(2, scale));
            !(w.xmin <= j < w.xmin + w.xsize) ==> FilterAt(scale, w.center, j) == 0.0
  {
    hide *;
    SupportScaled(scale);
    var support := Support(2, scale);
    WindowIsSupport(i, inputSize, scale, support, j);
    var center := WeightsSpan(i, inputSize, scale, support).center;
    if !(center - support < j as real + 0.5 <= center + support) {
      FarAway(scale, center, j);
    }
  }

  lemma FarAway(scale: real, center: real, j: nat)
    requires var support := Support(2, scale); !(center - support < j as real + 0.5 <= center + support)
    ensures FilterAt(scale, center, j) == 0.0
  {
    SupportScaled(scale);
    InvScaleBounds(scale);
    BilinearVanishes(j as real + 0.5 - center, Support(2, scale), InvScale(scale));
  }

  lemma BilinearVanishes(d: real, support: real, inv: real)
    requires inv > 0.0 && support * inv == 1.0 && (d > support || d <= -support)
    ensures Bilinear(d * inv) == 0.0
  {
    if d > support {
      NonNegativeProduct(d - support, inv);
      assert (d - support) * inv == d * inv - support * inv;
    } else {
      NonNegativeProduct(-support - d, inv);
      assert (-support - d) * inv == -(support * inv) - d * inv;
    }
  }

  lemma SupportScaled(scale: real)
    ensures Support(2, scale) * InvScale(scale) == 1.0 && Support(2, scale) >= 1.0
  {
    if scale >= 1.0 {
      assert scale * (1.0 / scale) == 1.0;
    }
  }

  // A pixel left of the centre and inside the support has a positive raw weight.
  lemma LeftWeight(scale: real, center: real, j: nat)
    requires center - Support(2, scale) < j as real + 0.5 < center
    ensures FilterAt(scale, center, j) > 0.0
  {
    SupportScaled(scale);
    InvScaleBounds(scale);
    LeftOfCentre(center - (j as real + 0.5), Support(2, scale), InvScale(scale));
  }

  lemma LeftOfCentre(d: real, support: real, inv: real)
    requires 0.0 < d < support && inv > 0.0 && support * inv == 1.0
    ensures Bilinear(-d * inv) > 0.0
  {
    NonNegativeProduct(d, inv);
    NonNegativeProduct(support - d, inv);
    assert (support - d) * inv == support * inv - d * inv;
    assert -d * inv == -(d * inv);
  }

  // Some pixel of a window that is not empty has a positive raw weight: the one under the
  // centre, or, if the centre is beyond the end of the input, any.
  lemma PositivePixel(i: nat, inputSize: nat, scale: real) returns (j: nat)
    requires scale >= 0.0 && WeightsSpan(i, inputSize, scale, Support(2, scale)).xsize > 0
    ensures var w := WeightsSpan(i, inputSize, scale, Support(2, scale));
            j < w.xsize && Raw(Bilinear, scale, w.xmin as real - w.center, j) > 0.0
  {
    SupportScaled(scale);
    var support := Support(2, scale);
    WindowInsideInput(i, inputSize, scale, support);
    var w := WeightsSpan(i, inputSize, scale, support);
    if scale * (i as real + 0.5) < inputSize as real {
      CenteredWindow(i, inputSize, scale, support);
      j := w.center.Floor - w.xmin;
      CenterWeight(scale, w.xmin as real - w.center, j);
    } else {
      j := 0;
      WindowIsSupport(i, inputSize, scale, support, w.xmin);
      assert w.center == scale * (i as real + 0.5);
      hide *;
      LeftWeight(scale, w.center, w.xmin);
      RawIsFilter(scale, w.xmin, w.center, 0);
    }
  }

  // The raw weight of pixel j of a window is the filter's value at that pixel's centre.
  lemma RawIsFilter(scale: real, xmin: nat, center: real, j: nat)
    ensures Raw(Bilinear, scale, xmin as real - center, j) == FilterAt(scale, center, xmin + j)
  {
    assert j as real + (xmin as real - center) + 0.5 == (xmin + j) as real + 0.5 - center;
  }

  // The bilinear weights of every window are non-negative and zero beyond it, and they sum
  // to 1 exactly when the window is not empty.
  lemma BilinearWeights(i: nat, inputSize: nat, scale: real)
    requires scale >= 0.0
    ensures var w := WeightsSpan(i, inputSize, scale, Support(2, scale));
            && NonNegativeWeights(scale, w.xmin as real - w.center, w.xsize)
            && (WeightTotal(Bilinear, scale, w.xmin as real - w.center, w.xsize, Max(w.xsize, 0)) == 1.0 <==> w.xsize > 0)
  {
    var w := WeightsSpan(i, inputSize, scale, Support(2, scale));
    var offset := w.xmin as real - w.center;
    if w.xsize > 0 {
      var j := PositivePixel(i, inputSize, scale);
      RawTotalAtLeast(scale, offset, w.xsize, j);
      WeightsSumToOne(Bilinear, scale, offset, w.xsize);
      var total := RawTotal(Bilinear, scale, offset, w.xsize);
      hide RawTotal, Raw;
      forall k | 0 <= k ensures Weight(Bilinear, scale, offset, w.xsize, k) >= 0.0 {
        RawNonNegative(scale, offset, k);
        NonNegativeFraction(Raw(Bilinear, scale, offset, k), total);
      }
    }
  }

  lemma RawNonNegative(scale: real, offset: real, k: nat)
    ensures Raw(Bilinear, scale, offset, k) >= 0.0
  {
  }

  lemma NonNegativeFraction(a: real, t: real)
    requires a >= 0.0 && t > 0.0
    ensures a / t >= 0.0
  {
  }

  // The weights are in proportion to the filter's values at the centres of the window's
  // pixels.
  lemma WeightsFollowFilter(i: nat, inputSize: nat, scale: real, j: nat)
    requires scale >= 0.0
    ensures var w := WeightsSpan(i, inputSize, scale, Support(2, scale));
            j < w.xsize ==>
              && RawTotal(Bilinear, scale, w.xmin as real - w.center, w.xsize) > 0.0
              && Weight(Bilinear, scale, w.xmin as real - w.center, w.xsize, j) * RawTotal(Bilinear, scale, w.xmin as real - w.center, w.xsize)
                 == FilterAt(scale, w.center, w.xmin + j)
  {
    hide *;
    var w := WeightsSpan(i, inputSize, scale, Support(2, scale));
    if j < w.xsize {
      SupportScaled(scale);
      WindowInsideInput(i, inputSize, scale, Support(2, scale));
      PositiveTotal(i, inputSize, scale);
      RawIsFilter(scale, w.xmin, w.center, j);
      WeightTimesTotal(scale, w.xmin as real - w.center, w.xsize, j);
    }
  }

  lemma PositiveTotal(i: nat, inputSize: nat, scale: real)
    requires scale >= 0.0 && WeightsSpan(i, inputSize, scale, Support(2, scale)).xsize > 0
    ensures var w := WeightsSpan(i, inputSize, scale, Support(2, scale)); RawTotal(Bilinear, scale, w.xmin as real - w.center, w.xsize) > 0.0
  {
    hide *;
    var w := WeightsSpan(i, inputSize, scale, Support(2, scale));
    var j := PositivePixel(i, inputSize, scale);
    RawTotalAtLeast(scale, w.xmin as real - w.center, w.xsize, j);
  }

  lemma WeightTimesTotal(scale: real, offset: real, xsize: nat, j: nat)
    requires j < xsize && RawTotal(Bilinear, scale, offset, xsize) > 0.0
    ensures Weight(Bilinear, scale, offset, xsize, j) * RawTotal(Bilinear, scale, offset, xsize) == Raw(Bilinear, scale, offset, j)
  {
    hide RawTotal, Raw;
    Undivide(Raw(Bilinear, scale, offset, j), RawTotal(Bilinear, scale, offset, xsize));
  }

  lemma Undivide(a: real, t: real)
    requires t > 0.0
    ensures a / t * t == a
  {
  }

  // ---- Interpolation ----

  function Weighted(src: seq<real>, wt: seq<real>, n: nat): real
    requires n <= |src| && n <= |wt|
  {
    if n == 0 then 0.0 else Weighted(src, wt, n - 1) + src[n - 1] * wt[n - 1]
  }

  function Total(wt: seq<real>, n: nat): real
    requires n <= |wt|
  {
    if n == 0 then 0.0 else Total(wt, n - 1) + wt[n - 1]
  }

  // The pixels are paired with their own weights: a unit weight picks one out ...
  lemma {:induction false} WeightedOfUnit(src: seq<real>, wt: seq<real>, n: nat, q: nat)
    requires n <= |src| && n <= |wt| && forall j :: 0 <= j < n ==> wt[j] == if j == q then 1.0 else 0.0
    ensures Weighted(src, wt, n) == if q < n then src[q] else 0.0
    decreases n
  {
    if n > 0 {
      WeightedOfUnit(src, wt, n - 1, q);
    }
  }

  // ... and weights that are sums give sums.
  lemma {:induction false} WeightedAdds(src: seq<real>, a: seq<real>, b: seq<real>, c: seq<real>, x: real, n: nat)
    requires n <= |src| && n <= |a| && n <= |b| && n <= |c| && forall j :: 0 <= j < n ==> c[j] == x * a[j] + b[j]
    ensures Weighted(src, c, n) == x * Weighted(src, a, n) + Weighted(src, b, n)
    decreases n
  {
    if n > 0 {
      WeightedAdds(src, a, b, c, x, n - 1);
      var w, s := Weighted(src, a, n - 1), src[n - 1];
      assert s * (x * a[n - 1] + b[n - 1]) == x * (s * a[n - 1]) + s * b[n - 1];
      assert x * (w + s * a[n - 1]) == x * w + x * (s * a[n - 1]);
    }
  }

  // interpolate_aa_single_dim; it reads the first pixel before looking at the size.
  method InterpolateSingleDim(src: seq<real>, weights: seq<real>, size: nat) returns (output: real)
    requires 0 < size <= |src| && size <= |weights|
    ensures output == Weighted(src, weights, size)
  {
    var t, wts := src[0], weights[0];
    output := t * wts;
    assert Weighted(src, weights, 0) == 0.0;
    var j := 1;
    while j < size
      invariant 1 <= j <= size && output == Weighted(src, weights, j)
    {
      wts := weights[j];
      t := src[j];
      output := output + t * wts;
      j := j + 1;
    }
  }

  lemma WeightedStep(s: real, w: real, t: real, lo: real, hi: real)
    requires lo <= s <= hi && w >= 0.0
    ensures lo * (t + w) - lo * t <= s * w <= hi * (t + w) - hi * t
  {
    NonNegativeProduct(s - lo, w);
    NonNegativeProduct(hi - s, w);
    assert (s - lo) * w == s * w - lo * w && (hi - s) * w == hi * w - s * w;
    assert lo * (t + w) == lo * t + lo * w && hi * (t + w) == hi * t + hi * w;
  }

  lemma {:induction false} WeightedBounds(src: seq<real>, wt: seq<real>, n: nat, lo: real, hi: real)
    requires n <= |src| && n <= |wt|
    requires forall k :: 0 <= k < n ==> lo <= src[k] <= hi && wt[k] >= 0.0
    ensures lo * Total(wt, n) <= Weighted(src, wt, n) <= hi * Total(wt, n)
  {
    if n > 0 {
      WeightedBounds(src, wt, n - 1, lo, hi);
      WeightedStep(src[n - 1], wt[n - 1], Total(wt, n - 1), lo, hi);
    }
  }

  // The bilinear weights a work-item computed for its output pixel.
  ghost predicate WeightsOf(wt: seq<real>, i: nat, inputSize: nat, scale: real)
  {
    var w := WeightsSpan(i, inputSize, scale, Support(2, scale));
    |wt| >= w.xsize && forall j :: 0 <= j < w.xsize ==> wt[j] == Weight(Bilinear, scale, w.xmin as real - w.center, w.xsize, j)
  }

  lemma {:induction false} TotalOfWeights(wt: seq<real>, filter: real -> real, scale: real, offset: real, xsize: nat, n: nat)
    requires n <= xsize <= |wt| && forall j :: 0 <= j < xsize ==> wt[j] == Weight(filter, scale, offset, xsize, j)
    ensures Total(wt, n) == WeightTotal(filter, scale, offset, xsize, n)
    decreases n
  {
    if n > 0 {
      TotalOfWeights(wt, filter, scale, offset, xsize, n - 1);
    }
  }

  // So a bilinear antialiased pixel lies between the extremes of its window, if that is
  // not empty.
  lemma InterpolatedBetween(row: seq<real>, wt: seq<real>, i: nat, scale: real, lo: real, hi: real)
    requires scale >= 0.0 && WeightsSpan(i, |row|, scale, Support(2, scale)).xsize > 0 && WeightsOf(wt, i, |row|, scale)
    requires var w := WeightsSpan(i, |row|, scale, Support(2, scale));
             forall k :: w.xmin <= k < w.xmin + w.xsize && 0 <= k < |row| ==> lo <= row[k] <= hi
    ensures var w := WeightsSpan(i, |row|, scale, Support(2, scale));
            0 <= w.xmin < w.xmin + w.xsize <= |row| && lo <= Weighted(row[w.xmin..w.xmin + w.xsize], wt, w.xsize) <= hi
  {
    SupportScaled(scale);
    hide *;
    var w := WeightsSpan(i, |row|, scale, Support(2, scale));
    WindowInsideInput(i, |row|, scale, Support(2, scale));
    BilinearWeights(i, |row|, scale);
    WindowTotal(wt, i, |row|, scale);
    WindowWeights(wt, i, |row|, scale);
    WeightedBounds(row[w.xmin..w.xmin + w.xsize], wt, w.xsize, lo, hi);
  }

  lemma WindowTotal(wt: seq<real>, i: nat, inputSize: nat, scale: real)
    requires WeightsOf(wt, i, inputSize, scale) && WeightsSpan(i, inputSize, scale, Support(2, scale)).xsize >= 0
    ensures var w := WeightsSpan(i, inputSize, scale, Support(2, scale));
            w.xsize <= |wt| && Max(w.xsize, 0) == w.xsize && Total(wt, w.xsize) == WeightTotal(Bilinear, scale, w.xmin as real - w.center, w.xsize, w.xsize)
  {
    hide WeightsSpan, Support, Weight;
    var w := WeightsSpan(i, inputSize, scale, Support(2, scale));
    TotalOfWeights(wt, Bilinear, scale, w.xmin as real - w.center, w.xsize, w.xsize);
  }

  lemma WindowWeights(wt: seq<real>, i: nat, inputSize: nat, scale: real)
    requires WeightsOf(wt, i, inputSize, scale)
    requires var w := WeightsSpan(i, inputSize, scale, Support(2, scale));
             w.xsize >= 0 && NonNegativeWeights(scale, w.xmin as real - w.center, w.xsize)
    ensures forall k :: 0 <= k < WeightsSpan(i, inputSize, scale, Support(2, scale)).xsize ==> wt[k] >= 0.0
  {
    hide WeightsSpan, Support, Weight;
  }
}
