// The work-items of the one-dimensional nearest-neighbour kernels: each walks one
// (channel, pixel) pair through the batch.
module NearestKernels {
  import opened Arithmetic
  import opened Collections
  import opened Launches
  import opened Resample

  // Batch, channels, and the widths of the tensor that is read and of the one written.
  datatype Dims = Dims(batch: nat, channels: nat, src: nat, dst: nat)

  predicate Fits(d: Dims, read: nat, written: nat)
  {
    d.src > 0 && d.dst > 0 && read == d.batch * d.channels * d.src && written == d.batch * d.channels * d.dst
  }

  function Row(a: seq<real>, r: nat, width: nat): (row: seq<real>)
    requires r * width + width <= |a|
    ensures |row| == width
  {
    a[r * width..r * width + width]
  }

  lemma RowInside(d: Dims, read: nat, written: nat, q: nat)
    requires Fits(d, read, written) && q < written
    ensures q / d.dst < d.batch * d.channels && q % d.dst < d.dst
    ensures q / d.dst * d.src + d.src <= read
  {
    DivMod(q, d.dst);
    QuotientBelow(q, d.batch * d.channels, d.dst);
    MulMonotone(q / d.dst + 1, d.batch * d.channels, d.src);
    Distribute(q / d.dst, 1, d.src);
  }

  // What the kernels put at position q of the result.
  function ForwardPixel(v: Variant, scale: real, d: Dims, input: seq<real>, written: nat, q: nat): real
    requires scale > 0.0 && Fits(d, |input|, written) && q < written
  {
    RowInside(d, |input|, written, q);
    Forward(v, scale, Row(input, q / d.dst, d.src), d.dst)[q % d.dst]
  }

  function BackwardPixel(v: Variant, scale: real, d: Dims, grad: seq<real>, written: nat, q: nat): real
    requires scale > 0.0 && Fits(d, |grad|, written) && q < written
  {
    RowInside(d, |grad|, written, q);
    GradAt(v, scale, Row(grad, q / d.dst, d.src), q % d.dst)
  }

  // Work-item `item` of those that write the result, after `done` of the batches.
  ghost predicate Written(out: seq<real>, before: seq<real>, want: seq<real>, item: nat, n: nat, done: nat)
    requires n > 0
  {
    && |out| == |before| == |want|
    && forall q :: 0 <= q < |out| ==> out[q] == if q % n == item && q < done * n then want[q] else before[q]
  }

  lemma BatchPosition(q: nat, item: nat, n: nat, b: nat)
    requires item < n
    ensures q % n == item && q < (b + 1) * n <==> (q % n == item && q < b * n) || q == item + b * n
  {
    Distribute(b, 1, n);
    DivModUnique(b * n + item, n, b, item);
    DivMod(q, n);
    if q / n < b {
      MulMonotone(q / n + 1, b, n);
      Distribute(q / n, 1, n);
    } else if q / n > b {
      MulMonotone(b + 1, q / n, n);
    }
  }

  lemma WrittenStep(out: seq<real>, before: seq<real>, want: seq<real>, item: nat, n: nat, b: nat)
    requires item < n && Written(out, before, want, item, n, b) && item + b * n < |out|
    ensures Written(out[item + b * n := want[item + b * n]], before, want, item, n, b + 1)
  {
    forall q | 0 <= q < |out|
      ensures q % n == item && q < (b + 1) * n <==> (q % n == item && q < b * n) || q == item + b * n
    {
      BatchPosition(q, item, n, b);
    }
  }

  // Where the work-item reads and writes in batch b.
  lemma BatchIndex(d: Dims, read: nat, written: nat, item: nat, b: nat)
    requires Fits(d, read, written) && item < d.channels * d.dst && b < d.batch
    ensures var c, q := item / d.dst % d.channels, item + b * (d.channels * d.dst);
            && q < written && q / d.dst == b * d.channels + c && q % d.dst == item % d.dst
            && b * (d.channels * d.src) + c * d.src == q / d.dst * d.src
  {
    var c := item / d.dst;
    DivMod(item, d.dst);
    QuotientBelow(item, d.channels, d.dst);
    DivModUnique(c, d.channels, 0, c);
    Distribute(b * d.channels, c, d.dst);
    Distribute(b * d.channels, c, d.src);
    Reorder(b, d.channels, d.src);
    Reorder(b, d.channels, d.dst);
    DivModUnique(item + b * (d.channels * d.dst), d.dst, b * d.channels + c, item % d.dst);
    MulMonotone(b + 1, d.batch, d.channels * d.dst);
    Distribute(b, 1, d.channels * d.dst);
    Reorder(d.batch, d.channels, d.dst);
  }

  ghost function ForwardImage(v: Variant, scale: real, d: Dims, input: seq<real>, written: nat): (want: seq<real>)
    requires scale > 0.0 && Fits(d, |input|, written)
    ensures |want| == written && forall q :: 0 <= q < written ==> want[q] == ForwardPixel(v, scale, d, input, written, q)
  {
    seq(written, q requires 0 <= q < written => ForwardPixel(v, scale, d, input, written, q))
  }

  ghost function BackwardImage(v: Variant, scale: real, d: Dims, grad: seq<real>, written: nat): (want: seq<real>)
    requires scale > 0.0 && Fits(d, |grad|, written)
    ensures |want| == written && forall q :: 0 <= q < written ==> want[q] == BackwardPixel(v, scale, d, grad, written, q)
  {
    seq(written, q requires 0 <= q < written => BackwardPixel(v, scale, d, grad, written, q))
  }

  // One work-item of UpsampleNearest1dKernelFunctor.
  method ForwardItem(v: Variant, scale: real, d: Dims, input: array<real>, output: array<real>, item: nat)
    requires scale > 0.0 && Fits(d, input.Length, output.Length) && input != output
    modifies output
    ensures item >= d.channels * d.dst ==> output[..] == old(output[..])
    ensures item < d.channels * d.dst ==>
              Written(output[..], old(output[..]), ForwardImage(v, scale, d, input[..], output.Length), item, d.channels * d.dst, d.batch)
  {
    var dstIdx := item;
    var n := d.channels * d.dst;
    if dstIdx >= n {
      return;
    }
    ghost var before, want := output[..], ForwardImage(v, scale, d, input[..], output.Length);
    var c, x := dstIdx / d.dst % d.channels, dstIdx % d.dst;
    var srcX := NearestIndex(v, scale, x, d.src);
    NearestIndexInRange(v, scale, x, d.src);
    var srcIdx := c * d.src + srcX;
    var srcStride := d.channels * d.src;
    var b := 0;
    hide ForwardImage, NearestIndex;
    while b < d.batch
      invariant 0 <= b <= d.batch
      invariant dstIdx == item + b * n && srcIdx == b * srcStride + c * d.src + srcX
      invariant ForwardImage(v, scale, d, input[..], output.Length) == want
      invariant Written(output[..], before, want, item, n, b)
    {
      ForwardAt(v, scale, d, input[..], output.Length, item, b);
      WrittenStep(output[..], before, want, item, n, b);
      output[dstIdx] := input[srcIdx];
      Distribute(b, 1, srcStride);
      Distribute(b, 1, n);
      srcIdx := srcIdx + srcStride;
      dstIdx := dstIdx + n;
      b := b + 1;
    }
  }

  lemma ForwardAt(v: Variant, scale: real, d: Dims, input: seq<real>, written: nat, item: nat, b: nat)
    requires scale > 0.0 && Fits(d, |input|, written) && item < d.channels * d.dst && b < d.batch
    ensures var c, x := item / d.dst % d.channels, item % d.dst;
            var srcX, q := NearestIndex(v, scale, x, d.src), item + b * (d.channels * d.dst);
            var p := b * (d.channels * d.src) + c * d.src + srcX;
            q < written && 0 <= p < |input| && ForwardImage(v, scale, d, input, written)[q] == input[p]
  {
    var q := item + b * (d.channels * d.dst);
    BatchIndex(d, |input|, written, item, b);
    RowInside(d, |input|, written, q);
    NearestIndexInRange(v, scale, q % d.dst, d.src);
    hide NearestIndex, Fits;
    ForwardPixelAt(v, scale, d, input, written, q);
  }

  lemma ForwardPixelAt(v: Variant, scale: real, d: Dims, input: seq<real>, written: nat, q: nat)
    requires scale > 0.0 && Fits(d, |input|, written) && q < written
    ensures var p := q / d.dst * d.src + NearestIndex(v, scale, q % d.dst, d.src);
            0 <= p < |input| && ForwardPixel(v, scale, d, input, written, q) == input[p]
  {
    RowInside(d, |input|, written, q);
    RowPixel(v, scale, input, q / d.dst, d.src, d.dst, q % d.dst);
    hide NearestIndex, Fits, Row, Forward;
  }

  lemma RowPixel(v: Variant, scale: real, input: seq<real>, r: nat, src: nat, dst: nat, x: nat)
    requires scale > 0.0 && r * src + src <= |input| && src > 0 && x < dst
    ensures 0 <= NearestIndex(v, scale, x, src) < src
    ensures Forward(v, scale, Row(input, r, src), dst)[x] == input[r * src + NearestIndex(v, scale, x, src)]
  {
    NearestIndexInRange(v, scale, x, src);
    hide NearestIndex;
  }

  // The inner loop of the backward kernel.
  method SumGradients(grad: array<real>, start: nat, from: nat, to: nat, ghost row: seq<real>) returns (sum: real)
    requires from <= to <= |row| && start + |row| <= grad.Length && row == grad[start..start + |row|]
    ensures sum == Sum(row, from, to)
  {
    sum := 0.0;
    var srcIdx := start + from;
    var x := from;
    while x < to
      invariant from <= x <= to && srcIdx == start + x && sum == Sum(row, from, x)
    {
      sum := sum + grad[srcIdx];
      srcIdx := srcIdx + 1;
      x := x + 1;
    }
  }

  // One work-item of UpsampleNearest1dBackwardKernelFunctor.
  method BackwardItem(v: Variant, scale: real, d: Dims, gradOut: array<real>, gradIn: array<real>, item: nat)
    requires scale > 0.0 && Fits(d, gradOut.Length, gradIn.Length) && gradOut != gradIn
    modifies gradIn
    ensures item >= d.channels * d.dst ==> gradIn[..] == old(gradIn[..])
    ensures item < d.channels * d.dst ==>
              Written(gradIn[..], old(gradIn[..]), BackwardImage(v, scale, d, gradOut[..], gradIn.Length), item, d.channels * d.dst, d.batch)
  {
    var dstIdx := item;
    var n := d.channels * d.dst;
    if dstIdx >= n {
      return;
    }
    ghost var before, want := gradIn[..], BackwardImage(v, scale, d, gradOut[..], gradIn.Length);
    var c, x := dstIdx / d.dst % d.channels, dstIdx % d.dst;
    IntervalsOrdered(v, scale, x, d.src);
    var srcX := NearestBwIndex(v, scale, x, d.src);
    var srcXUp := NearestBwIndex(v, scale, x + 1, d.src);
    var b := 0;
    hide BackwardImage, NearestBwIndex, Written;
    while b < d.batch
      invariant 0 <= b <= d.batch && dstIdx == item + b * n
      invariant BackwardImage(v, scale, d, gradOut[..], gradIn.Length) == want
      invariant Written(gradIn[..], before, want, item, n, b)
    {
      var start := b * d.channels * d.src + c * d.src;
      ghost var row := BackwardAt(v, scale, d, gradOut[..], gradIn.Length, item, b, start);
      var grad := SumGradients(gradOut, start, srcX, srcXUp, row);
      WrittenStep(gradIn[..], before, want, item, n, b);
      gradIn[dstIdx] := grad;
      Distribute(b, 1, n);
      dstIdx := dstIdx + n;
      b := b + 1;
    }
  }

  lemma BackwardAt(v: Variant, scale: real, d: Dims, grad: seq<real>, written: nat, item: nat, b: nat, start: nat) returns (row: seq<real>)
    requires scale > 0.0 && Fits(d, |grad|, written) && item < d.channels * d.dst && b < d.batch
    requires start == b * d.channels * d.src + item / d.dst % d.channels * d.src
    ensures |row| == d.src && start + d.src <= |grad| && row == grad[start..start + d.src]
    ensures var x, q := item % d.dst, item + b * (d.channels * d.dst);
            var from, to := NearestBwIndex(v, scale, x, d.src), NearestBwIndex(v, scale, x + 1, d.src);
            q < written && 0 <= from <= to <= d.src && BackwardImage(v, scale, d, grad, written)[q] == Sum(row, from, to)
  {
    var x, q := item % d.dst, item + b * (d.channels * d.dst);
    BatchIndex(d, |grad|, written, item, b);
    RowInside(d, |grad|, written, q);
    Reorder(b, d.channels, d.src);
    IntervalsOrdered(v, scale, x, d.src);
    hide NearestBwIndex, Fits, Sum;
    row := Row(grad, q / d.dst, d.src);
    assert BackwardPixel(v, scale, d, grad, written, q) == GradAt(v, scale, row, x);
  }

  // Which work-item writes each position of the result.
  ghost function Owners(n: nat, written: nat): (owner: seq<Option<nat>>)
    requires n > 0
    ensures |owner| == written && forall q :: 0 <= q < written ==> owner[q] == Some(q % n)
  {
    seq(written, q => Some(q % n))
  }

  // The outputs between the work-items of a launch.
  ghost predicate ItemsRun(outs: seq<seq<real>>, want: seq<real>, order: seq<nat>, n: nat, batch: nat)
    requires n > 0
  {
    && |outs| == |order| + 1 && |outs[0]| == |want| == batch * n
    && (forall i :: 0 <= i < |order| ==> Written(outs[i + 1], outs[i], want, order[i], n, batch))
    && (forall item :: 0 <= item < n ==> item in order)
  }

  lemma WrittenRan(out: seq<real>, before: seq<real>, want: seq<real>, item: nat, n: nat, batch: nat)
    requires n > 0 && Written(out, before, want, item, n, batch) && |want| == batch * n
    ensures Ran(out, before, Owners(n, |want|), want, item)
  {
  }

  // Once every work-item has run, in whatever order, the result is the whole image.
  lemma LaunchCompletes(outs: seq<seq<real>>, want: seq<real>, order: seq<nat>, n: nat, batch: nat)
    requires n > 0 && ItemsRun(outs, want, order, n, batch)
    ensures outs[|order|] == want
  {
    forall i | 0 <= i < |order| ensures Ran(outs[i + 1], outs[i], Owners(n, |want|), want, order[i]) {
      WrittenRan(outs[i + 1], outs[i], want, order[i], n, batch);
    }
    hide Written, Ran;
    LaunchOutcome(outs, order, Owners(n, |want|), want);
  }

  // ---- The gradient of whole images ----

  lemma {:induction false} InnerOfRow(a: seq<real>, b: seq<real>, r: nat, width: nat, start: nat, k: nat)
    requires start == r * width && start + width <= |a| && start + width <= |b| && k <= width
    ensures Inner(a, b, start, start + k) == Inner(Row(a, r, width), Row(b, r, width), 0, k)
    decreases k
  {
    if k > 0 {
      InnerOfRow(a, b, r, width, start, k - 1);
      assert Row(a, r, width)[k - 1] == a[start + k - 1] && Row(b, r, width)[k - 1] == b[start + k - 1];
    }
  }

  predicate RowPairs(a: seq<real>, b: seq<real>, width: nat, r: nat, c: real)
  {
    r * width + width <= |a| && r * width + width <= |b| && Inner(Row(a, r, width), Row(b, r, width), 0, width) == c
  }

  // Pairing two images is pairing their rows.
  lemma {:induction false} InnerOfRows(a: seq<real>, b: seq<real>, width: nat, cs: seq<real>, n: nat)
    requires n <= |cs| && forall r :: 0 <= r < n ==> RowPairs(a, b, width, r, cs[r])
    ensures n * width <= |a| && n * width <= |b| && Inner(a, b, 0, n * width) == Sum(cs, 0, n)
    decreases n
  {
    if n > 0 {
      InnerOfRows(a, b, width, cs, n - 1);
      assert RowPairs(a, b, width, n - 1, cs[n - 1]);
      Distribute(n - 1, 1, width);
      InnerSplit(a, b, 0, (n - 1) * width, n * width);
      InnerOfRow(a, b, n - 1, width, (n - 1) * width, width);
    }
  }

  lemma RowBelow(r: nat, n: nat, width: nat)
    requires r < n
    ensures r * width + width <= n * width
  {
    MulMonotone(r + 1, n, width);
    Distribute(r, 1, width);
  }

  lemma ForwardRow(v: Variant, scale: real, d: Dims, input: seq<real>, written: nat, r: nat)
    requires scale > 0.0 && Fits(d, |input|, written) && r < d.batch * d.channels
    ensures r * d.src + d.src <= |input| && r * d.dst + d.dst <= written
    ensures Row(ForwardImage(v, scale, d, input, written), r, d.dst) == Forward(v, scale, Row(input, r, d.src), d.dst)
  {
    RowBelow(r, d.batch * d.channels, d.src);
    RowBelow(r, d.batch * d.channels, d.dst);
    var image, row := ForwardImage(v, scale, d, input, written), Forward(v, scale, Row(input, r, d.src), d.dst);
    forall k | 0 <= k < d.dst ensures image[r * d.dst + k] == row[k] {
      DivModUnique(r * d.dst + k, d.dst, r, k);
      assert image[r * d.dst + k] == ForwardPixel(v, scale, d, input, written, r * d.dst + k);
    }
  }

  lemma BackwardRow(v: Variant, scale: real, d: Dims, grad: seq<real>, written: nat, r: nat)
    requires scale > 0.0 && Fits(d, |grad|, written) && r < d.batch * d.channels
    ensures r * d.src + d.src <= |grad| && r * d.dst + d.dst <= written
    ensures Row(BackwardImage(v, scale, d, grad, written), r, d.dst) == Grads(v, scale, Row(grad, r, d.src), d.dst)
  {
    hide GradAt, NearestBwIndex, Sum, Grads;
    RowBelow(r, d.batch * d.channels, d.src);
    RowBelow(r, d.batch * d.channels, d.dst);
    var image, row := BackwardImage(v, scale, d, grad, written), Grads(v, scale, Row(grad, r, d.src), d.dst);
    forall k | 0 <= k < d.dst ensures image[r * d.dst + k] == row[k] {
      DivModUnique(r * d.dst + k, d.dst, r, k);
      assert image[r * d.dst + k] == BackwardPixel(v, scale, d, grad, written, r * d.dst + k);
    }
  }

  // What the forward launch makes of x pairs with g as x pairs with what the backward
  // launch, which exchanges the two widths, makes of g.
  ghost predicate ImagesAdjoint(v: Variant, scale: Scale, d: Dims, g: seq<real>, x: seq<real>)
    requires Fits(d, |x|, |g|)
  {
    var forward := ForwardImage(v, ForwardScale(scale, d.src, d.dst), d, x, |g|);
    var backward := BackwardImage(v, BackwardScale(scale, d.dst, d.src), Dims(d.batch, d.channels, d.dst, d.src), g, |x|);
    Inner(g, forward, 0, |g|) == Inner(backward, x, 0, |x|)
  }

  // The two pairings of row r.
  ghost predicate PairsAt(v: Variant, scale: Scale, d: Dims, g: seq<real>, x: seq<real>, r: nat, c: real, b: real)
    requires d.src > 0 && d.dst > 0
  {
    && r * d.dst + d.dst <= |g| && r * d.src + d.src <= |x|
    && var gr, xr := Row(g, r, d.dst), Row(x, r, d.src);
    && c == Inner(gr, Forward(v, ForwardScale(scale, d.src, d.dst), xr, d.dst), 0, d.dst)
    && b == Inner(Grads(v, BackwardScale(scale, d.dst, d.src), gr, d.src), xr, 0, d.src)
  }

  lemma RowPairings(v: Variant, scale: Scale, d: Dims, g: seq<real>, x: seq<real>, r: nat, c: real, b: real)
    requires Fits(d, |x|, |g|) && r < d.batch * d.channels && PairsAt(v, scale, d, g, x, r, c, b)
    ensures RowPairs(g, ForwardImage(v, ForwardScale(scale, d.src, d.dst), d, x, |g|), d.dst, r, c)
    ensures RowPairs(BackwardImage(v, BackwardScale(scale, d.dst, d.src), Dims(d.batch, d.channels, d.dst, d.src), g, |x|), x, d.src, r, b)
  {
    ForwardRow(v, ForwardScale(scale, d.src, d.dst), d, x, |g|, r);
    BackwardRow(v, BackwardScale(scale, d.dst, d.src), Dims(d.batch, d.channels, d.dst, d.src), g, |x|, r);
    hide ForwardImage, BackwardImage, ForwardScale, BackwardScale, Forward, Grads, Inner, Row, Fits;
  }

  // The pairings of whole images, from those of their rows.
  lemma PairImages(v: Variant, scale: Scale, d: Dims, g: seq<real>, x: seq<real>, cs: seq<real>, bs: seq<real>)
    requires Fits(d, |x|, |g|) && |cs| == |bs| == d.batch * d.channels
    requires forall r :: 0 <= r < |cs| ==> PairsAt(v, scale, d, g, x, r, cs[r], bs[r])
    ensures ImagesAdjoint(v, scale, d, g, x) <==> Sum(cs, 0, |cs|) == Sum(bs, 0, |bs|)
  {
    var f, s := ForwardScale(scale, d.src, d.dst), BackwardScale(scale, d.dst, d.src);
    var back := Dims(d.batch, d.channels, d.dst, d.src);
    hide RowPairs, ForwardImage, BackwardImage, ForwardScale, BackwardScale, PairsAt, Inner, Sum;
    forall r | 0 <= r < |cs|
      ensures RowPairs(g, ForwardImage(v, f, d, x, |g|), d.dst, r, cs[r])
      ensures RowPairs(BackwardImage(v, s, back, g, |x|), x, d.src, r, bs[r])
    {
      RowPairings(v, scale, d, g, x, r, cs[r], bs[r]);
    }
    InnerOfRows(g, ForwardImage(v, f, d, x, |g|), d.dst, cs, |cs|);
    InnerOfRows(BackwardImage(v, s, back, g, |x|), x, d.src, bs, |bs|);
  }

  lemma {:induction false} SumOfEqual(cs: seq<real>, n: nat, c: real)
    requires n <= |cs| && forall r :: 0 <= r < n ==> cs[r] == c
    ensures Sum(cs, 0, n) == n as real * c
  {
    if n > 0 {
      SumOfEqual(cs, n - 1, c);
    }
  }

  // The same row n times.
  function Tile(row: seq<real>, n: nat): (t: seq<real>)
    ensures |t| == n * |row|
  {
    if n == 0 then [] else Distribute(n - 1, 1, |row|); Tile(row, n - 1) + row
  }

  lemma {:induction false} TileRow(row: seq<real>, n: nat, r: nat)
    requires r < n
    ensures r * |row| + |row| <= n * |row| && Row(Tile(row, n), r, |row|) == row
    decreases n
  {
    RowBelow(r, n, |row|);
    if r < n - 1 {
      TileRow(row, n - 1, r);
      RowBelow(r, n - 1, |row|);
      assert Row(Tile(row, n), r, |row|) == Row(Tile(row, n - 1), r, |row|);
    } else {
      Distribute(n - 1, 1, |row|);
    }
  }

  lemma UnclampedImages(v: Variant, scale: Scale, d: Dims, g: seq<real>, x: seq<real>)
    requires Fits(d, |x|, |g|) && Unclamped(v, scale, d.src, d.dst)
    ensures ImagesAdjoint(v, scale, d, g, x)
  {
    var n, f := d.batch * d.channels, ForwardScale(scale, d.src, d.dst);
    forall r | 0 <= r < n ensures r * d.dst + d.dst <= |g| && r * d.src + d.src <= |x| {
      RowBelow(r, n, d.dst);
      RowBelow(r, n, d.src);
    }
    var cs := seq(n, r requires 0 <= r < n => Inner(Row(g, r, d.dst), Forward(v, f, Row(x, r, d.src), d.dst), 0, d.dst));
    forall r | 0 <= r < n ensures PairsAt(v, scale, d, g, x, r, cs[r], cs[r]) {
      UnclampedIsAdjoint(v, scale, Row(g, r, d.dst), Row(x, r, d.src));
    }
    hide *;
    PairImages(v, scale, d, g, x, cs, cs);
  }

  lemma TilePairs(v: Variant, scale: Scale, d: Dims, gr: seq<real>, xr: seq<real>, r: nat, c: real, b: real)
    requires d.src > 0 && d.dst > 0 && |gr| == d.dst && |xr| == d.src && r < d.batch * d.channels
    requires c == Inner(gr, Forward(v, ForwardScale(scale, d.src, d.dst), xr, d.dst), 0, d.dst)
    requires b == Inner(Grads(v, BackwardScale(scale, d.dst, d.src), gr, d.src), xr, 0, d.src)
    ensures PairsAt(v, scale, d, Tile(gr, d.batch * d.channels), Tile(xr, d.batch * d.channels), r, c, b)
  {
    hide Inner, Forward, Grads, ForwardScale, BackwardScale, Tile, Row;
    TileRow(gr, d.batch * d.channels, r);
    TileRow(xr, d.batch * d.channels, r);
  }

  function Repeated(c: real, n: nat): (cs: seq<real>)
    ensures |cs| == n && forall r :: 0 <= r < n ==> cs[r] == c
  {
    seq(n, _ => c)
  }

  lemma DifferentSums(n: nat, c: real, b: real)
    requires n > 0 && c != b
    ensures Sum(Repeated(c, n), 0, n) != Sum(Repeated(b, n), 0, n)
  {
    SumOfEqual(Repeated(c, n), n, c);
    SumOfEqual(Repeated(b, n), n, b);
    hide Repeated, Sum;
    var m := n as real;
    assert m * (c - b) == m * c - m * b;
    if c > b {
      assert m * (c - b) > 0.0;
    } else {
      assert m * (b - c) > 0.0 && m * (b - c) == m * b - m * c;
    }
  }

  // A whole image of equal rows.
  lemma TileImages(v: Variant, scale: Scale, d: Dims, n: nat, gr: seq<real>, xr: seq<real>, c: real, b: real)
    requires d.src > 0 && d.dst > 0 && |gr| == d.dst && |xr| == d.src && n == d.batch * d.channels && n > 0 && c != b
    requires c == Inner(gr, Forward(v, ForwardScale(scale, d.src, d.dst), xr, d.dst), 0, d.dst)
    requires b == Inner(Grads(v, BackwardScale(scale, d.dst, d.src), gr, d.src), xr, 0, d.src)
    ensures var g, x := Tile(gr, n), Tile(xr, n); Fits(d, |x|, |g|) && !ImagesAdjoint(v, scale, d, g, x)
  {
    var g, x, cs, bs := Tile(gr, n), Tile(xr, n), Repeated(c, n), Repeated(b, n);
    assert Fits(d, |x|, |g|);
    hide *;
    forall r | 0 <= r < n ensures PairsAt(v, scale, d, g, x, r, cs[r], bs[r]) {
      TilePairs(v, scale, d, gr, xr, r, c, b);
    }
    PairImages(v, scale, d, g, x, cs, bs);
    DifferentSums(n, c, b);
  }

  // Rows whose pairings differ, repeated over the whole image.
  lemma ClampedImages(v: Variant, scale: Scale, d: Dims) returns (g: seq<real>, x: seq<real>)
    requires d.src > 0 && d.dst > 0 && d.batch * d.channels > 0 && !Unclamped(v, scale, d.src, d.dst)
    ensures Fits(d, |x|, |g|) && !ImagesAdjoint(v, scale, d, g, x)
  {
    hide Unclamped, Inner, Forward, Grads, ForwardScale, BackwardScale, Tile, Fits, ImagesAdjoint;
    var gr, xr := ClampedIsNotAdjoint(v, scale, d.src, d.dst);
    g, x := Tile(gr, d.batch * d.channels), Tile(xr, d.batch * d.channels);
    var c := Inner(gr, Forward(v, ForwardScale(scale, d.src, d.dst), xr, d.dst), 0, d.dst);
    var b := Inner(Grads(v, BackwardScale(scale, d.dst, d.src), gr, d.src), xr, 0, d.src);
    TileImages(v, scale, d, d.batch * d.channels, gr, xr, c, b);
  }

  // Over all batches and channels, what the backward launch stores is the gradient of
  // what the forward launch computes, for all images of these sizes, exactly when no
  // output pixel is clamped (or the images are empty).
  lemma ImagesAdjointIff(v: Variant, scale: Scale, d: Dims)
    requires d.src > 0 && d.dst > 0
    ensures (forall g, x :: Fits(d, |x|, |g|) ==> ImagesAdjoint(v, scale, d, g, x))
            <==> Unclamped(v, scale, d.src, d.dst) || d.batch * d.channels == 0
  {
    if Unclamped(v, scale, d.src, d.dst) {
      forall g: seq<real>, x: seq<real> | Fits(d, |x|, |g|) ensures ImagesAdjoint(v, scale, d, g, x) {
        UnclampedImages(v, scale, d, g, x);
      }
    } else if d.batch * d.channels == 0 {
      forall g: seq<real>, x: seq<real> | Fits(d, |x|, |g|) ensures ImagesAdjoint(v, scale, d, g, x) {
        assert g == [] && x == [];
      }
    } else {
      var g, x := ClampedImages(v, scale, d);
    }
  }
}
