// Copies between tensors that may be lazily conjugated or negated, on the host and on
// several devices: which kernel does it, when it goes through temporaries, and what
// the destination holds in the end, also when transfers to the host are not awaited.
module LazyCopy {
  import opened Arithmetic
  import opened Collections
  import opened Complexes

  datatype Device = Cpu | Xpu(index: nat)

  datatype DType = ComplexType | RealType | IntType

  // Two tensors of the same dense layout are one block of memory for the iterator.
  datatype Layout = Contiguous | Permuted(order: nat) | Strided

  datatype Bits = Bits(conj: bool, neg: bool)

  function Neg(x: Complex): Complex { Complex(-x.re, -x.im) }

  function Apply(b: Bits, x: Complex): Complex
  {
    var y := if b.conj then Conj(x) else x;
    if b.neg then Neg(y) else y
  }

  function ApplyAll(b: Bits, xs: seq<Complex>): (ys: seq<Complex>)
    ensures |ys| == |xs|
  {
    seq(|xs|, i requires 0 <= i < |xs| => Apply(b, xs[i]))
  }

  function Difference(a: Bits, b: Bits): Bits { Bits(a.conj != b.conj, a.neg != b.neg) }

  const NO_BITS := Bits(false, false)

  function Convert(t: DType, x: Complex): Complex
  {
    match t
    case ComplexType => x
    case RealType => Complex(x.re, 0.0)
    case IntType => Complex(Trunc(x.re) as real, 0.0)
  }

  function ConvertAll(t: DType, xs: seq<Complex>): (ys: seq<Complex>)
    ensures |ys| == |xs|
  {
    seq(|xs|, i requires 0 <= i < |xs| => Convert(t, xs[i]))
  }

  // All elements are values of the type.
  predicate Typed(t: DType, xs: seq<Complex>)
  {
    forall i :: 0 <= i < |xs| ==> Convert(t, xs[i]) == xs[i]
  }

  // ---- Laws ----

  lemma ApplyTwice(a: Bits, b: Bits, x: Complex)
    ensures Apply(a, Apply(b, x)) == Apply(Difference(a, b), x) && Apply(NO_BITS, x) == x
  {
  }

  // What the bits mean.
  lemma BitsMean(x: Complex)
    ensures Apply(Bits(true, false), x) == Conj(x)
    ensures Add(Apply(Bits(false, true), x), x) == ZERO && Add(Apply(Bits(true, true), x), Conj(x)) == ZERO
  {
  }

  lemma ConvertCommutes(t: DType, b: Bits, x: Complex)
    ensures Apply(b, Convert(t, x)) == Convert(t, Apply(b, x))
  {
    TruncNegates(x.re);
  }

  lemma TruncNegates(x: real)
    ensures Trunc(-x) == -Trunc(x)
  {
  }

  lemma ConvertIdempotent(t: DType, x: Complex)
    ensures Convert(t, Convert(t, x)) == Convert(t, x)
  {
    TruncOfInt(Trunc(x.re));
    hide Trunc;
  }

  lemma TruncOfInt(n: int)
    ensures Trunc(n as real) == n
  {
  }

  // A transfer to a host tensor that was queued and has not happened yet.  It comes when
  // the host has accessed the tensor `delay` more times, at the latest at the end.
  datatype Transfer = Transfer(raw: seq<Complex>, delay: nat)

  class Tensor {
    const dtype: DType
    const device: Device
    const layout: Layout
    var raw: seq<Complex>    // in the order of the logical indices
    var bits: Bits
    var pending: Option<Transfer>

    ghost predicate Valid()
      reads this
    {
      && Typed(dtype, raw)
      && (pending.Some? ==> device.Cpu? && |pending.value.raw| == |raw| && Typed(dtype, pending.value.raw))
    }

    // What the next access of the host finds.
    ghost function SeenRaw(): (seen: seq<Complex>)
      requires Valid()
      reads this
      ensures |seen| == |raw| && Typed(dtype, seen)
    {
      if pending.Some? && pending.value.delay == 0 then pending.value.raw else raw
    }

    ghost function Seen(): (values: seq<Complex>)
      requires Valid()
      reads this
      ensures |values| == |raw|
    {
      ApplyAll(bits, SeenRaw())
    }

    // What the tensor holds when everything has arrived.
    ghost function Final(): (values: seq<Complex>)
      requires Valid()
      reads this
      ensures |values| == |raw|
    {
      ApplyAll(bits, if pending.Some? then pending.value.raw else raw)
    }

    ghost function StillPending(): Option<Transfer>
      reads this
    {
      if pending.Some? && pending.value.delay > 0 then Some(Transfer(pending.value.raw, pending.value.delay - 1)) else None
    }

    // Before the host accesses the tensor.
    method Touch()
      requires Valid()
      modifies `raw, `pending
      ensures Valid() && raw == old(SeenRaw()) && pending == old(StillPending())
    {
      if pending.Some? {
        if pending.value.delay == 0 {
          raw := pending.value.raw;
          pending := None;
        } else {
          pending := Some(Transfer(pending.value.raw, pending.value.delay - 1));
        }
      }
    }

    function Values(): (values: seq<Complex>)
      reads this
      ensures |values| == |raw|
    {
      ApplyAll(bits, raw)
    }

    constructor (dtype: DType, device: Device, layout: Layout, raw: seq<Complex>, bits: Bits)
      ensures this.dtype == dtype && this.device == device && this.layout == layout && this.raw == raw && this.bits == bits
      ensures pending == None
    {
      this.dtype, this.device, this.layout, this.raw, this.bits, pending := dtype, device, layout, raw, bits, None;
    }
  }

  // Which source element each destination element is copied from; the identity unless
  // the source is broadcast.
  type IndexMap = seq<nat>

  predicate Into(m: IndexMap, n: nat)
  {
    forall i :: 0 <= i < |m| ==> m[i] < n
  }

  predicate IsIdentity(m: IndexMap, n: nat)
  {
    |m| == n && forall i :: 0 <= i < n ==> m[i] == i
  }

  function Identity(n: nat): (m: IndexMap)
    ensures IsIdentity(m, n) && Into(m, n)
  {
    seq(n, i requires 0 <= i < n => i)
  }

  function Gather(xs: seq<Complex>, m: IndexMap): (ys: seq<Complex>)
    requires Into(m, |xs|)
    ensures |ys| == |m|
  {
    seq(|m|, i requires 0 <= i < |m| => xs[m[i]])
  }

  // What the destination should hold.
  function Wanted(t: DType, values: seq<Complex>, m: IndexMap): (want: seq<Complex>)
    requires Into(m, |values|)
    ensures |want| == |m|
  {
    ConvertAll(t, Gather(values, m))
  }

  // Each element comes from the one that the index map names; a complex number keeps its
  // value, a real one its real part, and an integer the real part without its fraction.
  lemma WantedElement(t: DType, values: seq<Complex>, m: IndexMap, i: nat)
    requires Into(m, |values|) && i < |m|
    ensures var x, y := values[m[i]], Wanted(t, values, m)[i];
            match t
            case ComplexType => y == x
            case RealType => y.re == x.re && y.im == 0.0
            case IntType =>
              && y.im == 0.0 && y.re == y.re.Floor as real
              && (x.re >= 0.0 ==> 0.0 <= y.re <= x.re < y.re + 1.0) && (x.re <= 0.0 ==> y.re - 1.0 < x.re <= y.re <= 0.0)
  {
    TruncTowardsZero(values[m[i]].re);
    hide Trunc;
  }

  // ---- expand_as ----

  // The element with coordinates c of the expanded tensor comes from here: a dimension of
  // size 1 has one element for all steps.
  function Clamp(from: seq<nat>, c: seq<nat>): (d: seq<nat>)
    requires |from| == |c|
    ensures |d| == |c|
  {
    seq(|c|, k requires 0 <= k < |c| => if from[k] == 1 then 0 else c[k])
  }

  predicate Expands(from: seq<nat>, to: seq<nat>)
  {
    |from| == |to| && forall k :: 0 <= k < |to| ==> from[k] == to[k] || from[k] == 1
  }

  function ExpandIndex(from: seq<nat>, to: seq<nat>, i: nat): nat
    requires Expands(from, to) && i < Product(to)
  {
    if to == [] then 0 else
      var n := |to| - 1;
      LastSize(to, i);
      ExpandIndex(from[..n], to[..n], i / to[n]) * from[n] + if from[n] == 1 then 0 else i % to[n]
  }

  lemma LastSize(to: seq<nat>, i: nat)
    requires to != [] && i < Product(to)
    ensures var n := |to| - 1; to[n] > 0 && 0 <= i / to[n] < Product(to[..n]) && 0 <= i % to[n]
  {
    var n := |to| - 1;
    assert to[n] == 0 ==> Product(to) == 0;
    QuotientBelow(i, Product(to[..n]), to[n]);
    DivMod(i, to[n]);
  }

  // The index map by which a tensor of shape `from` is expanded to shape `to`.
  function ExpandMap(from: seq<nat>, to: seq<nat>): (m: IndexMap)
    requires Expands(from, to)
    ensures |m| == Product(to)
  {
    seq(Product(to), i requires 0 <= i < Product(to) => ExpandIndex(from, to, i))
  }

  lemma {:induction false} ExpandAt(from: seq<nat>, to: seq<nat>, c: seq<nat>)
    requires Expands(from, to) && InShape(to, c)
    ensures Linear(to, c) < Product(to) && InShape(from, Clamp(from, c))
    ensures ExpandIndex(from, to, Linear(to, c)) == Linear(from, Clamp(from, c))
    decreases |c|
  {
    LinearBelow(to, c);
    if c != [] {
      var n := |c| - 1;
      ExpandAt(from[..n], to[..n], c[..n]);
      assert Clamp(from, c)[..n] == Clamp(from[..n], c[..n]);
      DivModUnique(Linear(to, c), to[n], Linear(to[..n], c[..n]), c[n]);
    }
  }

  // Broadcasting is such an index map: every element of the expanded tensor gets the
  // element at the same coordinates, with 0 where the source has one step.
  lemma ExpandMapRight(from: seq<nat>, to: seq<nat>, t: DType, values: seq<Complex>, c: seq<nat>)
    requires Expands(from, to) && InShape(to, c) && |values| == Product(from)
    ensures Into(ExpandMap(from, to), |values|)
    ensures Linear(to, c) < Product(to) && Linear(from, Clamp(from, c)) < |values|
    ensures Wanted(t, values, ExpandMap(from, to))[Linear(to, c)] == Convert(t, values[Linear(from, Clamp(from, c))])
  {
    forall i | 0 <= i < Product(to) ensures ExpandIndex(from, to, i) < Product(from) {
      ExpandInside(from, to, i);
    }
    ExpandAt(from, to, c);
    LinearBelow(from, Clamp(from, c));
    hide Convert, ExpandIndex, Linear, Product, Clamp;
  }

  lemma {:induction false} ExpandInside(from: seq<nat>, to: seq<nat>, i: nat)
    requires Expands(from, to) && i < Product(to)
    ensures ExpandIndex(from, to, i) < Product(from)
    decreases |to|
  {
    if to != [] {
      var n := |to| - 1;
      LastSize(to, i);
      ExpandInside(from[..n], to[..n], i / to[n]);
      DivMod(i, to[n]);
      TwoDigits(ExpandIndex(from[..n], to[..n], i / to[n]), Product(from[..n]), if from[n] == 1 then 0 else i % to[n], from[n]);
    }
  }

  // iter.is_contiguous().
  predicate OneBlock(dst: Tensor, src: Tensor, m: IndexMap)
    reads src
  {
    dst.layout == src.layout && !src.layout.Strided? && IsIdentity(m, |src.raw|)
  }

  predicate AcrossDevices(dst: Device, src: Device)
  {
    dst.Xpu? && src.Xpu? && dst != src
  }

  // copy_requires_temporaries.
  predicate RequiresTemporaries(dst: Tensor, src: Tensor, m: IndexMap, p2p: bool)
    requires dst.device.Xpu? || src.device.Xpu?
    reads src
  {
    if dst.device == src.device then false
    else if AcrossDevices(dst.device, src.device) then !p2p
    else if dst.dtype == src.dtype && OneBlock(dst, src, m) then false
    else true
  }

  // The direct copies are those on one device, between devices of which the destination can
  // reach the source, and of whole unexpanded blocks of one type to or from the host.
  lemma TemporariesIff(dst: Tensor, src: Tensor, m: IndexMap, p2p: bool)
    requires dst.device.Xpu? || src.device.Xpu?
    ensures !RequiresTemporaries(dst, src, m, p2p) <==>
            || dst.device == src.device
            || (dst.device.Xpu? && src.device.Xpu? && p2p)
            || (&& (dst.device.Cpu? || src.device.Cpu?) && dst.dtype == src.dtype && dst.layout == src.layout != Strided
                && |m| == |src.raw| && forall i :: 0 <= i < |m| ==> m[i] == i)
  {
  }

  // ---- Direct copies ----

  // The four kernels: they convert, and flip what differs between the two tensors.
  lemma KernelValue(t: DType, dstBits: Bits, srcBits: Bits, x: Complex)
    ensures Apply(dstBits, Convert(t, Apply(Difference(dstBits, srcBits), x))) == Convert(t, Apply(srcBits, x))
    ensures Convert(t, Convert(t, Apply(Difference(dstBits, srcBits), x))) == Convert(t, Apply(Difference(dstBits, srcBits), x))
  {
    var d := Difference(dstBits, srcBits);
    ConvertCommutes(t, dstBits, Apply(d, x));
    ApplyTwice(dstBits, d, x);
    ConvertIdempotent(t, Apply(d, x));
    assert Difference(dstBits, d) == srcBits;
    hide Apply, Convert;
  }

  method RunKernel(dst: Tensor, src: Tensor, m: IndexMap, flip: Bits)
    requires |m| == |dst.raw| && Into(m, |src.raw|) && flip == Difference(dst.bits, src.bits) && dst.pending.None?
    modifies dst`raw
    ensures dst.Valid() && dst.Values() == Wanted(dst.dtype, old(src.Values()), m)
  {
    ghost var n := |dst.raw|;
    ghost var was, to, from := src.raw, dst.bits, src.bits;
    dst.raw := ConvertAll(dst.dtype, ApplyAll(flip, Gather(src.raw, m)));
    forall i | 0 <= i < n
      ensures Apply(to, dst.raw[i]) == Convert(dst.dtype, Apply(from, was[m[i]])) && Convert(dst.dtype, dst.raw[i]) == dst.raw[i]
    {
      KernelValue(dst.dtype, to, from, was[m[i]]);
    }
    hide Apply, Convert, Difference;
  }

  lemma BlockValues(t: DType, xs: seq<Complex>, m: IndexMap)
    requires IsIdentity(m, |xs|) && Into(m, |xs|)
    ensures Gather(xs, m) == xs && (Typed(t, xs) ==> ConvertAll(t, xs) == xs)
  {
  }

  // copy_device_to_device.
  method CopyDeviceToDevice(dst: Tensor, src: Tensor, m: IndexMap)
    requires |m| == |dst.raw| && Into(m, |src.raw|) && dst.Valid() && src.Valid() && dst.pending.None?
    modifies dst`raw
    ensures dst.Valid() && dst.Values() == Wanted(dst.dtype, old(src.Values()), m)
  {
    if |dst.raw| == 0 {
      return;
    }
    var sameType := dst.dtype == src.dtype;
    var sameConj := dst.bits.conj == src.bits.conj;
    var sameNeg := dst.bits.neg == src.bits.neg;
    if sameType && sameConj && sameNeg && OneBlock(dst, src, m) {
      MemcpyValues(dst.dtype, src.raw, src.bits, m);
      dst.raw := src.raw;
    } else {
      RunKernel(dst, src, m, if sameNeg then if !sameConj then Bits(true, false) else Bits(false, false)
                             else if !sameConj then Bits(true, true) else Bits(false, true));
    }
  }

  // Copying the block of raw values is enough when the types agree.
  lemma MemcpyValues(t: DType, raw: seq<Complex>, b: Bits, m: IndexMap)
    requires IsIdentity(m, |raw|) && Into(m, |raw|) && Typed(t, raw)
    ensures ApplyAll(b, raw) == Wanted(t, ApplyAll(b, raw), m)
  {
    BlockValues(t, ApplyAll(b, raw), m);
    forall i | 0 <= i < |raw| ensures Convert(t, ApplyAll(b, raw)[i]) == ApplyAll(b, raw)[i] {
      ConvertCommutes(t, b, raw[i]);
    }
    hide Apply, Convert;
  }

  // conj_physical_ and neg_ on the destination.
  method FlipInPlace(dst: Tensor, flip: Bits)
    requires dst.Valid()
    modifies dst`raw, dst`pending
    ensures dst.Valid() && dst.raw == ApplyAll(flip, old(dst.SeenRaw())) && dst.pending == old(dst.StillPending())
  {
    dst.Touch();
    ghost var seen := dst.raw;
    forall i | 0 <= i < |seen| ensures Convert(dst.dtype, Apply(flip, seen[i])) == Apply(flip, seen[i]) {
      ConvertCommutes(dst.dtype, flip, seen[i]);
    }
    hide Apply, Convert;
    dst.raw := ApplyAll(flip, dst.raw);
  }

  // How many flips there are, and which of them come before a transfer that waits for
  // `delay` of them: first the conjugation, then the negation.
  function Count(flip: Bits): nat
  {
    (if flip.conj then 1 else 0) + if flip.neg then 1 else 0
  }

  function Skipped(flip: Bits, delay: nat): Bits
  {
    if delay == 0 then NO_BITS else if delay == 1 && flip.conj then Bits(true, false) else flip
  }

  // A transfer that is there before the first flip misses none, one after the last misses
  // all, and one in between misses the conjugation.
  lemma SkippedInOrder(flip: Bits, delay: nat)
    ensures delay == 0 ==> Skipped(flip, delay) == NO_BITS
    ensures delay >= Count(flip) ==> Skipped(flip, delay) == flip
    ensures 0 < delay < Count(flip) ==> Skipped(flip, delay) == Bits(true, false)
  {
  }

  // The flips that come after it.
  function Remaining(flip: Bits, delay: nat, xs: seq<Complex>): (ys: seq<Complex>)
    ensures |ys| == |xs|
  {
    var ys := if flip.conj && delay == 0 then ApplyAll(Bits(true, false), xs) else xs;
    if flip.neg && delay <= (if flip.conj then 1 else 0) then ApplyAll(Bits(false, true), ys) else ys
  }

  lemma FlipsCancel(to: Bits, from: Bits, x: Complex, delay: nat)
    ensures var flip := Difference(to, from);
            var y := if flip.conj && delay == 0 then Apply(Bits(true, false), x) else x;
            var z := if flip.neg && delay <= (if flip.conj then 1 else 0) then Apply(Bits(false, true), y) else y;
            Apply(to, z) == Apply(Skipped(flip, delay), Apply(from, x))
  {
  }

  // What differs in the end is what was flipped too early.
  lemma RemainingCancel(to: Bits, from: Bits, xs: seq<Complex>, delay: nat)
    ensures ApplyAll(to, Remaining(Difference(to, from), delay, xs)) == ApplyAll(Skipped(Difference(to, from), delay), ApplyAll(from, xs))
    ensures delay == 0 ==> ApplyAll(to, Remaining(Difference(to, from), delay, xs)) == ApplyAll(from, xs)
  {
    ApplyNone(ApplyAll(from, xs));
    forall i | 0 <= i < |xs|
      ensures Apply(to, Remaining(Difference(to, from), delay, xs)[i]) == Apply(Skipped(Difference(to, from), delay), Apply(from, xs[i]))
    {
      FlipsCancel(to, from, xs[i], delay);
    }
    hide Apply, Skipped, Difference;
  }

  lemma ApplyNone(xs: seq<Complex>)
    ensures ApplyAll(NO_BITS, xs) == xs
  {
  }

  // The host's flips on a tensor to which a transfer may be pending.
  method Flip(dst: Tensor, flip: Bits)
    requires dst.Valid()
    modifies dst`raw, dst`pending
    ensures dst.Valid() && |dst.raw| == old(|dst.raw|)
    ensures old(dst.pending).None? ==> dst.pending.None? && dst.raw == Remaining(flip, 0, old(dst.raw))
    ensures old(dst.pending).Some? ==>
              var x := old(dst.pending.value);
              && (if dst.pending.Some? then dst.pending.value.raw else dst.raw) == Remaining(flip, x.delay, x.raw)
              && dst.SeenRaw() == if x.delay <= Count(flip) then Remaining(flip, x.delay, x.raw) else Remaining(flip, 0, old(dst.raw))
  {
    hide ApplyAll, Typed;
    if flip.conj {
      FlipInPlace(dst, Bits(true, false));
    }
    if flip.neg {
      FlipInPlace(dst, Bits(false, true));
    }
  }

  // A tensor that is read: a transfer to it may arrive meanwhile.
  twostate predicate Kept(t: Tensor)
    reads t
  {
    && t.bits == old(t.bits) && |t.raw| == old(|t.raw|)
    && (old(t.pending).None? ==> t.pending.None? && t.raw == old(t.raw))
  }

  // The copy between host and device: raw bytes, then the bits that differ.  A
  // non-blocking transfer to the host is only queued before the host flips them.
  method CopyHostDevice(dst: Tensor, src: Tensor, m: IndexMap, nonBlocking: bool, delay: nat)
    requires dst != src && |m| == |dst.raw| && Into(m, |src.raw|) && dst.Valid() && src.Valid() && dst.pending.None?
    requires dst.dtype == src.dtype && OneBlock(dst, src, m) && dst.device.Cpu? != src.device.Cpu?
    modifies dst`raw, dst`pending, src`raw, src`pending
    ensures dst.Valid() && src.Valid() && |dst.raw| == old(|dst.raw|) && src.raw == old(src.SeenRaw())
    ensures Kept(src)
    ensures !(nonBlocking && dst.device.Cpu?) ==> dst.pending.None? && dst.Values() == Wanted(dst.dtype, old(src.Seen()), m)
    ensures nonBlocking && dst.device.Cpu? ==>
              var flip := Difference(dst.bits, src.bits);
              && dst.Final() == ApplyAll(Skipped(flip, delay), Wanted(dst.dtype, old(src.Seen()), m))
              && dst.Seen() == if delay <= Count(flip) then dst.Final() else ApplyAll(src.bits, old(dst.raw))
  {
    ghost var to, from, was, stale := dst.bits, src.bits, src.SeenRaw(), dst.raw;
    var flip := Difference(dst.bits, src.bits);
    MemcpyValues(dst.dtype, was, from, m);
    RemainingCancel(to, from, was, delay);
    RemainingCancel(to, from, was, 0);
    RemainingCancel(to, from, stale, 0);
    hide ApplyAll, Remaining, Skipped, Count, Wanted, Difference, Typed;
    if nonBlocking && dst.device.Cpu? {
      dst.pending := Some(Transfer(src.raw, delay));
    } else {
      src.Touch();
      dst.raw := src.raw;
    }
    Flip(dst, flip);
  }

  // ---- Copies through temporaries ----

  // Which devices can reach each other's memory, whether converting or making a tensor
  // contiguous carries out its lazy bits when it has to copy (`resolves`), or keeps the
  // raw values as the code that restores the bits afterwards relies on, what
  // uninitialised memory holds, and how long transfers to the host take.
  datatype Runtime = Runtime(p2p: (nat, nat) -> bool, resolves: bool, blank: Complex, delay: nat)

  // maybe_enable_p2p_access.
  function PeerAccess(rt: Runtime, dst: Device, src: Device): bool
  {
    dst.Xpu? && src.Xpu? && rt.p2p(src.index, dst.index)
  }

  // to(t).expand_as(dst).contiguous() makes a copy.
  predicate Copies(src: Tensor, t: DType, m: IndexMap)
    reads src
  {
    src.dtype != t || !src.layout.Contiguous? || !IsIdentity(m, |src.raw|)
  }

  method Materialise(src: Tensor, t: DType, m: IndexMap, rt: Runtime) returns (s: Tensor)
    requires Into(m, |src.raw|) && src.Valid()
    modifies src`raw, src`pending
    ensures src.Valid() && Kept(src)
    ensures s.dtype == t && s.device == src.device && s.layout.Contiguous? && s.Valid() && |s.raw| == |m|
    ensures if old(Copies(src, t, m)) then fresh(s) && s.pending.None? else s == src
    ensures s.SeenRaw() == if old(Copies(src, t, m)) && rt.resolves then Wanted(t, old(src.Seen()), m) else ConvertAll(t, Gather(old(src.SeenRaw()), m))
  {
    ConvertAllTyped(t, Gather(src.SeenRaw(), m));
    if Copies(src, t, m) {
      src.Touch();
      var values := if rt.resolves then src.Values() else src.raw;
      ConvertAllTyped(t, Gather(values, m));
      s := new Tensor(t, src.device, Contiguous, ConvertAll(t, Gather(values, m)), if rt.resolves then NO_BITS else src.bits);
    } else {
      BlockValues(t, src.SeenRaw(), m);
      s := src;
    }
  }

  lemma ConvertAllTyped(t: DType, xs: seq<Complex>)
    ensures Typed(t, ConvertAll(t, xs))
  {
    forall i | 0 <= i < |xs| ensures Convert(t, Convert(t, xs[i])) == Convert(t, xs[i]) {
      ConvertIdempotent(t, xs[i]);
    }
    hide Convert;
  }

  // Converting in two steps, and under the bits.
  lemma StagedValues(t: DType, b: Bits, raw: seq<Complex>, m: IndexMap)
    requires Into(m, |raw|)
    ensures ApplyAll(b, ConvertAll(t, Gather(raw, m))) == Wanted(t, ApplyAll(b, raw), m)
  {
    forall i | 0 <= i < |m| ensures Apply(b, Convert(t, raw[m[i]])) == Convert(t, Apply(b, raw[m[i]])) {
      ConvertCommutes(t, b, raw[m[i]]);
    }
    hide Apply, Convert;
  }

  // Whether the source's bits are carried out twice.
  predicate Doubled(dst: Tensor, src: Tensor, m: IndexMap, rt: Runtime, nonBlocking: bool)
    requires dst.device.Xpu? || src.device.Xpu?
    reads src
  {
    && RequiresTemporaries(dst, src, m, PeerAccess(rt, dst.device, src.device))
    && rt.resolves
    && Copies(src, if dst.device.Xpu? || nonBlocking then dst.dtype else src.dtype, m)
  }

  // How far a copy is from a direct one.
  function Rank(dst: Tensor, src: Tensor, m: IndexMap, rt: Runtime): nat
    reads src
  {
    if dst.device.Cpu? && src.device.Cpu? then 0
    else if !RequiresTemporaries(dst, src, m, PeerAccess(rt, dst.device, src.device)) then 1
    else if AcrossDevices(dst.device, src.device) then 3
    else 2
  }

  // What the destination ends up holding.
  function Outcome(t: DType, values: seq<Complex>, b: Bits, m: IndexMap, doubled: bool): (out: seq<Complex>)
    requires Into(m, |values|)
    ensures |out| == |m|
  {
    if doubled then ApplyAll(b, Wanted(t, values, m)) else Wanted(t, values, m)
  }

  // The value of the first temporary, and what copying it on makes of it.
  lemma FirstTemporary(s: seq<Complex>, src: seq<Complex>, b: Bits, t: DType, m: IndexMap, doubled: bool)
    requires Into(m, |src|)
    requires s == if doubled then Wanted(t, ApplyAll(b, src), m) else ConvertAll(t, Gather(src, m))
    ensures ApplyAll(b, s) == Outcome(t, ApplyAll(b, src), b, m, doubled)
  {
    StagedValues(t, b, src, m);
  }

  lemma OutcomePlain(t: DType, values: seq<Complex>, b: Bits, m: IndexMap)
    requires Into(m, |values|)
    ensures Outcome(t, values, b, m, false) == Wanted(t, values, m)
  {
  }

  lemma OutcomeConverted(t: DType, u: DType, values: seq<Complex>, b: Bits, m: IndexMap, doubled: bool)
    requires Into(m, |values|) && (t == u || Typed(t, values))
    ensures Wanted(u, Outcome(t, values, b, m, doubled), Identity(|m|)) == Outcome(u, values, b, m, doubled)
  {
    forall i | 0 <= i < |m|
      ensures Convert(u, Convert(t, values[m[i]])) == Convert(u, values[m[i]])
      ensures Convert(u, Apply(b, Convert(t, values[m[i]]))) == Apply(b, Convert(u, values[m[i]]))
    {
      if t == u {
        ConvertIdempotent(t, values[m[i]]);
      }
      ConvertCommutes(u, b, Convert(t, values[m[i]]));
    }
    hide Apply, Convert;
  }

  lemma ValuesTyped(t: DType, b: Bits, raw: seq<Complex>)
    requires Typed(t, raw)
    ensures Typed(t, ApplyAll(b, raw))
  {
    forall i | 0 <= i < |raw| ensures Convert(t, Apply(b, raw[i])) == Apply(b, raw[i]) {
      ConvertCommutes(t, b, raw[i]);
    }
    hide Apply, Convert;
  }

  // How the values get to where they are read next: every access finds them, or a
  // transfer to the destination itself may still be pending, or one to a host temporary
  // that is read at once.
  datatype Route = Synchronous | Landing | CopiedBack

  function RouteOf(dst: Tensor, src: Tensor, m: IndexMap, rt: Runtime, nonBlocking: bool): Route
    reads src
  {
    if !nonBlocking || src.device.Cpu? then Synchronous
    else if dst.device.Xpu? then
      if RequiresTemporaries(dst, src, m, PeerAccess(rt, dst.device, src.device)) then CopiedBack else Synchronous
    else if RequiresTemporaries(dst, src, m, false) && !dst.layout.Contiguous? then CopiedBack
    else Landing
  }

  // Uninitialised memory of n elements.
  function Blank(t: DType, x: Complex, n: nat): (raw: seq<Complex>)
    ensures |raw| == n
  {
    seq(n, _ => Convert(t, x))
  }

  // What the destination holds when everything has arrived.  The host flips what differs
  // between the bits `to` and `from`: a transfer that comes after some of the flips misses
  // them, and one that comes after the temporary was read is never seen.
  function Delivered(route: Route, t: DType, values: seq<Complex>, to: Bits, from: Bits, m: IndexMap, doubled: bool, rt: Runtime): (out: seq<Complex>)
    requires Into(m, |values|)
    ensures |out| == |m|
  {
    var flip := Difference(to, from);
    if route.Synchronous? then Outcome(t, values, from, m, doubled)
    else if route.CopiedBack? && rt.delay > Count(flip) then ApplyAll(from, Blank(t, rt.blank, |m|))
    else ApplyAll(Skipped(flip, rt.delay), Outcome(t, values, from, m, doubled))
  }

  predicate MayDouble(dst: Tensor, src: Tensor, m: IndexMap, rt: Runtime, nonBlocking: bool)
    reads src
  {
    (dst.device.Xpu? || src.device.Xpu?) && Doubled(dst, src, m, rt, nonBlocking)
  }

  predicate Direct(dst: Tensor, src: Tensor, m: IndexMap, rt: Runtime)
    reads src
  {
    (dst.device.Xpu? || src.device.Xpu?) ==> !RequiresTemporaries(dst, src, m, PeerAccess(rt, dst.device, src.device))
  }

  // dst.copy_(src): the host copies between host tensors itself.
  method Copy(dst: Tensor, src: Tensor, m: IndexMap, nonBlocking: bool, rt: Runtime)
    requires dst != src && |m| == |dst.raw| && Into(m, |src.raw|) && dst.Valid() && src.Valid() && dst.pending.None?
    modifies dst, src
    ensures dst.Valid() && src.Valid() && dst.bits == old(dst.bits) && |dst.raw| == |m| && Kept(src)
    ensures var route := old(RouteOf(dst, src, m, rt, nonBlocking));
            && (route.Synchronous? ==> dst.pending.None?)
            && dst.Final() == Delivered(route, dst.dtype, old(src.Seen()), dst.bits, src.bits, m, old(MayDouble(dst, src, m, rt, nonBlocking)), rt)
            && (route.Landing? && old(Direct(dst, src, m, rt)) ==> SeenAfter(dst, src.bits, old(dst.raw), rt.delay))
    decreases Rank(dst, src, m, rt), 2
  {
    if dst.device.Cpu? && src.device.Cpu? {
      src.Touch();
      RunKernel(dst, src, m, Difference(dst.bits, src.bits));
    } else {
      CopyXpu(dst, src, m, nonBlocking, rt);
    }
  }

  // What a host access finds after a direct transfer.
  ghost predicate SeenAfter(dst: Tensor, from: Bits, stale: seq<Complex>, delay: nat)
    requires dst.Valid()
    reads dst
  {
    dst.Seen() == if delay <= Count(Difference(dst.bits, from)) then dst.Final() else ApplyAll(from, stale)
  }

  lemma DirectDelivery(dst: Tensor, t: DType, values: seq<Complex>, to: Bits, from: Bits, m: IndexMap, rt: Runtime)
    requires Into(m, |values|)
    ensures Delivered(Synchronous, t, values, to, from, m, false, rt) == Wanted(t, values, m)
    ensures Delivered(Landing, t, values, to, from, m, false, rt) == ApplyAll(Skipped(Difference(to, from), rt.delay), Wanted(t, values, m))
  {
  }

  // _copy_xpu.
  method CopyXpu(dst: Tensor, src: Tensor, m: IndexMap, nonBlocking: bool, rt: Runtime)
    requires dst != src && |m| == |dst.raw| && Into(m, |src.raw|) && dst.Valid() && src.Valid() && dst.pending.None?
    requires dst.device.Xpu? || src.device.Xpu?
    modifies dst, src
    ensures dst.Valid() && src.Valid() && dst.bits == old(dst.bits) && |dst.raw| == |m| && Kept(src)
    ensures var route := old(RouteOf(dst, src, m, rt, nonBlocking));
            && (route.Synchronous? ==> dst.pending.None?)
            && dst.Final() == Delivered(route, dst.dtype, old(src.Seen()), dst.bits, src.bits, m, old(Doubled(dst, src, m, rt, nonBlocking)), rt)
            && (route.Landing? && old(Direct(dst, src, m, rt)) ==> SeenAfter(dst, src.bits, old(dst.raw), rt.delay))
    decreases Rank(dst, src, m, rt), 1
  {
    if RequiresTemporaries(dst, src, m, PeerAccess(rt, dst.device, src.device)) {
      CopyThroughTemporaries(dst, src, m, nonBlocking, rt);
    } else {
      DirectDelivery(dst, dst.dtype, src.Seen(), dst.bits, src.bits, m, rt);
      hide Wanted, Delivered, ApplyAll, Skipped, Count, Typed, Difference;
      if dst.device.Xpu? && src.device.Xpu? {
        CopyDeviceToDevice(dst, src, m);
      } else {
        CopyHostDevice(dst, src, m, nonBlocking, rt.delay);
      }
    }
  }

  // dst_contig and src_contig, with the bits of the two tensors.
  method MakeTemporaries(dst: Tensor, src: Tensor, m: IndexMap, nonBlocking: bool, t: DType, rt: Runtime) returns (d: Tensor, s: Tensor)
    requires dst != src && |m| == |dst.raw| && Into(m, |src.raw|) && dst.Valid() && src.Valid() && dst.pending.None?
    requires t == if dst.device.Xpu? || nonBlocking then dst.dtype else src.dtype
    modifies dst`bits, src
    ensures dst.Valid() && src.Valid() && dst.bits == old(dst.bits) && Kept(src)
    ensures if d == dst then dst.layout.Contiguous? && dst.dtype == t else fresh(d) && d.raw == Blank(t, rt.blank, |m|)
    ensures dst.layout.Contiguous? && (dst.device.Xpu? || nonBlocking || dst.dtype == src.dtype) && d.device == dst.device ==> d == dst
    ensures d.Valid() && d.dtype == t && d.layout.Contiguous? && |d.raw| == |m| && d.pending.None? && d.bits == dst.bits
    ensures d.device == if (dst.device.Xpu? || nonBlocking) && AcrossDevices(dst.device, src.device) then Cpu else dst.device
    ensures (s == src || (fresh(s) && s != d)) && s.dtype == t && s.device == src.device && s.layout.Contiguous? && s.Valid() && |s.raw| == |m|
    ensures s.bits == src.bits
    ensures s.Seen() == Outcome(t, old(src.Seen()), src.bits, m, rt.resolves && old(Copies(src, t, m)))
  {
    ghost var raw, was, doubled := src.SeenRaw(), src.bits, rt.resolves && Copies(src, t, m);
    hide Wanted, Outcome, ApplyAll, ConvertAll, Gather, Typed, Tensor.SeenRaw, Copies, Blank;
    d := PickDestination(dst, src, nonBlocking, t, rt);
    s := Materialise(src, t, m, rt);
    d.bits := dst.bits;
    s.bits := src.bits;
    FirstTemporary(s.SeenRaw(), raw, was, t, m, doubled);
  }

  method CopyThroughTemporaries(dst: Tensor, src: Tensor, m: IndexMap, nonBlocking: bool, rt: Runtime)
    requires dst != src && |m| == |dst.raw| && Into(m, |src.raw|) && dst.Valid() && src.Valid() && dst.pending.None?
    requires dst.device.Xpu? || src.device.Xpu?
    requires RequiresTemporaries(dst, src, m, PeerAccess(rt, dst.device, src.device))
    modifies dst, src
    ensures dst.Valid() && src.Valid() && dst.bits == old(dst.bits) && |dst.raw| == |m| && Kept(src)
    ensures var route := old(RouteOf(dst, src, m, rt, nonBlocking));
            && (route.Synchronous? ==> dst.pending.None?)
            && dst.Final() == Delivered(route, dst.dtype, old(src.Seen()), dst.bits, src.bits, m, old(Doubled(dst, src, m, rt, nonBlocking)), rt)
    decreases Rank(dst, src, m, rt), 0, 1
  {
    ghost var values, was := src.Seen(), src.bits;
    var t := if dst.device.Xpu? || nonBlocking then dst.dtype else src.dtype;
    ghost var doubled := rt.resolves && Copies(src, t, m);
    ghost var rank := Rank(dst, src, m, rt);
    assert doubled == Doubled(dst, src, m, rt, nonBlocking);
    ValuesTyped(src.dtype, was, src.SeenRaw());
    hide Wanted, Outcome, Delivered, ApplyAll, Typed, Tensor.SeenRaw, Tensor.Seen, Tensor.Final, Copies, OneBlock, Doubled, Blank;
    var dstContig, srcContig := MakeTemporaries(dst, src, m, nonBlocking, t, rt);
    StagesRankLower(dst, src, m, rt, dstContig, srcContig, nonBlocking);
    hide RequiresTemporaries, PeerAccess;
    RunStages(dst, dstContig, srcContig, nonBlocking, rt, rank, t, values, was, m, doubled);
  }

  // The route of a copy through these temporaries.
  function StagesRoute(dst: Tensor, d: Tensor, s: Tensor, nonBlocking: bool): Route
  {
    if !nonBlocking || s.device.Cpu? || d.device.Xpu? then Synchronous else if d == dst then Landing else CopiedBack
  }

  // The first copy is direct, and the second awaits everything.
  predicate StageRoutes(dst: Tensor, d: Tensor, s: Tensor, rt: Runtime, nonBlocking: bool)
    reads dst, d, s
  {
    var one := Identity(|dst.raw|);
    && RouteOf(d, s, one, rt, nonBlocking) == StagesRoute(d, d, s, nonBlocking) && Direct(d, s, one, rt)
    && (d != dst ==> RouteOf(dst, d, one, rt, nonBlocking) == Synchronous)
  }

  lemma TypedStays(t: DType, xs: seq<Complex>, b: Bits)
    requires Typed(t, xs)
    ensures Typed(t, ApplyAll(b, xs)) && Wanted(t, ApplyAll(b, xs), Identity(|xs|)) == ApplyAll(b, xs)
  {
    ValuesTyped(t, b, xs);
    BlockValues(t, ApplyAll(b, xs), Identity(|xs|));
  }

  lemma OutcomeTyped(t: DType, values: seq<Complex>, b: Bits, m: IndexMap, doubled: bool)
    requires Into(m, |values|)
    ensures Typed(t, Outcome(t, values, b, m, doubled))
  {
    ConvertAllTyped(t, Gather(values, m));
    ValuesTyped(t, b, Wanted(t, values, m));
  }

  lemma BlankTyped(t: DType, x: Complex, n: nat)
    ensures Typed(t, Blank(t, x, n))
  {
    ConvertIdempotent(t, x);
  }

  // The first copy delivers the first temporary's value, as far as it arrives in time.
  lemma StageValues(route: Route, t: DType, values: seq<Complex>, to: Bits, was: Bits, m: IndexMap, doubled: bool, rt: Runtime)
    requires Into(m, |values|) && !route.CopiedBack?
    ensures var x := Outcome(t, values, was, m, doubled);
            Delivered(route, t, x, to, was, Identity(|m|), false, rt) == Delivered(route, t, values, to, was, m, doubled, rt)
  {
    var x := Outcome(t, values, was, m, doubled);
    OutcomeConverted(t, t, values, was, m, doubled);
    OutcomePlain(t, x, was, Identity(|m|));
    hide Outcome, Wanted, ApplyAll, Skipped;
  }

  // The second copy delivers what it sees of the first one.
  lemma SecondStage(route: Route, u: DType, t: DType, seen: seq<Complex>, final: seq<Complex>, values: seq<Complex>,
                    to: Bits, was: Bits, m: IndexMap, doubled: bool, rt: Runtime)
    requires Into(m, |values|) && !route.Landing? && (t == u || Typed(t, values)) && (route.CopiedBack? ==> t == u)
    requires final == Delivered(if route.CopiedBack? then Landing else Synchronous, t, values, to, was, m, doubled, rt)
    requires seen == if route.Synchronous? || rt.delay <= Count(Difference(to, was)) then final else ApplyAll(was, Blank(t, rt.blank, |m|))
    ensures |seen| == |m| && Wanted(u, seen, Identity(|m|)) == Delivered(route, u, values, to, was, m, doubled, rt)
  {
    OutcomeConverted(t, u, values, was, m, doubled);
    OutcomeTyped(u, values, was, m, doubled);
    TypedStays(u, Outcome(u, values, was, m, doubled), Skipped(Difference(to, was), rt.delay));
    BlankTyped(u, rt.blank, |m|);
    TypedStays(u, Blank(u, rt.blank, |m|), was);
    hide Outcome, Wanted, ApplyAll, Skipped, Blank, Typed, Count, Difference;
  }

  lemma NothingPending(t: Tensor)
    requires t.Valid()
    ensures t.pending.None? ==> t.Seen() == t.Final()
  {
  }

  // dst_contig.copy_(src_contig), then dst.copy_(dst_contig) if they differ.
  method RunStages(dst: Tensor, d: Tensor, s: Tensor, nonBlocking: bool, rt: Runtime,
                   ghost rank: nat, ghost t: DType, ghost values: seq<Complex>, ghost was: Bits, ghost m: IndexMap, ghost doubled: bool)
    requires dst != s && d != s && |dst.raw| == |d.raw| == |s.raw| == |m| && dst.Valid() && d.Valid() && s.Valid()
    requires dst.pending.None? && d.pending.None? && d.bits == dst.bits && s.bits == was
    requires d.dtype == t && (d == dst || (nonBlocking && s.device.Xpu?) ==> t == dst.dtype) && (d != dst ==> d.raw == Blank(t, rt.blank, |m|))
    requires Into(m, |values|) && (t == dst.dtype || Typed(t, values)) && s.Seen() == Outcome(t, values, was, m, doubled)
    requires Lower(d, s, rt, nonBlocking, rank) && Lower(dst, d, rt, nonBlocking, rank) && StageRoutes(dst, d, s, rt, nonBlocking)
    modifies dst, d, s
    ensures dst.Valid() && s.Valid() && dst.bits == old(dst.bits) && |dst.raw| == |m| && Kept(s)
    ensures var route := StagesRoute(dst, d, s, nonBlocking);
            && (route.Synchronous? ==> dst.pending.None?)
            && dst.Final() == Delivered(route, dst.dtype, values, dst.bits, was, m, doubled, rt)
    decreases rank, 0, 0
  {
    var one := Identity(|dst.raw|);
    ghost var to := dst.bits;
    hide Wanted, Outcome, Delivered, ApplyAll, ConvertAll, Gather, Typed, Tensor.SeenRaw, Tensor.Seen, Tensor.Final, Blank, Count, Difference;
    StageValues(StagesRoute(d, d, s, nonBlocking), t, values, to, was, m, doubled, rt);
    Copy(d, s, one, nonBlocking, rt);
    NothingPending(d);
    if d != dst {
      DirectDelivery(dst, dst.dtype, d.Seen(), to, to, one, rt);
      SecondStage(StagesRoute(dst, d, s, nonBlocking), dst.dtype, t, d.Seen(), d.Final(), values, to, was, m, doubled, rt);
      Copy(dst, d, one, nonBlocking, rt);
    }
  }

  // A copy of the same size below this rank that carries no bits out twice.
  predicate Lower(dst: Tensor, src: Tensor, rt: Runtime, nonBlocking: bool, rank: nat)
    reads dst, src
  {
    var one := Identity(|dst.raw|);
    Rank(dst, src, one, rt) < rank && !((dst.device.Xpu? || src.device.Xpu?) && Doubled(dst, src, one, rt, nonBlocking))
  }

  // Both copies that replace one with temporaries have a lower rank, neither carries bits
  // out twice, and only the first one can be awaited too little.
  lemma StagesRankLower(dst: Tensor, src: Tensor, m: IndexMap, rt: Runtime, d: Tensor, s: Tensor, nonBlocking: bool)
    requires |m| == |dst.raw| == |d.raw| == |s.raw| && (dst.device.Xpu? || src.device.Xpu?)
    requires RequiresTemporaries(dst, src, m, PeerAccess(rt, dst.device, src.device))
    requires d.layout.Contiguous? && s.layout.Contiguous? && d.dtype == s.dtype && s.device == src.device
    requires d.dtype == if dst.device.Xpu? || nonBlocking then dst.dtype else src.dtype
    requires d.device == if (dst.device.Xpu? || nonBlocking) && AcrossDevices(dst.device, src.device) then Cpu else dst.device
    requires d == dst ==> dst.layout.Contiguous? && d.device == dst.device
    requires nonBlocking && dst.layout.Contiguous? && d.device == dst.device ==> d == dst
    ensures Lower(d, s, rt, nonBlocking, Rank(dst, src, m, rt)) && Lower(dst, d, rt, nonBlocking, Rank(dst, src, m, rt))
    ensures StageRoutes(dst, d, s, rt, nonBlocking)
    ensures StagesRoute(dst, d, s, nonBlocking) == RouteOf(dst, src, m, rt, nonBlocking)
  {
  }

  // dst_contig: dst itself where it can serve, else an empty contiguous tensor.
  method PickDestination(dst: Tensor, src: Tensor, nonBlocking: bool, t: DType, rt: Runtime) returns (d: Tensor)
    requires dst.Valid() && t == (if dst.device.Xpu? || nonBlocking then dst.dtype else src.dtype)
    ensures if d == dst then dst.layout.Contiguous? && dst.dtype == t else fresh(d) && d.raw == Blank(t, rt.blank, |dst.raw|) && d.pending.None?
    ensures dst.layout.Contiguous? && (dst.device.Xpu? || nonBlocking || dst.dtype == src.dtype) && d.device == dst.device ==> d == dst
    ensures d.Valid() && d.dtype == t && d.layout.Contiguous? && |d.raw| == |dst.raw|
    ensures d.device == if (dst.device.Xpu? || nonBlocking) && AcrossDevices(dst.device, src.device) then Cpu else dst.device
  {
    var blank := Blank(t, rt.blank, |dst.raw|);
    BlankTyped(t, rt.blank, |dst.raw|);
    d := dst;
    if dst.device.Xpu? || nonBlocking {
      if AcrossDevices(dst.device, src.device) {
        d := new Tensor(t, Cpu, Contiguous, blank, NO_BITS);
      } else if !dst.layout.Contiguous? {
        d := new Tensor(t, dst.device, Contiguous, blank, NO_BITS);
      }
    } else if !(dst.layout.Contiguous? && dst.dtype == src.dtype) {
      d := new Tensor(t, dst.device, Contiguous, blank, NO_BITS);
    }
  }

  // ---- When the copy is right ----

  // Carrying the bits out changes some value of type `from` that is converted to `to`.
  predicate Matters(b: Bits, from: DType, to: DType)
  {
    b.neg || (b.conj && from.ComplexType? && to.ComplexType?)
  }

  // For all contents of a source of type `from`, whatever uninitialised memory holds and
  // however long transfers take.
  ghost predicate AlwaysRight(route: Route, from: DType, t: DType, to: Bits, was: Bits, doubled: bool)
  {
    forall values: seq<Complex>, m: IndexMap, rt: Runtime :: Into(m, |values|) && Typed(from, values) ==>
      Delivered(route, t, values, to, was, m, doubled, rt) == Wanted(t, values, m)
  }

  // The copy is right exactly when the bits are not carried out twice, no host temporary
  // is read that a queued transfer fills, and the host flips nothing to which a transfer
  // is pending (or these bits change nothing).
  lemma RightIff(route: Route, from: DType, t: DType, to: Bits, was: Bits, doubled: bool)
    ensures AlwaysRight(route, from, t, to, was, doubled) <==>
            && (doubled ==> !Matters(was, from, t))
            && !route.CopiedBack? && (route.Landing? ==> !Matters(Difference(to, was), from, t))
  {
    if doubled && Matters(was, from, t) {
      WrongWhenDoubled(route, from, t, to, was);
    } else if route.CopiedBack? {
      WrongWhenUnseen(from, t, to, was, doubled);
    } else if route.Landing? && Matters(Difference(to, was), from, t) {
      WrongWhenSkipped(from, t, to, was, doubled);
    } else {
      forall values: seq<Complex>, m: IndexMap, rt: Runtime | Into(m, |values|) && Typed(from, values)
        ensures Delivered(route, t, values, to, was, m, doubled, rt) == Wanted(t, values, m)
      {
        RightWhenNothingMatters(route, from, t, values, to, was, m, doubled, rt);
      }
    }
  }

  // One element.
  function Probe(from: DType): seq<Complex> { [Convert(from, Complex(1.0, 1.0))] }

  function WithDelay(delay: nat): Runtime { Runtime((i: nat, j: nat) => false, true, ZERO, delay) }

  lemma ProbeTyped(from: DType)
    ensures Typed(from, Probe(from)) && Into([0], |Probe(from)|)
  {
    ConvertIdempotent(from, Complex(1.0, 1.0));
  }

  lemma ProbeWanted(from: DType, t: DType, b: Bits)
    ensures Into([0], |Probe(from)|) && |Wanted(t, Probe(from), [0])| == 1 && Wanted(t, Probe(from), [0])[0].re == 1.0
    ensures Matters(b, from, t) <==> ApplyAll(b, Wanted(t, Probe(from), [0])) != Wanted(t, Probe(from), [0])
  {
    TruncOfInt(1);
    var x := Convert(t, Convert(from, Complex(1.0, 1.0)));
    assert Wanted(t, Probe(from), [0]) == [x] && ApplyAll(b, [x]) == [Apply(b, x)];
    assert x == Complex(1.0, if from.ComplexType? && t.ComplexType? then 1.0 else 0.0);
  }

  lemma WrongOnce(route: Route, from: DType, t: DType, values: seq<Complex>, to: Bits, was: Bits, m: IndexMap, doubled: bool, rt: Runtime)
    requires Into(m, |values|) && Typed(from, values) && Delivered(route, t, values, to, was, m, doubled, rt) != Wanted(t, values, m)
    ensures !AlwaysRight(route, from, t, to, was, doubled)
  {
    hide Into, Typed, Delivered, Wanted;
  }

  lemma WrongWhenDoubled(route: Route, from: DType, t: DType, to: Bits, was: Bits)
    requires Matters(was, from, t)
    ensures !AlwaysRight(route, from, t, to, was, true)
  {
    hide *;
    ProbeTyped(from);
    ProbeWanted(from, t, was);
    NoDelay(route, t, Probe(from), to, was, [0]);
    WrongOnce(route, from, t, Probe(from), to, was, [0], true, WithDelay(0));
  }

  lemma WrongWhenUnseen(from: DType, t: DType, to: Bits, was: Bits, doubled: bool)
    ensures !AlwaysRight(CopiedBack, from, t, to, was, doubled)
  {
    hide *;
    ProbeTyped(from);
    ProbeWanted(from, t, was);
    NothingArrives(t, Probe(from), to, was, doubled);
    WrongOnce(CopiedBack, from, t, Probe(from), to, was, [0], doubled, WithDelay(3));
  }

  lemma WrongWhenSkipped(from: DType, t: DType, to: Bits, was: Bits, doubled: bool)
    requires Matters(Difference(to, was), from, t) && (doubled ==> !Matters(was, from, t))
    ensures !AlwaysRight(Landing, from, t, to, was, doubled)
  {
    hide *;
    ProbeTyped(from);
    ProbeWanted(from, t, was);
    ProbeWanted(from, t, Difference(to, was));
    OutcomeIs(t, Probe(from), was, [0], doubled);
    FlipsComeFirst(t, Probe(from), to, was, [0], doubled);
    WrongOnce(Landing, from, t, Probe(from), to, was, [0], doubled, WithDelay(3));
  }

  lemma OutcomeIs(t: DType, values: seq<Complex>, b: Bits, m: IndexMap, doubled: bool)
    requires Into(m, |values|)
    ensures Outcome(t, values, b, m, doubled) == if doubled then ApplyAll(b, Wanted(t, values, m)) else Wanted(t, values, m)
  {
    hide ApplyAll, Wanted;
  }

  // Everything arrives at once.
  lemma NoDelay(route: Route, t: DType, values: seq<Complex>, to: Bits, was: Bits, m: IndexMap)
    requires Into(m, |values|)
    ensures Delivered(route, t, values, to, was, m, true, WithDelay(0)) == ApplyAll(was, Wanted(t, values, m))
  {
    OutcomeIs(t, values, was, m, true);
    ApplyNone(Outcome(t, values, was, m, true));
    hide ApplyAll, Wanted, Outcome;
  }

  lemma BlankProbe(t: DType, b: Bits)
    ensures ApplyAll(b, Blank(t, ZERO, 1))[0].re == 0.0
  {
    TruncOfInt(0);
    assert Blank(t, ZERO, 1)[0] == Convert(t, ZERO) == ZERO;
    hide Blank, Convert;
  }

  // Reading a blank temporary.
  lemma NothingArrives(t: DType, values: seq<Complex>, to: Bits, was: Bits, doubled: bool)
    requires Into([0], |values|)
    ensures Delivered(CopiedBack, t, values, to, was, [0], doubled, WithDelay(3))[0].re == 0.0
  {
    BlankProbe(t, was);
    hide ApplyAll, Blank, Outcome, Skipped, Difference;
  }

  // Flipping before anything arrives.
  lemma FlipsComeFirst(t: DType, values: seq<Complex>, to: Bits, was: Bits, m: IndexMap, doubled: bool)
    requires Into(m, |values|)
    ensures Delivered(Landing, t, values, to, was, m, doubled, WithDelay(3)) == ApplyAll(Difference(to, was), Outcome(t, values, was, m, doubled))
  {
    hide ApplyAll, Outcome;
  }

  lemma NoEffect(from: DType, t: DType, b: Bits, values: seq<Complex>, m: IndexMap)
    requires Into(m, |values|) && Typed(from, values) && !Matters(b, from, t)
    ensures ApplyAll(b, Wanted(t, values, m)) == Wanted(t, values, m)
  {
    forall i | 0 <= i < |m| ensures Apply(b, Convert(t, values[m[i]])) == Convert(t, values[m[i]]) {
      assert Convert(from, values[m[i]]) == values[m[i]];
      NoEffectAt(from, t, b, values[m[i]]);
    }
    hide Apply, Convert;
  }

  lemma NoEffectAt(from: DType, t: DType, b: Bits, x: Complex)
    requires Convert(from, x) == x && !Matters(b, from, t)
    ensures Apply(b, Convert(t, x)) == Convert(t, x)
  {
    hide Trunc;
  }

  lemma RightWhenNothingMatters(route: Route, from: DType, t: DType, values: seq<Complex>, to: Bits, was: Bits, m: IndexMap,
                                doubled: bool, rt: Runtime)
    requires Into(m, |values|) && Typed(from, values) && (doubled ==> !Matters(was, from, t))
    requires !route.CopiedBack? && (route.Landing? ==> !Matters(Difference(to, was), from, t))
    ensures Delivered(route, t, values, to, was, m, doubled, rt) == Wanted(t, values, m)
  {
    if doubled {
      NoEffect(from, t, was, values, m);
    }
    if route.Landing? {
      NoEffect(from, t, Skipped(Difference(to, was), rt.delay), values, m);
    }
    hide ApplyAll, Wanted, Typed;
  }

  // A non-contiguous conjugated source, copied to the device by a runtime that resolves:
  // it arrives conjugated once too often.
  method ConjugatedTwice(rt: Runtime) returns (dst: Tensor)
    requires rt.resolves
    ensures fresh(dst) && dst.pending.None? && dst.Values() == [Complex(0.0, 1.0)]
  {
    var src := new Tensor(ComplexType, Cpu, Strided, [Complex(0.0, 1.0)], Bits(true, false));
    dst := new Tensor(ComplexType, Xpu(0), Contiguous, [ZERO], NO_BITS);
    assert src.Values() == [Complex(0.0, -1.0)];
    ghost var values := src.Values();
    assert Doubled(dst, src, [0], rt, false);
    CopyXpu(dst, src, [0], false, rt);
    assert Wanted(ComplexType, values, [0]) == [Complex(0.0, -1.0)];
    assert ApplyAll(Bits(true, false), [Complex(0.0, -1.0)]) == [Complex(0.0, 1.0)];
  }

  // A conjugated device tensor holding -i, copied to a plain host tensor without waiting:
  // if the transfer comes after the host has conjugated, i arrives.
  method LandsAfterTheFlip(rt: Runtime) returns (dst: Tensor)
    requires rt.delay > 0
    ensures fresh(dst) && dst.Valid() && dst.Final() == [Complex(0.0, 1.0)]
  {
    var src := new Tensor(ComplexType, Xpu(0), Contiguous, [Complex(0.0, 1.0)], Bits(true, false));
    dst := new Tensor(ComplexType, Cpu, Contiguous, [ZERO], NO_BITS);
    assert src.Seen() == [Complex(0.0, -1.0)];
    assert !RequiresTemporaries(dst, src, [0], false) && RouteOf(dst, src, [0], rt, true) == Landing;
    LateConjugate(rt);
    hide ApplyAll, Wanted, Delivered, Doubled;
    CopyXpu(dst, src, [0], true, rt);
  }

  lemma LateConjugate(rt: Runtime)
    requires rt.delay > 0
    ensures Delivered(Landing, ComplexType, [Complex(0.0, -1.0)], NO_BITS, Bits(true, false), [0], false, rt) == [Complex(0.0, 1.0)]
  {
    assert Wanted(ComplexType, [Complex(0.0, -1.0)], [0]) == [Complex(0.0, -1.0)];
    assert ApplyAll(Bits(true, false), [Complex(0.0, -1.0)]) == [Complex(0.0, 1.0)];
  }
}
