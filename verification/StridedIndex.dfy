// Linear ids, offsets and slices of a strided tensor.
module StridedIndex {
  import opened Arithmetic

  const MAX_DIMS := 12

  // How many elements lie inside, and outside, one step of dimension d.
  function Inner(sizes: seq<nat>, d: nat): nat
    requires d < |sizes|
  {
    Product(sizes[d + 1..])
  }

  function Outer(sizes: seq<nat>, d: nat): nat
    requires d < |sizes|
  {
    Product(sizes[..d])
  }

  // All dimensions that an offset is reduced by.
  predicate Positive(sizes: seq<nat>)
  {
    forall i :: 0 <= i < |sizes| ==> sizes[i] > 0
  }

  // The offset of linear id `id`: peel off the fastest dimension.
  function Offset(sizes: seq<nat>, strides: seq<nat>, id: nat): nat
    requires |sizes| == |strides| > 0 && Positive(sizes)
  {
    var n := |sizes| - 1;
    if n == 0 then id * strides[0] else
      (id % sizes[n]) * strides[n] + Offset(sizes[..n], strides[..n], id / sizes[n])
  }

  class TensorInfo {
    const sizes: array<nat>
    const strides: array<nat>
    const dims: nat
    const isContiguous: bool
    const isStrictContiguous: bool

    ghost predicate Valid()
      reads this
    {
      dims <= MAX_DIMS == sizes.Length == strides.Length && sizes != strides
    }

    ghost function Sizes(): (s: seq<nat>)
      requires Valid()
      reads this, sizes
      ensures |s| == dims
    {
      sizes[..dims]
    }

    ghost function Strides(): (s: seq<nat>)
      requires Valid()
      reads this, strides
      ensures |s| == dims
    {
      strides[..dims]
    }

    // Copies the geometry, checking from the last dimension on whether each stride is
    // the product of the later sizes.
    constructor (sz: seq<nat>, st: seq<nat>)
      requires |sz| == |st| <= MAX_DIMS
      ensures Valid() && fresh(sizes) && fresh(strides)
      ensures Sizes() == sz && Strides() == st
      ensures isContiguous <==> forall i :: 0 <= i < |sz| ==> st[i] == Inner(sz, i)
      ensures isStrictContiguous <==> |sz| == 1 && st[0] == 1
    {
      var n := |sz|;
      var newSizes, newStrides := new nat[MAX_DIMS], new nat[MAX_DIMS];
      var contiguous := true;
      var z := 1;
      var i := n;
      while i > 0
        invariant 0 <= i <= n
        invariant forall j :: i <= j < n ==> newSizes[j] == sz[j] && newStrides[j] == st[j]
        invariant contiguous <==> forall j :: i <= j < n ==> st[j] == Inner(sz, j)
        invariant contiguous ==> z == Product(sz[i..])
      {
        i := i - 1;
        newSizes[i] := sz[i];
        newStrides[i] := st[i];
        ProductFront(sz[i..]);
        assert sz[i..][1..] == sz[i + 1..];
        if contiguous && newStrides[i] == z {
          z := z * newSizes[i];
        } else {
          contiguous := false;
        }
      }
      sizes, strides := newSizes, newStrides;
      dims := n;
      isContiguous := contiguous;
      isStrictContiguous := n == 1 && newStrides[0] == 1;
      new;
      assert Sizes() == sz && Strides() == st;
    }

    method ReduceDim(d: nat)
      requires Valid() && d < dims
      modifies sizes
      ensures Sizes() == old(Sizes())[d := 1] && Strides() == old(Strides())
    {
      sizes[d] := 1;
    }

    method InnerSize(d: nat) returns (size: nat)
      requires Valid() && d < dims
      ensures size == Inner(Sizes(), d)
    {
      size := 1;
      var i := dims - 1;
      while i > d
        invariant d <= i < dims
        invariant size == Product(Sizes()[i + 1..])
      {
        ProductFront(Sizes()[i..]);
        assert Sizes()[i..][1..] == Sizes()[i + 1..];
        size := size * sizes[i];
        i := i - 1;
      }
    }

    method OuterSize(d: nat) returns (size: nat)
      requires Valid() && d < dims
      ensures size == Outer(Sizes(), d)
    {
      size := 1;
      for i := 0 to d
        invariant size == Product(Sizes()[..i])
      {
        assert Sizes()[..i + 1][..i] == Sizes()[..i];
        size := size * sizes[i];
      }
    }

    // IndexToOffset::get, for static and dynamic dimensions alike.
    method Get(id: nat) returns (offset: nat)
      requires Valid() && dims > 0 && Positive(Sizes())
      ensures offset == Offset(Sizes(), Strides(), id)
    {
      offset := 0;
      var linearId := id;
      var i := dims - 1;
      ghost var sz, st := Sizes(), Strides();
      assert sz[..dims] == sz && st[..dims] == st;
      while i > 0
        invariant 0 <= i < dims
        invariant offset + Offset(sz[..i + 1], st[..i + 1], linearId) == Offset(sz, st, id)
      {
        assert sz[i] == sizes[i] > 0 && st[i] == strides[i];
        hide *;
        offset, linearId := PeelDimension(sz, st, i, linearId, sizes[i], strides[i], offset);
        i := i - 1;
      }
      OffsetOfOne(sz, st, linearId);
      offset := offset + linearId * strides[0];
    }
  }

  lemma OffsetPeel(sizes: seq<nat>, strides: seq<nat>, i: nat, id: nat)
    requires |sizes| == |strides| && 0 < i < |sizes| && Positive(sizes)
    ensures Offset(sizes[..i + 1], strides[..i + 1], id)
            == (id % sizes[i]) * strides[i] + Offset(sizes[..i], strides[..i], id / sizes[i])
  {
    assert sizes[..i + 1][..i] == sizes[..i] && strides[..i + 1][..i] == strides[..i];
  }

  // One round of the loop in get.
  method PeelDimension(ghost sizes: seq<nat>, ghost strides: seq<nat>, ghost i: nat, id: nat, size: nat, stride: nat, before: nat)
    returns (offset: nat, linearId: nat)
    requires |sizes| == |strides| && 0 < i < |sizes| && Positive(sizes) && size == sizes[i] > 0 && stride == strides[i]
    ensures offset + Offset(sizes[..i], strides[..i], linearId) == before + Offset(sizes[..i + 1], strides[..i + 1], id)
  {
    OffsetPeel(sizes, strides, i, id);
    NatDivMod(id, size);
    hide Offset;
    var curDimIndex := id % size;
    var curDimOffset := curDimIndex * stride;
    offset := before + curDimOffset;
    linearId := id / size;
  }

  lemma OffsetOfOne(sizes: seq<nat>, strides: seq<nat>, id: nat)
    requires |sizes| == |strides| > 0 && Positive(sizes)
    ensures Offset(sizes[..1], strides[..1], id) == id * strides[0]
  {
  }

  // The sum of the coordinates times the strides.
  function Along(c: seq<nat>, strides: seq<nat>): nat
    requires |c| == |strides|
  {
    if c == [] then 0 else Along(c[..|c| - 1], strides[..|c| - 1]) + c[|c| - 1] * strides[|c| - 1]
  }

  // The linear id of the element with coordinates c has the offset that the strides
  // give those coordinates.
  lemma {:induction false} OffsetOfCoordinates(sizes: seq<nat>, strides: seq<nat>, c: seq<nat>)
    requires |sizes| == |strides| > 0 && Positive(sizes) && InShape(sizes, c)
    ensures Offset(sizes, strides, Linear(sizes, c)) == Along(c, strides)
  {
    var n := |c| - 1;
    assert sizes[..0] == [] && c[..0] == [] && strides[..0] == [];
    if n > 0 {
      OffsetOfCoordinates(sizes[..n], strides[..n], c[..n]);
      DivModUnique(Linear(sizes, c), sizes[n], Linear(sizes[..n], c[..n]), c[n]);
    }
  }

  lemma {:induction false} ProductFront(s: seq<nat>)
    requires s != []
    ensures Product(s) == Product(s[1..]) * s[0]
  {
    var n := |s| - 1;
    if n > 0 {
      ProductFront(s[..n]);
      assert s[..n][1..] == s[1..][..n - 1] && s[1..][n - 1] == s[n];
      Reorder(Product(s[1..n]), s[0], s[n]);
    } else {
      assert s[1..] == [] && s[..0] == [];
    }
  }

  lemma {:induction false} ProductPositive(s: seq<nat>)
    requires Positive(s)
    ensures Product(s) > 0
  {
    if s != [] {
      ProductPositive(s[..|s| - 1]);
      MulMonotone(1, Product(s[..|s| - 1]), s[|s| - 1]);
    }
  }

  lemma {:induction false} ProductSplit(s: seq<nat>, i: nat)
    requires i <= |s|
    ensures Product(s) == Product(s[..i]) * Product(s[i..])
  {
    if i < |s| {
      var n := |s| - 1;
      ProductSplit(s[..n], i);
      assert s[..n][..i] == s[..i] && s[..n][i..] == s[i..][..n - i] && s[i..][n - i] == s[n];
      Reorder(Product(s[..i]), Product(s[i..n]), s[n]);
    } else {
      assert s[..i] == s && s[i..] == [];
    }
  }

  // The last dimension multiplies every inner size before it.
  lemma InnerPeel(sizes: seq<nat>, d: nat)
    requires d < |sizes| - 1
    ensures Inner(sizes, d) == Inner(sizes[..|sizes| - 1], d) * sizes[|sizes| - 1]
  {
    var n := |sizes| - 1;
    assert sizes[d + 1..][..n - d - 1] == sizes[..n][d + 1..];
  }

  // ---- Contiguity ----

  // Every dimension that has more than one step has the contiguous stride, up to a
  // common factor u.
  predicate Contiguous(sizes: seq<nat>, strides: seq<nat>, u: nat)
    requires |sizes| == |strides|
  {
    forall i :: 0 <= i < |sizes| && sizes[i] > 1 ==> strides[i] == Inner(sizes, i) * u
  }

  lemma {:induction false} ContiguousScales(sizes: seq<nat>, strides: seq<nat>, u: nat, id: nat)
    requires |sizes| == |strides| > 0 && Positive(sizes) && Contiguous(sizes, strides, u) && id < Product(sizes)
    ensures Offset(sizes, strides, id) == id * u
  {
    var n := |sizes| - 1;
    var c := sizes[n];
    assert sizes[n + 1..] == [];
    if n == 0 {
      assert sizes[..0] == [];
    } else {
      forall i | 0 <= i < n && sizes[..n][i] > 1 ensures strides[..n][i] == Inner(sizes[..n], i) * (c * u) {
        InnerPeel(sizes, i);
        Reorder(Inner(sizes[..n], i), c, u);
      }
      QuotientBelow(id, Product(sizes[..n]), c);
      ContiguousScales(sizes[..n], strides[..n], c * u, id / c);
      DivMod(id, c);
      Reorder(id / c, c, u);
      Distribute(id / c * c, id % c, u);
      if c == 1 {
        assert id % c == 0;
      }
    }
  }

  lemma {:induction false} OffsetOfZero(sizes: seq<nat>, strides: seq<nat>)
    requires |sizes| == |strides| > 0 && Positive(sizes)
    ensures Offset(sizes, strides, 0) == 0
  {
    if |sizes| > 1 {
      OffsetOfZero(sizes[..|sizes| - 1], strides[..|sizes| - 1]);
    }
  }

  // One step along dimension d moves the offset by its stride.
  lemma {:induction false} UnitStep(sizes: seq<nat>, strides: seq<nat>, d: nat)
    requires |sizes| == |strides| && d < |sizes| && Positive(sizes) && sizes[d] > 1
    ensures Offset(sizes, strides, Inner(sizes, d)) == strides[d]
    ensures Inner(sizes, d) < Product(sizes)
  {
    var n := |sizes| - 1;
    var c := sizes[n];
    ProductPositive(sizes[..n]);
    if d == n {
      assert sizes[n + 1..] == [];
      MulMonotone(1, Product(sizes[..n]), c);
      DivModUnique(1, c, 0, 1);
      if n > 0 {
        OffsetOfZero(sizes[..n], strides[..n]);
      }
    } else {
      var inner := Inner(sizes[..n], d);
      UnitStep(sizes[..n], strides[..n], d);
      InnerPeel(sizes, d);
      DivModUnique(inner * c, c, inner, 0);
      MulMonotone(inner + 1, Product(sizes[..n]), c);
      Distribute(inner, 1, c);
    }
  }

  // The offset is the id itself, for all elements, exactly when every dimension of
  // more than one step has the product of the later sizes as its stride.
  lemma IdentityIffContiguous(sizes: seq<nat>, strides: seq<nat>)
    requires |sizes| == |strides| > 0 && Positive(sizes)
    ensures (forall id :: 0 <= id < Product(sizes) ==> Offset(sizes, strides, id) == id) <==> Contiguous(sizes, strides, 1)
  {
    if Contiguous(sizes, strides, 1) {
      forall id | 0 <= id < Product(sizes) ensures Offset(sizes, strides, id) == id {
        ContiguousScales(sizes, strides, 1, id);
      }
    } else {
      var d :| 0 <= d < |sizes| && sizes[d] > 1 && strides[d] != Inner(sizes, d) * 1;
      UnitStep(sizes, strides, d);
    }
  }

  // The flag the constructor computes asks this of dimensions of size 1 too.  So it
  // implies the identity, and where it is unset the offset may still be the identity:
  // exactly when only dimensions of size 1 have another stride.
  lemma FlagAndIdentity(sizes: seq<nat>, strides: seq<nat>)
    requires |sizes| == |strides| > 0 && Positive(sizes)
    ensures (forall i :: 0 <= i < |sizes| ==> strides[i] == Inner(sizes, i)) ==>
              forall id :: 0 <= id < Product(sizes) ==> Offset(sizes, strides, id) == id
    ensures (forall id :: 0 <= id < Product(sizes) ==> Offset(sizes, strides, id) == id) ==>
              forall i :: 0 <= i < |sizes| && strides[i] != Inner(sizes, i) ==> sizes[i] == 1
  {
    IdentityIffContiguous(sizes, strides);
  }

  // One element with stride 5: the flag is unset, yet the only offset is the identity.
  lemma UnsetFlagOnIdentity()
    ensures [5][0] != Inner([1], 0)
    ensures forall id :: 0 <= id < Product([1]) ==> Offset([1], [5], id) == id
  {
    assert [1][1..] == [] && [1][..0] == [];
    IdentityIffContiguous([1], [5]);
  }

  // ---- Slices along a reduced dimension ----

  // Element k of slice s along a dimension of the given size, as a linear id of the
  // original tensor.
  function SliceId(inner: nat, size: nat, s: nat, k: nat): nat
    requires inner > 0
  {
    (s / inner * size + k) * inner + s % inner
  }

  // The formula the kernels use.
  lemma SliceIdExpanded(inner: nat, size: nat, s: nat, k: nat)
    requires inner > 0
    ensures SliceId(inner, size, s, k) == s / inner * size * inner + k * inner + s % inner
  {
    Distribute(s / inner * size, k, inner);
  }

  lemma SliceIdDigits(inner: nat, size: nat, a: nat, b: nat, k: nat)
    requires b < inner
    ensures SliceId(inner, size, a * inner + b, k) == (a * size + k) * inner + b
  {
    DivModUnique(a * inner + b, inner, a, b);
  }

  // Two digits b and r of a mixed-radix number as one.
  lemma SameDigits(a: nat, inner: nat, b: nat, c: nat, r: nat)
    requires b < inner && r < c
    ensures 0 < inner * c && b * c + r < inner * c
    ensures (a * inner + b) * c + r == a * (inner * c) + (b * c + r)
  {
    TwoDigits(b, inner, r, c);
    Regroup(a, b, r, inner, c);
  }

  // Peeling the last dimension, of size c, off a slice id.
  lemma SliceIdPeel(inner: nat, c: nat, size: nat, s: nat, k: nat)
    requires inner > 0 && c > 0
    ensures inner * c > 0
    ensures SliceId(inner * c, size, s, k) / c == SliceId(inner, size, s / c, k)
    ensures SliceId(inner * c, size, s, k) % c == s % c
  {
    hide SliceId;
    var q, r := s / c, s % c;
    var a, b := q / inner, q % inner;
    DivMod(s, c);
    DivMod(q, inner);
    SameDigits(a, inner, b, c, r);
    SliceIdDigits(inner * c, size, a, b * c + r, k);
    SliceIdDigits(inner, size, a, b, k);
    SameDigits(a * size + k, inner, b, c, r);
    DivModUnique(SliceId(inner * c, size, s, k), c, SliceId(inner, size, q, k), r);
  }

  lemma Triple(p: nat, o: nat, x: nat, i: nat, z: nat)
    requires p == o * x && x == i * z
    ensures p == o * z * i
  {
    Reorder(o, i, z);
  }

  lemma ProductAround(sizes: seq<nat>, d: nat)
    requires d < |sizes|
    ensures Product(sizes) == Outer(sizes, d) * sizes[d] * Inner(sizes, d)
  {
    hide Product;
    ProductSplit(sizes, d);
    ProductFront(sizes[d..]);
    assert sizes[d..][1..] == sizes[d + 1..];
    Triple(Product(sizes), Outer(sizes, d), Product(sizes[d..]), Inner(sizes, d), sizes[d]);
  }

  // Reducing dimension d leaves one element per slice.
  lemma ProductUpdate(sizes: seq<nat>, d: nat)
    requires d < |sizes|
    ensures Product(sizes[d := 1]) == Outer(sizes, d) * Inner(sizes, d)
    ensures Product(sizes) == Outer(sizes, d) * sizes[d] * Inner(sizes, d)
  {
    hide Product;
    ProductAround(sizes, d);
    ProductAround(sizes[d := 1], d);
    assert sizes[d := 1][d + 1..] == sizes[d + 1..] && sizes[d := 1][..d] == sizes[..d];
  }

  // In the tensor whose dimension d was reduced to 1, slice s starts at an offset from
  // which k steps of d's stride lead to element k of that slice in the original.
  lemma {:induction false} SliceOffsets(sizes: seq<nat>, strides: seq<nat>, d: nat, s: nat, k: nat)
    requires |sizes| == |strides| && d < |sizes| && Positive(sizes)
    requires s < Outer(sizes, d) * Inner(sizes, d) && k < sizes[d]
    ensures Inner(sizes, d) > 0 && Positive(sizes[d := 1])
    ensures Offset(sizes[d := 1], strides, s) + k * strides[d] == Offset(sizes, strides, SliceId(Inner(sizes, d), sizes[d], s, k))
  {
    var n := |sizes| - 1;
    var c := sizes[n];
    ProductPositive(sizes[d + 1..]);
    if d == n {
      assert sizes[n + 1..] == [] && sizes[n := 1][..n] == sizes[..n];
      LastDimension(sizes, strides, s, k);
    } else {
      assert sizes[d := 1][..n] == sizes[..n][d := 1];
      var inner := Inner(sizes[..n], d);
      ProductPositive(sizes[..n][d + 1..]);
      InnerPeel(sizes, d);
      assert Outer(sizes[..n], d) == Outer(sizes, d) by { assert sizes[..n][..d] == sizes[..d]; }
      Reorder(Outer(sizes, d), inner, c);
      QuotientBelow(s, Outer(sizes, d) * inner, c);
      SliceOffsets(sizes[..n], strides[..n], d, s / c, k);
      SliceIdPeel(inner, c, sizes[d], s, k);
    }
  }

  lemma LastDimension(sizes: seq<nat>, strides: seq<nat>, s: nat, k: nat)
    requires |sizes| == |strides| > 0 && Positive(sizes)
    requires s < Product(sizes[..|sizes| - 1]) && k < sizes[|sizes| - 1]
    ensures Offset(sizes[|sizes| - 1 := 1], strides, s) + k * strides[|sizes| - 1]
            == Offset(sizes, strides, SliceId(1, sizes[|sizes| - 1], s, k))
  {
    var n := |sizes| - 1;
    var c := sizes[n];
    DivModUnique(s, 1, s, 0);
    DivModUnique(s * c + k, c, s, k);
    if n > 0 {
      assert sizes[n := 1][..n] == sizes[..n];
      assert Offset(sizes[n := 1], strides, s) == (s % 1) * strides[n] + Offset(sizes[..n], strides[..n], s);
    } else {
      assert sizes[..0] == [];
    }
  }

  // ---- The slices enumerate the tensor ----

  function SliceOf(inner: nat, size: nat, id: nat): nat
    requires inner > 0 && size > 0
  {
    NatDivMod(id, inner);
    NatDivMod(id / inner, size);
    id / inner / size * inner + id % inner
  }

  function StepOf(inner: nat, size: nat, id: nat): nat
    requires inner > 0 && size > 0
  {
    id / inner % size
  }

  lemma SliceIdInverse(inner: nat, size: nat, s: nat, k: nat)
    requires inner > 0 && k < size
    ensures SliceOf(inner, size, SliceId(inner, size, s, k)) == s && StepOf(inner, size, SliceId(inner, size, s, k)) == k
  {
    DivMod(s, inner);
    var m := s / inner * size + k;
    DivModUnique(SliceId(inner, size, s, k), inner, m, s % inner);
    DivModUnique(m, size, s / inner, k);
  }

  lemma SliceOfInverse(inner: nat, size: nat, id: nat)
    requires inner > 0 && size > 0
    ensures SliceId(inner, size, SliceOf(inner, size, id), StepOf(inner, size, id)) == id
    ensures StepOf(inner, size, id) < size
  {
    DivMod(id, inner);
    DivMod(id / inner, size);
    DivModUnique(SliceOf(inner, size, id), inner, id / inner / size, id % inner);
  }

  lemma SliceIdBound(outer: nat, inner: nat, size: nat, s: nat, k: nat)
    requires s < outer * inner && k < size
    ensures inner > 0 && SliceId(inner, size, s, k) < outer * size * inner
  {
    QuotientBelow(s, outer, inner);
    DivMod(s, inner);
    var a := s / inner;
    MulMonotone(a + 1, outer, size);
    Distribute(a, 1, size);
    MulMonotone(a * size + k + 1, outer * size, inner);
    Distribute(a * size + k, 1, inner);
  }

  lemma SliceOfBound(outer: nat, inner: nat, size: nat, id: nat)
    requires inner > 0 && size > 0 && id < outer * size * inner
    ensures SliceOf(inner, size, id) < outer * inner
  {
    QuotientBelow(id, outer * size, inner);
    QuotientBelow(id / inner, outer, size);
    DivMod(id, inner);
    MulMonotone(id / inner / size + 1, outer, inner);
    Distribute(id / inner / size, 1, inner);
  }

  // Every slice id is one of the tensor's ...
  lemma SlicesInside(sizes: seq<nat>, d: nat, s: nat, k: nat)
    requires d < |sizes| && s < Outer(sizes, d) * Inner(sizes, d) && k < sizes[d]
    ensures Inner(sizes, d) > 0 && SliceId(Inner(sizes, d), sizes[d], s, k) < Product(sizes)
  {
    ProductUpdate(sizes, d);
    hide Product, SliceId, Outer, Inner;
    SliceIdBound(Outer(sizes, d), Inner(sizes, d), sizes[d], s, k);
  }

  // ... and every element of the tensor is element k of slice s for exactly one pair.
  lemma SlicesEnumerate(sizes: seq<nat>, d: nat, id: nat)
    requires d < |sizes| && Positive(sizes) && id < Product(sizes)
    ensures Inner(sizes, d) > 0
    ensures var s, k := SliceOf(Inner(sizes, d), sizes[d], id), StepOf(Inner(sizes, d), sizes[d], id);
            && s < Outer(sizes, d) * Inner(sizes, d) && k < sizes[d] && SliceId(Inner(sizes, d), sizes[d], s, k) == id
            && forall t, j :: 0 <= t && 0 <= j < sizes[d] && SliceId(Inner(sizes, d), sizes[d], t, j) == id ==> t == s && j == k
    ensures forall t, j :: 0 <= t < Outer(sizes, d) * Inner(sizes, d) && 0 <= j < sizes[d] ==>
              SliceId(Inner(sizes, d), sizes[d], t, j) < Product(sizes)
  {
    var inner, size := Inner(sizes, d), sizes[d];
    ProductPositive(sizes[d + 1..]);
    ProductUpdate(sizes, d);
    SliceOfBound(Outer(sizes, d), inner, size, id);
    SliceOfInverse(inner, size, id);
    hide Product, SliceId, SliceOf, StepOf;
    forall t, j | 0 <= t && 0 <= j < size && SliceId(inner, size, t, j) == id
      ensures t == SliceOf(inner, size, id) && j == StepOf(inner, size, id)
    {
      SliceIdInverse(inner, size, t, j);
    }
    forall t, j | 0 <= t < Outer(sizes, d) * inner && 0 <= j < size ensures SliceId(inner, size, t, j) < Product(sizes) {
      SlicesInside(sizes, d, t, j);
    }
  }
}
