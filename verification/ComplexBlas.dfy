// Complex matrix products by three real ones, over exact reals, with lazily conjugated
// operands and results that may share memory.
module ComplexBlas {
  import opened Complexes

  // ---- Shapes ----

  // A batch of matrices (one matrix is a batch of one) or a one-dimensional tensor.  A
  // vector of size 1 also stands for a scalar.
  datatype Shape = Matrix(batch: nat, rows: nat, cols: nat) | Vector(size: nat)

  datatype Pos = At(n: nat, i: nat, j: nat)

  const ORIGIN := At(0, 0, 0)

  // Sizes aligned at the last dimension, as broadcasting does.
  function Batch(s: Shape): nat { if s.Matrix? then s.batch else 1 }

  function Rows(s: Shape): nat { if s.Matrix? then s.rows else 1 }

  function Cols(s: Shape): nat { if s.Matrix? then s.cols else s.size }

  function Numel(s: Shape): nat { Batch(s) * Rows(s) * Cols(s) }

  predicate Inside(s: Shape, p: Pos)
  {
    p.n < Batch(s) && p.i < Rows(s) && p.j < Cols(s)
  }

  // A size of 1 stands for any size.
  function Pick(s: Shape, p: Pos): Pos
  {
    At(if Batch(s) == 1 then 0 else p.n, if Rows(s) == 1 then 0 else p.i, if Cols(s) == 1 then 0 else p.j)
  }

  predicate Broadcasts(from: Shape, to: Shape)
  {
    && (Batch(from) == Batch(to) || Batch(from) == 1)
    && (Rows(from) == Rows(to) || Rows(from) == 1)
    && (Cols(from) == Cols(to) || Cols(from) == 1)
  }

  // What broadcasting is: the element used for p is the one element of s that agrees with
  // p in every dimension in which s has more than one step.
  lemma BroadcastElement(s: Shape, out: Shape, p: Pos, x: Pos)
    requires Broadcasts(s, out) && Inside(out, p)
    ensures x == Pick(s, p) <==>
            && Inside(s, x)
            && (Batch(s) > 1 ==> x.n == p.n) && (Rows(s) > 1 ==> x.i == p.i) && (Cols(s) > 1 ==> x.j == p.j)
  {
  }

  // The place of an element in row-major order.
  function Place(s: Shape, p: Pos): nat
  {
    (p.n * Rows(s) + p.i) * Cols(s) + p.j
  }

  // The shape of a sum.
  function Larger(a: nat, b: nat): nat { if a == 1 then b else a }

  function BroadcastShape(a: Shape, b: Shape): Shape
  {
    Matrix(Larger(Batch(a), Batch(b)), Larger(Rows(a), Rows(b)), Larger(Cols(a), Cols(b)))
  }

  // ---- Tensors ----

  type Plane = Pos -> real

  function Both(re: Plane, im: Plane, p: Pos): Complex { Complex(re(p), im(p)) }

  // The logical contents of a tensor: two planes seen through the lazy conjugation bit.
  datatype View = View(shape: Shape, re: Plane, im: Plane, conj: bool)
  {
    function Value(p: Pos): Complex
    {
      if conj then Conj(Both(re, im, p)) else Both(re, im, p)
    }
  }

  // What view_as_real shows of a complex buffer.
  class Storage {
    var re: Plane
    var im: Plane

    constructor (re: Plane, im: Plane)
      ensures this.re == re && this.im == im
    {
      this.re, this.im := re, im;
    }
  }

  // Element p of the tensor is at at(p) in its buffer.
  class Tensor {
    const data: Storage
    const conj: bool
    const shape: Shape
    const at: Pos -> Pos

    constructor (data: Storage, conj: bool, shape: Shape, at: Pos -> Pos)
      ensures this.data == data && this.conj == conj && this.shape == shape && this.at == at
    {
      this.data, this.conj, this.shape, this.at := data, conj, shape, at;
    }

    function Re(): Plane
      reads data
    {
      Through(data.re, at)
    }

    function Im(): Plane
      reads data
    {
      Through(data.im, at)
    }

    function Contents(): View
      reads data
    {
      View(shape, Re(), Im(), conj)
    }
  }

  function Through(p: Plane, at: Pos -> Pos): Plane
  {
    (x: Pos) => p(at(x))
  }

  // The positions of a buffer are numbered by the elements of the tensor that is
  // written; everything else in the buffer is outside its shape.
  ghost predicate Whole(t: Tensor)
  {
    forall p :: t.at(p) == p
  }

  // A write to all elements of a tensor of this shape.
  function Overlay(s: Shape, now: Plane, was: Plane): Plane
  {
    (p: Pos) => if Inside(s, p) then now(p) else was(p)
  }

  // Two planes hold the values of a tensor.
  ghost predicate Resolved(re: Plane, im: Plane, v: View)
  {
    forall p :: Both(re, im, p) == v.Value(p)
  }

  // They hold those of its elements.
  ghost predicate Holds(re: Plane, im: Plane, v: View)
  {
    forall p :: Inside(v.shape, p) ==> v.Value(p) == Both(re, im, p)
  }

  // Nothing outside the shape was written.
  ghost predicate Kept(s: Shape, was: Plane, now: Plane)
  {
    forall p :: !Inside(s, p) ==> now(p) == was(p)
  }

  // resolve_conj: the tensor itself, or a fresh one with the conjugation carried out.
  method ResolveConj(t: Tensor) returns (r: Tensor)
    ensures r.shape == t.shape && !r.conj
    ensures if t.conj then fresh(r) && fresh(r.data) else r == t
    ensures Resolved(r.Re(), r.Im(), t.Contents())
  {
    if t.conj {
      var im := t.Im();
      var data := new Storage(t.Re(), (p: Pos) => -im(p));
      r := new Tensor(data, false, t.shape, (p: Pos) => p);
      assert forall p :: Both(r.Re(), r.Im(), p) == t.Contents().Value(p);
    } else {
      r := t;
    }
  }

  // ConjPhysicalGuard: writes to a conjugated tensor go to an unconjugated temporary
  // that is copied back when the guard is released.
  class ConjPhysicalGuard {
    const out: Tensor
    const tmp: Storage

    constructor (out: Tensor)
      ensures this.out == out
      ensures if out.conj then fresh(tmp) && tmp.re == out.data.re && tmp.im == out.data.im else tmp == out.data
    {
      this.out := out;
      if out.conj {
        // out.conj() is the plain view of the buffer.
        tmp := new Storage(out.data.re, out.data.im);
      } else {
        tmp := out.data;
      }
    }

    method Release()
      requires Whole(out) && (if out.conj then tmp != out.data else tmp == out.data)
      modifies out.data
      ensures Holds(old(tmp.re), old(tmp.im), out.Contents())
      ensures !out.conj ==> out.data.re == old(out.data.re) && out.data.im == old(out.data.im)
      ensures Kept(out.shape, old(out.data.re), out.data.re) && Kept(out.shape, old(out.data.im), out.data.im)
    {
      if out.conj {
        var im := tmp.im;
        out.data.re := Overlay(out.shape, tmp.re, out.data.re);
        out.data.im := Overlay(out.shape, (p: Pos) => -im(p), out.data.im);
      }
    }
  }

  // ---- Three real products make a complex one ----

  function RealMul(x: real, y: real): real { x * y }

  function RowCol(a: Plane, b: Plane, p: Pos, k: nat): real
  {
    if k == 0 then 0.0 else RowCol(a, b, p, k - 1) + RealMul(a(At(p.n, p.i, k - 1)), b(At(p.n, k - 1, p.j)))
  }

  // at::mm and at::bmm with inner dimension k.
  function MatMul(a: Plane, b: Plane, k: nat): Plane
  {
    (p: Pos) => RowCol(a, b, p, k)
  }

  function Sum(a: Plane, b: Plane): Plane
  {
    (p: Pos) => a(p) + b(p)
  }

  function Difference(a: Plane, b: Plane): Plane
  {
    (p: Pos) => a(p) - b(p)
  }

  // The real and imaginary planes of a complex scalar times a tensor.
  function ScaledRe(x: Complex, re: Plane, im: Plane): Plane
  {
    (p: Pos) => x.re * re(p) - x.im * im(p)
  }

  function ScaledIm(x: Complex, re: Plane, im: Plane): Plane
  {
    (p: Pos) => x.re * im(p) + x.im * re(p)
  }

  // The product of row i and column j of two tensors, from its definition.
  function Times(a: View, b: View, p: Pos, k: nat): Complex
  {
    if k == 0 then ZERO else Add(Times(a, b, p, k - 1), Mul(a.Value(At(p.n, p.i, k - 1)), b.Value(At(p.n, k - 1, p.j))))
  }

  lemma GaussStep(x: Complex, y: Complex, q1: real, q2: real, q3: real, p1: real, p2: real, p3: real)
    requires p1 == q1 + RealMul(x.re, y.re) && p2 == q2 + RealMul(x.im, y.im) && p3 == q3 + RealMul(x.re + x.im, y.re + y.im)
    ensures Add(Complex(q1 - q2, q3 - q1 - q2), Mul(x, y)) == Complex(p1 - p2, p3 - p1 - p2)
  {
    assert (x.re + x.im) * (y.re + y.im) == x.re * y.re + x.re * y.im + x.im * y.re + x.im * y.im;
  }

  lemma RowColStep(a: Plane, b: Plane, p: Pos, k: nat, u: real, v: real)
    requires k > 0 && u == a(At(p.n, p.i, k - 1)) && v == b(At(p.n, k - 1, p.j))
    ensures RowCol(a, b, p, k) == RowCol(a, b, p, k - 1) + RealMul(u, v)
  {
  }

  lemma {:induction false} Gauss(a: View, b: View, ar: Plane, ai: Plane, br: Plane, bi: Plane, p: Pos, k: nat)
    requires Resolved(ar, ai, a) && Resolved(br, bi, b)
    ensures var p1, p2, p3 := RowCol(ar, br, p, k), RowCol(ai, bi, p, k), RowCol(Sum(ar, ai), Sum(br, bi), p, k);
            Times(a, b, p, k) == Complex(p1 - p2, p3 - p1 - p2)
    decreases k
  {
    if k > 0 {
      hide Add, Mul, RealMul;
      Gauss(a, b, ar, ai, br, bi, p, k - 1);
      var u, v := At(p.n, p.i, k - 1), At(p.n, k - 1, p.j);
      var x, y := Both(ar, ai, u), Both(br, bi, v);
      assert x == a.Value(u) && y == b.Value(v);
      hide Resolved;
      assert Sum(ar, ai)(u) == x.re + x.im && Sum(br, bi)(v) == y.re + y.im;
      var q1, q2, q3 := RowCol(ar, br, p, k - 1), RowCol(ai, bi, p, k - 1), RowCol(Sum(ar, ai), Sum(br, bi), p, k - 1);
      assert Times(a, b, p, k) == Add(Complex(q1 - q2, q3 - q1 - q2), Mul(x, y));
      hide Times, RowCol, Sum;
      RowColStep(ar, br, p, k, x.re, y.re);
      RowColStep(ai, bi, p, k, x.im, y.im);
      RowColStep(Sum(ar, ai), Sum(br, bi), p, k, x.re + x.im, y.re + y.im);
      GaussStep(x, y, q1, q2, q3, RowCol(ar, br, p, k), RowCol(ai, bi, p, k), RowCol(Sum(ar, ai), Sum(br, bi), p, k));
    }
  }

  ghost predicate IsProduct(re: Plane, im: Plane, a: View, b: View)
  {
    forall p :: Both(re, im, p) == Times(a, b, p, Cols(a.shape))
  }

  // The three real products and their combination.
  method GaussProduct(ar: Plane, ai: Plane, br: Plane, bi: Plane, k: nat, ghost a: View, ghost b: View) returns (re: Plane, im: Plane)
    requires Resolved(ar, ai, a) && Resolved(br, bi, b) && k == Cols(a.shape)
    ensures IsProduct(re, im, a, b)
  {
    var p1 := MatMul(ar, br, k);
    var p2 := MatMul(ai, bi, k);
    var p3 := MatMul(Sum(ar, ai), Sum(br, bi), k);
    re := Difference(p1, p2);
    im := Difference(Difference(p3, p1), p2);
    forall p ensures Both(re, im, p) == Times(a, b, p, k) {
      Gauss(a, b, ar, ai, br, bi, p, k);
    }
  }

  // Shapes for which out can hold the product; a vector out stands for a product with
  // one column.
  predicate Multiplies(a: Shape, b: Shape, out: Shape)
  {
    && a.Matrix? && b.Matrix? && a.cols == b.rows && a.batch == b.batch
    && match out
       case Matrix(n, i, j) => n == a.batch && i == a.rows && j == b.cols
       case Vector(i) => a.batch == 1 && i == a.rows && b.cols == 1
  }

  // mm_complex_fallback and bmm_complex_fallback, whatever shares memory with out.
  method MmFallback(self: Tensor, mat2: Tensor, out: Tensor)
    requires Multiplies(self.shape, mat2.shape, out.shape) && out.shape.Matrix? && Whole(out)
    modifies out.data
    ensures forall p :: Inside(out.shape, p) ==>
              out.Contents().Value(p) == Times(old(self.Contents()), old(mat2.Contents()), p, self.shape.cols)
    ensures Kept(out.shape, old(out.data.re), out.data.re) && Kept(out.shape, old(out.data.im), out.data.im)
  {
    ghost var a0, b0 := self.Contents(), mat2.Contents();
    var a := ResolveConj(self);
    var b := ResolveConj(mat2);
    var re, im := GaussProduct(a.Re(), a.Im(), b.Re(), b.Im(), self.shape.cols, a0, b0);
    hide Times, Multiplies;
    var guard := new ConjPhysicalGuard(out);
    guard.tmp.re := Overlay(out.shape, re, guard.tmp.re);
    guard.tmp.im := Overlay(out.shape, im, guard.tmp.im);
    ghost var tr, ti := guard.tmp.re, guard.tmp.im;
    guard.Release();
    forall p | Inside(out.shape, p) ensures out.Contents().Value(p) == Times(a0, b0, p, self.shape.cols) {
      assert Both(tr, ti, p) == Both(re, im, p);
    }
  }

  // ---- beta * self + alpha * (mat1 @ mat2) ----

  // All products of matrices are accepted, and vectors as products with one column.
  lemma MultipliesAccepts(batch: nat, rows: nat, inner: nat, cols: nat)
    ensures Multiplies(Matrix(batch, rows, inner), Matrix(batch, inner, cols), Matrix(batch, rows, cols))
    ensures Multiplies(Matrix(1, rows, inner), Matrix(1, inner, 1), Vector(rows))
  {
  }

  // Which element of the product goes to p: a vector is the product's one column.
  function ToProduct(out: Shape, p: Pos): Pos
  {
    if out.Vector? then At(0, p.j, 0) else p
  }

  // The product takes row i of the one and column j of the other: a unit column picks an
  // element of row i.
  lemma {:induction false} TimesOfUnit(a: View, b: View, p: Pos, k: nat, q: nat)
    requires forall l :: 0 <= l < k ==> b.Value(At(p.n, l, p.j)) == if l == q then ONE else ZERO
    ensures Times(a, b, p, k) == if q < k then a.Value(At(p.n, p.i, q)) else ZERO
    decreases k
  {
    if k > 0 {
      hide Mul, Add, View.Value;
      TimesOfUnit(a, b, p, k - 1, q);
      UnitStep(a.Value(At(p.n, p.i, k - 1)));
    }
  }

  lemma UnitStep(x: Complex)
    ensures Mul(x, ZERO) == ZERO && Mul(x, ONE) == x && Add(ZERO, x) == x == Add(x, ZERO) && Add(ZERO, ZERO) == ZERO
  {
  }

  // And it adds up over sums of matrices.
  lemma {:induction false} TimesAdds(a: View, b: View, c: View, d: View, p: Pos, k: nat)
    requires forall l :: 0 <= l < k ==> d.Value(At(p.n, l, p.j)) == Add(b.Value(At(p.n, l, p.j)), c.Value(At(p.n, l, p.j)))
    ensures Times(a, d, p, k) == Add(Times(a, b, p, k), Times(a, c, p, k))
    decreases k
  {
    if k > 0 {
      hide View.Value;
      TimesAdds(a, b, c, d, p, k - 1);
      ComplexLaws(a.Value(At(p.n, p.i, k - 1)), b.Value(At(p.n, k - 1, p.j)), c.Value(At(p.n, k - 1, p.j)));
      hide Mul;
    }
  }

  // What callers must pass as self: it broadcasts to out, or it is a column for a vector.
  predicate Expandable(self: Shape, out: Shape)
  {
    if out.Vector? && self.Matrix? then self.batch == 1 && self.cols == 1 && (self.rows == out.size || self.rows == 1)
    else Broadcasts(self, out)
  }

  // Every dimension of self may be that of out or 1, or missing in front; for a vector out
  // self may be a column too.
  lemma ExpandableAccepts(batch: nat, rows: nat, cols: nat, b: nat, r: nat, c: nat)
    requires b in {1, batch} && r in {1, rows} && c in {1, cols}
    ensures Expandable(Matrix(b, r, c), Matrix(batch, rows, cols)) && Expandable(Vector(c), Matrix(batch, rows, cols))
    ensures Expandable(Vector(r), Vector(rows)) && Expandable(Matrix(1, r, 1), Vector(rows))
  {
  }

  // The element of self that belongs to p.
  function ToSelf(self: Shape, out: Shape, p: Pos): Pos
  {
    Pick(self, if self.Matrix? then ToProduct(out, p) else p)
  }

  function Want(out: Shape, self: View, mat1: View, mat2: View, beta: Complex, alpha: Complex, p: Pos): Complex
  {
    Add(Mul(beta, self.Value(ToSelf(self.shape, out, p))), Mul(alpha, Times(mat1, mat2, ToProduct(out, p), Cols(mat1.shape))))
  }

  // Which element of self is wanted where: that of the row for one row, that of the column
  // for one column, the only one for a single element, and for a vector that of the place.
  lemma WantedElement(out: Shape, self: View, mat1: View, mat2: View, beta: Complex, alpha: Complex, p: Pos)
    requires Inside(out, p) && Expandable(self.shape, out)
    ensures var product := Times(mat1, mat2, if out.Vector? then At(0, p.j, 0) else p, Cols(mat1.shape));
            forall x: Pos :: Belongs(self.shape, out, p, x) ==>
              Want(out, self, mat1, mat2, beta, alpha, p) == Add(Mul(beta, self.Value(x)), Mul(alpha, product))
    ensures exists x: Pos :: Belongs(self.shape, out, p, x)
  {
    hide Times, Mul, Add, View.Value;
    assert forall x: Pos :: Belongs(self.shape, out, p, x) ==> x == ToSelf(self.shape, out, p);
    assert Belongs(self.shape, out, p, ToSelf(self.shape, out, p));
  }

  predicate Belongs(self: Shape, out: Shape, p: Pos, x: Pos)
  {
    match (self, out)
    case (Matrix(n, i, j), Matrix(_, _, _)) =>
      && x.n == (if n == 1 then 0 else p.n) && x.i == (if i == 1 then 0 else p.i) && x.j == if j == 1 then 0 else p.j
    case (Matrix(_, i, _), Vector(_)) => x == At(0, if i == 1 then 0 else p.j, 0)
    case (Vector(size), _) => x == At(0, 0, if size == 1 then 0 else p.j)
  }

  // A row bias of 5 and 7: the second row of the result gets them too.
  lemma RowBias(mat1: View, mat2: View, k: nat)
    requires mat1.shape == Matrix(1, 2, k) && mat2.shape == Matrix(1, k, 2)
    ensures var bias := View(Matrix(1, 1, 2), (p: Pos) => if p == ORIGIN then 5.0 else if p == At(0, 0, 1) then 7.0 else 0.0, (p: Pos) => 0.0, false);
            forall i, j :: 0 <= i < 2 && 0 <= j < 2 ==>
              Want(Matrix(1, 2, 2), bias, mat1, mat2, ONE, ONE, At(0, i, j))
              == Add(Complex(if j == 0 then 5.0 else 7.0, 0.0), Times(mat1, mat2, At(0, i, j), k))
  {
    var re: Plane := (p: Pos) => if p == ORIGIN then 5.0 else if p == At(0, 0, 1) then 7.0 else 0.0;
    var bias := View(Matrix(1, 1, 2), re, (p: Pos) => 0.0, false);
    forall i, j | 0 <= i < 2 && 0 <= j < 2
      ensures Want(Matrix(1, 2, 2), bias, mat1, mat2, ONE, ONE, At(0, i, j))
              == Add(Complex(if j == 0 then 5.0 else 7.0, 0.0), Times(mat1, mat2, At(0, i, j), k))
    {
      var x := At(0, 0, j);
      assert Belongs(Matrix(1, 1, 2), Matrix(1, 2, 2), At(0, i, j), x);
      assert bias.Value(x) == Complex(if j == 0 then 5.0 else 7.0, 0.0);
      WantedElement(Matrix(1, 2, 2), bias, mat1, mat2, ONE, ONE, At(0, i, j));
      UnitFactor(bias.Value(x));
      UnitFactor(Times(mat1, mat2, At(0, i, j), k));
      hide Want, Mul, Add, Times, View.Value, Belongs;
    }
  }

  lemma UnitFactor(x: Complex)
    ensures Mul(ONE, x) == x
  {
  }

  // reshape_as finds as many elements as out has: after scaling self alone, or after
  // adding it, broadcast, to the product.
  predicate Reshapes(self: Shape, mat1: Shape, mat2: Shape, out: Shape, beta: Complex, alpha: Complex)
  {
    || beta == ZERO
    || Numel(if alpha == ZERO then self else BroadcastShape(self, Matrix(Batch(mat1), Rows(mat1), Cols(mat2)))) == Numel(out)
  }

  // The element of self that is used for p: the one at the same place when self alone
  // is reshaped, else the one broadcast to the product's element.
  function SelfAt(self: Shape, out: Shape, alone: bool, p: Pos): Pos
  {
    if !alone then Pick(self, ToProduct(out, p)) else if self.Matrix? then ToProduct(out, p) else p
  }

  lemma LessProduct(a: nat, b: nat, c: nat)
    requires a <= b
    ensures a * c <= b * c && c * a <= c * b && (a < b && c > 0 ==> a * c < b * c && c * a < c * b)
  {
  }

  lemma SmallerPair(x: nat, y: nat, a: nat, b: nat)
    requires 0 < x <= a && 0 < y <= b
    ensures 0 < x * y <= a * b && (x < a || y < b ==> x * y < a * b)
  {
    LessProduct(x, a, y);
    LessProduct(y, b, a);
    LessProduct(0, x, y);
  }

  // Sizes that are equal or 1 and have the same product are equal.
  lemma Factors(x: nat, y: nat, z: nat, a: nat, b: nat, c: nat)
    requires (x == a || x == 1) && (y == b || y == 1) && (z == c || z == 1) && a > 0 && b > 0 && c > 0
    requires x * y * z == a * b * c
    ensures x == a && y == b && z == c
  {
    SmallerPair(x, y, a, b);
    SmallerPair(x * y, z, a * b, c);
  }

  lemma InsideIsPositive(s: Shape, p: Pos)
    requires Inside(s, p)
    ensures Batch(s) > 0 && Rows(s) > 0 && Cols(s) > 0
  {
  }

  // reshape_as keeps the row-major order: of the product, and of self alone.
  lemma ReshapeKeepsOrder(self: Shape, mat1: Shape, mat2: Shape, out: Shape, p: Pos)
    requires Multiplies(mat1, mat2, out) && Inside(out, p)
    ensures var product := Matrix(Batch(mat1), Rows(mat1), Cols(mat2));
            Inside(product, ToProduct(out, p)) && Place(product, ToProduct(out, p)) == Place(out, p)
    ensures Expandable(self, out) && Numel(self) == Numel(out) ==>
              Inside(self, SelfAt(self, out, true, p)) && Place(self, SelfAt(self, out, true, p)) == Place(out, p)
  {
    if Expandable(self, out) && Numel(self) == Numel(out) {
      if self.Matrix? && out.Vector? {
        assert self.rows == out.size by { assert Numel(self) == self.rows && Numel(out) == out.size; }
      } else {
        Factors(Batch(self), Rows(self), Cols(self), Batch(out), Rows(out), Cols(out));
      }
    }
  }

  // When the reshape succeeds, the element that is used is the one that belongs there.
  lemma SelfAtBelongs(self: Shape, mat1: Shape, mat2: Shape, out: Shape, beta: Complex, alpha: Complex, p: Pos)
    requires Multiplies(mat1, mat2, out) && Expandable(self, out) && Inside(out, p)
    requires beta != ZERO && Reshapes(self, mat1, mat2, out, beta, alpha)
    ensures SelfAt(self, out, alpha == ZERO, p) == ToSelf(self, out, p)
  {
    if alpha == ZERO {
      if self.Matrix? && out.Vector? {
        assert self.rows == out.size by { assert Numel(self) == self.rows && Numel(out) == out.size; }
      } else {
        Factors(Batch(self), Rows(self), Cols(self), Batch(out), Rows(out), Cols(out));
      }
    } else if self.Vector? && out.Vector? {
      VectorSum(self.size, out.size);
    }
  }

  // A vector of several elements added to a column makes a square.
  lemma VectorSum(n: nat, m: nat)
    requires m > 0 && (n == m || n == 1) && Numel(BroadcastShape(Vector(n), Matrix(1, m, 1))) == m
    ensures n == 1
  {
    if n == m {
      LessProduct(1, m, m);
    }
  }

  // Where reshape_as throws: alpha is 0 and self is broadcast, or a vector self meets a
  // product that is to become a vector.
  lemma ReshapesIff(self: Shape, mat1: Shape, mat2: Shape, out: Shape, beta: Complex, alpha: Complex)
    requires Multiplies(mat1, mat2, out) && Expandable(self, out) && Numel(out) > 0
    ensures Reshapes(self, mat1, mat2, out, beta, alpha) <==>
            !(beta != ZERO && if alpha == ZERO then Numel(self) != Numel(out)
                              else self.Vector? && out.Vector? && self.size > 1)
  {
    if alpha != ZERO {
      if self.Vector? && out.Vector? {
        if self.size > 1 {
          LessProduct(1, out.size, out.size);
        }
      } else {
        assert BroadcastShape(self, Matrix(Batch(mat1), Rows(mat1), Cols(mat2))) == Matrix(Batch(mat1), Rows(mat1), Cols(mat2));
      }
    }
  }

  // Two elements of bias, two rows, one column: the call that the source's own note
  // describes throws.
  lemma VectorBiasThrows()
    ensures var one := Complex(1.0, 0.0);
            && Multiplies(Matrix(1, 2, 1), Matrix(1, 1, 1), Vector(2)) && Expandable(Vector(2), Vector(2))
            && !Reshapes(Vector(2), Matrix(1, 2, 1), Matrix(1, 1, 1), Vector(2), one, one)
  {
  }

  // ---- The three branches ----

  // How the scaled self (sc) and the scaled product (pr) make up the result for an out of
  // this shape; one that is not needed is not looked at.
  function Result(self: Shape, out: Shape, alone: bool, beta: Complex, alpha: Complex, sc: Plane, pr: Plane): Plane
  {
    if alpha == ZERO then (p: Pos) => sc(SelfAt(self, out, alone, p))
    else if beta == ZERO then (p: Pos) => pr(ToProduct(out, p))
    else (p: Pos) => sc(SelfAt(self, out, alone, p)) + pr(ToProduct(out, p))
  }

  function ResultRe(self: Shape, out: Shape, alone: bool, beta: Complex, alpha: Complex, cr: Plane, ci: Plane, re: Plane, im: Plane): Plane
  {
    Result(self, out, alone, beta, alpha, ScaledRe(beta, cr, ci), ScaledRe(alpha, re, im))
  }

  function ResultIm(self: Shape, out: Shape, alone: bool, beta: Complex, alpha: Complex, cr: Plane, ci: Plane, re: Plane, im: Plane): Plane
  {
    Result(self, out, alone, beta, alpha, ScaledIm(beta, cr, ci), ScaledIm(alpha, re, im))
  }

  lemma ScaledAt(x: Complex, re: Plane, im: Plane, p: Pos)
    ensures Both(ScaledRe(x, re, im), ScaledIm(x, re, im), p) == Mul(x, Both(re, im, p))
  {
  }

  lemma ZeroTimes(x: Complex, y: Complex)
    ensures Mul(ZERO, x) == ZERO && Add(ZERO, y) == y == Add(y, ZERO)
  {
  }

  // The value that ends up at p.
  lemma ResultAt(s: Shape, out: Shape, alone: bool, beta: Complex, alpha: Complex, cr: Plane, ci: Plane, re: Plane, im: Plane, p: Pos)
    requires beta != ZERO || alpha != ZERO
    ensures Both(ResultRe(s, out, alone, beta, alpha, cr, ci, re, im), ResultIm(s, out, alone, beta, alpha, cr, ci, re, im), p)
            == Add(Mul(beta, Both(cr, ci, SelfAt(s, out, alone, p))), Mul(alpha, Both(re, im, ToProduct(out, p))))
  {
    var x, y := SelfAt(s, out, alone, p), ToProduct(out, p);
    ScaledAt(beta, cr, ci, x);
    ScaledAt(alpha, re, im, y);
    ZeroTimes(Both(cr, ci, x), Mul(alpha, Both(re, im, y)));
    ZeroTimes(Both(re, im, y), Mul(beta, Both(cr, ci, x)));
    hide Mul, ScaledRe, ScaledIm, SelfAt, ToProduct;
  }

  // The planes that are read from self hold its values, and those of the product the
  // product's, where they are needed.
  ghost predicate Operands(self: View, mat1: View, mat2: View, beta: Complex, alpha: Complex, cr: Plane, ci: Plane, re: Plane, im: Plane)
  {
    && (beta != ZERO ==> Resolved(cr, ci, self))
    && (alpha != ZERO ==> IsProduct(re, im, mat1, mat2))
    && (beta != ZERO || alpha != ZERO)
  }

  lemma ResultWanted(self: View, mat1: View, mat2: View, out: Shape, alone: bool, beta: Complex, alpha: Complex,
                     cr: Plane, ci: Plane, re: Plane, im: Plane, p: Pos)
    requires Operands(self, mat1, mat2, beta, alpha, cr, ci, re, im)
    requires beta != ZERO ==> SelfAt(self.shape, out, alone, p) == ToSelf(self.shape, out, p)
    ensures Both(ResultRe(self.shape, out, alone, beta, alpha, cr, ci, re, im), ResultIm(self.shape, out, alone, beta, alpha, cr, ci, re, im), p)
            == Want(out, self, mat1, mat2, beta, alpha, p)
  {
    var x, y := SelfAt(self.shape, out, alone, p), ToProduct(out, p);
    ResultAt(self.shape, out, alone, beta, alpha, cr, ci, re, im, p);
    assert beta != ZERO ==> Both(cr, ci, x) == self.Value(x);
    assert alpha != ZERO ==> Both(re, im, y) == Times(mat1, mat2, y, Cols(mat1.shape));
    hide Mul, Add, ResultRe, ResultIm, SelfAt, ToSelf, ToProduct, Times, Resolved, IsProduct, Both, View.Value;
    MulByZero(beta, Both(cr, ci, x), self.Value(ToSelf(self.shape, out, p)));
    MulByZero(alpha, Both(re, im, y), Times(mat1, mat2, y, Cols(mat1.shape)));
  }

  lemma MulByZero(x: Complex, a: Complex, b: Complex)
    ensures x == ZERO ==> Mul(x, a) == Mul(x, b)
  {
    if x == ZERO {
      ZeroTimes(a, ZERO);
      ZeroTimes(b, ZERO);
      hide Mul;
    }
  }

  // The tensor holds the wanted combination of what the operands held.
  ghost predicate Computed(out: View, self: View, mat1: View, mat2: View, beta: Complex, alpha: Complex)
  {
    forall p :: Inside(out.shape, p) ==> out.Value(p) == Want(out.shape, self, mat1, mat2, beta, alpha, p)
  }

  // The planes of the resolved tensor, made contiguous.  One plane of an interleaved
  // buffer is strided, so this copies, except when there is at most one element.
  method ContiguousPlanes(t: Tensor) returns (c: Tensor)
    ensures c.shape == t.shape && !c.conj && Resolved(c.Re(), c.Im(), t.Contents())
    ensures if !t.conj && Numel(t.shape) <= 1 then c == t else fresh(c) && fresh(c.data)
  {
    c := ResolveConj(t);
    if !t.conj && Numel(c.shape) > 1 {
      var data := new Storage(c.Re(), c.Im());
      c := new Tensor(data, false, c.shape, (p: Pos) => p);
      assert forall p :: Both(c.Re(), c.Im(), p) == t.Contents().Value(p);
    }
  }

  method ZeroOut(out: Tensor)
    requires Whole(out)
    modifies out.data
    ensures forall p :: Inside(out.shape, p) ==> out.Contents().Value(p) == ZERO
    ensures Kept(out.shape, old(out.data.re), out.data.re) && Kept(out.shape, old(out.data.im), out.data.im)
  {
    out.data.re := Overlay(out.shape, (p: Pos) => 0.0, out.data.re);
    out.data.im := Overlay(out.shape, (p: Pos) => 0.0, out.data.im);
  }

  lemma ZeroWant(out: Shape, self: View, mat1: View, mat2: View)
    ensures forall p :: Want(out, self, mat1, mat2, ZERO, ZERO, p) == ZERO
  {
    forall p ensures Want(out, self, mat1, mat2, ZERO, ZERO, p) == ZERO {
      ZeroTimes(self.Value(ToSelf(self.shape, out, p)), ZERO);
      ZeroTimes(Times(mat1, mat2, ToProduct(out, p), Cols(mat1.shape)), ZERO);
    }
  }

  // A @ B of the resolved operands, unless alpha makes it unnecessary.
  method MaybeProduct(mat1: Tensor, mat2: Tensor, alpha: Complex, x: Plane) returns (re: Plane, im: Plane)
    ensures alpha != ZERO ==> IsProduct(re, im, mat1.Contents(), mat2.Contents())
  {
    re, im := x, x;
    if alpha != ZERO {
      ghost var m, w := mat1.Contents(), mat2.Contents();
      var a := ResolveConj(mat1);
      var b := ResolveConj(mat2);
      re, im := GaussProduct(a.Re(), a.Im(), b.Re(), b.Im(), Cols(mat1.shape), m, w);
    }
  }

  // ---- addmm ----

  lemma Finish(out: View, self: View, mat1: View, mat2: View, alone: bool, beta: Complex, alpha: Complex,
               cr: Plane, ci: Plane, re: Plane, im: Plane, tr: Plane, ti: Plane)
    requires Operands(self, mat1, mat2, beta, alpha, cr, ci, re, im) && Holds(tr, ti, out)
    requires forall p :: Inside(out.shape, p) ==>
               Both(tr, ti, p) == Both(ResultRe(self.shape, out.shape, alone, beta, alpha, cr, ci, re, im),
                                       ResultIm(self.shape, out.shape, alone, beta, alpha, cr, ci, re, im), p)
    requires beta != ZERO ==> forall p :: Inside(out.shape, p) ==> SelfAt(self.shape, out.shape, alone, p) == ToSelf(self.shape, out.shape, p)
    ensures Computed(out, self, mat1, mat2, beta, alpha)
  {
    hide ResultRe, ResultIm, Want, SelfAt, ToSelf, Operands, View.Value, Both;
    forall p | Inside(out.shape, p) ensures out.Value(p) == Want(out.shape, self, mat1, mat2, beta, alpha, p) {
      ResultWanted(self, mat1, mat2, out.shape, alone, beta, alpha, cr, ci, re, im, p);
    }
  }

  // addmm_complex_fallback; `ok` is false when reshape_as throws, and then the guard
  // still copies its temporary back: a conjugated out ends up holding its raw values.
  method AddmmFallback(self: Tensor, mat1: Tensor, mat2: Tensor, beta: Complex, alpha: Complex, out: Tensor) returns (ok: bool)
    requires Multiplies(mat1.shape, mat2.shape, out.shape) && Whole(out)
    requires beta != ZERO ==> Expandable(self.shape, out.shape)
    modifies out.data
    ensures ok <==> Reshapes(self.shape, mat1.shape, mat2.shape, out.shape, beta, alpha)
    ensures ok ==> Computed(out.Contents(), old(self.Contents()), old(mat1.Contents()), old(mat2.Contents()), beta, alpha)
    ensures !ok ==> Holds(old(out.data.re), old(out.data.im), out.Contents())
    ensures Kept(out.shape, old(out.data.re), out.data.re) && Kept(out.shape, old(out.data.im), out.data.im)
  {
    ghost var s, m, w := self.Contents(), mat1.Contents(), mat2.Contents();
    if beta == ZERO && alpha == ZERO {
      ZeroOut(out);
      ZeroWant(out.shape, s, m, w);
      return true;
    }
    hide Want, Resolved, IsProduct, Computed, ResultRe, ResultIm, Reshapes, SelfAt, ToSelf, Multiplies, Expandable;
    var c := out;
    if beta != ZERO {
      c := ContiguousPlanes(self);
    }
    var cr, ci := c.Re(), c.Im();
    var abR, abI := MaybeProduct(mat1, mat2, alpha, cr);
    var guard := new ConjPhysicalGuard(out);
    if !Reshapes(self.shape, mat1.shape, mat2.shape, out.shape, beta, alpha) {
      guard.Release();
      return false;
    }
    var resultR := ResultRe(self.shape, out.shape, alpha == ZERO, beta, alpha, cr, ci, abR, abI);
    var resultI := ResultIm(self.shape, out.shape, alpha == ZERO, beta, alpha, cr, ci, abR, abI);
    guard.tmp.re := Overlay(out.shape, resultR, guard.tmp.re);
    guard.tmp.im := Overlay(out.shape, resultI, guard.tmp.im);
    ghost var tr, ti := guard.tmp.re, guard.tmp.im;
    guard.Release();
    forall p | beta != ZERO && Inside(out.shape, p)
      ensures SelfAt(self.shape, out.shape, alpha == ZERO, p) == ToSelf(self.shape, out.shape, p)
    {
      SelfAtBelongs(self.shape, mat1.shape, mat2.shape, out.shape, beta, alpha, p);
    }
    Finish(out.Contents(), s, m, w, alpha == ZERO, beta, alpha, cr, ci, abR, abI, tr, ti);
    return true;
  }

  // ---- baddbmm ----

  // self is a single plain element of what out writes: its planes are made contiguous
  // without a copy, and the first write goes into them.
  predicate Aliased(self: Tensor, beta: Complex, out: Tensor)
  {
    beta != ZERO && self.data == out.data && !self.conj && !out.conj && Numel(self.shape) <= 1 && Inside(out.shape, self.at(ORIGIN))
  }

  // What baddbmm leaves at p.  If self is the element q of out, the imaginary part is off
  // by beta.im times the change of q's real part, at every position.
  function Outcome(out: Shape, aliased: bool, q: Pos, self: View, mat1: View, mat2: View, beta: Complex, alpha: Complex, p: Pos): Complex
  {
    var want := Want(out, self, mat1, mat2, beta, alpha, p);
    if aliased then
      Complex(want.re, want.im + RealMul(beta.im, Want(out, self, mat1, mat2, beta, alpha, q).re - self.re(ORIGIN)))
    else
      want
  }

  // A broadcast single element is used everywhere.
  lemma OneElement(self: Shape, out: Shape, p: Pos)
    requires Numel(self) <= 1 && Broadcasts(self, out) && Inside(out, p) && out.Matrix?
    ensures SelfAt(self, out, false, p) == ORIGIN == ToSelf(self, out, p)
  {
    InsideIsPositive(out, p);
    var x, y, z := Batch(self), Rows(self), Cols(self);
    SmallerPair(1, 1, x, y);
    SmallerPair(1, 1, x * y, z);
  }

  lemma DistributeReal(x: real, a: real, b: real)
    ensures RealMul(x, a - b) == RealMul(x, a) - RealMul(x, b)
  {
  }

  // Reading another real plane of self for the imaginary part shifts it.
  lemma ImaginaryShift(s: Shape, out: Shape, beta: Complex, alpha: Complex, cr: Plane, again: Plane, ci: Plane, re: Plane, im: Plane, p: Pos)
    requires beta != ZERO
    ensures var x := SelfAt(s, out, false, p);
            ResultIm(s, out, false, beta, alpha, again, ci, re, im)(p)
            == ResultIm(s, out, false, beta, alpha, cr, ci, re, im)(p) + RealMul(beta.im, again(x) - cr(x))
  {
    var x := SelfAt(s, out, false, p);
    DistributeReal(beta.im, again(x), cr(x));
    ScaledImAt(beta, cr, ci, x);
    ScaledImAt(beta, again, ci, x);
    hide ScaledIm, SelfAt, RealMul, ToProduct;
  }

  lemma ScaledImAt(x: Complex, re: Plane, im: Plane, p: Pos)
    ensures ScaledIm(x, re, im)(p) == RealMul(x.re, im(p)) + RealMul(x.im, re(p))
  {
  }

  // What the two writes leave at p, when the real plane that is read for the second one
  // may have changed.
  lemma ShiftedAt(self: View, mat1: View, mat2: View, out: Shape, beta: Complex, alpha: Complex,
                  cr: Plane, again: Plane, ci: Plane, re: Plane, im: Plane, p: Pos)
    requires Operands(self, mat1, mat2, beta, alpha, cr, ci, re, im) && beta != ZERO
    requires SelfAt(self.shape, out, false, p) == ToSelf(self.shape, out, p)
    ensures var x, want := SelfAt(self.shape, out, false, p), Want(out, self, mat1, mat2, beta, alpha, p);
            Both(ResultRe(self.shape, out, false, beta, alpha, cr, ci, re, im), ResultIm(self.shape, out, false, beta, alpha, again, ci, re, im), p)
            == Complex(want.re, want.im + RealMul(beta.im, again(x) - cr(x)))
  {
    hide Want, ResultRe, ResultIm, SelfAt, ToSelf, Operands, RealMul;
    ResultWanted(self, mat1, mat2, out, false, beta, alpha, cr, ci, re, im, p);
    ImaginaryShift(self.shape, out, beta, alpha, cr, again, ci, re, im, p);
  }

  // The real plane as it is read again after the first write.
  ghost predicate ReadAgain(out: Shape, aliased: bool, self: Shape, cr: Plane, again: Plane, first: real)
  {
    forall p :: Inside(out, p) ==> again(SelfAt(self, out, false, p)) == if aliased then first else cr(SelfAt(self, out, false, p))
  }

  lemma OutcomeAt(self: View, mat1: View, mat2: View, out: Shape, aliased: bool, q: Pos, beta: Complex, alpha: Complex,
                  cr: Plane, again: Plane, ci: Plane, re: Plane, im: Plane, p: Pos)
    requires Operands(self, mat1, mat2, beta, alpha, cr, ci, re, im) && beta != ZERO && Inside(out, p)
    requires out.Matrix? && Broadcasts(self.shape, out)
    requires aliased ==> Inside(out, q) && Numel(self.shape) <= 1 && cr == self.re
    requires ReadAgain(out, aliased, self.shape, cr, again, Want(out, self, mat1, mat2, beta, alpha, q).re)
    ensures Both(ResultRe(self.shape, out, false, beta, alpha, cr, ci, re, im), ResultIm(self.shape, out, false, beta, alpha, again, ci, re, im), p)
            == Outcome(out, aliased, q, self, mat1, mat2, beta, alpha, p)
  {
    hide *;
    SameElement(self.shape, out, p);
    if aliased {
      OneElement(self.shape, out, p);
    }
    ShiftedAt(self, mat1, mat2, out, beta, alpha, cr, again, ci, re, im, p);
    ShiftRead(out, aliased, self.shape, cr, again, Want(out, self, mat1, mat2, beta, alpha, q).re, beta.im, p);
    OutcomeIs(out, aliased, q, self, mat1, mat2, beta, alpha, p);
  }

  // Without the reshape of a vector both ways to find the element of self agree.
  lemma SameElement(self: Shape, out: Shape, p: Pos)
    requires out.Matrix?
    ensures SelfAt(self, out, false, p) == ToSelf(self, out, p)
  {
  }

  lemma ShiftRead(out: Shape, aliased: bool, self: Shape, cr: Plane, again: Plane, first: real, x: real, p: Pos)
    requires ReadAgain(out, aliased, self, cr, again, first) && Inside(out, p)
    ensures var e := SelfAt(self, out, false, p);
            RealMul(x, again(e) - cr(e)) == if aliased then RealMul(x, first - cr(e)) else 0.0
  {
    hide SelfAt;
  }

  lemma OutcomeIs(out: Shape, aliased: bool, q: Pos, self: View, mat1: View, mat2: View, beta: Complex, alpha: Complex, p: Pos)
    ensures var want, first := Want(out, self, mat1, mat2, beta, alpha, p), Want(out, self, mat1, mat2, beta, alpha, q).re;
            Outcome(out, aliased, q, self, mat1, mat2, beta, alpha, p)
            == Complex(want.re, want.im + if aliased then RealMul(beta.im, first - self.re(ORIGIN)) else 0.0)
  {
    hide Want, RealMul;
  }

  lemma IgnoresSelf(s: Shape, out: Shape, alpha: Complex, cr: Plane, again: Plane, ci: Plane, re: Plane, im: Plane, p: Pos)
    requires alpha != ZERO
    ensures ResultIm(s, out, false, ZERO, alpha, again, ci, re, im)(p) == ResultIm(s, out, false, ZERO, alpha, cr, ci, re, im)(p)
  {
  }

  // Both cases of beta.
  lemma BothOutcomes(self: View, mat1: View, mat2: View, out: Shape, aliased: bool, q: Pos, beta: Complex, alpha: Complex,
                     cr: Plane, again: Plane, ci: Plane, re: Plane, im: Plane, p: Pos)
    requires Operands(self, mat1, mat2, beta, alpha, cr, ci, re, im) && Inside(out, p) && out.Matrix?
    requires beta != ZERO ==> Broadcasts(self.shape, out)
    requires aliased ==> beta != ZERO && Inside(out, q) && Numel(self.shape) <= 1 && cr == self.re
    requires beta != ZERO ==> ReadAgain(out, aliased, self.shape, cr, again, Want(out, self, mat1, mat2, beta, alpha, q).re)
    ensures Both(ResultRe(self.shape, out, false, beta, alpha, cr, ci, re, im), ResultIm(self.shape, out, false, beta, alpha, again, ci, re, im), p)
            == Outcome(out, aliased, q, self, mat1, mat2, beta, alpha, p)
  {
    if beta != ZERO {
      OutcomeAt(self, mat1, mat2, out, aliased, q, beta, alpha, cr, again, ci, re, im, p);
    } else {
      hide Want, ResultRe, ResultIm, Operands;
      ResultWanted(self, mat1, mat2, out, false, beta, alpha, cr, ci, re, im, p);
      IgnoresSelf(self.shape, out, alpha, cr, again, ci, re, im, p);
    }
  }

  // All positions of out hold the outcome.
  ghost predicate Left(out: View, aliased: bool, q: Pos, self: View, mat1: View, mat2: View, beta: Complex, alpha: Complex)
  {
    forall p :: Inside(out.shape, p) ==> out.Value(p) == Outcome(out.shape, aliased, q, self, mat1, mat2, beta, alpha, p)
  }

  // After the first write of a baddbmm, reading self again finds the new real part of q
  // if self is q, and what was there before otherwise.
  lemma ReadsAgain(self: Shape, out: Shape, aliased: bool, q: Pos, at: Pos -> Pos, same: bool, was: Plane, first: Plane)
    requires out.Matrix? && Broadcasts(self, out) && (same ==> Numel(self) <= 1 && at(ORIGIN) == q)
    requires aliased <==> same && Inside(out, q)
    ensures ReadAgain(out, aliased, self, Through(was, at), Through(if same then Overlay(out, first, was) else was, at), first(q))
  {
    forall p | Inside(out, p)
      ensures Through(if same then Overlay(out, first, was) else was, at)(SelfAt(self, out, false, p))
              == if aliased then first(q) else Through(was, at)(SelfAt(self, out, false, p))
    {
      if same {
        OneElement(self, out, p);
      }
    }
  }

  // What was written first at q is what is wanted there.
  lemma FirstWanted(self: View, mat1: View, mat2: View, out: Shape, aliased: bool, q: Pos, beta: Complex, alpha: Complex,
                    cr: Plane, again: Plane, ci: Plane, re: Plane, im: Plane)
    requires Operands(self, mat1, mat2, beta, alpha, cr, ci, re, im) && out.Matrix?
    requires ReadAgain(out, aliased, self.shape, cr, again, ResultRe(self.shape, out, false, beta, alpha, cr, ci, re, im)(q))
    ensures ReadAgain(out, aliased, self.shape, cr, again, Want(out, self, mat1, mat2, beta, alpha, q).re)
  {
    SameElement(self.shape, out, q);
    hide Want, ResultRe, ResultIm, SelfAt, ToSelf, Operands;
    ResultWanted(self, mat1, mat2, out, false, beta, alpha, cr, ci, re, im, q);
  }

  lemma BaddbmmEnds(out: View, aliased: bool, q: Pos, self: View, mat1: View, mat2: View, beta: Complex, alpha: Complex,
                    cr: Plane, again: Plane, ci: Plane, re: Plane, im: Plane, tr: Plane, ti: Plane)
    requires Operands(self, mat1, mat2, beta, alpha, cr, ci, re, im) && Holds(tr, ti, out) && out.shape.Matrix?
    requires forall p :: Inside(out.shape, p) ==>
               Both(tr, ti, p) == Both(ResultRe(self.shape, out.shape, false, beta, alpha, cr, ci, re, im),
                                       ResultIm(self.shape, out.shape, false, beta, alpha, again, ci, re, im), p)
    requires beta != ZERO ==> Broadcasts(self.shape, out.shape)
    requires aliased ==> beta != ZERO && Inside(out.shape, q) && Numel(self.shape) <= 1 && cr == self.re
    requires beta != ZERO ==>
               ReadAgain(out.shape, aliased, self.shape, cr, again, ResultRe(self.shape, out.shape, false, beta, alpha, cr, ci, re, im)(q))
    ensures Left(out, aliased, q, self, mat1, mat2, beta, alpha)
  {
    hide ResultRe, ResultIm, Want, Operands, View.Value, Both, Outcome, ReadAgain, Broadcasts, Numel;
    if beta != ZERO {
      FirstWanted(self, mat1, mat2, out.shape, aliased, q, beta, alpha, cr, again, ci, re, im);
    }
    forall p | Inside(out.shape, p) ensures out.Value(p) == Outcome(out.shape, aliased, q, self, mat1, mat2, beta, alpha, p) {
      BothOutcomes(self, mat1, mat2, out.shape, aliased, q, beta, alpha, cr, again, ci, re, im, p);
    }
  }

  // baddbmm_complex_fallback: the real plane is written before the imaginary one is
  // computed.
  method BaddbmmFallback(self: Tensor, batch1: Tensor, batch2: Tensor, beta: Complex, alpha: Complex, out: Tensor)
    requires Multiplies(batch1.shape, batch2.shape, out.shape) && out.shape.Matrix? && Whole(out)
    requires beta != ZERO ==> Broadcasts(self.shape, out.shape)
    modifies out.data
    ensures Left(out.Contents(), Aliased(self, beta, out), self.at(ORIGIN),
                 old(self.Contents()), old(batch1.Contents()), old(batch2.Contents()), beta, alpha)
    ensures Kept(out.shape, old(out.data.re), out.data.re) && Kept(out.shape, old(out.data.im), out.data.im)
  {
    ghost var s, m, w := self.Contents(), batch1.Contents(), batch2.Contents();
    if beta == ZERO && alpha == ZERO {
      ZeroOut(out);
      ZeroWant(out.shape, s, m, w);
      return;
    }
    hide Want, Resolved, IsProduct, Outcome, Left, ResultRe, ResultIm, Multiplies, Broadcasts, ReadAgain, Numel;
    var c := out;
    if beta != ZERO {
      c := ContiguousPlanes(self);
    }
    var abR, abI := MaybeProduct(batch1, batch2, alpha, c.Re());
    var guard := new ConjPhysicalGuard(out);
    ghost var cr, ci, was, same := c.Re(), c.Im(), c.data.re, c.data == guard.tmp;
    var resultR := ResultRe(self.shape, out.shape, false, beta, alpha, c.Re(), c.Im(), abR, abI);
    guard.tmp.re := Overlay(out.shape, resultR, guard.tmp.re);
    // The planes of c are read again here.
    ghost var again := c.Re();
    if beta != ZERO {
      ReadsAgain(self.shape, out.shape, Aliased(self, beta, out), self.at(ORIGIN), c.at, same, was, resultR);
    }
    var resultI := ResultIm(self.shape, out.shape, false, beta, alpha, c.Re(), c.Im(), abR, abI);
    guard.tmp.im := Overlay(out.shape, resultI, guard.tmp.im);
    ghost var tr, ti := guard.tmp.re, guard.tmp.im;
    guard.Release();
    BaddbmmEnds(out.Contents(), Aliased(self, beta, out), self.at(ORIGIN), s, m, w, beta, alpha, cr, again, ci, abR, abI, tr, ti);
  }

  // What baddbmm leaves is what is wanted, everywhere.
  ghost predicate Right(out: Shape, aliased: bool, q: Pos, self: View, mat1: View, mat2: View, beta: Complex, alpha: Complex)
  {
    forall p :: Inside(out, p) ==> Outcome(out, aliased, q, self, mat1, mat2, beta, alpha, p) == Want(out, self, mat1, mat2, beta, alpha, p)
  }

  // It is for all tensors of these shapes.
  ghost predicate AlwaysRight(out: Shape, aliased: bool, q: Pos, self: Shape, mat1: Shape, mat2: Shape, beta: Complex, alpha: Complex)
  {
    forall s: View, m: View, w: View | s.shape == self && m.shape == mat1 && w.shape == mat2 :: Right(out, aliased, q, s, m, w, beta, alpha)
  }

  function Filled(s: Shape, x: Complex): View
  {
    View(s, (p: Pos) => x.re, (p: Pos) => x.im, false)
  }

  lemma {:induction false} TimesNothing(a: Shape, b: View, p: Pos, k: nat)
    ensures Times(Filled(a, ZERO), b, p, k) == ZERO
  {
    if k > 0 {
      var x, y := Filled(a, ZERO).Value(At(p.n, p.i, k - 1)), b.Value(At(p.n, k - 1, p.j));
      assert x == ZERO;
      hide Mul, Add, View.Value, Filled;
      TimesNothing(a, b, p, k - 1);
      ZeroTimes(y, ZERO);
    }
  }

  // Scaling the imaginary unit alone.
  lemma WantOfUnit(out: Shape, self: Shape, mat1: Shape, w: View, beta: Complex, alpha: Complex, p: Pos)
    ensures Want(out, Filled(self, Complex(0.0, 1.0)), Filled(mat1, ZERO), w, beta, alpha, p) == Complex(-beta.im, beta.re)
  {
    TimesNothing(mat1, w, ToProduct(out, p), Cols(mat1));
    assert Mul(alpha, ZERO) == ZERO;
    hide Times, ToProduct, ToSelf;
  }

  lemma NonZeroSquare(x: real, y: real)
    requires x != 0.0 && y == -x
    ensures RealMul(x, y) != 0.0
  {
    if x > 0.0 {
      assert x * x > 0.0;
    } else {
      assert y * y > 0.0;
    }
  }

  lemma WrongAtUnit(out: Shape, q: Pos, self: Shape, mat1: Shape, w: View, beta: Complex, alpha: Complex)
    requires Inside(out, q) && beta.im != 0.0
    ensures !Right(out, true, q, Filled(self, Complex(0.0, 1.0)), Filled(mat1, ZERO), w, beta, alpha)
  {
    var s, m := Filled(self, Complex(0.0, 1.0)), Filled(mat1, ZERO);
    hide Want, RealMul;
    WantOfUnit(out, self, mat1, w, beta, alpha, q);
    NonZeroSquare(beta.im, Want(out, s, m, w, beta, alpha, q).re - s.re(ORIGIN));
    assert Outcome(out, true, q, s, m, w, beta, alpha, q) != Want(out, s, m, w, beta, alpha, q);
  }

  // baddbmm is right on all contents exactly when it does not overwrite self or beta is
  // real.
  lemma BaddbmmRightIff(out: Shape, aliased: bool, q: Pos, self: Shape, mat1: Shape, mat2: Shape, beta: Complex, alpha: Complex)
    requires Inside(out, q)
    ensures AlwaysRight(out, aliased, q, self, mat1, mat2, beta, alpha) <==> !aliased || beta.im == 0.0
  {
    if aliased && beta.im != 0.0 {
      hide Right;
      WrongAtUnit(out, q, self, mat1, Filled(mat2, ZERO), beta, alpha);
    } else {
      hide Want;
    }
  }

  // One element, in place, beta == i, alpha == 0 and self == i: -1 - i instead of -1.
  lemma InPlaceByUnitFails(m: View, w: View)
    ensures var s, i, unit := Matrix(1, 1, 1), Complex(0.0, 1.0), Filled(Matrix(1, 1, 1), Complex(0.0, 1.0));
            && Want(s, unit, m, w, i, ZERO, ORIGIN) == Complex(-1.0, 0.0)
            && Outcome(s, true, ORIGIN, unit, m, w, i, ZERO, ORIGIN) == Complex(-1.0, -1.0)
  {
    var s, i, unit := Matrix(1, 1, 1), Complex(0.0, 1.0), Filled(Matrix(1, 1, 1), Complex(0.0, 1.0));
    WantAlone(s, unit, m, w, i, ORIGIN);
    assert unit.Value(ToSelf(s, s, ORIGIN)) == i;
    hide Want, ToSelf;
  }

  // Without a product.
  lemma WantAlone(out: Shape, self: View, mat1: View, mat2: View, beta: Complex, p: Pos)
    ensures Want(out, self, mat1, mat2, beta, ZERO, p) == Mul(beta, self.Value(ToSelf(self.shape, out, p)))
  {
    ZeroTimes(Times(mat1, mat2, ToProduct(out, p), Cols(mat1.shape)), Mul(beta, self.Value(ToSelf(self.shape, out, p))));
    hide Mul, Times;
  }

  // ---- The entry points ----

  // out.copy_(src) broadcasts src to out; a matrix cannot become a vector.
  predicate Copies(src: Shape, out: Shape)
  {
    !(out.Vector? && src.Matrix?)
  }

  // The values of src under out's conjugation bit.
  method CopyFrom(out: Tensor, src: Tensor) returns (ok: bool)
    requires Whole(out)
    modifies out.data
    ensures ok <==> Copies(src.shape, out.shape)
    ensures ok ==> forall p :: Inside(out.shape, p) ==> out.Contents().Value(p) == old(src.Contents()).Value(Pick(src.shape, p))
    ensures !ok ==> unchanged(out.data)
    ensures Kept(out.shape, old(out.data.re), out.data.re) && Kept(out.shape, old(out.data.im), out.data.im)
  {
    ok := Copies(src.shape, out.shape);
    if ok {
      var s, re, im, flip := src.shape, src.Re(), src.Im(), out.conj != src.conj;
      out.data.re := Overlay(out.shape, (p: Pos) => re(Pick(s, p)), out.data.re);
      out.data.im := Overlay(out.shape, (p: Pos) => if flip then -im(Pick(s, p)) else im(Pick(s, p)), out.data.im);
    }
  }

  // out.mul_(x).
  method MulInPlace(out: Tensor, x: Complex)
    requires Whole(out)
    modifies out.data
    ensures forall p :: Inside(out.shape, p) ==> out.Contents().Value(p) == Mul(x, old(out.Contents()).Value(p))
    ensures Kept(out.shape, old(out.data.re), out.data.re) && Kept(out.shape, old(out.data.im), out.data.im)
  {
    ghost var was := out.Contents();
    var s := ResolveConj(out);
    var sr, si := s.Re(), s.Im();
    var re, im, flip := ScaledRe(x, sr, si), ScaledIm(x, sr, si), out.conj;
    forall p ensures Both(re, im, p) == Mul(x, was.Value(p)) {
      assert Both(sr, si, p) == was.Value(p);
      ScaledAt(x, sr, si, p);
    }
    hide ScaledRe, ScaledIm, Mul;
    out.data.re := Overlay(out.shape, re, out.data.re);
    out.data.im := Overlay(out.shape, (p: Pos) => if flip then -im(p) else im(p), out.data.im);
  }

  lemma NumelZero(s: Shape)
    ensures Numel(s) == 0 <==> Batch(s) == 0 || Rows(s) == 0 || Cols(s) == 0
  {
    if Batch(s) > 0 && Rows(s) > 0 && Cols(s) > 0 {
      assert Batch(s) * Rows(s) > 0;
    }
  }

  // An empty product adds nothing.
  lemma WantScaled(out: Shape, self: View, mat1: View, mat2: View, beta: Complex, alpha: Complex, p: Pos)
    requires Cols(mat1.shape) == 0
    ensures beta == ZERO ==> Want(out, self, mat1, mat2, beta, alpha, p) == ZERO
    ensures Copies(self.shape, out) ==> Want(out, self, mat1, mat2, beta, alpha, p) == Mul(beta, self.Value(Pick(self.shape, p)))
  {
    assert Mul(alpha, ZERO) == ZERO;
    ZeroTimes(self.Value(ToSelf(self.shape, out, p)), Mul(beta, self.Value(ToSelf(self.shape, out, p))));
    hide Mul, Add;
  }

  // Scaling a copy of self computes the result.
  lemma ScaledComputed(out: View, copy: View, self: View, mat1: View, mat2: View, beta: Complex, alpha: Complex)
    requires Cols(mat1.shape) == 0 && Copies(self.shape, out.shape)
    requires forall p :: Inside(out.shape, p) ==> copy.Value(p) == self.Value(Pick(self.shape, p))
    requires forall p :: Inside(out.shape, p) ==> out.Value(p) == Mul(beta, copy.Value(p))
    ensures Computed(out, self, mat1, mat2, beta, alpha)
  {
    hide Want, Mul, View.Value, Pick;
    forall p | Inside(out.shape, p) ensures out.Value(p) == Want(out.shape, self, mat1, mat2, beta, alpha, p) {
      WantScaled(out.shape, self, mat1, mat2, beta, alpha, p);
    }
  }

  lemma PickInside(s: Shape, p: Pos)
    requires Inside(s, p)
    ensures Pick(s, p) == p
  {
  }

  // The shortcut for an empty inner dimension.
  method ScaleOnly(self: Tensor, mat1: Tensor, mat2: Tensor, beta: Complex, alpha: Complex, out: Tensor) returns (ok: bool)
    requires Cols(mat1.shape) == 0 && Whole(out)
    modifies out.data
    ensures ok <==> beta == ZERO || Copies(self.shape, out.shape)
    ensures ok ==> Computed(out.Contents(), old(self.Contents()), old(mat1.Contents()), old(mat2.Contents()), beta, alpha)
    ensures !ok ==> unchanged(out.data)
    ensures Kept(out.shape, old(out.data.re), out.data.re) && Kept(out.shape, old(out.data.im), out.data.im)
  {
    hide Want, Mul, View.Value, Pick, Inside, Through;
    ghost var s, m, w := self.Contents(), mat1.Contents(), mat2.Contents();
    ok := true;
    if beta == ZERO {
      ZeroOut(out);
      forall p ensures Want(out.shape, s, m, w, beta, alpha, p) == ZERO {
        WantScaled(out.shape, s, m, w, beta, alpha, p);
      }
      return;
    }
    if self != out {
      ok := CopyFrom(out, self);
      if !ok {
        return;
      }
    } else {
      forall p | Inside(out.shape, p) ensures Pick(self.shape, p) == p {
        PickInside(out.shape, p);
      }
    }
    ghost var copy := out.Contents();
    MulInPlace(out, beta);
    ScaledComputed(out.Contents(), copy, s, m, w, beta, alpha);
  }

  lemma EmptyInner(mat1: Shape, mat2: Shape, out: Shape)
    requires Multiplies(mat1, mat2, out) && Numel(out) != 0 && Numel(mat1) == 0
    ensures Cols(mat1) == 0
  {
    NumelZero(mat1);
    NumelZero(out);
  }

  // addmm_complex_out_xpu; `ok` is false when it throws.
  method AddmmOut(self: Tensor, mat1: Tensor, mat2: Tensor, beta: Complex, alpha: Complex, out: Tensor) returns (ok: bool)
    requires Multiplies(mat1.shape, mat2.shape, out.shape) && Whole(out)
    requires beta != ZERO ==> Expandable(self.shape, out.shape)
    modifies out.data
    ensures ok <==> Numel(out.shape) == 0
                    || if Numel(mat1.shape) == 0 then beta == ZERO || Copies(self.shape, out.shape)
                       else Reshapes(self.shape, mat1.shape, mat2.shape, out.shape, beta, alpha)
    ensures ok ==> Computed(out.Contents(), old(self.Contents()), old(mat1.Contents()), old(mat2.Contents()), beta, alpha)
    ensures !ok ==> Holds(old(out.data.re), old(out.data.im), out.Contents()) || unchanged(out.data)
    ensures Kept(out.shape, old(out.data.re), out.data.re) && Kept(out.shape, old(out.data.im), out.data.im)
  {
    hide Want, Numel, Multiplies, Reshapes, Expandable;
    if Numel(out.shape) == 0 {
      NumelZero(out.shape);
      return true;
    }
    if Numel(mat1.shape) == 0 {
      EmptyInner(mat1.shape, mat2.shape, out.shape);
      ok := ScaleOnly(self, mat1, mat2, beta, alpha, out);
      return;
    }
    ok := AddmmFallback(self, mat1, mat2, beta, alpha, out);
  }

  // baddbmm_complex_out_xpu.
  method BaddbmmOut(self: Tensor, batch1: Tensor, batch2: Tensor, beta: Complex, alpha: Complex, out: Tensor)
    requires Multiplies(batch1.shape, batch2.shape, out.shape) && out.shape.Matrix? && Whole(out)
    requires beta != ZERO ==> Broadcasts(self.shape, out.shape)
    modifies out.data
    ensures Left(out.Contents(), Numel(batch1.shape) != 0 && Aliased(self, beta, out), self.at(ORIGIN),
                 old(self.Contents()), old(batch1.Contents()), old(batch2.Contents()), beta, alpha)
    ensures Kept(out.shape, old(out.data.re), out.data.re) && Kept(out.shape, old(out.data.im), out.data.im)
  {
    hide Want, Numel, Multiplies, Broadcasts, Aliased;
    if Numel(out.shape) == 0 {
      NumelZero(out.shape);
      return;
    }
    if Numel(batch1.shape) == 0 {
      EmptyInner(batch1.shape, batch2.shape, out.shape);
      var ok := ScaleOnly(self, batch1, batch2, beta, alpha, out);
      return;
    }
    BaddbmmFallback(self, batch1, batch2, beta, alpha, out);
  }
}
