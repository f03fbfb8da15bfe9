// dot_xpu and vdot_xpu: two functions that call each other to get rid of lazy
// conjugation bits.
module DotProducts {
  import opened Complexes

  datatype Vector = Vector(raw: seq<Complex>, isComplex: bool, conj: bool, zero: bool)

  datatype Result = Ok(value: Complex) | Mismatch

  // A real vector has no conjugation bit and no imaginary parts; a zero tensor is zero.
  predicate Wellformed(v: Vector)
  {
    && (!v.isComplex ==> !v.conj && forall i :: 0 <= i < |v.raw| ==> v.raw[i].im == 0.0)
    && (v.zero ==> forall i :: 0 <= i < |v.raw| ==> v.raw[i] == ZERO)
  }

  function Value(v: Vector, i: nat): Complex
    requires i < |v.raw|
  {
    if v.conj then Conj(v.raw[i]) else v.raw[i]
  }

  function Flip(v: Vector): Vector { v.(conj := !v.conj) }

  function ConjResult(r: Result): Result { if r.Ok? then Ok(Conj(r.value)) else r }

  // The sums over the stored elements that the backend computes.
  function RawDot(x: seq<Complex>, y: seq<Complex>, conjugate: bool, n: nat): Complex
    requires n <= |x| && n <= |y|
  {
    if n == 0 then ZERO else
      Add(RawDot(x, y, conjugate, n - 1), Mul(if conjugate then Conj(x[n - 1]) else x[n - 1], y[n - 1]))
  }

  // dot_check, as far as it compares the two vectors.
  predicate Compatible(x: Vector, y: Vector)
  {
    x.isComplex == y.isComplex && |x.raw| == |y.raw|
  }

  function Backend(x: Vector, y: Vector, conjugate: bool): Result
  {
    if !Compatible(x, y) then Mismatch
    else if x.zero || y.zero then Ok(ZERO)
    else Ok(RawDot(x.raw, y.raw, conjugate, |x.raw|))
  }

  function Bits(x: Vector, y: Vector): nat
  {
    (if x.isComplex && x.conj then 1 else 0) + (if y.isComplex && y.conj then 1 else 0)
  }

  function Dot(x: Vector, y: Vector): Result
    requires Wellformed(x) && Wellformed(y)
    decreases Bits(x, y), 0
  {
    if x.isComplex && x.conj then
      if y.conj then ConjResult(Dot(Flip(x), Flip(y))) else Vdot(Flip(x), y)
    else if x.isComplex && y.conj then
      Vdot(Flip(y), x)
    else
      Backend(x, y, false)
  }

  function Vdot(x: Vector, y: Vector): Result
    requires Wellformed(x) && Wellformed(y)
    decreases Bits(x, y), 1
  {
    if !x.isComplex then
      Dot(x, y)
    else if x.conj then
      if y.conj then Vdot(Flip(y), Flip(x)) else Dot(Flip(x), y)
    else if y.conj then
      ConjResult(Dot(x, Flip(y)))
    else
      Backend(x, y, true)
  }

  // ---- What they compute ----

  // Sum of x_i * y_i, or of conj(x_i) * y_i, over the logical values.
  function Sigma(x: Vector, y: Vector, conjugate: bool, n: nat): Complex
    requires n <= |x.raw| && n <= |y.raw|
  {
    if n == 0 then ZERO else
      Add(Sigma(x, y, conjugate, n - 1), Mul(if conjugate then Conj(Value(x, n - 1)) else Value(x, n - 1), Value(y, n - 1)))
  }

  function Wanted(x: Vector, y: Vector, conjugate: bool): Result
  {
    if Compatible(x, y) then Ok(Sigma(x, y, conjugate, |x.raw|)) else Mismatch
  }

  lemma ConjLaws(x: Complex, y: Complex)
    ensures Conj(Mul(x, y)) == Mul(Conj(x), Conj(y)) && Conj(Add(x, y)) == Add(Conj(x), Conj(y))
    ensures Mul(x, y) == Mul(y, x) && Conj(Conj(x)) == x && Conj(ZERO) == ZERO
  {
  }

  // Conjugating both vectors conjugates either sum ...
  lemma {:induction false} SigmaConj(x: Vector, y: Vector, conjugate: bool, n: nat)
    requires n <= |x.raw| && n <= |y.raw|
    ensures Sigma(Flip(x), Flip(y), conjugate, n) == Conj(Sigma(x, y, conjugate, n))
    decreases n
  {
    if n > 0 {
      SigmaConj(x, y, conjugate, n - 1);
      var a, b := Value(x, n - 1), Value(y, n - 1);
      ConjLaws(a, b);
      ConjLaws(Conj(a), b);
      ConjLaws(Sigma(x, y, conjugate, n - 1), Mul(if conjugate then Conj(a) else a, b));
      hide Mul, Add;
    } else {
      ConjLaws(ZERO, ZERO);
    }
  }

  // ... conjugating the first exchanges the two sums ...
  lemma {:induction false} SigmaFlip(x: Vector, y: Vector, conjugate: bool, n: nat)
    requires n <= |x.raw| && n <= |y.raw|
    ensures Sigma(Flip(x), y, conjugate, n) == Sigma(x, y, !conjugate, n)
    decreases n
  {
    if n > 0 {
      SigmaFlip(x, y, conjugate, n - 1);
    }
  }

  // ... and the vectors may be exchanged in the plain one.
  lemma {:induction false} SigmaSwap(x: Vector, y: Vector, n: nat)
    requires n <= |x.raw| && n <= |y.raw|
    ensures Sigma(x, y, false, n) == Sigma(y, x, false, n)
    decreases n
  {
    if n > 0 {
      SigmaSwap(x, y, n - 1);
      ConjLaws(Value(x, n - 1), Value(y, n - 1));
    }
  }

  lemma ProductZero(a: Complex, b: Complex)
    requires a == ZERO || b == ZERO
    ensures Mul(a, b) == ZERO && Conj(ZERO) == ZERO && Add(ZERO, ZERO) == ZERO
  {
    if a == ZERO {
      MulZero(b.re);
      MulZero(b.im);
    } else {
      MulZero(a.re);
      MulZero(a.im);
    }
  }

  lemma MulZero(x: real)
    ensures x * 0.0 == 0.0 == 0.0 * x
  {
  }

  lemma {:induction false} SigmaZero(x: Vector, y: Vector, conjugate: bool, n: nat)
    requires Wellformed(x) && Wellformed(y) && (x.zero || y.zero) && n <= |x.raw| && n <= |y.raw|
    ensures Sigma(x, y, conjugate, n) == ZERO
    decreases n
  {
    hide Mul, Add;
    if n > 0 {
      SigmaZero(x, y, conjugate, n - 1);
      ProductZero(if conjugate then Conj(Value(x, n - 1)) else Value(x, n - 1), Value(y, n - 1));
    }
  }

  lemma {:induction false} RawIsSigma(x: Vector, y: Vector, conjugate: bool, n: nat)
    requires !x.conj && !y.conj && n <= |x.raw| && n <= |y.raw|
    ensures RawDot(x.raw, y.raw, conjugate, n) == Sigma(x, y, conjugate, n)
    decreases n
  {
    if n > 0 {
      RawIsSigma(x, y, conjugate, n - 1);
    }
  }

  lemma {:induction false} RealSigma(x: Vector, y: Vector, n: nat)
    requires Wellformed(x) && !x.isComplex && n <= |x.raw| && n <= |y.raw|
    ensures Sigma(x, y, true, n) == Sigma(x, y, false, n)
    decreases n
  {
    if n > 0 {
      RealSigma(x, y, n - 1);
    }
  }

  lemma BackendComputes(x: Vector, y: Vector, conjugate: bool)
    requires Wellformed(x) && Wellformed(y) && (Compatible(x, y) ==> !x.conj && !y.conj)
    ensures Backend(x, y, conjugate) == Wanted(x, y, conjugate)
  {
    if Compatible(x, y) {
      if x.zero || y.zero {
        SigmaZero(x, y, conjugate, |x.raw|);
      } else {
        RawIsSigma(x, y, conjugate, |x.raw|);
      }
    }
  }

  lemma WantedConj(x: Vector, y: Vector, conjugate: bool)
    ensures ConjResult(Wanted(Flip(x), Flip(y), conjugate)) == Wanted(x, y, conjugate)
  {
    if Compatible(x, y) {
      SigmaConj(x, y, conjugate, |x.raw|);
      hide Sigma;
    }
  }

  lemma WantedFlip(x: Vector, y: Vector, conjugate: bool)
    ensures Wanted(Flip(x), y, conjugate) == Wanted(x, y, !conjugate)
  {
    if Compatible(x, y) {
      SigmaFlip(x, y, conjugate, |x.raw|);
      hide Sigma;
    }
  }

  lemma WantedSwap(x: Vector, y: Vector)
    ensures Wanted(x, y, false) == Wanted(y, x, false)
  {
    if Compatible(x, y) {
      SigmaSwap(x, y, |x.raw|);
      hide Sigma;
    }
  }

  lemma WantedReal(x: Vector, y: Vector)
    requires Wellformed(x) && !x.isComplex
    ensures Wanted(x, y, true) == Wanted(x, y, false)
  {
    if Compatible(x, y) {
      RealSigma(x, y, |x.raw|);
      hide Sigma;
    }
  }

  lemma FlipFlip(x: Vector)
    requires Wellformed(x) && x.isComplex
    ensures Flip(Flip(x)) == x && Wellformed(Flip(x))
  {
  }

  // For every combination of bits the result is the sum over the logical values, or
  // the error that the check reports.
  lemma {:induction false} DotComputes(x: Vector, y: Vector)
    requires Wellformed(x) && Wellformed(y)
    ensures Dot(x, y) == Wanted(x, y, false)
    decreases Bits(x, y), 0
  {
    hide Wanted, Backend, ConjResult;
    if x.isComplex && x.conj {
      FlipFlip(x);
      if y.conj {
        DotComputes(Flip(x), Flip(y));
        WantedConj(x, y, false);
      } else {
        VdotComputes(Flip(x), y);
        WantedFlip(x, y, true);
      }
    } else if x.isComplex && y.conj {
      VdotComputes(Flip(y), x);
      WantedFlip(y, x, true);
      WantedSwap(y, x);
    } else {
      BackendComputes(x, y, false);
    }
  }

  lemma {:induction false} VdotComputes(x: Vector, y: Vector)
    requires Wellformed(x) && Wellformed(y)
    ensures Vdot(x, y) == Wanted(x, y, true)
    decreases Bits(x, y), 1
  {
    hide Wanted, Backend, ConjResult;
    if !x.isComplex {
      DotComputes(x, y);
      WantedReal(x, y);
    } else if x.conj {
      FlipFlip(x);
      if y.conj {
        VdotComputes(Flip(y), Flip(x));
        WantedFlip(y, Flip(x), true);
        WantedSwap(y, Flip(x));
        WantedFlip(x, y, false);
      } else {
        DotComputes(Flip(x), y);
        WantedFlip(x, y, false);
      }
    } else if y.conj {
      FlipFlip(x);
      DotComputes(x, Flip(y));
      WantedConj(Flip(x), y, false);
      WantedFlip(x, y, false);
    } else {
      BackendComputes(x, y, true);
    }
  }

  // Either call fails exactly for vectors of different types or lengths, whatever the
  // bits.
  lemma MismatchIff(x: Vector, y: Vector)
    requires Wellformed(x) && Wellformed(y)
    ensures Dot(x, y).Mismatch? <==> x.isComplex != y.isComplex || |x.raw| != |y.raw|
    ensures Vdot(x, y).Mismatch? <==> x.isComplex != y.isComplex || |x.raw| != |y.raw|
  {
    DotComputes(x, y);
    VdotComputes(x, y);
    hide Dot, Vdot, Sigma;
  }

  lemma AddUnit(a: Complex, b: Complex)
    ensures Mul(a, ZERO) == ZERO && Mul(a, ONE) == a && Add(ZERO, b) == b == Add(b, ZERO)
  {
    MulZero(a.re);
    MulZero(a.im);
  }

  // The sum pairs elements at the same index: a unit vector picks one out.
  lemma {:induction false} SigmaOfUnit(x: Vector, y: Vector, conjugate: bool, n: nat, q: nat)
    requires n <= |x.raw| && n <= |y.raw| && forall i :: 0 <= i < n ==> Value(y, i) == if i == q then ONE else ZERO
    ensures Sigma(x, y, conjugate, n) == if q >= n then ZERO else if conjugate then Conj(Value(x, q)) else Value(x, q)
    decreases n
  {
    if n > 0 {
      hide Mul, Add, Conj, Value;
      var a := if conjugate then Conj(Value(x, n - 1)) else Value(x, n - 1);
      SigmaOfUnit(x, y, conjugate, n - 1, q);
      AddUnit(a, a);
      AddUnit(a, ZERO);
    }
  }

  // And it adds up over sums of vectors.
  lemma {:induction false} SigmaAdds(x: Vector, y: Vector, z: Vector, w: Vector, conjugate: bool, n: nat)
    requires n <= |x.raw| && n <= |y.raw| && n <= |z.raw| && n <= |w.raw|
    requires forall i :: 0 <= i < n ==> Value(w, i) == Add(Value(y, i), Value(z, i))
    ensures Sigma(x, w, conjugate, n) == Add(Sigma(x, y, conjugate, n), Sigma(x, z, conjugate, n))
    decreases n
  {
    if n > 0 {
      SigmaAdds(x, y, z, w, conjugate, n - 1);
      ComplexLaws(if conjugate then Conj(Value(x, n - 1)) else Value(x, n - 1), Value(y, n - 1), Value(z, n - 1));
      hide Mul;
    }
  }
}
