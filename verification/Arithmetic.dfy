// Facts about products, quotients and remainders that the index computations share.
module Arithmetic {

  // The number of elements of a box with these sizes.
  function Product(s: seq<nat>): nat
  {
    if s == [] then 1 else Product(s[..|s| - 1]) * s[|s| - 1]
  }

  function Min(a: int, b: int): int
  {
    if a < b then a else b
  }

  // std::ceil.
  function Ceil(x: real): int
  {
    -((-x).Floor)
  }

  // static_cast<int>: towards zero.
  function Trunc(x: real): int
  {
    if x >= 0.0 then x.Floor else -((-x).Floor)
  }

  // Towards zero: the sign stays, and less than 1 is lost.
  lemma TruncTowardsZero(x: real)
    ensures x >= 0.0 ==> 0.0 <= Trunc(x) as real <= x < Trunc(x) as real + 1.0
    ensures x <= 0.0 ==> Trunc(x) as real - 1.0 < x <= Trunc(x) as real <= 0.0
  {
  }

  lemma CeilAbove(x: real)
    ensures Ceil(x) as real - 1.0 < x <= Ceil(x) as real
  {
  }

  // Quotient and remainder are determined by their defining equation.
  lemma DivModUnique(a: int, m: int, q: int, r: int)
    requires m > 0 && a == q * m + r && 0 <= r < m
    ensures a / m == q && a % m == r
  {
    var d := q - a / m;
    assert d * m == a % m - r by {
      assert a == (a / m) * m + a % m;
      Distribute(q, a / m, m);
    }
    if d >= 1 {
      MulMonotone(1, d, m);
    } else if d <= -1 {
      MulMonotone(d, -1, m);
    }
  }

  lemma Distribute(a: int, b: int, m: int)
    ensures (a - b) * m == a * m - b * m && (a + b) * m == a * m + b * m
  {
  }

  lemma Reorder(a: nat, b: nat, c: nat)
    ensures (a * b) * c == (a * c) * b == a * (b * c)
  {
  }

  lemma MulMonotone(a: int, b: int, m: int)
    requires a <= b && m >= 0
    ensures a * m <= b * m
  {
  }

  lemma DivMod(a: int, m: int)
    requires m > 0
    ensures a == (a / m) * m + a % m && 0 <= a % m < m
  {
  }

  lemma NatDivMod(a: nat, m: nat)
    requires m > 0
    ensures a / m >= 0 && 0 <= a % m < m
  {
  }

  lemma QuotientBelow(a: int, n: int, m: int)
    requires m > 0 && 0 <= a < n * m
    ensures 0 <= a / m < n
  {
    DivMod(a, m);
    if a / m >= n {
      MulMonotone(n, a / m, m);
    }
  }

  // Regrouping the last two digits of a mixed-radix number.
  lemma Regroup(a: nat, b: nat, c: nat, m: nat, n: nat)
    ensures (a * m + b) * n + c == a * (m * n) + (b * n + c)
  {
    Distribute(a * m, b, n);
    Reorder(a, m, n);
  }

  lemma TwoDigits(b: nat, n: nat, r: nat, o: nat)
    requires b < n && r < o
    ensures 0 < n * o && b * o + r < n * o
  {
    MulMonotone(b + 1, n, o);
    Distribute(b, 1, o);
  }

  // ---- Row-major positions ----

  predicate InShape(shape: seq<nat>, c: seq<nat>)
  {
    |c| == |shape| && forall k :: 0 <= k < |c| ==> c[k] < shape[k]
  }

  // The position of the element with coordinates c.
  function Linear(shape: seq<nat>, c: seq<nat>): nat
    requires |c| == |shape|
  {
    if c == [] then 0 else Linear(shape[..|c| - 1], c[..|c| - 1]) * shape[|c| - 1] + c[|c| - 1]
  }

  lemma {:induction false} LinearBelow(shape: seq<nat>, c: seq<nat>)
    requires InShape(shape, c)
    ensures Linear(shape, c) < Product(shape)
  {
    if c != [] {
      var n := |c| - 1;
      LinearBelow(shape[..n], c[..n]);
      var l := Linear(shape[..n], c[..n]);
      MulMonotone(l + 1, Product(shape[..n]), shape[n]);
      Distribute(l, 1, shape[n]);
    }
  }

  // Different coordinates have different positions.
  lemma {:induction false} LinearInjective(shape: seq<nat>, c: seq<nat>, d: seq<nat>)
    requires InShape(shape, c) && InShape(shape, d) && Linear(shape, c) == Linear(shape, d)
    ensures c == d
  {
    if c != [] {
      var n := |c| - 1;
      DivModUnique(Linear(shape, c), shape[n], Linear(shape[..n], c[..n]), c[n]);
      DivModUnique(Linear(shape, d), shape[n], Linear(shape[..n], d[..n]), d[n]);
      LinearInjective(shape[..n], c[..n], d[..n]);
      assert c == c[..n] + [c[n]] && d == d[..n] + [d[n]];
    }
  }
}
