// Ragged ("nested") tensors: sizes, offsets, and the kernels that pad them to a
// rectangle and back.
module Nested {
  import opened Arithmetic
  import opened Collections
  import opened Launches

  // One row of the size matrix: the sizes of one constituent.
  type Row = seq<nat>

  datatype Error = NothingToPad | WrongLength | Truncates
  datatype Result<T> = Ok(value: T) | Err(error: Error)

  // ---- Element counts and offsets ----

  // Where constituent |rows| starts, after all of `rows`.
  function Total(rows: seq<Row>): nat
  {
    if rows == [] then 0 else Total(rows[..|rows| - 1]) + Product(rows[|rows| - 1])
  }

  function RowAt(sizes: seq<nat>, length: nat, i: nat): Row
    requires i * length + length <= |sizes|
  {
    sizes[i * length..i * length + length]
  }

  // The rows of a size matrix stored row by row.
  predicate Holds(sizes: seq<nat>, length: nat, rows: seq<Row>)
  {
    && |sizes| == |rows| * length
    && forall i :: 0 <= i < |rows| ==> i * length + length <= |sizes| && rows[i] == RowAt(sizes, length, i)
  }

  method RowNumel(sizes: seq<nat>, length: nat, i: nat) returns (prod: nat)
    requires i * length + length <= |sizes|
    ensures prod == Product(RowAt(sizes, length, i))
  {
    ghost var row := RowAt(sizes, length, i);
    prod := 1;
    for idx := 0 to length
      invariant prod == Product(row[..idx])
    {
      assert row[..idx + 1][..idx] == row[..idx];
      prod := prod * sizes[i * length + idx];
    }
    assert row[..length] == row;
  }

  method PaddedTensorNumel(sizes: seq<nat>, n: nat, length: nat, ghost rows: seq<Row>) returns (numel: nat)
    requires |rows| == n && Holds(sizes, length, rows)
    ensures numel == Total(rows)
  {
    numel := 0;
    for i := 0 to n
      invariant numel == Total(rows[..i])
    {
      assert rows[..i + 1][..i] == rows[..i] && rows[i] == RowAt(sizes, length, i);
      var prod := RowNumel(sizes, length, i);
      numel := numel + prod;
    }
    assert rows[..n] == rows;
  }

  method BatchOffsets(sizes: seq<nat>, n: nat, length: nat, ghost rows: seq<Row>) returns (offsets: array<nat>)
    requires |rows| == n && Holds(sizes, length, rows)
    ensures offsets.Length == 1 + n && forall i :: 0 <= i <= n ==> offsets[i] == Total(rows[..i])
  {
    offsets := new nat[1 + n];
    offsets[0] := 0;
    for i := 0 to n
      invariant forall j :: 0 <= j <= i ==> offsets[j] == Total(rows[..j])
    {
      assert rows[..i + 1][..i] == rows[..i] && rows[i] == RowAt(sizes, length, i);
      var prod := RowNumel(sizes, length, i);
      offsets[i + 1] := offsets[i] + prod;
    }
  }

  lemma {:induction false} TotalNext(rows: seq<Row>, i: nat)
    requires i < |rows|
    ensures Total(rows[..i + 1]) == Total(rows[..i]) + Product(rows[i])
  {
    assert rows[..i + 1][..i] == rows[..i];
  }

  lemma {:induction false} TotalMonotone(rows: seq<Row>, i: nat, j: nat)
    requires i <= j <= |rows|
    ensures Total(rows[..i]) <= Total(rows[..j])
    decreases j
  {
    if i < j {
      TotalMonotone(rows, i, j - 1);
      TotalNext(rows, j - 1);
    }
  }

  predicate InRow(rows: seq<Row>, b: nat, p: nat)
    requires b < |rows|
  {
    Total(rows[..b]) <= p < Total(rows[..b]) + Product(rows[b])
  }

  // The offsets cut the buffer into consecutive pieces: every position lies in exactly
  // one constituent, and the last offset is the number of elements.
  lemma {:induction false} OffsetsPartition(rows: seq<Row>, p: nat) returns (b: nat)
    requires p < Total(rows)
    ensures b < |rows| && InRow(rows, b, p) && Total(rows[..b]) + Product(rows[b]) <= Total(rows)
    ensures forall c :: 0 <= c < |rows| && InRow(rows, c, p) ==> c == b
  {
    assert rows[..|rows|] == rows;
    b := RowOf(rows, |rows|, p);
    TotalNext(rows, b);
    TotalMonotone(rows, b + 1, |rows|);
    forall c | 0 <= c < |rows| && InRow(rows, c, p) ensures c == b {
      TotalNext(rows, c);
      if c < b {
        TotalMonotone(rows, c + 1, b);
      } else if b < c {
        TotalMonotone(rows, b + 1, c);
      }
    }
  }

  lemma {:induction false} RowOf(rows: seq<Row>, n: nat, p: nat) returns (b: nat)
    requires n <= |rows| && p < Total(rows[..n])
    ensures b < n && InRow(rows, b, p)
    decreases n
  {
    assert rows[..0] == [];
    TotalNext(rows, n - 1);
    if p < Total(rows[..n - 1]) {
      b := RowOf(rows, n - 1, p);
    } else {
      b := n - 1;
    }
  }

  // ---- Row-major positions ----

  // What the kernels for one, two and three dimensions compute from position i.
  function Coordinates(shape: seq<nat>, i: nat): (c: seq<nat>)
    requires 1 <= |shape| <= 3 && i < Product(shape)
  {
    if |shape| == 1 then [i]
    else PositiveSizes(shape); if |shape| == 2 then Coordinates2(shape[1], i)
    else Coordinates3(shape[1], shape[2], i)
  }

  function Coordinates2(o2: nat, i: nat): (c: seq<nat>)
    requires o2 > 0
  {
    var i0 := i / o2;
    DivMod(i, o2);
    [i0, i - i0 * o2]
  }

  function Coordinates3(o2: nat, o3: nat, i: nat): (c: seq<nat>)
    requires o2 > 0 && o3 > 0
  {
    MulMonotone(1, o2, o3);
    var inner := o2 * o3;
    NatDivMod(i, inner);
    NatDivMod(i % inner, o3);
    NatDivMod(i, o3);
    [i / inner, i % inner / o3, i % o3]
  }

  // The offset of an element inside its constituent, as the kernels compute it.
  function InputOffset(sizes: Row, c: seq<nat>): nat
    requires 1 <= |sizes| == |c| <= 3
  {
    if |sizes| == 1 then c[0]
    else if |sizes| == 2 then c[0] * sizes[1] + c[1]
    else c[0] * (sizes[1] * sizes[2]) + c[1] * sizes[2] + c[2]
  }

  lemma Unfold1(shape: seq<nat>)
    requires |shape| == 1
    ensures Product(shape) == shape[0]
    ensures forall c :: |c| == 1 ==> Linear(shape, c) == c[0]
  {
    assert shape[..0] == [];
    forall c: seq<nat> | |c| == 1 ensures Linear(shape, c) == c[0] {
      assert c[..0] == [];
    }
  }

  lemma Unfold2(shape: seq<nat>)
    requires |shape| == 2
    ensures Product(shape) == shape[0] * shape[1]
    ensures forall c :: |c| == 2 ==> Linear(shape, c) == c[0] * shape[1] + c[1]
  {
    Unfold1(shape[..1]);
    forall c: seq<nat> | |c| == 2 ensures Linear(shape, c) == c[0] * shape[1] + c[1] {
      assert Linear(shape[..1], c[..1]) == c[0];
    }
  }

  lemma Unfold3(shape: seq<nat>)
    requires |shape| == 3
    ensures Product(shape) == shape[0] * shape[1] * shape[2]
    ensures forall c :: |c| == 3 ==> Linear(shape, c) == (c[0] * shape[1] + c[1]) * shape[2] + c[2]
  {
    Unfold2(shape[..2]);
    forall c: seq<nat> | |c| == 3 ensures Linear(shape, c) == (c[0] * shape[1] + c[1]) * shape[2] + c[2] {
      assert Linear(shape[..2], c[..2]) == c[0] * shape[1] + c[1];
    }
  }

  lemma PositiveSizes(shape: seq<nat>)
    requires 2 <= |shape| <= 3 && 0 < Product(shape)
    ensures forall k :: 0 <= k < |shape| ==> shape[k] > 0
  {
    if |shape| == 2 {
      Unfold2(shape);
      ZeroFactor(shape[0], shape[1]);
    } else {
      Unfold3(shape);
      ZeroFactor(shape[0] * shape[1], shape[2]);
      ZeroFactor(shape[0], shape[1]);
    }
  }

  lemma ZeroFactor(a: nat, b: nat)
    requires a * b > 0
    ensures a > 0 && b > 0
  {
  }

  lemma InputOffsetIsLinear(sizes: Row, c: seq<nat>)
    requires 1 <= |sizes| == |c| <= 3
    ensures InputOffset(sizes, c) == Linear(sizes, c)
  {
    if |sizes| == 1 {
      Unfold1(sizes);
    } else if |sizes| == 2 {
      Unfold2(sizes);
    } else {
      Unfold3(sizes);
      Regroup(c[0], c[1], c[2], sizes[1], sizes[2]);
    }
  }

  // The coordinates the kernels compute are those of position i.
  lemma CoordinatesInvert(shape: seq<nat>, i: nat)
    requires 1 <= |shape| <= 3 && i < Product(shape)
    ensures InShape(shape, Coordinates(shape, i)) && Linear(shape, Coordinates(shape, i)) == i
  {
    if |shape| == 1 {
      Unfold1(shape);
    } else {
      PositiveSizes(shape);
      if |shape| == 2 {
        Unfold2(shape);
        DivMod(i, shape[1]);
        QuotientBelow(i, shape[0], shape[1]);
      } else {
        Unfold3(shape);
        Digits3(shape[0], shape[1], shape[2], i);
      }
    }
  }

  lemma ThreeDigits(a: nat, b: nat, r: nat, n: nat, o: nat)
    requires b < n && r < o
    ensures Coordinates3(n, o, (a * n + b) * o + r) == [a, b, r]
  {
    var i := (a * n + b) * o + r;
    TwoDigits(b, n, r, o);
    Regroup(a, b, r, n, o);
    DivModUnique(i, n * o, a, b * o + r);
    DivModUnique(b * o + r, o, b, r);
    DivModUnique(i, o, a * n + b, r);
  }

  lemma Digits3(m: nat, n: nat, o: nat, i: nat)
    requires n > 0 && o > 0 && i < m * n * o
    ensures var c := Coordinates3(n, o, i); c[0] < m && c[1] < n && c[2] < o && (c[0] * n + c[1]) * o + c[2] == i
  {
    hide Coordinates3;
    var q, r := i / o, i % o;
    DivMod(i, o);
    QuotientBelow(i, m * n, o);
    DivMod(q, n);
    QuotientBelow(q, m, n);
    ThreeDigits(q / n, q % n, r, n, o);
  }

  // ---- The padding kernel ----

  predicate Ragged(rows: seq<Row>, dims: nat)
  {
    1 <= dims <= 3 && forall b :: 0 <= b < |rows| ==> |rows[b]| == dims
  }

  lemma ElementInBuffer(rows: seq<Row>, b: nat, c: seq<nat>)
    requires b < |rows| && 1 <= |rows[b]| == |c| <= 3 && InShape(rows[b], c)
    ensures Total(rows[..b]) + InputOffset(rows[b], c) < Total(rows)
  {
    InputOffsetIsLinear(rows[b], c);
    LinearBelow(rows[b], c);
    TotalNext(rows, b);
    TotalMonotone(rows, b + 1, |rows|);
    assert rows[..|rows|] == rows;
  }

  // The element with coordinates c of constituent b, or padding where there is none.
  function PadFrom<T>(input: seq<T>, rows: seq<Row>, pad: T, b: nat, c: seq<nat>): T
    requires Ragged(rows, |c|) && |input| == Total(rows)
  {
    if b < |rows| && InShape(rows[b], c) then
      ElementInBuffer(rows, b, c);
      input[Total(rows[..b]) + InputOffset(rows[b], c)]
    else
      pad
  }

  // What the kernel writes at position i of block b of an output of this block shape.
  function PadAt<T>(input: seq<T>, rows: seq<Row>, pad: T, shape: seq<nat>, b: nat, i: nat): T
    requires Ragged(rows, |shape|) && |input| == Total(rows) && i < Product(shape)
  {
    CoordinatesInvert(shape, i);
    PadFrom(input, rows, pad, b, Coordinates(shape, i))
  }

  // Positions of one block that belong to work-item tid.
  predicate Own(i: nat, tid: nat, grain: nat)
    requires grain > 0
  {
    i % grain == tid
  }

  // A strided loop reaches one more own position per step.
  lemma StrideStep(j: nat, ii: nat, tid: nat, grain: nat)
    requires tid < grain
    ensures Own(j, tid, grain) && j < (ii + 1) * grain <==> (Own(j, tid, grain) && j < ii * grain) || j == ii * grain + tid
  {
    Distribute(ii, 1, grain);
    DivModUnique(ii * grain + tid, grain, ii, tid);
    DivMod(j, grain);
    if j / grain < ii {
      MulMonotone(j / grain + 1, ii, grain);
      Distribute(j / grain, 1, grain);
    } else if j / grain > ii {
      MulMonotone(ii + 1, j / grain, grain);
    }
  }

  lemma StepInRange(ii: nat, numel: nat, tid: nat, grain: nat)
    requires tid < grain && ii < numel / grain
    ensures ii * grain + tid < numel
  {
    DivMod(numel, grain);
    MulMonotone(ii + 1, numel / grain, grain);
    Distribute(ii, 1, grain);
  }

  lemma LastStride(j: nat, numel: nat, tid: nat, grain: nat)
    requires tid < grain && j < numel && Own(j, tid, grain)
    ensures j < numel / grain * grain || j == numel / grain * grain + tid
  {
    DivMod(numel, grain);
    StrideStep(j, numel / grain, tid, grain);
    Distribute(numel / grain, 1, grain);
  }

  // The own positions below `done` of the block at `base` hold what they should, the
  // rest of the output is as before.
  ghost predicate Filled<T>(out: seq<T>, before: seq<T>, base: nat, want: seq<T>, tid: nat, grain: nat, done: nat)
    requires grain > 0
  {
    && |out| == |before| && base + |want| <= |out|
    && (forall i :: 0 <= i < |want| ==> out[base + i] == if Own(i, tid, grain) && i < done then want[i] else before[base + i])
    && (forall p :: 0 <= p < |out| && !(base <= p < base + |want|) ==> out[p] == before[p])
  }

  lemma FilledStep<T>(out: seq<T>, before: seq<T>, base: nat, want: seq<T>, tid: nat, grain: nat, ii: nat)
    requires tid < grain && Filled(out, before, base, want, tid, grain, ii * grain) && ii * grain + tid < |want|
    ensures Filled(out[base + (ii * grain + tid) := want[ii * grain + tid]], before, base, want, tid, grain, (ii + 1) * grain)
  {
    forall i | 0 <= i < |want|
      ensures Own(i, tid, grain) && i < (ii + 1) * grain <==> (Own(i, tid, grain) && i < ii * grain) || i == ii * grain + tid
    {
      StrideStep(i, ii, tid, grain);
    }
    hide Own;
  }

  ghost function Block<T>(input: seq<T>, rows: seq<Row>, pad: T, shape: seq<nat>, b: nat): (block: seq<T>)
    requires Ragged(rows, |shape|) && |input| == Total(rows)
    ensures |block| == Product(shape)
  {
    seq(Product(shape), i requires 0 <= i < Product(shape) => PadAt(input, rows, pad, shape, b, i))
  }

  ghost predicate OffsetsOf(offsets: seq<nat>, rows: seq<Row>)
  {
    |offsets| == 1 + |rows| && forall j :: 0 <= j <= |rows| ==> offsets[j] == Total(rows[..j])
  }

  // The body of the loop.
  method PadElement<T>(input: array<T>, output: array<T>, offsets: seq<nat>, rows: seq<Row>, pad: T, shape: seq<nat>,
                       b: nat, base: nat, i: nat)
    requires Ragged(rows, |shape|) && OffsetsOf(offsets, rows) && input.Length == Total(rows) && input != output
    requires i < Product(shape) && base + i < output.Length
    modifies output
    ensures output[..] == old(output[..])[base + i := PadAt(input[..], rows, pad, shape, b, i)]
  {
    CoordinatesInvert(shape, i);
    var c := Coordinates(shape, i);
    if b < |rows| && InShape(rows[b], c) {
      ElementInBuffer(rows, b, c);
      output[base + i] := input[offsets[b] + InputOffset(rows[b], c)];
    } else {
      output[base + i] := pad;
    }
  }

  method PadStep<T>(input: array<T>, output: array<T>, offsets: seq<nat>, rows: seq<Row>, pad: T, shape: seq<nat>,
                    b: nat, base: nat, ii: nat, tid: nat, grain: nat, ghost before: seq<T>, ghost want: seq<T>)
    requires Ragged(rows, |shape|) && OffsetsOf(offsets, rows) && input.Length == Total(rows) && input != output
    requires want == Block(input[..], rows, pad, shape, b)
    requires tid < grain && ii * grain + tid < Product(shape) && base + Product(shape) <= output.Length
    requires Filled(output[..], before, base, want, tid, grain, ii * grain)
    modifies output
    ensures Filled(output[..], before, base, want, tid, grain, (ii + 1) * grain)
  {
    var i := ii * grain + tid;
    assert want[i] == PadAt(input[..], rows, pad, shape, b, i);
    hide Block, PadAt, Filled;
    FilledStep(output[..], before, base, want, tid, grain, ii);
    PadElement(input, output, offsets, rows, pad, shape, b, base, i);
  }

  // One work-item of AddPadding1Functor, 2 or 3: every grain-th position of block b,
  // then at most one of the remaining ones.
  method AddPaddingItem<T>(input: array<T>, output: array<T>, offsets: seq<nat>, rows: seq<Row>, pad: T, shape: seq<nat>,
                           b: nat, tid: nat, grain: nat)
    requires Ragged(rows, |shape|) && OffsetsOf(offsets, rows) && input.Length == Total(rows) && input != output
    requires tid < grain && b * Product(shape) + Product(shape) <= output.Length
    modifies output
    ensures Filled(output[..], old(output[..]), b * Product(shape), Block(input[..], rows, pad, shape, b), tid, grain, Product(shape))
  {
    hide Block, Own, Total, Product, Ragged, OffsetsOf;
    var numel := Product(shape);
    var base := b * numel;
    ghost var want := Block(input[..], rows, pad, shape, b);
    ghost var before := output[..];
    var ii := 0;
    while ii < numel / grain
      invariant 0 <= ii <= numel / grain
      invariant want == Block(input[..], rows, pad, shape, b)
      invariant Filled(output[..], before, base, want, tid, grain, ii * grain)
    {
      StepInRange(ii, numel, tid, grain);
      PadStep(input, output, offsets, rows, pad, shape, b, base, ii, tid, grain, before, want);
      ii := ii + 1;
    }
    if numel / grain * grain + tid < numel {
      PadStep(input, output, offsets, rows, pad, shape, b, base, ii, tid, grain, before, want);
    }
    FilledLast(output[..], before, base, want, tid, grain);
  }

  lemma FilledLast<T>(out: seq<T>, before: seq<T>, base: nat, want: seq<T>, tid: nat, grain: nat)
    requires tid < grain
    requires var q := |want| / grain;
             Filled(out, before, base, want, tid, grain, if q * grain + tid < |want| then (q + 1) * grain else q * grain)
    ensures Filled(out, before, base, want, tid, grain, |want|)
  {
    var q := |want| / grain;
    DivMod(|want|, grain);
    Distribute(q, 1, grain);
    forall i | 0 <= i < |want| && Own(i, tid, grain) ensures i < q * grain || i == q * grain + tid {
      LastStride(i, |want|, tid, grain);
    }
    hide Own;
  }

  // ---- A launch ----

  // Work-item tid of block b.
  datatype Item = Item(b: nat, tid: nat)

  // Block b of the output starts at bases[b] and should become wants[b]; blocks do not
  // overlap.
  predicate Apart<T>(bases: seq<nat>, wants: seq<seq<T>>)
  {
    |bases| == |wants| && forall b, c :: 0 <= b < c < |bases| ==> bases[b] + |wants[b]| <= bases[c]
  }

  // The i-th item to run did its part on what the items before it left.
  ghost predicate ItemRan<T>(outs: seq<seq<T>>, items: seq<Item>, bases: seq<nat>, wants: seq<seq<T>>, grain: nat, i: nat)
    requires grain > 0 && |bases| == |wants| && i < |items| && |outs| == |items| + 1
  {
    var x := items[i];
    && x.b < |bases| && x.tid < grain
    && Filled(outs[i + 1], outs[i], bases[x.b], wants[x.b], x.tid, grain, |wants[x.b]|)
  }

  // The outputs between the items of a launch, which run in some order; each is run.
  ghost predicate BlocksRun<T>(outs: seq<seq<T>>, items: seq<Item>, bases: seq<nat>, wants: seq<seq<T>>, grain: nat)
    requires grain > 0 && |bases| == |wants|
  {
    && |outs| == |items| + 1
    && (forall i :: 0 <= i < |items| ==> ItemRan(outs, items, bases, wants, grain, i))
    && (forall b, tid :: 0 <= b < |bases| && 0 <= tid < grain ==> Item(b, tid) in items)
  }

  predicate Covers<T>(bases: seq<nat>, wants: seq<seq<T>>, b: nat, p: nat)
  {
    b < |bases| == |wants| && bases[b] <= p < bases[b] + |wants[b]|
  }

  // The item that writes position p, and what it writes there.
  ghost function OwnerAt<T>(bases: seq<nat>, wants: seq<seq<T>>, grain: nat, p: nat): (owner: Option<Item>)
    requires grain > 0
    ensures owner.None? ==> forall b: nat :: !Covers(bases, wants, b, p)
    ensures owner.Some? ==> Covers(bases, wants, owner.value.b, p) && owner.value.tid == (p - bases[owner.value.b]) % grain
  {
    if exists b: nat :: Covers(bases, wants, b, p) then
      var b: nat :| Covers(bases, wants, b, p);
      NatDivMod(p - bases[b], grain);
      Some(Item(b, (p - bases[b]) % grain))
    else
      None
  }

  ghost function Owners<T>(bases: seq<nat>, wants: seq<seq<T>>, grain: nat, n: nat): (owner: seq<Option<Item>>)
    requires grain > 0
    ensures |owner| == n && forall p :: 0 <= p < n ==> owner[p] == OwnerAt(bases, wants, grain, p)
  {
    seq(n, p requires 0 <= p < n => OwnerAt(bases, wants, grain, p))
  }

  ghost function WantAt<T>(bases: seq<nat>, wants: seq<seq<T>>, grain: nat, p: nat, otherwise: T): T
    requires grain > 0
  {
    match OwnerAt(bases, wants, grain, p)
    case Some(x) => wants[x.b][p - bases[x.b]]
    case None => otherwise
  }

  ghost function Outcome<T>(bases: seq<nat>, wants: seq<seq<T>>, grain: nat, first: seq<T>): (out: seq<T>)
    requires grain > 0
    ensures |out| == |first| && forall p :: 0 <= p < |out| ==> out[p] == WantAt(bases, wants, grain, p, first[p])
  {
    seq(|first|, p requires 0 <= p < |first| => WantAt(bases, wants, grain, p, first[p]))
  }

  lemma OwnerIs<T>(bases: seq<nat>, wants: seq<seq<T>>, grain: nat, b: nat, p: nat, otherwise: T)
    requires grain > 0 && Apart(bases, wants) && Covers(bases, wants, b, p)
    ensures OwnerAt(bases, wants, grain, p) == Some(Item(b, (p - bases[b]) % grain))
    ensures WantAt(bases, wants, grain, p, otherwise) == wants[b][p - bases[b]]
  {
    var x := OwnerAt(bases, wants, grain, p);
    assert x.Some? && Covers(bases, wants, x.value.b, p);
    assert forall c: nat :: Covers(bases, wants, c, p) ==> c == b;
  }

  // The strided positions of one block are those the item owns.
  lemma FilledIsRan<T>(out: seq<T>, before: seq<T>, first: seq<T>, bases: seq<nat>, wants: seq<seq<T>>, grain: nat, x: Item)
    requires grain > 0 && Apart(bases, wants) && |before| == |first| && x.b < |bases| && bases[x.b] + |wants[x.b]| <= |first|
    ensures Filled(out, before, bases[x.b], wants[x.b], x.tid, grain, |wants[x.b]|)
            <==> Ran(out, before, Owners(bases, wants, grain, |first|), Outcome(bases, wants, grain, first), x)
  {
    var base, want, owner, all := bases[x.b], wants[x.b], Owners(bases, wants, grain, |first|), Outcome(bases, wants, grain, first);
    forall i | 0 <= i < |want| ensures owner[base + i] == Some(Item(x.b, i % grain)) && all[base + i] == want[i] {
      OwnerIs(bases, wants, grain, x.b, base + i, first[base + i]);
    }
    forall p | 0 <= p < |first| && !(base <= p < base + |want|) ensures owner[p] != Some(x) {
    }
    hide OwnerAt, WantAt, Owners, Outcome, Apart;
    FilledByPosition(out, before, base, want, x.tid, grain, owner, all, x);
  }

  lemma FilledByPosition<T>(out: seq<T>, before: seq<T>, base: nat, want: seq<T>, tid: nat, grain: nat,
                            owner: seq<Option<Item>>, all: seq<T>, x: Item)
    requires grain > 0 && |before| == |owner| == |all| && base + |want| <= |owner| && x.tid == tid
    requires forall i :: 0 <= i < |want| ==> owner[base + i] == Some(Item(x.b, i % grain)) && all[base + i] == want[i]
    requires forall p :: 0 <= p < |owner| && !(base <= p < base + |want|) ==> owner[p] != Some(x)
    ensures Filled(out, before, base, want, tid, grain, |want|) <==> Ran(out, before, owner, all, x)
  {
    if Filled(out, before, base, want, tid, grain, |want|) {
      forall p | 0 <= p < |out| ensures out[p] == if owner[p] == Some(x) then all[p] else before[p] {
        if base <= p < base + |want| {
          assert out[base + (p - base)] == if Own(p - base, tid, grain) then want[p - base] else before[p];
          assert owner[base + (p - base)] == Some(Item(x.b, (p - base) % grain));
        }
      }
    }
    if Ran(out, before, owner, all, x) {
      forall i | 0 <= i < |want| ensures out[base + i] == if Own(i, tid, grain) then want[i] else before[base + i] {
        assert owner[base + i] == Some(Item(x.b, i % grain)) && all[base + i] == want[i];
      }
    }
  }

  // All blocks lie in an output of this size.
  predicate BlocksInside<T>(bases: seq<nat>, wants: seq<seq<T>>, n: nat)
  {
    |bases| == |wants| && forall b :: 0 <= b < |bases| ==> bases[b] + |wants[b]| <= n
  }

  lemma BlocksLaunch<T>(outs: seq<seq<T>>, items: seq<Item>, bases: seq<nat>, wants: seq<seq<T>>, grain: nat)
    requires grain > 0 && Apart(bases, wants) && BlocksRun(outs, items, bases, wants, grain) && BlocksInside(bases, wants, |outs[0]|)
    ensures Launch(outs, items, Owners(bases, wants, grain, |outs[0]|), Outcome(bases, wants, grain, outs[0]))
  {
    var owner, all := Owners(bases, wants, grain, |outs[0]|), Outcome(bases, wants, grain, outs[0]);
    forall k | 0 <= k < |items| ensures Ran(outs[k + 1], outs[k], owner, all, items[k]) {
      LengthsStay(outs, items, bases, wants, grain, k);
      assert ItemRan(outs, items, bases, wants, grain, k);
      FilledIsRan(outs[k + 1], outs[k], outs[0], bases, wants, grain, items[k]);
    }
    forall p | 0 <= p < |owner| && owner[p].Some? ensures owner[p].value in items {
      NatDivMod(p - bases[owner[p].value.b], grain);
    }
    hide Ran, Owners, Outcome, OwnerAt, WantAt, Filled;
  }

  lemma {:induction false} LengthsStay<T>(outs: seq<seq<T>>, items: seq<Item>, bases: seq<nat>, wants: seq<seq<T>>, grain: nat, n: nat)
    requires grain > 0 && |bases| == |wants| && BlocksRun(outs, items, bases, wants, grain) && n <= |items|
    ensures |outs[n]| == |outs[0]|
    decreases n
  {
    if n > 0 {
      LengthsStay(outs, items, bases, wants, grain, n - 1);
      assert ItemRan(outs, items, bases, wants, grain, n - 1);
    }
  }

  // After the launch every block is what it should be, whatever the order, and the rest
  // is what it was.
  lemma LaunchFills<T>(outs: seq<seq<T>>, items: seq<Item>, bases: seq<nat>, wants: seq<seq<T>>, grain: nat)
    requires grain > 0 && Apart(bases, wants) && BlocksRun(outs, items, bases, wants, grain) && BlocksInside(bases, wants, |outs[0]|)
    ensures |outs[|items|]| == |outs[0]|
    ensures forall b, i :: 0 <= b < |bases| && 0 <= i < |wants[b]| ==> HoldsAt(outs[|items|], bases, wants, b, i)
    ensures forall p :: 0 <= p < |outs[0]| && (forall b: nat :: !Covers(bases, wants, b, p)) ==> outs[|items|][p] == outs[0][p]
  {
    var owner, all := Owners(bases, wants, grain, |outs[0]|), Outcome(bases, wants, grain, outs[0]);
    BlocksLaunch(outs, items, bases, wants, grain);
    LaunchOutcome(outs, items, owner, all);
    forall b, i | 0 <= b < |bases| && 0 <= i < |wants[b]| ensures HoldsAt(outs[|items|], bases, wants, b, i) {
      OwnerIs(bases, wants, grain, b, bases[b] + i, outs[0][bases[b] + i]);
      assert owner[bases[b] + i].Some? && all[bases[b] + i] == wants[b][i];
    }
  }

  predicate HoldsAt<T(==)>(out: seq<T>, bases: seq<nat>, wants: seq<seq<T>>, b: nat, i: nat)
  {
    b < |bases| == |wants| && i < |wants[b]| && bases[b] + i < |out| && out[bases[b] + i] == wants[b][i]
  }

  function AllItems(blocks: nat, grain: nat): (items: seq<Item>)
    requires grain > 0
    ensures forall b, tid :: 0 <= b < blocks && 0 <= tid < grain ==> Item(b, tid) in items
    ensures forall x :: x in items ==> x.b < blocks && x.tid < grain
  {
    if blocks == 0 then [] else
      var last := seq(grain, tid requires 0 <= tid < grain => Item(blocks - 1, tid));
      assert forall b, tid :: b == blocks - 1 && 0 <= tid < grain ==> Item(b, tid) in last by {
        forall b, tid | b == blocks - 1 && 0 <= tid < grain ensures Item(b, tid) in last {
          assert last[tid] == Item(b, tid);
        }
      }
      AllItems(blocks - 1, grain) + last
  }

  // There is such a launch on all old contents.
  lemma LaunchExists<T>(first: seq<T>, bases: seq<nat>, wants: seq<seq<T>>, grain: nat) returns (outs: seq<seq<T>>, items: seq<Item>)
    requires grain > 0 && Apart(bases, wants) && BlocksInside(bases, wants, |first|)
    ensures BlocksRun(outs, items, bases, wants, grain) && outs[0] == first
  {
    items := AllItems(|bases|, grain);
    var owner, all := Owners(bases, wants, grain, |first|), Outcome(bases, wants, grain, first);
    outs := RunItems(first, items, owner, all);
    forall k | 0 <= k < |items| ensures ItemRan(outs, items, bases, wants, grain, k) {
      assert items[k] in items;
      assert Ran(outs[k + 1], outs[k], owner, all, items[k]);
      RanLength(outs, items, owner, all, k);
      FilledIsRan(outs[k + 1], outs[k], first, bases, wants, grain, items[k]);
    }
  }

  lemma RanLength<T, I>(outs: seq<seq<T>>, items: seq<I>, owner: seq<Option<I>>, want: seq<T>, k: nat)
    requires |outs| == |items| + 1 && k < |items| && Ran(outs[k + 1], outs[k], owner, want, items[k])
    ensures |outs[k]| == |owner|
  {
  }
}
