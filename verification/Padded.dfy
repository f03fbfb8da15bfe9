// From a ragged tensor to a padded one and back.
module Padded {
  import opened Arithmetic
  import opened Collections
  import opened Nested

  // A dense tensor, row-major.
  datatype Dense<T> = Dense(shape: seq<nat>, data: seq<T>)

  predicate Complete<T>(d: Dense<T>)
  {
    d.shape != [] && |d.data| == d.shape[0] * Product(d.shape[1..])
  }

  // ---- The launch ----

  // Every position of the output is written by exactly one work-item.
  lemma ItemsDisjoint(numel: nat, grain: nat, b: nat, i: nat, tid: nat, b': nat, i': nat, tid': nat)
    requires grain > 0 && i < numel && i' < numel && Own(i, tid, grain) && Own(i', tid', grain)
    ensures b * numel + i == b' * numel + i' <==> b == b' && i == i'
    ensures b * numel + i == b' * numel + i' ==> tid == tid'
  {
    DivModUnique(b * numel + i, numel, b, i);
    DivModUnique(b' * numel + i', numel, b', i');
  }

  // Position i of block b holds what the kernel writes there.
  ghost predicate Wrote<T>(input: seq<T>, rows: seq<Row>, pad: T, shape: seq<nat>, out: seq<T>, b: nat, i: nat)
    requires Ragged(rows, |shape|) && |input| == Total(rows) && i < Product(shape)
  {
    b * Product(shape) + i < |out| && out[b * Product(shape) + i] == PadAt(input, rows, pad, shape, b, i)
  }

  lemma InBlock(j: nat, blocks: nat, numel: nat)
    requires j < blocks * numel
    ensures numel > 0 && j / numel < blocks && j % numel < numel && j == j / numel * numel + j % numel
  {
    assert numel > 0;
    DivMod(j, numel);
    QuotientBelow(j, blocks, numel);
  }

  function PadAll<T>(input: seq<T>, rows: seq<Row>, pad: T, shape: seq<nat>, blocks: nat): (out: seq<T>)
    requires Ragged(rows, |shape|) && |input| == Total(rows)
    ensures |out| == blocks * Product(shape)
  {
    var numel := Product(shape);
    seq(blocks * numel, j requires 0 <= j < blocks * numel =>
      InBlock(j, blocks, numel);
      PadAt(input, rows, pad, shape, j / numel, j % numel))
  }

  lemma PadAllAt<T>(input: seq<T>, rows: seq<Row>, pad: T, shape: seq<nat>, blocks: nat, b: nat, i: nat)
    requires Ragged(rows, |shape|) && |input| == Total(rows) && b < blocks && i < Product(shape)
    ensures Wrote(input, rows, pad, shape, PadAll(input, rows, pad, shape, blocks), b, i)
  {
    hide PadAt, Product;
    var numel := Product(shape);
    MulMonotone(b + 1, blocks, numel);
    Distribute(b, 1, numel);
    DivModUnique(b * numel + i, numel, b, i);
  }

  predicate AgreeAt<T(==)>(x: seq<T>, y: seq<T>, numel: nat, b: nat, i: nat)
  {
    b * numel + i < |x| && b * numel + i < |y| && x[b * numel + i] == y[b * numel + i]
  }

  lemma SameByBlocks<T>(x: seq<T>, y: seq<T>, blocks: nat, numel: nat)
    requires |x| == |y| == blocks * numel
    requires forall b, i :: 0 <= b < blocks && 0 <= i < numel ==> AgreeAt(x, y, numel, b, i)
    ensures x == y
  {
    forall j | 0 <= j < |x| ensures x[j] == y[j] {
      InBlock(j, blocks, numel);
      assert AgreeAt(x, y, numel, j / numel, j % numel);
    }
  }

  // Where the blocks of the output start, and what they should become.
  function BlockBases(numel: nat, blocks: nat): (bases: seq<nat>)
    ensures |bases| == blocks && forall b :: 0 <= b < blocks ==> bases[b] == b * numel
  {
    seq(blocks, b requires 0 <= b < blocks => b * numel)
  }

  ghost function Blocks<T>(input: seq<T>, rows: seq<Row>, pad: T, shape: seq<nat>, blocks: nat): (wants: seq<seq<T>>)
    requires Ragged(rows, |shape|) && |input| == Total(rows)
    ensures |wants| == blocks && forall b :: 0 <= b < blocks ==> wants[b] == Block(input, rows, pad, shape, b)
  {
    seq(blocks, b requires 0 <= b < blocks => Block(input, rows, pad, shape, b))
  }

  // The work-items of AddPaddingItem for all blocks, run in some order.
  ghost predicate PadLaunch<T>(input: seq<T>, rows: seq<Row>, pad: T, shape: seq<nat>, blocks: nat, grain: nat,
                               outs: seq<seq<T>>, items: seq<Item>)
    requires Ragged(rows, |shape|) && |input| == Total(rows) && grain > 0
  {
    && BlocksRun(outs, items, BlockBases(Product(shape), blocks), Blocks(input, rows, pad, shape, blocks), grain)
    && |outs[0]| == blocks * Product(shape)
  }

  lemma BlockBound(b: nat, n: nat, numel: nat, j: nat)
    requires b < n && j < numel
    ensures b * numel + j < n * numel
  {
    MulMonotone(b + 1, n, numel);
    Distribute(b, 1, numel);
  }

  lemma BlocksApart<T>(input: seq<T>, rows: seq<Row>, pad: T, shape: seq<nat>, blocks: nat)
    requires Ragged(rows, |shape|) && |input| == Total(rows)
    ensures var bases, wants := BlockBases(Product(shape), blocks), Blocks(input, rows, pad, shape, blocks);
            Apart(bases, wants) && BlocksInside(bases, wants, blocks * Product(shape))
  {
    var numel := Product(shape);
    hide Product;
    forall b, c | 0 <= b < c <= blocks ensures b * numel + numel <= c * numel {
      MulMonotone(b + 1, c, numel);
      Distribute(b, 1, numel);
    }
  }

  // Whatever the order of the work-items and whatever was in the output before, a
  // launch has this one outcome.
  lemma LaunchPads<T>(input: seq<T>, rows: seq<Row>, pad: T, shape: seq<nat>, blocks: nat, grain: nat,
                      outs: seq<seq<T>>, items: seq<Item>)
    requires Ragged(rows, |shape|) && |input| == Total(rows) && grain > 0
    requires PadLaunch(input, rows, pad, shape, blocks, grain, outs, items)
    ensures outs[|items|] == PadAll(input, rows, pad, shape, blocks)
  {
    var numel, bases, wants := Product(shape), BlockBases(Product(shape), blocks), Blocks(input, rows, pad, shape, blocks);
    var out, all := outs[|items|], PadAll(input, rows, pad, shape, blocks);
    BlocksApart(input, rows, pad, shape, blocks);
    hide PadAll, PadAt, Product, BlocksRun, BlocksInside, Apart, Covers;
    LaunchFills(outs, items, bases, wants, grain);
    forall b, i | 0 <= b < blocks && 0 <= i < numel ensures AgreeAt(out, all, numel, b, i) {
      PadAllAt(input, rows, pad, shape, blocks, b, i);
      assert HoldsAt(out, bases, wants, b, i);
      assert wants[b] == Block(input, rows, pad, shape, b) && wants[b][i] == PadAt(input, rows, pad, shape, b, i);
    }
    SameByBlocks(out, all, blocks, numel);
  }

  // Where the padded tensor has the element with coordinates c of block b.
  function Position(shape: seq<nat>, b: nat, c: seq<nat>): nat
    requires |c| == |shape|
  {
    b * Product(shape) + Linear(shape, c)
  }

  // The element with coordinates c of block b is that of constituent b, or padding
  // when it has none.
  lemma PaddedElement<T>(input: seq<T>, rows: seq<Row>, pad: T, shape: seq<nat>, blocks: nat, b: nat, c: seq<nat>)
    requires Ragged(rows, |shape|) && |input| == Total(rows) && b < blocks && InShape(shape, c)
    ensures b < |rows| && InShape(rows[b], c) ==> Total(rows[..b]) + Linear(rows[b], c) < |input|
    ensures var p := Position(shape, b, c);
            var out := PadAll(input, rows, pad, shape, blocks);
            && p < |out|
            && out[p] == if b < |rows| && InShape(rows[b], c) then input[Total(rows[..b]) + Linear(rows[b], c)] else pad
  {
    var i := Linear(shape, c);
    LinearBelow(shape, c);
    PadAllAt(input, rows, pad, shape, blocks, b, i);
    CoordinatesInvert(shape, i);
    LinearInjective(shape, c, Coordinates(shape, i));
    if b < |rows| && InShape(rows[b], c) {
      ElementInBuffer(rows, b, c);
      InputOffsetIsLinear(rows[b], c);
    }
  }

  // ---- NestedTensor_to_padded_tensor_xpu ----

  // NestedTensor_get_max_size: the largest size in each dimension.
  function MaxSize(rows: seq<Row>, dims: nat): (max: seq<nat>)
    requires Ragged(rows, dims)
    ensures |max| == dims
  {
    if rows == [] then seq(dims, _ => 0) else
      var most, row := MaxSize(rows[..|rows| - 1], dims), rows[|rows| - 1];
      seq(dims, k requires 0 <= k < dims => if row[k] > most[k] then row[k] else most[k])
  }

  lemma {:induction false} MaxSizeBounds(rows: seq<Row>, dims: nat, b: nat, k: nat)
    requires Ragged(rows, dims) && b < |rows| && k < dims
    ensures rows[b][k] <= MaxSize(rows, dims)[k]
  {
    if b < |rows| - 1 {
      MaxSizeBounds(rows[..|rows| - 1], dims, b, k);
    }
  }

  // Raise new_size to the requested output size, or say why that is impossible.
  method ApplyOutputSize(newSize: array<nat>, outputSize: seq<nat>) returns (error: Option<Error>)
    modifies newSize
    ensures error == SizeError(old(newSize[..]), outputSize)
    ensures error.None? ==> newSize[..] == outputSize
  {
    if |outputSize| != newSize.Length {
      return Some(WrongLength);
    }
    var i := 0;
    while i < newSize.Length
      invariant 0 <= i <= newSize.Length
      invariant forall k :: 0 <= k < i ==> newSize[k] == outputSize[k] && outputSize[k] >= old(newSize[..])[k]
      invariant forall k :: i <= k < newSize.Length ==> newSize[k] == old(newSize[..])[k]
    {
      if outputSize[i] < newSize[i] {
        assert old(newSize[..])[i] == newSize[i];
        return Some(Truncates);
      }
      newSize[i] := outputSize[i];
      i := i + 1;
    }
    return None;
  }

  function SizeError(newSize: seq<nat>, outputSize: seq<nat>): Option<Error>
  {
    if |outputSize| != |newSize| then Some(WrongLength)
    else if exists k :: 0 <= k < |newSize| && outputSize[k] < newSize[k] then Some(Truncates)
    else None
  }

  function PadTo<T>(input: seq<T>, rows: seq<Row>, pad: T, size: seq<nat>): Dense<T>
    requires size != [] && Ragged(rows, |size| - 1) && |input| == Total(rows)
  {
    Dense(size, PadAll(input, rows, pad, size[1..], size[0]))
  }

  // The path without the shortcut for a regular last dimension.
  function PadGenerally<T>(input: seq<T>, rows: seq<Row>, dims: nat, pad: T, outputSize: Option<seq<nat>>): Result<Dense<T>>
    requires Ragged(rows, dims) && |input| == Total(rows)
  {
    var newSize := [|rows|] + MaxSize(rows, dims);
    match outputSize
    case None => Ok(PadTo(input, rows, pad, newSize))
    case Some(size) =>
      match SizeError(newSize, size)
      case Some(e) => Err(e)
      case None => Ok(PadTo(input, rows, pad, size))
  }

  // opt_size(2): the last of two dimensions is the same everywhere.
  predicate Regular(rows: seq<Row>)
    requires Ragged(rows, 2)
  {
    rows != [] && forall b :: 0 <= b < |rows| ==> rows[b][1] == rows[0][1]
  }

  // Two dimensions flattened to one.
  function Flatten(rows: seq<Row>): (flat: seq<Row>)
    requires Ragged(rows, 2)
    ensures |flat| == |rows| && Ragged(flat, 1)
  {
    seq(|rows|, b requires 0 <= b < |rows| => [rows[b][0] * rows[b][1]])
  }

  lemma {:induction false} FlattenTotal(rows: seq<Row>, n: nat)
    requires Ragged(rows, 2) && n <= |rows|
    ensures Total(Flatten(rows)[..n]) == Total(rows[..n])
    decreases n
  {
    if n > 0 {
      FlattenTotal(rows, n - 1);
      TotalNext(rows, n - 1);
      TotalNext(Flatten(rows), n - 1);
      Unfold1(Flatten(rows)[n - 1]);
      Unfold2(rows[n - 1]);
    }
  }

  // reshape to [shape[0], -1, last].
  function Reshape<T>(d: Dense<T>, last: nat): Dense<T>
    requires d.shape != [] && d.shape[0] * last > 0
  {
    Dense([d.shape[0], |d.data| / (d.shape[0] * last), last], d.data)
  }

  function ToPadded<T>(input: seq<T>, rows: seq<Row>, dims: nat, pad: T, outputSize: Option<seq<nat>>): (r: Result<Dense<T>>)
    requires Ragged(rows, dims) && |input| == Total(rows)
    ensures r.Ok? ==> |r.value.shape| == dims + 1 && (outputSize.None? ==> r.value.shape[0] == |rows|)
    decreases dims
  {
    if |input| == 0 then
      Err(NothingToPad)
    else if dims == 2 && Regular(rows) && rows[0][1] > 0 && outputSize.None? then
      assert rows[..|rows|] == rows && Flatten(rows)[..|rows|] == Flatten(rows);
      FlattenTotal(rows, |rows|);
      match ToPadded(input, Flatten(rows), 1, pad, outputSize)
      case Ok(d) =>
        MulMonotone(1, d.shape[0], rows[0][1]);
        Ok(Reshape(d, rows[0][1]))
      case Err(e) => Err(e)
    else
      PadGenerally(input, rows, dims, pad, outputSize)
  }

  lemma {:induction false} FlattenMaxSize(rows: seq<Row>, last: nat)
    requires Ragged(rows, 2) && rows != [] && forall b :: 0 <= b < |rows| ==> rows[b][1] == last
    ensures MaxSize(rows, 2)[1] == last
    ensures MaxSize(Flatten(rows), 1) == [MaxSize(rows, 2)[0] * last]
  {
    var n := |rows| - 1;
    assert Flatten(rows)[..n] == Flatten(rows[..n]);
    if n > 0 {
      FlattenMaxSize(rows[..n], last);
      var most := MaxSize(rows[..n], 2)[0];
      if rows[n][0] > most {
        MulMonotone(most + 1, rows[n][0], last);
        Distribute(most, 1, last);
      } else {
        MulMonotone(rows[n][0], most, last);
      }
    } else {
      assert rows[..0] == [];
    }
  }

  lemma FlatPosition(i: nat, last: nat, rows: nat)
    requires last > 0
    ensures i / last * last + (i - i / last * last) == i && 0 <= i - i / last * last < last
    ensures i / last < rows <==> i < rows * last
  {
    DivMod(i, last);
    if i / last < rows {
      MulMonotone(i / last + 1, rows, last);
      Distribute(i / last, 1, last);
    } else {
      MulMonotone(rows, i / last, last);
    }
  }

  lemma FlatRow(row: Row, p: nat, last: nat, c: seq<nat>, i: nat)
    requires |row| == |c| == 2 && row[1] == last && c[1] < last && c[0] * last + c[1] == i
    requires c[0] < row[0] <==> i < p
    ensures InShape(row, c) <==> InShape([p], [i])
    ensures InputOffset(row, c) == InputOffset([p], [i])
  {
    assert InputOffset(row, c) == c[0] * row[1] + c[1];
    assert InShape(row, c) <==> c[0] < row[0];
    assert InShape([p], [i]) <==> [i][0] < [p][0];
  }

  lemma SamePadFrom<T>(input: seq<T>, rows: seq<Row>, flat: seq<Row>, pad: T, b: nat, c: seq<nat>, d: seq<nat>)
    requires Ragged(rows, |c|) && Ragged(flat, |d|) && |flat| == |rows| && |input| == Total(rows) == Total(flat)
    requires b < |rows| ==> Total(flat[..b]) == Total(rows[..b])
    requires b < |rows| ==> (InShape(rows[b], c) <==> InShape(flat[b], d)) && InputOffset(rows[b], c) == InputOffset(flat[b], d)
    ensures PadFrom(input, flat, pad, b, d) == PadFrom(input, rows, pad, b, c)
  {
    hide InShape, InputOffset, Total;
  }

  lemma FlattenPadFrom<T>(input: seq<T>, rows: seq<Row>, flat: seq<Row>, pad: T, b: nat, c: seq<nat>, last: nat, p: nat, i: nat)
    requires Ragged(rows, 2) && Ragged(flat, 1) && |flat| == |rows| && |input| == Total(rows) == Total(flat) && |c| == 2
    requires b < |rows| ==> Total(flat[..b]) == Total(rows[..b]) && flat[b] == [p]
    requires b < |rows| ==> rows[b][1] == last && (c[0] < rows[b][0] <==> i < p)
    requires c[0] * last + c[1] == i && c[1] < last
    ensures PadFrom(input, flat, pad, b, [i]) == PadFrom(input, rows, pad, b, c)
  {
    hide InShape, InputOffset, Total, PadFrom;
    if b < |rows| {
      FlatRow(rows[b], p, last, c, i);
    }
    SamePadFrom(input, rows, flat, pad, b, c, [i]);
  }

  // Position i of a block means the same element in one dimension and in two.
  lemma FlattenPadAt<T>(input: seq<T>, rows: seq<Row>, pad: T, one: seq<nat>, two: seq<nat>, b: nat, i: nat)
    requires Ragged(rows, 2) && |input| == Total(rows) == Total(Flatten(rows)) && |one| == 1 && |two| == 2 && two[1] > 0
    requires i < Product(one) && i < Product(two) && (b < |rows| ==> rows[b][1] == two[1])
    ensures PadAt(input, Flatten(rows), pad, one, b, i) == PadAt(input, rows, pad, two, b, i)
  {
    hide *;
    var last, flat := two[1], Flatten(rows);
    var c := Coordinates2(last, i);
    TwoCoordinates(one, two, i);
    PadAtIs(input, flat, pad, one, b, i);
    PadAtIs(input, rows, pad, two, b, i);
    FlatPosition(i, last, 0);
    var p := 0;
    if b < |rows| {
      p := FlatSize(rows, b, last);
      FlatPosition(i, last, rows[b][0]);
      FlattenTotal(rows, b);
    }
    FlattenPadFrom(input, rows, flat, pad, b, c, last, p, i);
  }

  lemma FlatSize(rows: seq<Row>, b: nat, last: nat) returns (p: nat)
    requires Ragged(rows, 2) && b < |rows| && rows[b][1] == last
    ensures |rows[b]| == 2 && p == rows[b][0] * last && Flatten(rows)[b] == [p]
  {
    p := rows[b][0] * last;
  }

  lemma TwoCoordinates(one: seq<nat>, two: seq<nat>, i: nat)
    requires |one| == 1 && |two| == 2 && two[1] > 0 && i < Product(one) && i < Product(two)
    ensures Coordinates(one, i) == [i] && Coordinates(two, i) == Coordinates2(two[1], i)
    ensures Coordinates2(two[1], i) == [i / two[1], i - i / two[1] * two[1]]
  {
    hide Product;
  }

  lemma PadAtIs<T>(input: seq<T>, rows: seq<Row>, pad: T, shape: seq<nat>, b: nat, i: nat)
    requires Ragged(rows, |shape|) && |input| == Total(rows) && i < Product(shape)
    ensures |Coordinates(shape, i)| == |shape| && PadAt(input, rows, pad, shape, b, i) == PadFrom(input, rows, pad, b, Coordinates(shape, i))
  {
    CoordinatesInvert(shape, i);
    hide Product, Total, PadFrom, Linear, Coordinates;
  }

  lemma FlattenElement<T>(input: seq<T>, rows: seq<Row>, pad: T, m: nat, last: nat, numel: nat, b: nat, i: nat)
    requires Ragged(rows, 2) && |input| == Total(rows) == Total(Flatten(rows)) && last > 0 && numel == m * last
    requires b < |rows| && i < numel && rows[b][1] == last
    ensures var p, one, two := b * numel + i, PadAll(input, Flatten(rows), pad, [numel], |rows|), PadAll(input, rows, pad, [m, last], |rows|);
            p < |one| && p < |two| && one[p] == two[p]
  {
    Unfold1([numel]);
    Unfold2([m, last]);
    hide Product, PadAt, PadAll, Total, Flatten;
    FlattenPadAt(input, rows, pad, [numel], [m, last], b, i);
    PadAllAt(input, Flatten(rows), pad, [numel], |rows|, b, i);
    PadAllAt(input, rows, pad, [m, last], |rows|, b, i);
    hide Ragged;
  }

  lemma FlattenPadAll<T>(input: seq<T>, rows: seq<Row>, pad: T, m: nat, last: nat, numel: nat)
    requires Ragged(rows, 2) && |input| == Total(rows) == Total(Flatten(rows)) && last > 0 && numel == m * last
    requires forall b :: 0 <= b < |rows| ==> rows[b][1] == last
    ensures PadAll(input, Flatten(rows), pad, [numel], |rows|) == PadAll(input, rows, pad, [m, last], |rows|)
    ensures |PadAll(input, rows, pad, [m, last], |rows|)| == |rows| * numel
  {
    Unfold1([numel]);
    Unfold2([m, last]);
    hide Product, PadAll, Total, Flatten;
    var one, two := PadAll(input, Flatten(rows), pad, [numel], |rows|), PadAll(input, rows, pad, [m, last], |rows|);
    forall b, i | 0 <= b < |rows| && 0 <= i < numel ensures AgreeAt(one, two, numel, b, i) {
      FlattenElement(input, rows, pad, m, last, numel, b, i);
    }
    SameByBlocks(one, two, |rows|, numel);
  }

  // The shortcut never changes the result: shape, contents and errors are those of
  // the general path.
  lemma ShortcutAgrees<T>(input: seq<T>, rows: seq<Row>, dims: nat, pad: T, outputSize: Option<seq<nat>>)
    requires Ragged(rows, dims) && |input| == Total(rows) && |input| > 0
    ensures ToPadded(input, rows, dims, pad, outputSize) == PadGenerally(input, rows, dims, pad, outputSize)
  {
    if dims == 2 && Regular(rows) && rows[0][1] > 0 && outputSize.None? {
      var n, last, flat := |rows|, rows[0][1], Flatten(rows);
      assert rows[..n] == rows && flat[..n] == flat;
      FlattenTotal(rows, n);
      FlattenMaxSize(rows, last);
      var m := MaxSize(rows, 2)[0];
      assert MaxSize(rows, 2) == [m, last];
      FlattenPadAll(input, rows, pad, m, last, m * last);
      ReshapeSize(n, m, last);
      assert [n] + MaxSize(flat, 1) == [n, m * last] && [n] + MaxSize(rows, 2) == [n, m, last];
      assert [n, m * last][1..] == [m * last] && [n, m, last][1..] == [m, last];
      hide PadAll, MaxSize, Flatten, Total, Product, Ragged;
      assert ToPadded(input, flat, 1, pad, outputSize) == Ok(PadTo(input, flat, pad, [n, m * last]));
    }
  }

  lemma ReshapeSize(n: nat, m: nat, last: nat)
    requires n > 0 && last > 0
    ensures n * last > 0 && n * (m * last) / (n * last) == m
  {
    MulMonotone(1, n, last);
    assert n * (m * last) == m * (n * last);
    DivModUnique(n * (m * last), n * last, m, 0);
  }

  // Some row has this size in dimension k.
  predicate Attained(rows: seq<Row>, dims: nat, k: nat, x: nat)
    requires Ragged(rows, dims) && k < dims
  {
    exists b :: 0 <= b < |rows| && rows[b][k] == x
  }

  // MaxSize is the least size with room for every row: it is attained, or 0.
  lemma {:induction false} MaxSizeAttained(rows: seq<Row>, dims: nat, k: nat)
    requires Ragged(rows, dims) && k < dims
    ensures if rows == [] then MaxSize(rows, dims)[k] == 0 else Attained(rows, dims, k, MaxSize(rows, dims)[k])
  {
    if rows != [] {
      var n := |rows| - 1;
      MaxSizeAttained(rows[..n], dims, k);
      if rows[n][k] <= MaxSize(rows[..n], dims)[k] && n > 0 {
        var b :| 0 <= b < n && rows[..n][b][k] == MaxSize(rows[..n], dims)[k];
        assert rows[b][k] == MaxSize(rows, dims)[k];
      } else {
        assert rows[n][k] == MaxSize(rows, dims)[k];
      }
    }
  }

  // The size has a block for every constituent, and room for it in the block.
  predicate HasRoom(rows: seq<Row>, dims: nat, size: seq<nat>)
    requires Ragged(rows, dims)
  {
    |size| == dims + 1 && |rows| <= size[0] && forall b, k :: 0 <= b < |rows| && 0 <= k < dims ==> rows[b][k] <= size[k + 1]
  }

  lemma RoomAboveMaxSize(rows: seq<Row>, dims: nat, size: seq<nat>)
    requires Ragged(rows, dims) && |size| == dims + 1
    ensures HasRoom(rows, dims, size) <==> |rows| <= size[0] && forall k :: 0 <= k < dims ==> MaxSize(rows, dims)[k] <= size[1..][k]
  {
    var most := MaxSize(rows, dims);
    forall k | 0 <= k < dims
      ensures most[k] == 0 || Attained(rows, dims, k, most[k])
      ensures forall b :: 0 <= b < |rows| ==> rows[b][k] <= most[k]
    {
      MaxSizeAttained(rows, dims, k);
      forall b | 0 <= b < |rows| ensures rows[b][k] <= most[k] {
        MaxSizeBounds(rows, dims, b, k);
      }
    }
    hide MaxSize;
    assert forall k :: 0 <= k < dims ==> size[1..][k] == size[k + 1];
  }

  lemma SizeErrorIff(n: nat, most: seq<nat>, size: seq<nat>)
    requires |size| == |most| + 1
    ensures SizeError([n] + most, size).None? <==> n <= size[0] && forall k :: 0 <= k < |most| ==> most[k] <= size[1..][k]
  {
    var newSize := [n] + most;
    assert forall k :: 0 < k < |newSize| ==> newSize[k] == most[k - 1] && size[k] == size[1..][k - 1];
    assert forall k :: 0 <= k < |most| ==> newSize[k + 1] == most[k] && size[k + 1] == size[1..][k];
  }

  lemma RoomIsMaxSize(rows: seq<Row>, dims: nat, size: seq<nat>)
    requires Ragged(rows, dims) && |size| == dims + 1
    ensures HasRoom(rows, dims, size) <==> SizeError([|rows|] + MaxSize(rows, dims), size).None?
  {
    hide *;
    RoomAboveMaxSize(rows, dims, size);
    SizeErrorIff(|rows|, MaxSize(rows, dims), size);
  }

  // Room for all constituents, and none to spare.
  predicate IsLeast(rows: seq<Row>, dims: nat, size: seq<nat>)
    requires Ragged(rows, dims)
  {
    && HasRoom(rows, dims, size) && size[0] == |rows|
    && (rows != [] ==> forall k :: 0 <= k < dims ==> Attained(rows, dims, k, size[1..][k]))
  }

  // Exactly which calls fail, and how: nothing to pad, an output size of the wrong length,
  // or one without room for some constituent.  Without an output size the least one with
  // room is used.
  lemma PaddingOutcome<T>(input: seq<T>, rows: seq<Row>, dims: nat, pad: T, outputSize: Option<seq<nat>>)
    requires Ragged(rows, dims) && |input| == Total(rows)
    ensures var r := ToPadded(input, rows, dims, pad, outputSize);
            && (r == Err(NothingToPad) <==> input == [])
            && (r == Err(WrongLength) <==> input != [] && outputSize.Some? && |outputSize.value| != dims + 1)
            && (r == Err(Truncates) <==>
                  input != [] && outputSize.Some? && |outputSize.value| == dims + 1 && !HasRoom(rows, dims, outputSize.value))
            && (r.Ok? <==> input != [] && (outputSize.Some? ==> HasRoom(rows, dims, outputSize.value)))
            && (r.Ok? && outputSize.Some? ==> r.value.shape == outputSize.value)
            && (r.Ok? && outputSize.None? ==> IsLeast(rows, dims, r.value.shape))
  {
    if input != [] {
      ShortcutAgrees(input, rows, dims, pad, outputSize);
      match outputSize
      case Some(size) =>
        if |size| == dims + 1 {
          RoomIsMaxSize(rows, dims, size);
        }
        hide ToPadded, MaxSize, PadTo, HasRoom;
      case None =>
        LeastSize(rows, dims);
        assert rows != [];
        hide ToPadded, MaxSize, PadAll, HasRoom, IsLeast;
    }
  }

  lemma LeastSize(rows: seq<Row>, dims: nat)
    requires Ragged(rows, dims)
    ensures IsLeast(rows, dims, [|rows|] + MaxSize(rows, dims))
  {
    var size := [|rows|] + MaxSize(rows, dims);
    forall b, k | 0 <= b < |rows| && 0 <= k < dims ensures rows[b][k] <= size[k + 1] {
      MaxSizeBounds(rows, dims, b, k);
    }
    forall k | rows != [] && 0 <= k < dims ensures Attained(rows, dims, k, size[1..][k]) {
      MaxSizeAttained(rows, dims, k);
    }
  }

  // ---- nested_from_padded_xpu ----

  // Every constituent fits into a block of the padded tensor.
  predicate FitsInto(rows: seq<Row>, shape: seq<nat>)
  {
    |shape| == 3 && Ragged(rows, 2)
    && forall b :: 0 <= b < |rows| ==> rows[b][0] <= shape[1] && rows[b][1] <= shape[2]
  }

  lemma FitsShape(rows: seq<Row>, shape: seq<nat>)
    requires FitsInto(rows, shape)
    ensures |shape| == 3 && Ragged(rows, 2)
  {
  }

  // What the host passes to the kernel in one buffer: the sizes of the constituents, the
  // shape of the padded tensor, the offsets.
  function Metadata(sizes: seq<nat>, shape: seq<nat>, offsets: seq<nat>): seq<nat>
  {
    sizes + shape + offsets
  }

  // The sizes of a block as the work-item reads them: those of its constituent, or of the
  // padded tensor.
  predicate ReadSizes(rows: seq<Row>, shape: seq<nat>, b: nat, size0: nat, size1: nat)
    requires Ragged(rows, 2) && |shape| == 3
  {
    if b < |rows| then size0 == rows[b][0] && size1 == rows[b][1] else size0 == shape[0] && size1 == shape[1]
  }

  // After the sizes of the last constituent come those of the padded tensor, so there
  // they are read as the sizes of one more constituent.
  lemma MetadataAt(rows: seq<Row>, sizes: seq<nat>, shape: seq<nat>, offsets: seq<nat>, b: nat)
    requires Ragged(rows, 2) && |shape| == 3 && Holds(sizes, 2, rows) && OffsetsOf(offsets, rows) && b <= |rows|
    ensures var n, meta := |rows|, Metadata(sizes, shape, offsets);
            && |meta| == 3 * n + 4 && meta[2 * n..2 * n + 3] == shape
            && ReadSizes(rows, shape, b, meta[2 * b], meta[2 * b + 1]) && meta[2 * n + 3 + b] == Total(rows[..b])
  {
    if b < |rows| {
      assert rows[b] == RowAt(sizes, 2, b) && b * 2 + 2 <= |sizes|;
    }
  }

  // Where RemovePadding2Functor reads element i of block b, of rows of this size.
  function UnpadIndex(shape: seq<nat>, size: nat, b: nat, i: nat): nat
    requires |shape| == 3 && size > 0
  {
    b * shape[1] * shape[2] + i / size * shape[2] + i % size
  }

  lemma UnpadPosition(b: nat, n: nat, p1: nat, p2: nat, s0: nat, s1: nat, i: nat)
    requires b < n && i < s0 * s1
    ensures s1 > 0 && i / s1 < s0 && 0 <= i % s1 < s1 && i / s1 * s1 + i % s1 == i
    ensures b * p1 * p2 + i / s1 * p2 + i % s1 == b * (p1 * p2) + (i / s1 * p2 + i % s1)
  {
    ZeroFactor(s0, s1);
    DivMod(i, s1);
    QuotientBelow(i, s0, s1);
    Reorder(b, p1, p2);
  }

  lemma UnpadInBounds(rows: seq<Row>, shape: seq<nat>, b: nat, i: nat)
    requires FitsInto(rows, shape) && b < |rows| && b < shape[0] && i < Product(rows[b])
    ensures rows[b][1] > 0
    ensures var c := [i / rows[b][1], i % rows[b][1]];
            && InShape(rows[b], c) && InShape(shape[1..], c) && Linear(rows[b], c) == i
            && UnpadIndex(shape, rows[b][1], b, i) == Position(shape[1..], b, c)
            && UnpadIndex(shape, rows[b][1], b, i) < shape[0] * Product(shape[1..])
  {
    var row, block := rows[b], shape[1..];
    Unfold2(row);
    Unfold2(block);
    UnpadPosition(b, shape[0], shape[1], shape[2], row[0], row[1], i);
    var c := [i / row[1], i % row[1]];
    LinearBelow(block, c);
    BlockBound(b, shape[0], Product(block), Linear(block, c));
  }

  ghost function Unpadded<T>(padded: Dense<T>, rows: seq<Row>, b: nat): (block: seq<T>)
    requires FitsInto(rows, padded.shape) && b < |rows| && b < padded.shape[0] && Complete(padded)
    ensures |block| == Product(rows[b])
  {
    seq(Product(rows[b]), i requires 0 <= i < Product(rows[b]) =>
      UnpadInBounds(rows, padded.shape, b, i);
      padded.data[UnpadIndex(padded.shape, rows[b][1], b, i)])
  }

  // Where block b of the launch writes and what, if it does not leave the buffers: there
  // is a block for each of the padded tensor's, which need not be one per constituent.
  function BlockBase(rows: seq<Row>, b: nat): nat
  {
    Total(if b < |rows| then rows[..b] else rows)
  }

  ghost function BlockWant<T>(padded: Dense<T>, rows: seq<Row>, b: nat): seq<T>
    requires FitsInto(rows, padded.shape) && b < padded.shape[0] && Complete(padded)
  {
    if b < |rows| then Unpadded(padded, rows, b) else []
  }

  // The work-item makes no access outside its buffers.  The block after the last
  // constituent takes the padded tensor's sizes for its own and writes at the end of the
  // output; any later one already reads its offset from beyond the metadata.
  predicate Stays(rows: seq<Row>, shape: seq<nat>, b: nat, tid: nat)
    requires |shape| == 3
  {
    b < |rows| || (b == |rows| && shape[0] * shape[1] <= tid)
  }

  // One element; not `ok` if that is outside the buffers.
  method UnpadElement<T>(input: array<T>, output: array<T>, offset: nat, shape: seq<nat>, size: nat, b: nat, i: nat) returns (ok: bool)
    requires |shape| == 3 && size > 0 && input != output
    modifies output
    ensures ok <==> UnpadIndex(shape, size, b, i) < input.Length && offset + i < output.Length
    ensures output[..] == if ok then old(output[..])[offset + i := input[UnpadIndex(shape, size, b, i)]] else old(output[..])
  {
    NatDivMod(i, size);
    var from := b * shape[1] * shape[2] + i / size * shape[2] + i % size;
    ok := from < input.Length && offset + i < output.Length;
    if ok {
      output[offset + i] := input[from];
    }
  }

  lemma UnpadStepFills<T>(out: seq<T>, next: seq<T>, before: seq<T>, padded: Dense<T>, rows: seq<Row>, b: nat, ii: nat, tid: nat, grain: nat)
    requires FitsInto(rows, padded.shape) && b < |rows| && b < padded.shape[0] && Complete(padded)
    requires tid < grain && ii * grain + tid < Product(rows[b])
    requires Filled(out, before, Total(rows[..b]), Unpadded(padded, rows, b), tid, grain, ii * grain)
    ensures rows[b][1] > 0 && UnpadIndex(padded.shape, rows[b][1], b, ii * grain + tid) < |padded.data|
    ensures Total(rows[..b]) + (ii * grain + tid) < |out|
    ensures next == out[Total(rows[..b]) + (ii * grain + tid) := padded.data[UnpadIndex(padded.shape, rows[b][1], b, ii * grain + tid)]] ==>
              Filled(next, before, Total(rows[..b]), Unpadded(padded, rows, b), tid, grain, (ii + 1) * grain)
  {
    hide *;
    var base, want := Total(rows[..b]), Unpadded(padded, rows, b);
    UnpaddedAt(padded, rows, b, ii * grain + tid);
    FilledStep(out, before, base, want, tid, grain, ii);
    FilledRoom(out, before, base, want, tid, grain, ii * grain);
  }

  lemma FilledRoom<T>(out: seq<T>, before: seq<T>, base: nat, want: seq<T>, tid: nat, grain: nat, done: nat)
    requires grain > 0 && Filled(out, before, base, want, tid, grain, done)
    ensures base + |want| <= |out|
  {
  }

  lemma BlockSize<T>(padded: Dense<T>, rows: seq<Row>, b: nat, size0: nat, size1: nat)
    requires FitsInto(rows, padded.shape) && Complete(padded) && b <= |rows| && b < padded.shape[0]
    requires ReadSizes(rows, padded.shape, b, size0, size1)
    ensures BlockBase(rows, b) == Total(rows[..b]) && BlockBase(rows, b) + |BlockWant(padded, rows, b)| <= Total(rows)
    ensures b < |rows| ==> size0 * size1 == Product(rows[b]) == |Unpadded(padded, rows, b)|
  {
    assert rows[..|rows|] == rows;
    if b < |rows| {
      Unfold2(rows[b]);
      TotalNext(rows, b);
      TotalMonotone(rows, b + 1, |rows|);
    }
  }

  lemma FilledNothing<T>(out: seq<T>, base: nat, want: seq<T>, tid: nat, grain: nat)
    requires grain > 0 && base + |want| <= |out|
    ensures Filled(out, out, base, want, tid, grain, 0)
    ensures want == [] ==> Filled(out, out, base, want, tid, grain, |want|)
  {
  }

  // What the first rounds of the loop of a work-item leave; without a constituent there
  // is no second round.
  ghost predicate AfterRounds<T>(out: seq<T>, before: seq<T>, padded: Dense<T>, rows: seq<Row>, b: nat, tid: nat, grain: nat, rounds: nat)
    requires FitsInto(rows, padded.shape) && Complete(padded) && b < padded.shape[0] && grain > 0
  {
    if b < |rows| then Filled(out, before, Total(rows[..b]), Unpadded(padded, rows, b), tid, grain, rounds * grain)
    else rounds == 0 && out == before
  }

  // The work-item did its part of block b.
  ghost predicate BlockDone<T>(out: seq<T>, before: seq<T>, padded: Dense<T>, rows: seq<Row>, b: nat, tid: nat, grain: nat)
    requires FitsInto(rows, padded.shape) && Complete(padded) && b < padded.shape[0] && grain > 0
  {
    Filled(out, before, BlockBase(rows, b), BlockWant(padded, rows, b), tid, grain, |BlockWant(padded, rows, b)|)
  }

  lemma NoRounds<T>(out: seq<T>, padded: Dense<T>, rows: seq<Row>, b: nat, tid: nat, grain: nat)
    requires FitsInto(rows, padded.shape) && Complete(padded) && b < padded.shape[0] && grain > 0 && b <= |rows| && |out| == Total(rows)
    ensures AfterRounds(out, out, padded, rows, b, tid, grain, 0)
  {
    if b < |rows| {
      RowInside(rows, b);
      FilledNothing(out, Total(rows[..b]), Unpadded(padded, rows, b), tid, grain);
    }
    hide Filled, Unpadded, Total, Product;
  }

  lemma RowInside(rows: seq<Row>, b: nat)
    requires b < |rows|
    ensures Total(rows[..b]) + Product(rows[b]) <= Total(rows)
  {
    TotalNext(rows, b);
    TotalMonotone(rows, b + 1, |rows|);
    assert rows[..|rows|] == rows;
  }

  lemma AllRounds<T>(out: seq<T>, before: seq<T>, padded: Dense<T>, rows: seq<Row>, b: nat, tid: nat, grain: nat, numel: nat)
    requires FitsInto(rows, padded.shape) && Complete(padded) && b < padded.shape[0] && tid < grain && b <= |rows| && |before| == Total(rows)
    requires b < |rows| ==> numel == Product(rows[b])
    requires AfterRounds(out, before, padded, rows, b, tid, grain,
                         if numel / grain * grain + tid < numel then numel / grain + 1 else numel / grain)
    ensures BlockDone(out, before, padded, rows, b, tid, grain)
  {
    if b < |rows| {
      hide Filled, Unpadded, Total, Product;
      FilledLast(out, before, Total(rows[..b]), Unpadded(padded, rows, b), tid, grain);
    } else {
      FilledNothing(before, BlockBase(rows, b), BlockWant(padded, rows, b), tid, grain);
    }
  }

  // One round of the loop of a work-item.
  method UnpadStep<T>(input: array<T>, output: array<T>, offset: nat, shape: seq<nat>, size0: nat, size1: nat, numel: nat, b: nat,
                      ii: nat, tid: nat, grain: nat, ghost padded: Dense<T>, ghost rows: seq<Row>, ghost before: seq<T>)
    returns (ok: bool)
    requires FitsInto(rows, shape) && shape == padded.shape && Complete(padded) && padded.data == input[..] && input != output
    requires b <= |rows| && b < shape[0] && ReadSizes(rows, shape, b, size0, size1) && offset == Total(rows[..b]) && output.Length == Total(rows)
    requires tid < grain && ii * grain + tid < numel == size0 * size1
    requires AfterRounds(output[..], before, padded, rows, b, tid, grain, ii)
    modifies output
    ensures ok <==> b < |rows|
    ensures ok ==> AfterRounds(output[..], before, padded, rows, b, tid, grain, ii + 1)
  {
    ghost var out, i := output[..], ii * grain + tid;
    ZeroFactor(size0, size1);
    BlockSize(padded, rows, b, size0, size1);
    hide Unpadded, Own, Total, Product, FitsInto, Filled, UnpadIndex;
    if b < |rows| {
      UnpadStepFills(out, out, before, padded, rows, b, ii, tid, grain);
    }
    ok := UnpadElement(input, output, offset, shape, size1, b, ii * grain + tid);
    if b < |rows| {
      UnpadStepFills(out, output[..], before, padded, rows, b, ii, tid, grain);
    }
  }

  // The loop of a work-item and its remainder.
  method UnpadBlock<T>(input: array<T>, output: array<T>, offset: nat, shape: seq<nat>, size0: nat, size1: nat, numel: nat, b: nat,
                       tid: nat, grain: nat, ghost padded: Dense<T>, ghost rows: seq<Row>)
    returns (ok: bool)
    requires FitsInto(rows, shape) && shape == padded.shape && Complete(padded) && padded.data == input[..] && input != output
    requires b <= |rows| && b < shape[0] && ReadSizes(rows, shape, b, size0, size1) && offset == Total(rows[..b]) && output.Length == Total(rows)
    requires tid < grain && numel == size0 * size1
    modifies output
    ensures ok <==> b < |rows| || numel <= tid
    ensures ok ==> BlockDone(output[..], old(output[..]), padded, rows, b, tid, grain)
  {
    hide *;
    ghost var before := output[..];
    BlockSize(padded, rows, b, size0, size1);
    NoRounds(before, padded, rows, b, tid, grain);
    var ii := 0;
    while ii < numel / grain
      invariant 0 <= ii <= numel / grain && input[..] == padded.data && (b == |rows| ==> ii == 0)
      invariant AfterRounds(output[..], before, padded, rows, b, tid, grain, ii)
    {
      StepInRange(ii, numel, tid, grain);
      ok := UnpadStep(input, output, offset, shape, size0, size1, numel, b, ii, tid, grain, padded, rows, before);
      if !ok {
        return;
      }
      ii := ii + 1;
    }
    if numel / grain * grain + tid < numel {
      ok := UnpadStep(input, output, offset, shape, size0, size1, numel, b, ii, tid, grain, padded, rows, before);
      if !ok {
        return;
      }
    }
    AllRounds(output[..], before, padded, rows, b, tid, grain, numel);
    return true;
  }

  lemma StaysWhere(rows: seq<Row>, shape: seq<nat>, b: nat, tid: nat, size0: nat, size1: nat)
    requires Ragged(rows, 2) && |shape| == 3 && b <= |rows| && ReadSizes(rows, shape, b, size0, size1)
    ensures Stays(rows, shape, b, tid) <==> b < |rows| || size0 * size1 <= tid
  {
  }

  lemma LateBlock(rows: seq<Row>, shape: seq<nat>, b: nat, tid: nat)
    requires |shape| == 3 && b > |rows|
    ensures !Stays(rows, shape, b, tid)
  {
  }

  // One work-item of RemovePadding2Functor; not `ok` as soon as an access would leave
  // the metadata, the padded tensor or the output.
  method RemovePaddingItem<T>(input: array<T>, output: array<T>, meta: seq<nat>, n: nat, b: nat, tid: nat, grain: nat,
                              ghost padded: Dense<T>, ghost rows: seq<Row>, ghost sizes: seq<nat>, ghost offsets: seq<nat>)
    returns (ok: bool)
    requires FitsInto(rows, padded.shape) && Complete(padded) && padded.data == input[..] && input != output
    requires Holds(sizes, 2, rows) && OffsetsOf(offsets, rows) && meta == Metadata(sizes, padded.shape, offsets) && n == |rows|
    requires b < padded.shape[0] && tid < grain && output.Length == Total(rows)
    modifies output
    ensures ok <==> Stays(rows, padded.shape, b, tid)
    ensures ok ==> BlockDone(output[..], old(output[..]), padded, rows, b, tid, grain)
  {
    hide *;
    FitsShape(rows, padded.shape);
    MetadataAt(rows, sizes, padded.shape, offsets, if b < n then b else n);
    if b <= n {
      StaysWhere(rows, padded.shape, b, tid, meta[2 * b], meta[2 * b + 1]);
    } else {
      LateBlock(rows, padded.shape, b, tid);
    }
    // The three parts of the metadata.
    var outputSizes, inputSizes, offsetsAt := 0, 2 * n, 2 * n + 3;
    if offsetsAt + b >= |meta| {
      return false;
    }
    var offset := meta[offsetsAt + b];
    var size0, size1 := meta[outputSizes + 2 * b], meta[outputSizes + 2 * b + 1];
    ok := UnpadBlock(input, output, offset, meta[inputSizes..inputSizes + 3], size0, size1, size0 * size1, b, tid, grain, padded, rows);
  }

  // ---- The removal launch ----

  function RowBases(rows: seq<Row>, blocks: nat): (bases: seq<nat>)
    ensures |bases| == blocks && forall b :: 0 <= b < blocks ==> bases[b] == BlockBase(rows, b)
  {
    seq(blocks, b requires 0 <= b < blocks => BlockBase(rows, b))
  }

  ghost function Constituents<T>(padded: Dense<T>, rows: seq<Row>): (wants: seq<seq<T>>)
    requires FitsInto(rows, padded.shape) && Complete(padded)
    ensures |wants| == padded.shape[0] && forall b :: 0 <= b < |wants| ==> wants[b] == BlockWant(padded, rows, b)
  {
    seq(padded.shape[0], b requires 0 <= b < padded.shape[0] => BlockWant(padded, rows, b))
  }

  // No work-item of the launch, which has one block per block of the padded tensor,
  // leaves its buffers.
  ghost predicate AllStay(rows: seq<Row>, shape: seq<nat>, grain: nat)
    requires |shape| == 3
  {
    forall b, tid :: 0 <= b < shape[0] && 0 <= tid < grain ==> Stays(rows, shape, b, tid)
  }

  // All of them, run in some order: each does its part of its block.
  ghost predicate UnpadLaunch<T>(padded: Dense<T>, rows: seq<Row>, grain: nat, outs: seq<seq<T>>, items: seq<Item>)
    requires FitsInto(rows, padded.shape) && Complete(padded) && grain > 0
  {
    BlocksRun(outs, items, RowBases(rows, padded.shape[0]), Constituents(padded, rows), grain) && |outs[0]| == Total(rows)
  }

  lemma AllStayIff(rows: seq<Row>, shape: seq<nat>, grain: nat)
    requires |shape| == 3 && grain > 0
    ensures AllStay(rows, shape, grain) <==> shape[0] <= |rows| || (shape[0] == |rows| + 1 && shape[1] == 0)
  {
    if shape[0] > |rows| {
      assert Stays(rows, shape, |rows|, 0) <==> shape[1] == 0;
      if shape[0] > |rows| + 1 {
        assert !Stays(rows, shape, |rows| + 1, 0);
      }
    }
  }

  lemma RowsApart<T>(padded: Dense<T>, rows: seq<Row>)
    requires FitsInto(rows, padded.shape) && Complete(padded)
    ensures Apart(RowBases(rows, padded.shape[0]), Constituents(padded, rows))
    ensures BlocksInside(RowBases(rows, padded.shape[0]), Constituents(padded, rows), Total(rows))
  {
    var n := padded.shape[0];
    assert rows[..|rows|] == rows;
    forall b, c | 0 <= b < c < n ensures BlockBase(rows, b) + |BlockWant(padded, rows, b)| <= BlockBase(rows, c) {
      if b < |rows| {
        TotalNext(rows, b);
        TotalMonotone(rows, b + 1, if c < |rows| then c else |rows|);
      }
    }
    forall b | 0 <= b < n ensures BlockBase(rows, b) + |BlockWant(padded, rows, b)| <= Total(rows) {
      if b < |rows| {
        RowInside(rows, b);
      }
    }
    hide Product, Total, Unpadded;
  }

  // Element i of constituent b is where it belongs.
  predicate Taken<T(==)>(padded: Dense<T>, rows: seq<Row>, out: seq<T>, b: nat, i: nat)
    requires FitsInto(rows, padded.shape) && Complete(padded) && b < |rows| && i < Product(rows[b])
  {
    && b < padded.shape[0] && Total(rows[..b]) + i < |out|
    && (UnpadInBounds(rows, padded.shape, b, i);
        out[Total(rows[..b]) + i] == padded.data[UnpadIndex(padded.shape, rows[b][1], b, i)])
  }

  ghost predicate Delivered<T>(padded: Dense<T>, rows: seq<Row>, out: seq<T>)
    requires FitsInto(rows, padded.shape) && Complete(padded)
  {
    |out| == Total(rows) && forall b, i :: 0 <= b < |rows| && 0 <= i < Product(rows[b]) ==> Taken(padded, rows, out, b, i)
  }

  lemma UnpaddedAt<T>(padded: Dense<T>, rows: seq<Row>, b: nat, i: nat)
    requires FitsInto(rows, padded.shape) && Complete(padded) && b < |rows| && b < padded.shape[0] && i < Product(rows[b])
    ensures rows[b][1] > 0 && UnpadIndex(padded.shape, rows[b][1], b, i) < |padded.data|
    ensures Unpadded(padded, rows, b)[i] == padded.data[UnpadIndex(padded.shape, rows[b][1], b, i)]
  {
    UnpadInBounds(rows, padded.shape, b, i);
  }

  lemma TakenAt<T>(padded: Dense<T>, rows: seq<Row>, out: seq<T>, b: nat, i: nat)
    requires FitsInto(rows, padded.shape) && Complete(padded) && b < |rows| && b < padded.shape[0] && i < Product(rows[b])
    requires HoldsAt(out, RowBases(rows, padded.shape[0]), Constituents(padded, rows), b, i)
    ensures Taken(padded, rows, out, b, i)
  {
    UnpaddedAt(padded, rows, b, i);
    hide Unpadded, UnpadIndex, Product, Total;
  }

  // A launch fills the constituents that have a block, whatever the order.
  lemma LaunchTakes<T>(padded: Dense<T>, rows: seq<Row>, grain: nat, outs: seq<seq<T>>, items: seq<Item>)
    requires FitsInto(rows, padded.shape) && Complete(padded) && grain > 0 && UnpadLaunch(padded, rows, grain, outs, items)
    ensures |outs[|items|]| == Total(rows)
    ensures forall b, i :: 0 <= b < |rows| && b < padded.shape[0] && 0 <= i < Product(rows[b]) ==>
              Taken(padded, rows, outs[|items|], b, i)
  {
    var bases, wants, out := RowBases(rows, padded.shape[0]), Constituents(padded, rows), outs[|items|];
    RowsApart(padded, rows);
    assert BlocksRun(outs, items, bases, wants, grain) && |outs[0]| == Total(rows);
    assert forall b :: 0 <= b < |rows| && b < padded.shape[0] ==> |wants[b]| == Product(rows[b]);
    hide *;
    LaunchFills(outs, items, bases, wants, grain);
    forall b, i | 0 <= b < |rows| && b < padded.shape[0] && 0 <= i < Product(rows[b]) ensures Taken(padded, rows, out, b, i) {
      TakenAt(padded, rows, out, b, i);
    }
  }

  // Every access is in bounds, and every launch delivers all constituents.
  ghost predicate Unpads<T(!new)>(padded: Dense<T>, rows: seq<Row>, grain: nat)
    requires FitsInto(rows, padded.shape) && Complete(padded) && grain > 0
  {
    && AllStay(rows, padded.shape, grain)
    && forall outs, items :: UnpadLaunch(padded, rows, grain, outs, items) ==> Delivered(padded, rows, outs[|items|])
  }

  predicate EmptyFrom(rows: seq<Row>, n: nat)
  {
    forall b :: n <= b < |rows| ==> Product(rows[b]) == 0
  }

  lemma EmptyRow(rows: seq<Row>, shape: seq<nat>, b: nat)
    requires FitsInto(rows, shape) && b < |rows| && shape[1] == 0
    ensures Product(rows[b]) == 0
  {
    Unfold2(rows[b]);
    assert rows[b][0] == 0;
  }

  // Removing the padding works, for all contents, exactly when there are as many blocks
  // as constituents, or only empty constituents have no block, or the one block too many
  // has no rows.
  lemma UnpadIff<T(!new)>(padded: Dense<T>, rows: seq<Row>, grain: nat, uninitialised: seq<T>)
    requires FitsInto(rows, padded.shape) && Complete(padded) && grain > 0 && |uninitialised| == Total(rows)
    ensures var blocks := padded.shape[0];
            Unpads(padded, rows, grain) <==>
              blocks == |rows| || (blocks < |rows| && EmptyFrom(rows, blocks)) || (blocks == |rows| + 1 && padded.shape[1] == 0)
  {
    var blocks := padded.shape[0];
    AllStayIff(rows, padded.shape, grain);
    hide AllStay, Unpadded, Total, Product, UnpadIndex;
    if blocks < |rows| && !EmptyFrom(rows, blocks) {
      RowsApart(padded, rows);
      var outs, items := LaunchExists(uninitialised, RowBases(rows, blocks), Constituents(padded, rows), grain);
      var b :| blocks <= b < |rows| && Product(rows[b]) != 0;
      assert UnpadLaunch(padded, rows, grain, outs, items) && !Taken(padded, rows, outs[|items|], b, 0);
    } else if AllStay(rows, padded.shape, grain) {
      forall outs, items | UnpadLaunch(padded, rows, grain, outs, items) ensures Delivered(padded, rows, outs[|items|]) {
        LaunchTakes(padded, rows, grain, outs, items);
      }
    }
  }

  // A padded tensor of two blocks for one constituent: the second block finds the sizes
  // 2 x 1 and starts at the end of the output, so it writes outside.
  lemma LargerBatchOverruns(grain: nat)
    requires grain > 0
    ensures var rows, shape := [[1, 1]], [2, 1, 1];
            && Metadata([1, 1], shape, [0, 1]) == [1, 1, 2, 1, 1, 0, 1]
            && FitsInto(rows, shape) && Total(rows) == 1 && !AllStay(rows, shape, grain)
  {
    var rows := [[1, 1]];
    assert rows[..0] == [];
    Unfold2(rows[0]);
    AllStayIff(rows, [2, 1, 1], grain);
  }

  // ---- Round trips ----

  lemma UnpaddedElement<T>(input: seq<T>, rows: seq<Row>, pad: T, padded: Dense<T>, b: nat, i: nat)
    requires FitsInto(rows, padded.shape) && Complete(padded) && |input| == Total(rows) && b < |rows| && b < padded.shape[0]
    requires padded.data == PadAll(input, rows, pad, padded.shape[1..], padded.shape[0]) && i < Product(rows[b])
    ensures Total(rows[..b]) + i < |input| && Unpadded(padded, rows, b)[i] == input[Total(rows[..b]) + i]
  {
    hide *;
    var shape := padded.shape;
    FitsShape(rows, shape);
    UnpadInBounds(rows, shape, b, i);
    UnpaddedAt(padded, rows, b, i);
    PaddedElement(input, rows, pad, shape[1..], shape[0], b, [i / rows[b][1], i % rows[b][1]]);
  }

  // What is taken from a padded tensor is what was padded.
  lemma DeliveredIsInput<T>(input: seq<T>, rows: seq<Row>, pad: T, size: seq<nat>, out: seq<T>)
    requires FitsInto(rows, size) && |input| == Total(rows) && Delivered(PadTo(input, rows, pad, size), rows, out)
    ensures out == input
  {
    var padded := PadTo(input, rows, pad, size);
    forall p | 0 <= p < |input| ensures out[p] == input[p] {
      var b := OffsetsPartition(rows, p);
      var i := p - Total(rows[..b]);
      hide PadTo, Total, Product, Unpadded, FitsInto, UnpadIndex, InRow;
      assert Taken(padded, rows, out, b, i);
      UnpaddedAt(padded, rows, b, i);
      UnpaddedElement(input, rows, pad, padded, b, i);
    }
  }

  // Every size that padding accepts leaves room for all constituents.
  lemma AcceptedSizesFit<T>(input: seq<T>, rows: seq<Row>, pad: T, outputSize: Option<seq<nat>>)
    requires Ragged(rows, 2) && |input| == Total(rows) && ToPadded(input, rows, 2, pad, outputSize).Ok?
    ensures var d := ToPadded(input, rows, 2, pad, outputSize).value;
            && FitsInto(rows, d.shape) && |rows| <= d.shape[0] && d.shape[1] > 0 && |input| > 0
            && d == PadTo(input, rows, pad, d.shape) && (outputSize.None? ==> d.shape[0] == |rows|)
  {
    ShortcutAgrees(input, rows, 2, pad, outputSize);
    var d := ToPadded(input, rows, 2, pad, outputSize).value;
    forall b | 0 <= b < |rows| ensures rows[b][0] <= d.shape[1] && rows[b][1] <= d.shape[2] {
      MaxSizeBounds(rows, 2, b, 0);
      MaxSizeBounds(rows, 2, b, 1);
    }
    var b := OffsetsPartition(rows, 0);
    if d.shape[1] == 0 {
      EmptyRow(rows, d.shape, b);
    }
  }

  // Padding and removing the padding again: every access is in bounds, and every launch
  // gives the ragged tensor back.
  ghost predicate RoundTrips<T(!new)>(input: seq<T>, rows: seq<Row>, d: Dense<T>, grain: nat)
    requires FitsInto(rows, d.shape) && Complete(d) && grain > 0
  {
    AllStay(rows, d.shape, grain) && forall outs, items :: UnpadLaunch(d, rows, grain, outs, items) ==> outs[|items|] == input
  }

  // For every padding value and every accepted output size, the round trip works exactly
  // when the output size does not ask for more blocks than there are constituents.
  lemma RoundTripIff<T(!new)>(input: seq<T>, rows: seq<Row>, pad: T, outputSize: Option<seq<nat>>, grain: nat)
    requires Ragged(rows, 2) && |input| == Total(rows) && grain > 0 && ToPadded(input, rows, 2, pad, outputSize).Ok?
    ensures var d := ToPadded(input, rows, 2, pad, outputSize).value;
            && FitsInto(rows, d.shape) && Complete(d)
            && (RoundTrips(input, rows, d, grain) <==> outputSize.None? || outputSize.value[0] == |rows|)
  {
    var d := ToPadded(input, rows, 2, pad, outputSize).value;
    AcceptedSizesFit(input, rows, pad, outputSize);
    if outputSize.Some? {
      AcceptedSize(input, rows, pad, outputSize);
    }
    hide ToPadded, FitsInto, RoundTrips, Ragged, PadTo;
    RoundTripOfSize(input, rows, pad, d.shape, grain);
  }

  // A requested size is the one that is used.
  lemma AcceptedSize<T>(input: seq<T>, rows: seq<Row>, pad: T, outputSize: Option<seq<nat>>)
    requires Ragged(rows, 2) && |input| == Total(rows) && outputSize.Some? && ToPadded(input, rows, 2, pad, outputSize).Ok?
    ensures outputSize.value != [] && ToPadded(input, rows, 2, pad, outputSize).value.shape == outputSize.value
  {
  }

  lemma RoundTripOfSize<T(!new)>(input: seq<T>, rows: seq<Row>, pad: T, size: seq<nat>, grain: nat)
    requires FitsInto(rows, size) && |input| == Total(rows) && grain > 0 && |rows| <= size[0] && size[1] > 0
    ensures RoundTrips(input, rows, PadTo(input, rows, pad, size), grain) <==> size[0] == |rows|
  {
    var d := PadTo(input, rows, pad, size);
    AllStayIff(rows, size, grain);
    hide AllStay, UnpadLaunch, Delivered, PadAll, Total;
    if size[0] == |rows| {
      forall outs, items | UnpadLaunch(d, rows, grain, outs, items) ensures outs[|items|] == input {
        LaunchDelivers(d, rows, grain, outs, items);
        DeliveredIsInput(input, rows, pad, size, outs[|items|]);
      }
    }
  }

  lemma LaunchDelivers<T>(padded: Dense<T>, rows: seq<Row>, grain: nat, outs: seq<seq<T>>, items: seq<Item>)
    requires FitsInto(rows, padded.shape) && Complete(padded) && grain > 0 && UnpadLaunch(padded, rows, grain, outs, items)
    requires padded.shape[0] >= |rows|
    ensures Delivered(padded, rows, outs[|items|])
  {
    LaunchTakes(padded, rows, grain, outs, items);
    hide UnpadLaunch, Taken, Total, Product;
  }

  // Padding a ragged tensor with one launch and removing the padding with another gives
  // the ragged tensor back: whatever the padding value, the room the output size leaves
  // in each block, the order of the work-items of both launches and the old contents of
  // both outputs.
  lemma PadUnpad<T>(input: seq<T>, rows: seq<Row>, pad: T, size: seq<nat>,
                    padGrain: nat, padOuts: seq<seq<T>>, padItems: seq<Item>, grain: nat, outs: seq<seq<T>>, items: seq<Item>)
    requires FitsInto(rows, size) && |input| == Total(rows) && size[0] == |rows| && padGrain > 0 && grain > 0
    requires PadLaunch(input, rows, pad, size[1..], size[0], padGrain, padOuts, padItems)
    requires var padded := Dense(size, padOuts[|padItems|]);
             Complete(padded) && UnpadLaunch(padded, rows, grain, outs, items)
    ensures AllStay(rows, size, grain) && outs[|items|] == input
  {
    LaunchPads(input, rows, pad, size[1..], size[0], padGrain, padOuts, padItems);
    var padded := Dense(size, padOuts[|padItems|]);
    assert padded == PadTo(input, rows, pad, size);
    hide PadLaunch, UnpadLaunch, PadTo, PadAll, Product, FitsInto, Total;
    LaunchDelivers(padded, rows, grain, outs, items);
    DeliveredIsInput(input, rows, pad, size, outs[|items|]);
  }
}
