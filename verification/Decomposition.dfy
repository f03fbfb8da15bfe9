// Allgather and reduce-scatter over tensors of unequal sizes: one broadcast,
// respectively one reduce, per rank, all coalesced into a single group.  The group's
// operations take effect when it ends, in an order the library chooses.
module Decomposition {
  import opened Arithmetic
  import opened Collections

  // A rank's tensors: its single one (the allgather input, the reduce-scatter
  // output) and its list, one tensor per rank.
  datatype Memory<T> = Memory(single: T, items: seq<T>)

  datatype Ref = Single | Item(i: nat)

  // An operation as one rank passes it to the library.
  datatype Posted = Posted(root: nat, input: Ref, output: Ref)

  function Read<T>(m: Memory<T>, x: Ref): T
    requires x.Item? ==> x.i < |m.items|
  {
    if x.Single? then m.single else m.items[x.i]
  }

  function Write<T>(m: Memory<T>, x: Ref, v: T): Memory<T>
    requires x.Item? ==> x.i < |m.items|
  {
    if x.Single? then m.(single := v) else m.(items := m.items[x.i := v])
  }

  // The i-th operation of rank `rank`: only the root supplies its own input, the
  // others broadcast (or reduce) in place.
  function GatherPost(rank: nat, i: nat): Posted
  {
    Posted(i, if i == rank then Single else Item(i), Item(i))
  }

  function ScatterPost(rank: nat, i: nat): Posted
  {
    Posted(i, Item(i), if i == rank then Single else Item(i))
  }

  // What all ranks post, by rank.
  function GatherLists(n: nat): (lists: seq<seq<Posted>>)
    ensures |lists| == n && forall r :: 0 <= r < n ==> |lists[r]| == n && forall i :: 0 <= i < n ==> lists[r][i] == GatherPost(r, i)
  {
    seq(n, r requires 0 <= r < n => seq(n, i requires 0 <= i < n => GatherPost(r, i)))
  }

  function ScatterLists(n: nat): (lists: seq<seq<Posted>>)
    ensures |lists| == n && forall r :: 0 <= r < n ==> |lists[r]| == n && forall i :: 0 <= i < n ==> lists[r][i] == ScatterPost(r, i)
  {
    seq(n, r requires 0 <= r < n => seq(n, i requires 0 <= i < n => ScatterPost(r, i)))
  }

  method PostAllgather(rank: nat, n: nat) returns (posts: seq<Posted>)
    ensures |posts| == n && forall i :: 0 <= i < n ==> posts[i] == GatherPost(rank, i)
    ensures rank < n ==> posts == GatherLists(n)[rank]
  {
    posts := [];
    for i := 0 to n
      invariant |posts| == i && forall j :: 0 <= j < i ==> posts[j] == GatherPost(rank, j)
    {
      var output := Item(i);
      var input := if i == rank then Single else output;
      posts := posts + [Posted(i, input, output)];
    }
  }

  method PostReduceScatter(rank: nat, n: nat) returns (posts: seq<Posted>)
    ensures |posts| == n && forall i :: 0 <= i < n ==> posts[i] == ScatterPost(rank, i)
    ensures rank < n ==> posts == ScatterLists(n)[rank]
  {
    posts := [];
    for i := 0 to n
      invariant |posts| == i && forall j :: 0 <= j < i ==> posts[j] == ScatterPost(rank, j)
    {
      var input := Item(i);
      var output := if i == rank then Single else input;
      posts := posts + [Posted(i, input, output)];
    }
  }

  predicate WellSized<T>(mem: seq<Memory<T>>)
  {
    forall r :: 0 <= r < |mem| ==> |mem[r].items| == |mem|
  }

  // `order` lists each of 0..n-1 exactly once.
  predicate Permutation(order: seq<nat>, n: nat)
  {
    && (forall i :: 0 <= i < |order| ==> order[i] < n)
    && (forall k :: 0 <= k < n ==> k in order)
    && NoRepeat(order)
  }

  // ---- Allgather ----

  // The posts are for n ranks and name tensors that exist.
  predicate Fits(x: Posted, n: nat)
  {
    x.root < n && (x.input.Item? ==> x.input.i < n) && (x.output.Item? ==> x.output.i < n)
  }

  predicate Fitting(lists: seq<seq<Posted>>, n: nat)
  {
    |lists| == n && forall r :: 0 <= r < n ==> |lists[r]| == n && forall k :: 0 <= k < n ==> Fits(lists[r][k], n)
  }

  // All ranks name this root in their k-th post.
  predicate OneRoot(lists: seq<seq<Posted>>, k: nat, root: nat)
    requires Fitting(lists, |lists|) && k < |lists|
  {
    forall r :: 0 <= r < |lists| ==> lists[r][k].root == root
  }

  // The k-th operation of a group of broadcasts: if all ranks name one root, every rank's
  // posted output gets what the root posted as input; otherwise nothing happens.
  function Broadcast<T>(mem: seq<Memory<T>>, lists: seq<seq<Posted>>, k: nat): (out: seq<Memory<T>>)
    requires WellSized(mem) && Fitting(lists, |mem|) && k < |mem|
    ensures |out| == |mem| && WellSized(out)
  {
    var root := lists[0][k].root;
    if !OneRoot(lists, k, root) then mem else
      var v := Read(mem[root], lists[root][k].input);
      seq(|mem|, r requires 0 <= r < |mem| => Write(mem[r], lists[r][k].output, v))
  }

  function BroadcastAll<T>(mem: seq<Memory<T>>, lists: seq<seq<Posted>>, order: seq<nat>): (out: seq<Memory<T>>)
    requires WellSized(mem) && Fitting(lists, |mem|) && forall i :: 0 <= i < |order| ==> order[i] < |mem|
    ensures |out| == |mem| && WellSized(out)
  {
    if order == [] then mem else Broadcast(BroadcastAll(mem, lists, order[..|order| - 1]), lists, order[|order| - 1])
  }

  // One broadcast of the posted lists.
  lemma BroadcastAt<T>(mem: seq<Memory<T>>, k: nat, r: nat, i: nat)
    requires WellSized(mem) && k < |mem| && r < |mem| && i < |mem|
    ensures Fitting(GatherLists(|mem|), |mem|)
    ensures var out := Broadcast(mem, GatherLists(|mem|), k);
            out[r].single == mem[r].single && out[r].items[i] == if i == k then mem[k].single else mem[r].items[i]
  {
    assert OneRoot(GatherLists(|mem|), k, k);
  }

  lemma {:induction false} BroadcastAllAt<T>(mem: seq<Memory<T>>, order: seq<nat>, r: nat, i: nat)
    requires WellSized(mem) && (forall j :: 0 <= j < |order| ==> order[j] < |mem|) && r < |mem| && i < |mem|
    ensures Fitting(GatherLists(|mem|), |mem|)
    ensures var out := BroadcastAll(mem, GatherLists(|mem|), order);
            && out[r].single == mem[r].single
            && out[r].items[i] == if i in order then mem[i].single else mem[r].items[i]
  {
    if order != [] {
      var init, k := order[..|order| - 1], order[|order| - 1];
      assert order == init + [k];
      BroadcastAllAt(mem, init, r, i);
      BroadcastAllAt(mem, init, k, k);
      BroadcastAt(BroadcastAll(mem, GatherLists(|mem|), init), k, r, i);
      hide Broadcast;
    }
  }

  // The equal-size branch: each rank's memory and its flat tensor, one row per rank.
  datatype Flattened<T> = Flattened(mem: seq<Memory<T>>, flat: seq<seq<T>>)

  // The library's allgather fills the flat tensors.
  function GatherFlat<T>(x: Flattened<T>): Flattened<T>
  {
    var rows := seq(|x.mem|, i requires 0 <= i < |x.mem| => x.mem[i].single);
    x.(flat := seq(|x.mem|, _ => rows))
  }

  // The copies of its rows to the outputs.
  function CopyOut<T>(x: Flattened<T>): Flattened<T>
    requires |x.flat| == |x.mem|
  {
    x.(mem := seq(|x.mem|, r requires 0 <= r < |x.mem| => x.mem[r].(items := x.flat[r])))
  }

  // The copies are queued behind the call.  While a group is open the library's part only
  // takes effect when the group ends, so after them.
  function FlattenedAllgather<T>(mem: seq<Memory<T>>, inRegion: bool, uninitialised: seq<seq<T>>): seq<Memory<T>>
    requires |uninitialised| == |mem|
  {
    var x := Flattened(mem, uninitialised);
    (if inRegion then GatherFlat(CopyOut(x)) else CopyOut(GatherFlat(x))).mem
  }

  // On every rank the list ends up holding every rank's input, whatever the order,
  // exactly as the equal-size branch leaves it when no group is open.
  lemma {:induction false} AllgatherCorrect<T>(mem: seq<Memory<T>>, order: seq<nat>, uninitialised: seq<seq<T>>)
    requires WellSized(mem) && Permutation(order, |mem|) && |uninitialised| == |mem|
    ensures Fitting(GatherLists(|mem|), |mem|)
    ensures forall r, i :: 0 <= r < |mem| && 0 <= i < |mem| ==> BroadcastAll(mem, GatherLists(|mem|), order)[r].items[i] == mem[i].single
    ensures BroadcastAll(mem, GatherLists(|mem|), order) == FlattenedAllgather(mem, false, uninitialised)
  {
    var out, flat := BroadcastAll(mem, GatherLists(|mem|), order), FlattenedAllgather(mem, false, uninitialised);
    forall r | 0 <= r < |mem|
      ensures out[r] == flat[r] && forall i :: 0 <= i < |mem| ==> out[r].items[i] == mem[i].single
    {
      BroadcastAllAt(mem, order, r, r);
      forall i | 0 <= i < |mem| ensures out[r].items[i] == mem[i].single {
        BroadcastAllAt(mem, order, r, i);
      }
      assert out[r].items == flat[r].items;
    }
  }

  // ---- Reduce-scatter ----

  // The k-th operation of a group of reduces: if all ranks name one root, its posted output
  // gets the reduction of all posted inputs.  What is left in the other ranks' posted
  // outputs is unspecified.
  function Reduce<T>(mem: seq<Memory<T>>, lists: seq<seq<Posted>>, k: nat, f: seq<T> -> T, junk: (nat, nat) -> T): (out: seq<Memory<T>>)
    requires WellSized(mem) && Fitting(lists, |mem|) && k < |mem|
    ensures |out| == |mem| && WellSized(out)
  {
    var root := lists[0][k].root;
    if !OneRoot(lists, k, root) then mem else
      seq(|mem|, r requires 0 <= r < |mem| => AfterReduce(mem[r], lists[r][k].output, ReduceOutput(mem, lists, k, f, junk, r)))
  }

  function ReduceOutput<T>(mem: seq<Memory<T>>, lists: seq<seq<Posted>>, k: nat, f: seq<T> -> T, junk: (nat, nat) -> T, r: nat): T
    requires WellSized(mem) && Fitting(lists, |mem|) && k < |mem| && r < |mem|
  {
    if lists[r][k].root == r then f(Inputs(mem, lists, k)) else junk(k, r)
  }

  function AfterReduce<T>(m: Memory<T>, x: Ref, v: T): (out: Memory<T>)
    requires x.Item? ==> x.i < |m.items|
    ensures |out.items| == |m.items|
  {
    Write(m, x, v)
  }

  // What all ranks posted as input of the k-th operation.
  function Inputs<T>(mem: seq<Memory<T>>, lists: seq<seq<Posted>>, k: nat): (xs: seq<T>)
    requires WellSized(mem) && Fitting(lists, |mem|) && k < |mem|
  {
    seq(|mem|, r requires 0 <= r < |mem| => Read(mem[r], lists[r][k].input))
  }

  // The k-th input of every rank.
  function Column<T>(mem: seq<Memory<T>>, k: nat): (c: seq<T>)
    requires WellSized(mem) && k < |mem|
    ensures |c| == |mem| && forall r :: 0 <= r < |mem| ==> c[r] == mem[r].items[k]
  {
    seq(|mem|, r requires 0 <= r < |mem| => mem[r].items[k])
  }

  function ReduceAll<T>(mem: seq<Memory<T>>, lists: seq<seq<Posted>>, order: seq<nat>, f: seq<T> -> T, junk: (nat, nat) -> T): (out: seq<Memory<T>>)
    requires WellSized(mem) && Fitting(lists, |mem|) && forall i :: 0 <= i < |order| ==> order[i] < |mem|
    ensures |out| == |mem| && WellSized(out)
  {
    if order == [] then mem else
      Reduce(ReduceAll(mem, lists, order[..|order| - 1], f, junk), lists, order[|order| - 1], f, junk)
  }

  // One reduce of the posted lists writes its root's output and, elsewhere, only the k-th
  // input.
  lemma ReduceAt<T>(mem: seq<Memory<T>>, k: nat, f: seq<T> -> T, junk: (nat, nat) -> T, r: nat)
    requires WellSized(mem) && k < |mem| && r < |mem|
    ensures Fitting(ScatterLists(|mem|), |mem|)
    ensures var out := Reduce(mem, ScatterLists(|mem|), k, f, junk);
            && out[r].single == (if r == k then f(Column(mem, k)) else mem[r].single)
            && (r != k ==> Column(out, r) == Column(mem, r))
  {
    var lists := ScatterLists(|mem|);
    var out := Reduce(mem, lists, k, f, junk);
    assert OneRoot(lists, k, k);
    assert Inputs(mem, lists, k) == Column(mem, k);
    forall q | 0 <= q < |mem| ensures out[q] == AfterReduce(mem[q], ScatterPost(q, k).output, ReduceOutput(mem, lists, k, f, junk, q)) {
    }
    hide Reduce, ReduceOutput, Inputs, ScatterLists;
  }

  lemma {:induction false} ReduceAllAt<T>(mem: seq<Memory<T>>, order: seq<nat>, f: seq<T> -> T, junk: (nat, nat) -> T, r: nat)
    requires WellSized(mem) && (forall j :: 0 <= j < |order| ==> order[j] < |mem|) && NoRepeat(order) && r < |mem|
    ensures Fitting(ScatterLists(|mem|), |mem|)
    ensures var out := ReduceAll(mem, ScatterLists(|mem|), order, f, junk);
            && (r !in order ==> Column(out, r) == Column(mem, r))
            && out[r].single == if r in order then f(Column(mem, r)) else mem[r].single
  {
    if order != [] {
      var init, k := order[..|order| - 1], order[|order| - 1];
      assert order == init + [k];
      assert k !in init;
      ReduceAllAt(mem, init, f, junk, r);
      ReduceAt(ReduceAll(mem, ScatterLists(|mem|), init, f, junk), k, f, junk, r);
      hide Reduce;
    }
  }

  // The native reduce-scatter of the equal-size branch.
  function FlattenedReduceScatter<T>(mem: seq<Memory<T>>, f: seq<T> -> T, r: nat): T
    requires WellSized(mem) && r < |mem|
  {
    var flat := seq(|mem|, q requires 0 <= q < |mem| => mem[q].items);
    f(seq(|flat|, q requires 0 <= q < |flat| => flat[q][r]))
  }

  // Rank r's output is the reduction over all ranks q of their r-th input, whatever
  // the order and whatever the in-place reduces leave behind on other ranks.
  lemma {:induction false} ReduceScatterCorrect<T>(mem: seq<Memory<T>>, order: seq<nat>, f: seq<T> -> T, junk: (nat, nat) -> T, r: nat)
    requires WellSized(mem) && Permutation(order, |mem|) && r < |mem|
    ensures Fitting(ScatterLists(|mem|), |mem|)
    ensures ReduceAll(mem, ScatterLists(|mem|), order, f, junk)[r].single == f(Column(mem, r))
    ensures ReduceAll(mem, ScatterLists(|mem|), order, f, junk)[r].single == FlattenedReduceScatter(mem, f, r)
  {
    ReduceAllAt(mem, order, f, junk, r);
    var flat := seq(|mem|, q requires 0 <= q < |mem| => mem[q].items);
    assert seq(|flat|, q requires 0 <= q < |flat| => flat[q][r]) == Column(mem, r);
  }

  // ---- Averages ----

  // A tensor's elements; its shape is kept beside it.
  type Vector = seq<real>

  // Inputs and outputs have the shapes that all ranks agree on: the r-th input of every
  // rank and the output of rank r have the r-th one.
  predicate Shaped(mem: seq<Memory<Vector>>, shapes: seq<seq<nat>>)
  {
    && |mem| == |shapes| > 0 && WellSized(mem)
    && forall r, i :: 0 <= r < |mem| && 0 <= i < |mem| ==> |mem[r].items[i]| == Product(shapes[i])
  }

  // checkSameSize.
  predicate SameSize(shapes: seq<seq<nat>>)
  {
    forall i :: 0 <= i < |shapes| ==> shapes[i] == shapes[0]
  }

  // Element e summed over the first n tensors.
  function SumAt(xs: seq<Vector>, e: nat, n: nat): real
    requires n <= |xs|
  {
    if n == 0 then 0.0 else SumAt(xs, e, n - 1) + if e < |xs[n - 1]| then xs[n - 1][e] else 0.0
  }

  // It is the sum: nothing for no tensors, and one more tensor adds its element.
  lemma SumGrows(xs: seq<Vector>, x: Vector, e: nat)
    requires e < |x|
    ensures SumAt([], e, 0) == 0.0 && SumAt(xs + [x], e, |xs| + 1) == SumAt(xs, e, |xs|) + x[e]
  {
    SumOfPrefix(xs, xs + [x], e, |xs|);
  }

  lemma {:induction false} SumOfPrefix(xs: seq<Vector>, ys: seq<Vector>, e: nat, n: nat)
    requires n <= |xs| && xs <= ys
    ensures SumAt(ys, e, n) == SumAt(xs, e, n)
    decreases n
  {
    if n > 0 {
      SumOfPrefix(xs, ys, e, n - 1);
    }
  }

  // Tensors with as many elements in another shape are not of the same size.
  lemma SameSizeIff(shapes: seq<seq<nat>>)
    ensures SameSize(shapes) <==> forall i, j :: 0 <= i < |shapes| && 0 <= j < |shapes| ==> shapes[i] == shapes[j]
    ensures !SameSize([[2, 1], [1, 2]])
  {
    assert [2, 1][0] != [1, 2][0];
    assert [[2, 1], [1, 2]][1] == [1, 2];
  }

  // The library's reductions.
  function VectorSum(xs: seq<Vector>): Vector
  {
    if xs == [] then [] else seq(|xs[0]|, e requires 0 <= e < |xs[0]| => SumAt(xs, e, |xs|))
  }

  function Divide(x: Vector, n: nat): (y: Vector)
    requires n > 0
    ensures |y| == |x| && forall e :: 0 <= e < |x| ==> y[e] == x[e] / n as real
  {
    seq(|x|, e requires 0 <= e < |x| => x[e] / n as real)
  }

  function VectorAverage(xs: seq<Vector>): Vector
  {
    if xs == [] then [] else Divide(VectorSum(xs), |xs|)
  }

  function DivideSingles(mem: seq<Memory<Vector>>): (out: seq<Memory<Vector>>)
    requires mem != []
    ensures |out| == |mem| && (WellSized(mem) ==> WellSized(out))
    ensures forall r :: 0 <= r < |mem| ==> out[r].items == mem[r].items
  {
    seq(|mem|, r requires 0 <= r < |mem| => mem[r].(single := Divide(mem[r].single, |mem|)))
  }

  // What reduce_scatter with AVG leaves in the output of rank r.  Without a native
  // average (XCCL_HAS_AVG) a sum is requested and the root queues a division of its
  // output behind the call.  While a group is open the sum is only carried out when the
  // group ends, so after the division: in the branch for unequal sizes, which opens one
  // itself, and in a region of the caller.
  function ReduceScatterAverage(mem: seq<Memory<Vector>>, shapes: seq<seq<nat>>, native: bool, inRegion: bool,
                                order: seq<nat>, junk: (nat, nat) -> Vector, r: nat): Vector
    requires Shaped(mem, shapes) && Permutation(order, |mem|) && r < |mem|
  {
    if SameSize(shapes) then
      if native then FlattenedReduceScatter(mem, VectorAverage, r)
      else if inRegion then FlattenedReduceScatter(DivideSingles(mem), VectorSum, r)
      else Divide(FlattenedReduceScatter(mem, VectorSum, r), |mem|)
    else
      if native then ReduceAll(mem, ScatterLists(|mem|), order, VectorAverage, junk)[r].single
      else ReduceAll(DivideSingles(mem), ScatterLists(|mem|), order, VectorSum, junk)[r].single
  }

  // What AVG promises: element by element the mean of all ranks' r-th inputs.
  function Mean(mem: seq<Memory<Vector>>, shapes: seq<seq<nat>>, r: nat): (mean: Vector)
    requires Shaped(mem, shapes) && r < |mem|
  {
    seq(Product(shapes[r]), e requires 0 <= e < Product(shapes[r]) => SumAt(Column(mem, r), e, |mem|) / |mem| as real)
  }

  ghost predicate Averages(mem: seq<Memory<Vector>>, shapes: seq<seq<nat>>, native: bool, inRegion: bool,
                           order: seq<nat>, junk: (nat, nat) -> Vector, r: nat)
  {
    Shaped(mem, shapes) && Permutation(order, |mem|) && r < |mem| ==>
      ReduceScatterAverage(mem, shapes, native, inRegion, order, junk, r) == Mean(mem, shapes, r)
  }

  // The division the output is spared: it gets the sum, or the mean.
  function Divided(shapes: seq<seq<nat>>, native: bool, inRegion: bool): bool
  {
    native || (SameSize(shapes) && !inRegion)
  }

  lemma DivideSinglesKeepsInputs(mem: seq<Memory<Vector>>, r: nat)
    requires mem != [] && WellSized(mem) && r < |mem|
    ensures Column(DivideSingles(mem), r) == Column(mem, r)
  {
  }

  // Whatever the branch, order and leftovers: the output is the sum of the r-th inputs,
  // divided or not.
  lemma {:induction false} AverageOutput(mem: seq<Memory<Vector>>, shapes: seq<seq<nat>>, native: bool, inRegion: bool,
                      order: seq<nat>, junk: (nat, nat) -> Vector, r: nat)
    requires Shaped(mem, shapes) && Permutation(order, |mem|) && r < |mem|
    ensures ReduceScatterAverage(mem, shapes, native, inRegion, order, junk, r)
            == if Divided(shapes, native, inRegion) then Divide(VectorSum(Column(mem, r)), |mem|) else VectorSum(Column(mem, r))
  {
    var d := DivideSingles(mem);
    DivideSinglesKeepsInputs(mem, r);
    ReduceScatterCorrect(mem, order, VectorAverage, junk, r);
    ReduceScatterCorrect(mem, order, VectorSum, junk, r);
    ReduceScatterCorrect(d, order, VectorSum, junk, r);
    hide ReduceAll, FlattenedReduceScatter, VectorSum, Divide, Permutation;
  }

  lemma SumIsMean(mem: seq<Memory<Vector>>, shapes: seq<seq<nat>>, r: nat)
    requires Shaped(mem, shapes) && r < |mem|
    ensures Divide(VectorSum(Column(mem, r)), |mem|) == Mean(mem, shapes, r)
    ensures |mem| == 1 || Product(shapes[r]) == 0 ==> VectorSum(Column(mem, r)) == Mean(mem, shapes, r)
  {
    var sum, mean := VectorSum(Column(mem, r)), Mean(mem, shapes, r);
    assert |Column(mem, r)[0]| == Product(shapes[r]) == |sum| == |mean|;
    hide Column, Product, SumAt;
    if |mem| == 1 {
      assert forall e :: 0 <= e < |sum| ==> sum[e] == mean[e];
    }
  }

  // Rank 0 contributes ones, the others zeros.
  function Ones(n: nat): Vector { seq(n, _ => 1.0) }

  function Zeros(n: nat): Vector { seq(n, _ => 0.0) }

  function OnesOrZeros(shapes: seq<seq<nat>>, q: nat): (items: seq<Vector>)
    ensures |items| == |shapes| && forall i :: 0 <= i < |shapes| ==> |items[i]| == Product(shapes[i])
  {
    seq(|shapes|, i requires 0 <= i < |shapes| => if q == 0 then Ones(Product(shapes[i])) else Zeros(Product(shapes[i])))
  }

  function OnesOnRank0(shapes: seq<seq<nat>>): (mem: seq<Memory<Vector>>)
    requires shapes != []
    ensures |mem| == |shapes| && Shaped(mem, shapes)
  {
    hide OnesOrZeros, Product;
    seq(|shapes|, q requires 0 <= q < |shapes| => Memory([], OnesOrZeros(shapes, q)))
  }

  lemma {:induction false} SumOfOnes(shapes: seq<seq<nat>>, r: nat, e: nat, n: nat)
    requires r < |shapes| && e < Product(shapes[r]) && n <= |shapes|
    ensures SumAt(Column(OnesOnRank0(shapes), r), e, n) == if n == 0 then 0.0 else 1.0
    decreases n
  {
    if n > 0 {
      SumOfOnes(shapes, r, e, n - 1);
    }
  }

  // Their sum is one everywhere, their mean one n-th.
  lemma OnesAndMean(shapes: seq<seq<nat>>, r: nat)
    requires r < |shapes|
    ensures var mem := OnesOnRank0(shapes);
            && VectorSum(Column(mem, r)) == Ones(Product(shapes[r]))
            && Mean(mem, shapes, r) == Divide(Ones(Product(shapes[r])), |shapes|)
  {
    var mem := OnesOnRank0(shapes);
    assert |Column(mem, r)[0]| == Product(shapes[r]);
    forall e | 0 <= e < Product(shapes[r]) ensures SumAt(Column(mem, r), e, |mem|) == 1.0 {
      SumOfOnes(shapes, r, e, |shapes|);
    }
    hide Column, OnesOnRank0, Product, SumAt;
  }

  predicate AllEmpty(shapes: seq<seq<nat>>)
  {
    forall i :: 0 <= i < |shapes| ==> Product(shapes[i]) == 0
  }

  function Identity(n: nat): (order: seq<nat>)
    ensures Permutation(order, n)
  {
    var order := seq(n, i requires 0 <= i < n => i);
    assert forall k :: 0 <= k < n ==> k in order by {
      forall k | 0 <= k < n ensures k in order {
        assert order[k] == k;
      }
    }
    order
  }

  lemma MeanWhenDivided(mem: seq<Memory<Vector>>, shapes: seq<seq<nat>>, native: bool, inRegion: bool,
                        order: seq<nat>, junk: (nat, nat) -> Vector, r: nat)
    requires Divided(shapes, native, inRegion) || |shapes| == 1 || AllEmpty(shapes)
    ensures Averages(mem, shapes, native, inRegion, order, junk, r)
  {
    if Shaped(mem, shapes) && Permutation(order, |mem|) && r < |mem| {
      AverageOutput(mem, shapes, native, inRegion, order, junk, r);
      SumIsMean(mem, shapes, r);
      hide Mean, VectorSum, Divide, ReduceScatterAverage, Permutation, Divided;
    }
  }

  lemma NoMeanWhenUndivided(shapes: seq<seq<nat>>, native: bool, inRegion: bool, r: nat)
    requires !Divided(shapes, native, inRegion) && |shapes| > 1 && r < |shapes| && Product(shapes[r]) > 0
    ensures !Averages(OnesOnRank0(shapes), shapes, native, inRegion, Identity(|shapes|), (k: nat, q: nat) => [], r)
  {
    hide *;
    var mem, order, junk := OnesOnRank0(shapes), Identity(|shapes|), (k: nat, q: nat) => [];
    OnesAndMean(shapes, r);
    OnesAreNotDivided(Product(shapes[r]), |shapes|);
    AverageOutput(mem, shapes, native, inRegion, order, junk, r);
    OtherOutput(mem, shapes, native, inRegion, order, junk, r);
  }

  lemma OnesAreNotDivided(p: nat, n: nat)
    requires p > 0 && n > 1
    ensures Ones(p) != Divide(Ones(p), n)
  {
    assert Ones(p)[0] != Divide(Ones(p), n)[0];
  }

  lemma OtherOutput(mem: seq<Memory<Vector>>, shapes: seq<seq<nat>>, native: bool, inRegion: bool,
                    order: seq<nat>, junk: (nat, nat) -> Vector, r: nat)
    requires Shaped(mem, shapes) && Permutation(order, |mem|) && r < |mem|
    requires ReduceScatterAverage(mem, shapes, native, inRegion, order, junk, r) != Mean(mem, shapes, r)
    ensures !Averages(mem, shapes, native, inRegion, order, junk, r)
  {
    hide ReduceScatterAverage, Mean;
  }

  // For all contents, orders and leftovers every rank gets the mean exactly when the
  // library averages itself, or the sizes are equal and no group is open, or there is
  // nothing to divide.
  lemma AverageIff(shapes: seq<seq<nat>>, native: bool, inRegion: bool)
    requires shapes != []
    ensures (forall mem, order, junk, r: nat :: Averages(mem, shapes, native, inRegion, order, junk, r))
            <==> native || (SameSize(shapes) && !inRegion) || |shapes| == 1 || AllEmpty(shapes)
  {
    if Divided(shapes, native, inRegion) || |shapes| == 1 || AllEmpty(shapes) {
      forall mem, order, junk, r: nat ensures Averages(mem, shapes, native, inRegion, order, junk, r) {
        MeanWhenDivided(mem, shapes, native, inRegion, order, junk, r);
      }
    } else {
      var r :| 0 <= r < |shapes| && Product(shapes[r]) != 0;
      NoMeanWhenUndivided(shapes, native, inRegion, r);
    }
  }

  // Two ranks, tensors of one and two elements: rank 0 gets 1 where the mean is 1/2.
  lemma UnequalSizesAreNotAveraged()
    ensures var shapes: seq<seq<nat>> := [[1], [2]];
            var mem := OnesOnRank0(shapes);
            && ReduceScatterAverage(mem, shapes, false, false, Identity(2), (k: nat, q: nat) => [], 0) == [1.0]
            && Mean(mem, shapes, 0) == [0.5]
  {
    var shapes: seq<seq<nat>> := [[1], [2]];
    assert [1][..0] == [] && Product([1]) == 1;
    assert shapes[1] != shapes[0];
    assert Ones(1) == [1.0] && Divide(Ones(1), 2) == [0.5];
    hide ReduceScatterAverage, VectorSum, Divide, Mean, Ones, OnesOnRank0, Product, Identity;
    OnesAndMean(shapes, 0);
    AverageOutput(OnesOnRank0(shapes), shapes, false, false, Identity(2), (k: nat, q: nat) => [], 0);
  }

  // ---- Allgather while a group is open ----

  // Inputs, outputs and the rows of the flat tensors have the shapes all ranks agree on.
  predicate GatherShaped(mem: seq<Memory<Vector>>, shapes: seq<seq<nat>>, uninitialised: seq<seq<Vector>>)
  {
    && |mem| == |shapes| == |uninitialised| && WellSized(mem)
    && (forall r :: 0 <= r < |mem| ==> |mem[r].single| == Product(shapes[r]) && |uninitialised[r]| == |mem|)
    && (forall r, i :: 0 <= r < |mem| && 0 <= i < |mem| ==>
          |mem[r].items[i]| == Product(shapes[i]) && |uninitialised[r][i]| == Product(shapes[i]))
  }

  // allgather, whichever branch it takes.
  function Allgather(mem: seq<Memory<Vector>>, shapes: seq<seq<nat>>, inRegion: bool, order: seq<nat>,
                     uninitialised: seq<seq<Vector>>): seq<Memory<Vector>>
    requires GatherShaped(mem, shapes, uninitialised) && Permutation(order, |mem|)
  {
    if SameSize(shapes) then FlattenedAllgather(mem, inRegion, uninitialised) else BroadcastAll(mem, GatherLists(|mem|), order)
  }

  // Every rank gets every input.
  ghost predicate Gathers(mem: seq<Memory<Vector>>, shapes: seq<seq<nat>>, inRegion: bool, order: seq<nat>,
                          uninitialised: seq<seq<Vector>>)
  {
    GatherShaped(mem, shapes, uninitialised) && Permutation(order, |mem|) ==>
      forall r, i :: 0 <= r < |mem| && 0 <= i < |mem| ==> GotAt(Allgather(mem, shapes, inRegion, order, uninitialised), r, i, mem[i].single)
  }

  predicate GotAt(out: seq<Memory<Vector>>, r: nat, i: nat, x: Vector)
  {
    r < |out| && i < |out[r].items| && out[r].items[i] == x
  }

  lemma GathersWhenOrdered(mem: seq<Memory<Vector>>, shapes: seq<seq<nat>>, inRegion: bool, order: seq<nat>, uninitialised: seq<seq<Vector>>)
    requires !(SameSize(shapes) && inRegion) || AllEmpty(shapes)
    ensures Gathers(mem, shapes, inRegion, order, uninitialised)
  {
    if GatherShaped(mem, shapes, uninitialised) && Permutation(order, |mem|) {
      AllgatherCorrect(mem, order, uninitialised);
      if SameSize(shapes) && inRegion {
        forall r, i | 0 <= r < |mem| && 0 <= i < |mem| ensures uninitialised[r][i] == mem[i].single {
          assert |uninitialised[r][i]| == Product(shapes[i]) == 0;
        }
      }
    }
  }

  // Every rank's flat tensor holds ones, and all inputs and outputs are zero.
  function ZeroInputs(shapes: seq<seq<nat>>): (mem: seq<Memory<Vector>>)
  {
    seq(|shapes|, r requires 0 <= r < |shapes| =>
      Memory(Zeros(Product(shapes[r])), seq(|shapes|, i requires 0 <= i < |shapes| => Zeros(Product(shapes[i])))))
  }

  function OnesEverywhere(shapes: seq<seq<nat>>): (flat: seq<seq<Vector>>)
  {
    seq(|shapes|, _ => seq(|shapes|, i requires 0 <= i < |shapes| => Ones(Product(shapes[i]))))
  }

  lemma ReadsUninitialised(shapes: seq<seq<nat>>, i: nat)
    requires SameSize(shapes) && i < |shapes| && Product(shapes[i]) > 0
    ensures !Gathers(ZeroInputs(shapes), shapes, true, Identity(|shapes|), OnesEverywhere(shapes))
  {
    var mem, flat, order := ZeroInputs(shapes), OnesEverywhere(shapes), Identity(|shapes|);
    hide Product, Permutation;
    assert GatherShaped(mem, shapes, flat);
    assert Allgather(mem, shapes, true, order, flat)[i].items[i] == Ones(Product(shapes[i]));
    assert Ones(Product(shapes[i]))[0] != Zeros(Product(shapes[i]))[0];
    assert !GotAt(Allgather(mem, shapes, true, order, flat), i, i, mem[i].single);
  }

  // For all contents, orders and uninitialised memory every rank gets every input exactly
  // when the sizes differ, or no group is open, or there is nothing to gather.
  lemma AllgatherIff(shapes: seq<seq<nat>>, inRegion: bool)
    ensures (forall mem, order, uninitialised :: Gathers(mem, shapes, inRegion, order, uninitialised))
            <==> !(SameSize(shapes) && inRegion) || AllEmpty(shapes)
  {
    if !(SameSize(shapes) && inRegion) || AllEmpty(shapes) {
      forall mem, order, uninitialised ensures Gathers(mem, shapes, inRegion, order, uninitialised) {
        GathersWhenOrdered(mem, shapes, inRegion, order, uninitialised);
      }
    } else {
      var i :| 0 <= i < |shapes| && Product(shapes[i]) != 0;
      ReadsUninitialised(shapes, i);
    }
  }

  // Two ranks with one element each, in a region: both outputs hold what the flat tensor
  // held before the gather.
  lemma RegionGathersGarbage(x: real, y: real, garbage: real)
    ensures var mem := [Memory([x], [[0.0], [0.0]]), Memory([y], [[0.0], [0.0]])];
            var shapes, flat := [[1], [1]], [[[garbage], [garbage]], [[garbage], [garbage]]];
            && GatherShaped(mem, shapes, flat) && SameSize(shapes)
            && Allgather(mem, shapes, true, Identity(2), flat) == [mem[0].(items := flat[0]), mem[1].(items := flat[1])]
  {
    assert [1][..0] == [] && Product([1]) == 1;
    hide Permutation, Product;
  }
}
