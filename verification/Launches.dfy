// A kernel launch: work-items run one after the other, in any order, each on what the
// ones before it left.
module Launches {
  import opened Collections

  // An item puts what is wanted at the positions it owns and writes nothing else.
  ghost predicate Ran<T, I>(after: seq<T>, before: seq<T>, owner: seq<Option<I>>, want: seq<T>, item: I)
  {
    && |after| == |before| == |owner| == |want|
    && forall p :: 0 <= p < |after| ==> after[p] == if owner[p] == Some(item) then want[p] else before[p]
  }

  // outs[k] is the output after k items; every item that owns a position is run.
  ghost predicate Launch<T, I>(outs: seq<seq<T>>, items: seq<I>, owner: seq<Option<I>>, want: seq<T>)
  {
    && |outs| == |items| + 1 && |outs[0]| == |owner| == |want|
    && (forall k :: 0 <= k < |items| ==> Ran(outs[k + 1], outs[k], owner, want, items[k]))
    && (forall p :: 0 <= p < |owner| && owner[p].Some? ==> owner[p].value in items)
  }

  lemma {:induction false} AfterItems<T, I>(outs: seq<seq<T>>, items: seq<I>, owner: seq<Option<I>>, want: seq<T>, k: nat, p: nat)
    requires Launch(outs, items, owner, want) && k <= |items| && p < |owner|
    ensures |outs[k]| == |owner|
    ensures outs[k][p] == if owner[p].Some? && owner[p].value in items[..k] then want[p] else outs[0][p]
    decreases k
  {
    if k > 0 {
      AfterItems(outs, items, owner, want, k - 1, p);
      assert items[..k] == items[..k - 1] + [items[k - 1]];
      assert Ran(outs[k], outs[k - 1], owner, want, items[k - 1]);
    }
  }

  // Whatever the order, a launch ends with what is wanted at every owned position and
  // with the old contents elsewhere.
  lemma LaunchOutcome<T, I>(outs: seq<seq<T>>, items: seq<I>, owner: seq<Option<I>>, want: seq<T>)
    requires Launch(outs, items, owner, want)
    ensures |outs[|items|]| == |owner|
    ensures forall p :: 0 <= p < |owner| ==> outs[|items|][p] == if owner[p].Some? then want[p] else outs[0][p]
  {
    assert items[..|items|] == items;
    if items != [] {
      assert Ran(outs[|items|], outs[|items| - 1], owner, want, items[|items| - 1]);
    }
    forall p | 0 <= p < |owner| ensures outs[|items|][p] == if owner[p].Some? then want[p] else outs[0][p] {
      AfterItems(outs, items, owner, want, |items|, p);
    }
  }

  // What one item leaves.
  ghost function RunItem<T, I>(before: seq<T>, owner: seq<Option<I>>, want: seq<T>, item: I): (after: seq<T>)
    requires |before| == |owner| == |want|
    ensures Ran(after, before, owner, want, item)
  {
    seq(|before|, p requires 0 <= p < |before| => if owner[p] == Some(item) then want[p] else before[p])
  }

  // Items can run in every order and on all contents.
  lemma {:induction false} RunItems<T, I>(first: seq<T>, items: seq<I>, owner: seq<Option<I>>, want: seq<T>) returns (outs: seq<seq<T>>)
    requires |first| == |owner| == |want|
    ensures |outs| == |items| + 1 && outs[0] == first && |outs[|items|]| == |owner|
    ensures forall k :: 0 <= k < |items| ==> Ran(outs[k + 1], outs[k], owner, want, items[k])
    decreases |items|
  {
    if items == [] {
      outs := [first];
    } else {
      var n := |items| - 1;
      var init := RunItems(first, items[..n], owner, want);
      outs := init + [RunItem(init[n], owner, want, items[n])];
    }
  }
}
