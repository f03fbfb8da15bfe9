// All-to-all: the uniform fast path against the fallback that posts sends and
// receives inside one group.  When a group ends, every posted send is carried out
// against the receive it matches, in an order the library is free to choose.
module AllToAll {
  import opened Collections

  // One matched send/receive pair: `count` elements of rank src's send buffer, from
  // soff on, go to rank dst's receive buffer, from doff on.
  datatype Move = Move(src: nat, soff: nat, dst: nat, doff: nat, count: nat)

  datatype Post =
    | Send(peer: nat, off: nat, count: nat)
    | Recv(peer: nat, off: nat, count: nat)

  // ---- Carrying out moves ----

  predicate Fits<T>(send: seq<seq<T>>, recv: seq<seq<T>>, m: Move)
  {
    && m.src < |send| && m.soff + m.count <= |send[m.src]|
    && m.dst < |recv| && m.doff + m.count <= |recv[m.dst]|
  }

  predicate SameShape<T>(a: seq<seq<T>>, b: seq<seq<T>>)
  {
    |a| == |b| && forall r :: 0 <= r < |a| ==> |a[r]| == |b[r]|
  }

  function Apply<T>(send: seq<seq<T>>, recv: seq<seq<T>>, m: Move): (out: seq<seq<T>>)
    requires Fits(send, recv, m)
    ensures SameShape(recv, out)
  {
    var before, data := recv[m.dst], send[m.src][m.soff..m.soff + m.count];
    recv[m.dst := before[..m.doff] + data + before[m.doff + m.count..]]
  }

  predicate AllFit<T>(send: seq<seq<T>>, recv: seq<seq<T>>, ms: seq<Move>)
  {
    forall i :: 0 <= i < |ms| ==> Fits(send, recv, ms[i])
  }

  function ApplyAll<T>(send: seq<seq<T>>, recv: seq<seq<T>>, ms: seq<Move>): (out: seq<seq<T>>)
    requires AllFit(send, recv, ms)
    ensures SameShape(recv, out)
  {
    if ms == [] then recv else
      var m := ms[|ms| - 1];
      assert Fits(send, recv, m);
      Apply(send, ApplyAll(send, recv, ms[..|ms| - 1]), m)
  }

  predicate Covers(m: Move, r: nat, p: nat)
  {
    m.dst == r && m.doff <= p < m.doff + m.count
  }

  // No position of any receive buffer is the target of two moves.
  ghost predicate Disjoint(ms: seq<Move>)
  {
    forall i, j, r, p :: 0 <= i < j < |ms| && Covers(ms[i], r, p) ==> !Covers(ms[j], r, p)
  }

  // Whatever the order: a covered position gets the element its move carries, and
  // any other position keeps what it had.
  lemma {:induction false} AppliedAt<T>(send: seq<seq<T>>, recv: seq<seq<T>>, ms: seq<Move>, r: nat, p: nat)
    requires AllFit(send, recv, ms)
    requires Disjoint(ms) && r < |recv| && p < |recv[r]|
    ensures forall i :: 0 <= i < |ms| && Covers(ms[i], r, p) ==>
              ApplyAll(send, recv, ms)[r][p] == send[ms[i].src][ms[i].soff + (p - ms[i].doff)]
    ensures (forall i :: 0 <= i < |ms| ==> !Covers(ms[i], r, p)) ==> ApplyAll(send, recv, ms)[r][p] == recv[r][p]
  {
    if ms != [] {
      var init, m := ms[..|ms| - 1], ms[|ms| - 1];
      AppliedAt(send, recv, init, r, p);
      var mid := ApplyAll(send, recv, init);
      ApplyAt(send, mid, m, r, p);
      forall i | 0 <= i < |ms| && Covers(ms[i], r, p)
        ensures ApplyAll(send, recv, ms)[r][p] == send[ms[i].src][ms[i].soff + (p - ms[i].doff)]
      {
        if i < |init| {
          assert init[i] == ms[i] && !Covers(m, r, p);
        }
      }
    }
  }

  lemma ApplyAt<T>(send: seq<seq<T>>, recv: seq<seq<T>>, m: Move, r: nat, p: nat)
    requires Fits(send, recv, m) && r < |recv| && p < |recv[r]|
    ensures Apply(send, recv, m)[r][p] == if Covers(m, r, p) then send[m.src][m.soff + (p - m.doff)] else recv[r][p]
  {
  }

  lemma AppliedBy<T>(send: seq<seq<T>>, recv: seq<seq<T>>, ms: seq<Move>, i: nat, r: nat, p: nat)
    requires AllFit(send, recv, ms) && Disjoint(ms) && r < |recv| && p < |recv[r]|
    requires i < |ms| && Covers(ms[i], r, p)
    ensures Fits(send, recv, ms[i])
    ensures ApplyAll(send, recv, ms)[r][p] == send[ms[i].src][ms[i].soff + (p - ms[i].doff)]
  {
    AppliedAt(send, recv, ms, r, p);
  }

  predicate Within(ms: seq<Move>, ns: seq<Move>)
  {
    forall i :: 0 <= i < |ms| ==> ms[i] in ns
  }

  predicate Covered(ms: seq<Move>, r: nat, p: nat)
  {
    exists i :: 0 <= i < |ms| && Covers(ms[i], r, p)
  }

  lemma CoveredWithin(ms: seq<Move>, ns: seq<Move>, r: nat, p: nat) returns (i: nat, j: nat)
    requires Within(ms, ns) && Covered(ms, r, p)
    ensures i < |ms| && j < |ns| && ms[i] == ns[j] && Covers(ms[i], r, p) && Covered(ns, r, p)
  {
    i :| 0 <= i < |ms| && Covers(ms[i], r, p);
    assert ms[i] in ns;
    j :| 0 <= j < |ns| && ns[j] == ms[i];
  }

  lemma UncoveredKeeps<T>(send: seq<seq<T>>, recv: seq<seq<T>>, ms: seq<Move>, r: nat, p: nat)
    requires AllFit(send, recv, ms) && Disjoint(ms) && r < |recv| && p < |recv[r]| && !Covered(ms, r, p)
    ensures p < |ApplyAll(send, recv, ms)[r]| && ApplyAll(send, recv, ms)[r][p] == recv[r][p]
  {
    AppliedAt(send, recv, ms, r, p);
  }

  lemma SameMovesSameElement<T>(send: seq<seq<T>>, recv: seq<seq<T>>, ms: seq<Move>, ns: seq<Move>, r: nat, p: nat)
    requires AllFit(send, recv, ms) && AllFit(send, recv, ns) && Disjoint(ms) && Disjoint(ns)
    requires Within(ms, ns) && Within(ns, ms) && r < |recv| && p < |recv[r]|
    ensures ApplyAll(send, recv, ms)[r][p] == ApplyAll(send, recv, ns)[r][p]
  {
    hide *;
    if Covered(ms, r, p) {
      var i, j := CoveredWithin(ms, ns, r, p);
      AppliedBy(send, recv, ms, i, r, p);
      AppliedBy(send, recv, ns, j, r, p);
    } else {
      if Covered(ns, r, p) {
        var i, j := CoveredWithin(ns, ms, r, p);
      }
      UncoveredKeeps(send, recv, ms, r, p);
      UncoveredKeeps(send, recv, ns, r, p);
    }
  }

  // The library's order does not matter.
  lemma OrderIrrelevant<T>(send: seq<seq<T>>, recv: seq<seq<T>>, ms: seq<Move>, ns: seq<Move>)
    requires AllFit(send, recv, ms) && AllFit(send, recv, ns)
    requires Disjoint(ms) && Disjoint(ns) && Within(ms, ns) && Within(ns, ms)
    ensures ApplyAll(send, recv, ms) == ApplyAll(send, recv, ns)
  {
    var a, b := ApplyAll(send, recv, ms), ApplyAll(send, recv, ns);
    forall r | 0 <= r < |recv| ensures a[r] == b[r] {
      forall p | 0 <= p < |recv[r]| ensures a[r][p] == b[r][p] {
        SameMovesSameElement(send, recv, ms, ns, r, p);
      }
    }
  }

  // ---- What each rank posts ----

  // What one rank exchanges with one peer: how many elements it sends and receives,
  // and where they start in its buffers.
  datatype Slot = Slot(sc: nat, sd: nat, rc: nat, rd: nat)

  // The count and displacement arrays of one rank, by peer.
  type Table = seq<Slot>

  function PostsFor(r: nat, t: Slot): seq<Post>
  {
    (if t.sc != 0 then [Send(r, t.sd, t.sc)] else []) + (if t.rc != 0 then [Recv(r, t.rd, t.rc)] else [])
  }

  function Posts(t: Table): seq<Post>
  {
    if t == [] then [] else Posts(t[..|t| - 1]) + PostsFor(|t| - 1, t[|t| - 1])
  }

  predicate Posted(t: Table, x: Post)
  {
    && x.peer < |t| && x.count != 0
    && if x.Send? then x.off == t[x.peer].sd && x.count == t[x.peer].sc
       else x.off == t[x.peer].rd && x.count == t[x.peer].rc
  }

  // The list holds one send and one receive for every non-zero count, and no more.
  lemma {:induction false} PostsExactly(t: Table, x: Post)
    ensures x in Posts(t) <==> Posted(t, x)
    ensures forall i, j :: 0 <= i < j < |Posts(t)| ==> Posts(t)[i] != Posts(t)[j]
  {
    if t != [] {
      var init := t[..|t| - 1];
      PostsExactly(init, x);
      forall y ensures y in Posts(init) <==> Posted(init, y) {
        PostsExactly(init, y);
      }
      forall y | y in Posts(init) ensures y.peer < |init| {
      }
    }
  }

  // The loop of the fallback.
  method PostAll(t: Table) returns (posts: seq<Post>)
    ensures posts == Posts(t)
  {
    posts := [];
    for r := 0 to |t|
      invariant posts == Posts(t[..r])
    {
      assert t[..r + 1][..r] == t[..r];
      var sends := if t[r].sc != 0 then [Send(r, t[r].sd, t[r].sc)] else [];
      var receives := if t[r].rc != 0 then [Recv(r, t[r].rd, t[r].rc)] else [];
      posts := posts + (sends + receives);
    }
    assert t[..|t|] == t;
  }

  // Where block r starts when all blocks have c elements.
  function BlockStart(r: nat, c: nat): nat { r * c }

  predicate UniformSlot(t: Slot, c: nat, r: nat)
  {
    t.sc == c && t.rc == c && t.sd == BlockStart(r, c) && t.rd == BlockStart(r, c)
  }

  predicate Uniform(t: Table)
  {
    t != [] && t[0].sc > 0 && forall r :: 0 <= r < |t| ==> UniformSlot(t[r], t[0].sc, r)
  }

  // Every count is the same positive number, and the segments follow each other.
  lemma UniformIff(t: Table)
    ensures Uniform(t) <==> t != [] && exists c: nat :: c > 0 && IsBlocks(t, c)
  {
    if t != [] && Uniform(t) {
      assert IsBlocks(t, t[0].sc);
    }
    forall c: nat | t != [] && c > 0 && IsBlocks(t, c) ensures Uniform(t) {
      assert t[0] == Slot(c, 0, c, 0);
    }
  }

  predicate IsBlocks(t: Table, c: nat)
  {
    forall r :: 0 <= r < |t| ==> t[r] == Slot(c, r * c, c, r * c)
  }

  // checkUniformAllToAll, with its early exits.
  method CheckUniform(t: Table) returns (uniform: bool, count: nat)
    ensures uniform <==> Uniform(t)
    ensures uniform ==> count == t[0].sc
  {
    if |t| <= 0 {
      return false, 0;
    }
    var c := t[0].sc;
    var r := 0;
    while r < |t|
      invariant 0 <= r <= |t|
      invariant forall q :: 0 <= q < r ==> UniformSlot(t[q], c, q)
    {
      assert UniformSlot(t[r], c, r) <==> !(t[r].sc != c || t[r].rc != c) && !(t[r].sd != r * c || t[r].rd != r * c);
      if t[r].sc != c || t[r].rc != c {
        return false, 0;
      }
      if t[r].sd != r * c || t[r].rd != r * c {
        return false, 0;
      }
      r := r + 1;
    }
    return c > 0, c;
  }

  // ---- The group as a whole ----

  // The tables of all ranks describe one exchange over these buffers: both sides
  // agree on every count, everything is in bounds, and no rank receives two segments
  // in the same place.
  ghost predicate Consistent<T>(ts: seq<Table>, send: seq<seq<T>>, recv: seq<seq<T>>)
  {
    && |ts| == |send| == |recv|
    && (forall r :: 0 <= r < |ts| ==> |ts[r]| == |ts|)
    && (forall r, s :: 0 <= r < |ts| && 0 <= s < |ts| ==> SegmentOk(ts[r][s], ts[s][r], |recv[r]|, |send[s]|))
    && (forall r, s, q, p :: 0 <= r < |ts| && 0 <= s < q < |ts| && InSegment(ts[r][s], p) ==> !InSegment(ts[r][q], p))
  }

  // What the receiver expects is what the sender sends, and it fits on both sides.
  predicate SegmentOk(to: Slot, from: Slot, recvSize: nat, sendSize: nat)
  {
    to.rc == from.sc && to.rd + to.rc <= recvSize && from.sd + from.sc <= sendSize
  }

  predicate InSegment(t: Slot, p: nat)
  {
    t.rd <= p < t.rd + t.rc
  }

  // A move joins a posted send with a posted receive of the same size.
  predicate Joins(ts: seq<Table>, m: Move)
  {
    && m.src < |ts| && Send(m.dst, m.soff, m.count) in Posts(ts[m.src])
    && m.dst < |ts| && Recv(m.src, m.doff, m.count) in Posts(ts[m.dst])
  }

  predicate Uses(m: Move, r: nat, x: Post)
  {
    if x.Send? then m.src == r && m.dst == x.peer && m.soff == x.off && m.count == x.count
    else m.dst == r && m.src == x.peer && m.doff == x.off && m.count == x.count
  }

  predicate Used(ms: seq<Move>, r: nat, x: Post)
  {
    exists i :: 0 <= i < |ms| && Uses(ms[i], r, x)
  }

  // ms carries out the group: it only joins posts, uses every post, and none twice.
  ghost predicate Matching(ts: seq<Table>, ms: seq<Move>)
  {
    && (forall i :: 0 <= i < |ms| ==> Joins(ts, ms[i]))
    && (forall r, x :: 0 <= r < |ts| && x in Posts(ts[r]) ==> Used(ms, r, x))
    && NoRepeat(ms)
  }

  // The move from s to r.
  function MoveOf(ts: seq<Table>, s: nat, r: nat): Move
    requires s < |ts| && r < |ts| && r < |ts[s]| && s < |ts[r]|
  {
    Move(s, ts[s][r].sd, r, ts[r][s].rd, ts[r][s].rc)
  }

  lemma JoinedMove<T>(ts: seq<Table>, send: seq<seq<T>>, recv: seq<seq<T>>, m: Move)
    requires Consistent(ts, send, recv) && Joins(ts, m)
    ensures m.src < |ts| == |ts[m.dst]| && m.dst < |ts| == |ts[m.src]|
    ensures m == MoveOf(ts, m.src, m.dst) && Fits(send, recv, m)
  {
    PostsExactly(ts[m.src], Send(m.dst, m.soff, m.count));
    PostsExactly(ts[m.dst], Recv(m.src, m.doff, m.count));
    assert SegmentOk(ts[m.dst][m.src], ts[m.src][m.dst], |recv[m.dst]|, |send[m.src]|);
  }

  lemma SegmentsApart<T>(ts: seq<Table>, send: seq<seq<T>>, recv: seq<seq<T>>, r: nat, s: nat, q: nat, p: nat)
    requires Consistent(ts, send, recv) && r < |ts| && s < |ts| == |ts[r]| && q < |ts|
    requires InSegment(ts[r][s], p) && InSegment(ts[r][q], p)
    ensures s == q
  {
  }

  lemma JoinedMovesApart<T>(ts: seq<Table>, send: seq<seq<T>>, recv: seq<seq<T>>, a: Move, b: Move, r: nat, p: nat)
    requires Consistent(ts, send, recv) && Joins(ts, a) && Joins(ts, b) && Covers(a, r, p) && Covers(b, r, p)
    ensures a == b
  {
    JoinedMove(ts, send, recv, a);
    JoinedMove(ts, send, recv, b);
    SegmentsApart(ts, send, recv, r, a.src, b.src, p);
  }

  lemma MatchingRuns<T>(ts: seq<Table>, send: seq<seq<T>>, recv: seq<seq<T>>, ms: seq<Move>)
    requires Consistent(ts, send, recv) && Matching(ts, ms)
    ensures Disjoint(ms) && AllFit(send, recv, ms)
  {
    forall i | 0 <= i < |ms| ensures Fits(send, recv, ms[i]) {
      assert Joins(ts, ms[i]);
      JoinedMove(ts, send, recv, ms[i]);
    }
    forall i, j, r, p | 0 <= i < j < |ms| && Covers(ms[i], r, p) ensures !Covers(ms[j], r, p) {
      assert Joins(ts, ms[i]) && Joins(ts, ms[j]) && ms[i] != ms[j];
      if Covers(ms[j], r, p) {
        JoinedMovesApart(ts, send, recv, ms[i], ms[j], r, p);
      }
    }
  }

  // The receive buffers after the group, whatever matching and order the library took.
  ghost function AfterGroup<T>(ts: seq<Table>, send: seq<seq<T>>, recv: seq<seq<T>>, ms: seq<Move>): (out: seq<seq<T>>)
    requires Consistent(ts, send, recv) && Matching(ts, ms)
    ensures SameShape(recv, out)
  {
    MatchingRuns(ts, send, recv, ms);
    ApplyAll(send, recv, ms)
  }

  lemma SegmentHasMove<T>(ts: seq<Table>, send: seq<seq<T>>, recv: seq<seq<T>>, ms: seq<Move>, r: nat, s: nat) returns (i: nat)
    requires Consistent(ts, send, recv) && Matching(ts, ms)
    requires r < |ts| == |ts[r]| && s < |ts| == |ts[s]| && ts[r][s].rc != 0
    ensures i < |ms| && ms[i] == MoveOf(ts, s, r)
  {
    var x := Recv(s, ts[r][s].rd, ts[r][s].rc);
    PostsExactly(ts[r], x);
    assert Used(ms, r, x);
    i :| 0 <= i < |ms| && Uses(ms[i], r, x);
    assert Joins(ts, ms[i]);
    JoinedMove(ts, send, recv, ms[i]);
  }

  // Each segment of each receive buffer ends up holding the segment its sender meant
  // for it ...
  lemma FallbackDelivers<T>(ts: seq<Table>, send: seq<seq<T>>, recv: seq<seq<T>>, ms: seq<Move>, r: nat, s: nat, k: nat)
    requires Consistent(ts, send, recv) && Matching(ts, ms)
    requires r < |ts| == |ts[r]| && s < |ts| == |ts[s]| && k < ts[r][s].rc
    ensures ts[r][s].rd + k < |recv[r]| && ts[s][r].sd + k < |send[s]|
    ensures AfterGroup(ts, send, recv, ms)[r][ts[r][s].rd + k] == send[s][ts[s][r].sd + k]
  {
    hide *;
    SegmentInBounds(ts, send, recv, r, s, k);
    var i := SegmentHasMove(ts, send, recv, ms, r, s);
    MatchingRuns(ts, send, recv, ms);
    AppliedBy(send, recv, ms, i, r, ts[r][s].rd + k);
    AfterGroupApplies(ts, send, recv, ms);
  }

  lemma SegmentInBounds<T>(ts: seq<Table>, send: seq<seq<T>>, recv: seq<seq<T>>, r: nat, s: nat, k: nat)
    requires Consistent(ts, send, recv) && r < |ts| == |ts[r]| && s < |ts| == |ts[s]| && k < ts[r][s].rc
    ensures |ts| == |send| == |recv| && ts[r][s].rd + k < |recv[r]| && ts[s][r].sd + k < |send[s]|
    ensures var m := MoveOf(ts, s, r);
            Covers(m, r, ts[r][s].rd + k) && m.src == s && m.soff == ts[s][r].sd && m.doff == ts[r][s].rd
  {
    assert SegmentOk(ts[r][s], ts[s][r], |recv[r]|, |send[s]|);
  }

  lemma AfterGroupApplies<T>(ts: seq<Table>, send: seq<seq<T>>, recv: seq<seq<T>>, ms: seq<Move>)
    requires Consistent(ts, send, recv) && Matching(ts, ms) && AllFit(send, recv, ms)
    ensures AfterGroup(ts, send, recv, ms) == ApplyAll(send, recv, ms)
  {
  }

  // ... and every other position is untouched.
  lemma FallbackTouchesNothingElse<T>(ts: seq<Table>, send: seq<seq<T>>, recv: seq<seq<T>>, ms: seq<Move>, r: nat, p: nat)
    requires Consistent(ts, send, recv) && Matching(ts, ms)
    requires r < |ts| == |ts[r]| && p < |recv[r]| && forall s :: 0 <= s < |ts| ==> !InSegment(ts[r][s], p)
    ensures AfterGroup(ts, send, recv, ms)[r][p] == recv[r][p]
  {
    MatchingRuns(ts, send, recv, ms);
    AppliedAt(send, recv, ms, r, p);
    forall i | 0 <= i < |ms| ensures !Covers(ms[i], r, p) {
      assert Joins(ts, ms[i]);
      JoinedMove(ts, send, recv, ms[i]);
      assert ms[i].dst == r ==> !InSegment(ts[r][ms[i].src], p);
    }
  }

  lemma MatchingWithin<T>(ts: seq<Table>, send: seq<seq<T>>, recv: seq<seq<T>>, ms: seq<Move>, ns: seq<Move>)
    requires Consistent(ts, send, recv) && Matching(ts, ms) && Matching(ts, ns)
    ensures Within(ms, ns)
  {
    forall i | 0 <= i < |ms| ensures ms[i] in ns {
      var m := ms[i];
      assert Joins(ts, m);
      JoinedMove(ts, send, recv, m);
      PostsExactly(ts[m.src], Send(m.dst, m.soff, m.count));
      var j := SegmentHasMove(ts, send, recv, ns, m.dst, m.src);
    }
  }

  // The outcome depends neither on the order of the moves nor on how they are matched.
  lemma GroupOutcomeUnique<T>(ts: seq<Table>, send: seq<seq<T>>, recv: seq<seq<T>>, ms: seq<Move>, ns: seq<Move>)
    requires Consistent(ts, send, recv) && Matching(ts, ms) && Matching(ts, ns)
    ensures AfterGroup(ts, send, recv, ms) == AfterGroup(ts, send, recv, ns)
  {
    MatchingRuns(ts, send, recv, ms);
    MatchingRuns(ts, send, recv, ns);
    MatchingWithin(ts, send, recv, ms, ns);
    MatchingWithin(ts, send, recv, ns, ms);
    OrderIrrelevant(send, recv, ms, ns);
  }

  // ---- A matching always exists, so the group can complete ----

  predicate Square(ts: seq<Table>)
  {
    forall r :: 0 <= r < |ts| ==> |ts[r]| == |ts|
  }

  // The moves into ranks 0..r-1, and those into rank r from ranks 0..s-1.
  function MovesBefore(ts: seq<Table>, r: nat, s: nat): seq<Move>
    requires Square(ts) && r <= |ts| && s <= |ts| && (s > 0 ==> r < |ts|)
    decreases r, s
  {
    if s > 0 then
      MovesBefore(ts, r, s - 1) + if ts[r][s - 1].rc != 0 then [MoveOf(ts, s - 1, r)] else []
    else if r > 0 then
      MovesBefore(ts, r - 1, |ts|)
    else
      []
  }

  predicate IsMove(ts: seq<Table>, m: Move)
    requires Square(ts)
  {
    m.dst < |ts| && m.src < |ts| && ts[m.dst][m.src].rc != 0 && m == MoveOf(ts, m.src, m.dst)
  }

  lemma {:induction false} MovesBeforeContains(ts: seq<Table>, r: nat, s: nat, m: Move)
    requires Square(ts) && r <= |ts| && s <= |ts| && (s > 0 ==> r < |ts|)
    ensures m in MovesBefore(ts, r, s) <==> IsMove(ts, m) && (m.dst < r || (m.dst == r && m.src < s))
    decreases r, s
  {
    if s > 0 {
      MovesBeforeContains(ts, r, s - 1, m);
    } else if r > 0 {
      MovesBeforeContains(ts, r - 1, |ts|, m);
    }
  }

  lemma {:induction false} MovesBeforeNoRepeat(ts: seq<Table>, r: nat, s: nat)
    requires Square(ts) && r <= |ts| && s <= |ts| && (s > 0 ==> r < |ts|)
    ensures NoRepeat(MovesBefore(ts, r, s))
    decreases r, s
  {
    if s > 0 {
      MovesBeforeNoRepeat(ts, r, s - 1);
      MovesBeforeContains(ts, r, s - 1, MoveOf(ts, s - 1, r));
    } else if r > 0 {
      MovesBeforeNoRepeat(ts, r - 1, |ts|);
    }
  }

  lemma IsMoveJoins<T>(ts: seq<Table>, send: seq<seq<T>>, recv: seq<seq<T>>, m: Move)
    requires Consistent(ts, send, recv) && Square(ts) && IsMove(ts, m)
    ensures Joins(ts, m)
  {
    assert SegmentOk(ts[m.dst][m.src], ts[m.src][m.dst], |recv[m.dst]|, |send[m.src]|);
    PostsExactly(ts[m.src], Send(m.dst, m.soff, m.count));
    PostsExactly(ts[m.dst], Recv(m.src, m.doff, m.count));
  }

  lemma PostHasMove<T>(ts: seq<Table>, send: seq<seq<T>>, recv: seq<seq<T>>, r: nat, x: Post) returns (m: Move)
    requires Consistent(ts, send, recv) && Square(ts) && r < |ts| && x in Posts(ts[r])
    ensures IsMove(ts, m) && Uses(m, r, x)
  {
    PostsExactly(ts[r], x);
    m := if x.Send? then MoveOf(ts, r, x.peer) else MoveOf(ts, x.peer, r);
    assert SegmentOk(ts[m.dst][m.src], ts[m.src][m.dst], |recv[m.dst]|, |send[m.src]|);
  }

  // When the count tables agree, no post is left without its partner.
  lemma GroupCompletes<T>(ts: seq<Table>, send: seq<seq<T>>, recv: seq<seq<T>>)
    requires Consistent(ts, send, recv)
    ensures exists ms :: Matching(ts, ms)
  {
    var ms := MovesBefore(ts, |ts|, 0);
    MovesBeforeNoRepeat(ts, |ts|, 0);
    forall i | 0 <= i < |ms| ensures Joins(ts, ms[i]) {
      MovesBeforeContains(ts, |ts|, 0, ms[i]);
      IsMoveJoins(ts, send, recv, ms[i]);
    }
    forall r, x | 0 <= r < |ts| && x in Posts(ts[r]) ensures Used(ms, r, x) {
      var m := PostHasMove(ts, send, recv, r, x);
      MovesBeforeContains(ts, |ts|, 0, m);
      var i :| 0 <= i < |ms| && ms[i] == m;
    }
    assert Matching(ts, ms);
  }

  // ---- The native uniform all-to-all ----

  // Its contract: block s of rank r's result is block r of rank s's input, and
  // nothing beyond the blocks changes.
  ghost predicate Transposed<T>(send: seq<seq<T>>, recv: seq<seq<T>>, c: nat, out: seq<seq<T>>)
  {
    && SameShape(recv, out)
    && (forall r, s, k :: 0 <= r < |recv| && 0 <= s < |send| && 0 <= k < c ==> BlockMoved(send, out, c, r, s, k))
    && (forall r, p :: 0 <= r < |recv| && BlockStart(|send|, c) <= p < |recv[r]| ==> out[r][p] == recv[r][p])
  }

  ghost predicate BlockMoved<T>(send: seq<seq<T>>, out: seq<seq<T>>, c: nat, r: nat, s: nat, k: nat)
    requires r < |out| && s < |send|
  {
    && BlockStart(s, c) + k < |out[r]| && BlockStart(r, c) + k < |send[s]|
    && out[r][BlockStart(s, c) + k] == send[s][BlockStart(r, c) + k]
  }

  // If the check succeeds on two ranks, both found the same count.
  lemma UniformCountsAgree<T>(ts: seq<Table>, send: seq<seq<T>>, recv: seq<seq<T>>, r: nat, s: nat)
    requires Consistent(ts, send, recv) && r < |ts| && s < |ts| && Uniform(ts[r]) && Uniform(ts[s])
    ensures ts[r][0].sc == ts[s][0].sc
  {
    assert UniformSlot(ts[r][s], ts[r][0].sc, s) && UniformSlot(ts[s][r], ts[s][0].sc, r);
    assert SegmentOk(ts[r][s], ts[s][r], |recv[r]|, |send[s]|);
  }

  lemma BlockOf(p: nat, c: nat, n: nat)
    requires c > 0 && p < BlockStart(n, c)
    ensures p / c < n && 0 <= p % c < c && p == BlockStart(p / c, c) + p % c
  {
  }

  lemma BlocksEnd(s: nat, n: nat, c: nat)
    requires s < n
    ensures BlockStart(s, c) + c <= BlockStart(n, c)
  {
    assert (s + 1) * c <= n * c;
  }

  lemma UniformSlots<T>(ts: seq<Table>, send: seq<seq<T>>, recv: seq<seq<T>>, r: nat, s: nat)
    requires Consistent(ts, send, recv) && r < |ts| && s < |ts|
    requires forall q :: 0 <= q < |ts| ==> Uniform(ts[q])
    ensures |ts[r]| == |ts[s]| == |ts|
    ensures ts[0][0].sc > 0 && UniformSlot(ts[r][s], ts[0][0].sc, s) && UniformSlot(ts[s][r], ts[0][0].sc, r)
  {
    UniformCountsAgree(ts, send, recv, 0, r);
    UniformCountsAgree(ts, send, recv, 0, s);
  }

  lemma FastPathInBlock<T>(ts: seq<Table>, send: seq<seq<T>>, recv: seq<seq<T>>, ms: seq<Move>, out: seq<seq<T>>, r: nat, s: nat, k: nat)
    requires Consistent(ts, send, recv) && Matching(ts, ms)
    requires ts != [] && forall q :: 0 <= q < |ts| ==> Uniform(ts[q])
    requires Transposed(send, recv, ts[0][0].sc, out) && r < |ts| && s < |ts| && k < ts[0][0].sc
    ensures var p := BlockStart(s, ts[0][0].sc) + k; p < |recv[r]| && out[r][p] == AfterGroup(ts, send, recv, ms)[r][p]
  {
    hide *;
    UniformOffsets(ts, send, recv, r, s);
    BlockAt(send, recv, ts[0][0].sc, out, r, s, k);
    FallbackDelivers(ts, send, recv, ms, r, s, k);
  }

  lemma UniformOffsets<T>(ts: seq<Table>, send: seq<seq<T>>, recv: seq<seq<T>>, r: nat, s: nat)
    requires Consistent(ts, send, recv) && r < |ts| && s < |ts|
    requires forall q :: 0 <= q < |ts| ==> Uniform(ts[q])
    ensures |ts| == |send| == |recv| == |ts[r]| == |ts[s]| && |ts[0]| > 0
    ensures var c := ts[0][0].sc; ts[r][s].rc == c && ts[r][s].rd == BlockStart(s, c) && ts[s][r].sd == BlockStart(r, c)
  {
    UniformSlots(ts, send, recv, r, s);
  }

  lemma BlockAt<T>(send: seq<seq<T>>, recv: seq<seq<T>>, c: nat, out: seq<seq<T>>, r: nat, s: nat, k: nat)
    requires Transposed(send, recv, c, out) && r < |recv| && s < |send| && k < c
    ensures |out| == |recv| && |out[r]| == |recv[r]| && BlockStart(s, c) + k < |out[r]| && BlockStart(r, c) + k < |send[s]|
    ensures out[r][BlockStart(s, c) + k] == send[s][BlockStart(r, c) + k]
  {
    assert BlockMoved(send, out, c, r, s, k);
  }

  lemma BeyondBlocks<T>(ts: seq<Table>, send: seq<seq<T>>, recv: seq<seq<T>>, ms: seq<Move>, r: nat, p: nat)
    requires Consistent(ts, send, recv) && Matching(ts, ms)
    requires ts != [] && forall q :: 0 <= q < |ts| ==> Uniform(ts[q])
    requires r < |ts| && BlockStart(|ts|, ts[0][0].sc) <= p < |recv[r]|
    ensures AfterGroup(ts, send, recv, ms)[r][p] == recv[r][p]
  {
    UniformSlots(ts, send, recv, r, r);
    forall s | 0 <= s < |ts| ensures !InSegment(ts[r][s], p) {
      UniformSlots(ts, send, recv, r, s);
      BlocksEnd(s, |ts|, ts[0][0].sc);
    }
    hide Matching, Uniform, BlockStart;
    FallbackTouchesNothingElse(ts, send, recv, ms, r, p);
  }

  // The fallback would leave a transpose on a uniform exchange, so there is one.
  lemma FallbackTransposes<T>(ts: seq<Table>, send: seq<seq<T>>, recv: seq<seq<T>>, ms: seq<Move>)
    requires Consistent(ts, send, recv) && Matching(ts, ms)
    requires ts != [] && forall r :: 0 <= r < |ts| ==> Uniform(ts[r])
    ensures Transposed(send, recv, ts[0][0].sc, AfterGroup(ts, send, recv, ms))
  {
    assert |ts| == |recv| == |send|;
    var out, c := AfterGroup(ts, send, recv, ms), ts[0][0].sc;
    forall r, s, k | 0 <= r < |recv| && 0 <= s < |send| && 0 <= k < c ensures BlockMoved(send, out, c, r, s, k) {
      UniformSlots(ts, send, recv, r, s);
      FallbackDelivers(ts, send, recv, ms, r, s, k);
    }
    forall r, p | 0 <= r < |recv| && BlockStart(|send|, c) <= p < |recv[r]| ensures out[r][p] == recv[r][p] {
      BeyondBlocks(ts, send, recv, ms, r, p);
    }
  }

  // When the check succeeds on every rank, the fast path computes what the fallback
  // would have: the two branches are interchangeable.
  lemma FastPathAgrees<T>(ts: seq<Table>, send: seq<seq<T>>, recv: seq<seq<T>>, ms: seq<Move>, out: seq<seq<T>>)
    requires Consistent(ts, send, recv) && Matching(ts, ms)
    requires ts != [] && forall r :: 0 <= r < |ts| ==> Uniform(ts[r])
    requires Transposed(send, recv, ts[0][0].sc, out)
    ensures out == AfterGroup(ts, send, recv, ms)
  {
    assert |ts| == |recv| && SameShape(recv, out);
    hide Consistent, Matching, Uniform, UniformSlot, Transposed, AfterGroup, BlockStart;
    var got := AfterGroup(ts, send, recv, ms);
    forall r | 0 <= r < |ts| ensures got[r] == out[r] {
      forall p | 0 <= p < |recv[r]| ensures out[r][p] == got[r][p] {
        var c := ts[0][0].sc;
        if p < BlockStart(|ts|, c) {
          BlockOf(p, c, |ts|);
          FastPathInBlock(ts, send, recv, ms, out, r, p / c, p % c);
        } else {
          BeyondBlocks(ts, send, recv, ms, r, p);
        }
      }
    }
  }

  // ---- The whole call ----

  predicate AllUniform(ts: seq<Table>)
  {
    forall r :: 0 <= r < |ts| ==> Uniform(ts[r])
  }

  predicate NoneUniform(ts: seq<Table>)
  {
    forall r :: 0 <= r < |ts| ==> !Uniform(ts[r])
  }

  // The check sees one rank's counts only, so ranks can disagree about the branch.
  // Those for which it fails post a group; ms carries that group out: it joins posts of
  // these ranks only, uses all of them, and none twice.
  ghost predicate PostersMatching(ts: seq<Table>, ms: seq<Move>)
  {
    && (forall i :: 0 <= i < |ms| ==> Joins(ts, ms[i]) && !Uniform(ts[ms[i].src]) && !Uniform(ts[ms[i].dst]))
    && (forall r, x :: 0 <= r < |ts| && !Uniform(ts[r]) && x in Posts(ts[r]) ==> Used(ms, r, x))
    && NoRepeat(ms)
  }

  // A rank that took the native branch leaves a receive of every poster unmatched.
  lemma MixedBranchesHang<T>(ts: seq<Table>, send: seq<seq<T>>, recv: seq<seq<T>>, ms: seq<Move>, r: nat, s: nat)
    requires Consistent(ts, send, recv) && r < |ts| && s < |ts| && Uniform(ts[r]) && !Uniform(ts[s])
    ensures !PostersMatching(ts, ms)
  {
    assert |ts[r]| == |ts[s]| == |ts|;
    assert UniformSlot(ts[r][s], ts[r][0].sc, s);
    assert SegmentOk(ts[s][r], ts[r][s], |recv[s]|, |send[r]|);
    var x := Recv(r, ts[s][r].rd, ts[s][r].rc);
    PostsExactly(ts[s], x);
    assert PostersMatching(ts, ms) ==> Used(ms, s, x);
  }

  // The group of the posters can be carried out exactly when all ranks take the same
  // branch.
  lemma PostersMatchIff<T>(ts: seq<Table>, send: seq<seq<T>>, recv: seq<seq<T>>)
    requires Consistent(ts, send, recv)
    ensures (exists ms :: PostersMatching(ts, ms)) <==> AllUniform(ts) || NoneUniform(ts)
  {
    if AllUniform(ts) {
      assert PostersMatching(ts, []);
    } else if NoneUniform(ts) {
      GroupCompletes(ts, send, recv);
      var ms :| Matching(ts, ms);
      assert forall i :: 0 <= i < |ms| ==> Joins(ts, ms[i]);
      assert PostersMatching(ts, ms);
    } else {
      var r :| 0 <= r < |ts| && Uniform(ts[r]);
      var s :| 0 <= s < |ts| && !Uniform(ts[s]);
      forall ms ensures !PostersMatching(ts, ms) {
        MixedBranchesHang(ts, send, recv, ms, r, s);
      }
    }
  }

  // What a call of all ranks that comes to an end leaves in the receive buffers.
  ghost predicate Completed<T>(ts: seq<Table>, send: seq<seq<T>>, recv: seq<seq<T>>, out: seq<seq<T>>)
    requires Consistent(ts, send, recv) && ts != []
  {
    if AllUniform(ts) then Transposed(send, recv, ts[0][0].sc, out)
    else exists ms :: PostersMatching(ts, ms) && CarriedOut(send, recv, ms, out)
  }

  ghost predicate CarriedOut<T>(send: seq<seq<T>>, recv: seq<seq<T>>, ms: seq<Move>, out: seq<seq<T>>)
  {
    AllFit(send, recv, ms) && out == ApplyAll(send, recv, ms)
  }

  // Every segment arrived and everything else is untouched.
  ghost predicate Delivered<T>(ts: seq<Table>, send: seq<seq<T>>, recv: seq<seq<T>>, out: seq<seq<T>>)
    requires Consistent(ts, send, recv)
  {
    && SameShape(recv, out)
    && (forall r, s, k :: 0 <= r < |ts| && 0 <= s < |ts| && 0 <= k < ts[r][s].rc ==> Arrived(ts, send, out, r, s, k))
    && (forall r, p :: 0 <= r < |ts| && 0 <= p < |recv[r]| && Outside(ts[r], p) ==> out[r][p] == recv[r][p])
  }

  predicate Arrived<T(==)>(ts: seq<Table>, send: seq<seq<T>>, out: seq<seq<T>>, r: nat, s: nat, k: nat)
    requires r < |ts| && s < |ts| && s < |ts[r]| && r < |ts[s]| && r < |out| && s < |send|
  {
    && ts[r][s].rd + k < |out[r]| && ts[s][r].sd + k < |send[s]|
    && out[r][ts[r][s].rd + k] == send[s][ts[s][r].sd + k]
  }

  predicate Outside(t: Table, p: nat)
  {
    forall s :: 0 <= s < |t| ==> !InSegment(t[s], p)
  }

  lemma GroupDelivers<T>(ts: seq<Table>, send: seq<seq<T>>, recv: seq<seq<T>>, ms: seq<Move>)
    requires Consistent(ts, send, recv) && Matching(ts, ms)
    ensures Delivered(ts, send, recv, AfterGroup(ts, send, recv, ms))
  {
    var out := AfterGroup(ts, send, recv, ms);
    forall r, s, k | 0 <= r < |ts| && 0 <= s < |ts| && 0 <= k < ts[r][s].rc ensures Arrived(ts, send, out, r, s, k) {
      FallbackDelivers(ts, send, recv, ms, r, s, k);
    }
    forall r, p | 0 <= r < |ts| && 0 <= p < |recv[r]| && Outside(ts[r], p) ensures out[r][p] == recv[r][p] {
      FallbackTouchesNothingElse(ts, send, recv, ms, r, p);
    }
  }

  lemma PostersAreAll(ts: seq<Table>, ms: seq<Move>)
    requires NoneUniform(ts)
    ensures PostersMatching(ts, ms) <==> Matching(ts, ms)
  {
    if Matching(ts, ms) {
      assert forall i :: 0 <= i < |ms| ==> Joins(ts, ms[i]);
    }
  }

  // Whatever a completed call leaves is what it should deliver.
  lemma CompletedDelivers<T>(ts: seq<Table>, send: seq<seq<T>>, recv: seq<seq<T>>, out: seq<seq<T>>)
    requires Consistent(ts, send, recv) && ts != [] && Completed(ts, send, recv, out)
    ensures (AllUniform(ts) || NoneUniform(ts)) && Delivered(ts, send, recv, out)
  {
    PostersMatchIff(ts, send, recv);
    if AllUniform(ts) {
      GroupCompletes(ts, send, recv);
      var ms :| Matching(ts, ms);
      FastPathAgrees(ts, send, recv, ms, out);
      GroupDelivers(ts, send, recv, ms);
    } else {
      var ms :| PostersMatching(ts, ms) && CarriedOut(send, recv, ms, out);
      PostersAreAll(ts, ms);
      MatchingRuns(ts, send, recv, ms);
      GroupDelivers(ts, send, recv, ms);
    }
  }

  // The call completes exactly when all ranks take the same branch, which they do
  // exactly when the check succeeds on all of them or on none.
  lemma CallCompletesIff<T>(ts: seq<Table>, send: seq<seq<T>>, recv: seq<seq<T>>)
    requires Consistent(ts, send, recv) && ts != []
    ensures (exists out :: Completed(ts, send, recv, out)) <==> AllUniform(ts) || NoneUniform(ts)
    ensures forall out :: Completed(ts, send, recv, out) ==> Delivered(ts, send, recv, out)
  {
    forall out | Completed(ts, send, recv, out) ensures AllUniform(ts) || NoneUniform(ts)
      ensures Delivered(ts, send, recv, out)
    {
      CompletedDelivers(ts, send, recv, out);
    }
    if AllUniform(ts) || NoneUniform(ts) {
      GroupCompletes(ts, send, recv);
      var ms :| Matching(ts, ms);
      MatchingRuns(ts, send, recv, ms);
      var out := AfterGroup(ts, send, recv, ms);
      if AllUniform(ts) {
        FallbackTransposes(ts, send, recv, ms);
      } else {
        PostersAreAll(ts, ms);
        assert CarriedOut(send, recv, ms, out);
      }
      assert Completed(ts, send, recv, out);
    }
  }

  // A consistent exchange on which rank 0 would call the native all-to-all while rank 1
  // posts sends and receives: this call never completes.
  lemma BranchesCanDiverge(x: int, out: seq<seq<int>>)
    ensures var a, b := Slot(1, 0, 1, 0), Slot(1, 1, 1, 1);
            var ts, data := [[a, b], [a, Slot(2, 1, 2, 1)]], [[x, x], [x, x, x]];
            Consistent(ts, data, data) && Uniform(ts[0]) && !Uniform(ts[1]) && !Completed(ts, data, data, out)
  {
    var ts, data := [[Slot(1, 0, 1, 0), Slot(1, 1, 1, 1)], [Slot(1, 0, 1, 0), Slot(2, 1, 2, 1)]], [[x, x], [x, x, x]];
    assert !UniformSlot(ts[1][1], 1, 1);
    assert Uniform(ts[0]) && !Uniform(ts[1]) && Consistent(ts, data, data);
    hide Consistent, Uniform, Completed;
    CallCompletesIff(ts, data, data);
  }
}
