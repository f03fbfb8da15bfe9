// When does the bootstrap of Rendezvous.dfy complete?  Both answers are exact, and
// both are conditions on the programs alone.
//
//  - If initialisation returns at once, ranks only wait for store keys, and a rank
//    only ever waits for a lower rank: everything completes exactly when each key a
//    rank reads is in its writer's plan, in whatever order.
//  - If initialisation waits for all members, everything completes exactly when the
//    ranks' plans are the projections of one global sequence of creations.
module Progress {
  import opened Keys
  import opened Rendezvous

  // A rank waiting in `get` waits for a lower rank, and the key is in its plan.
  lemma ReadersWaitForLowerRanks(c: Config, s: State, r: nat)
    requires ValidConfig(c) && Inv(c, s) && r < |s.ranks| && s.ranks[r].phase.Fetching?
    ensures WriterOf(s.ranks[r].phase.key) < r
    ensures s.ranks[r].phase.key in Plan(r, c.programs[r])
    ensures !s.ranks[r].phase.key.Stream?
  {
    var me, p := s.ranks[r], c.programs[r];
    assert RankInv(c, r, me);
    PlanNext(r, p, me.pc);
    var q := Plan(r, p[..me.pc + 1]);
    assert q[|q| - 1] == me.phase.key;
  }

  lemma {:induction false} MatchedRanksFinish(c: Config, s: State, n: nat)
    requires ValidConfig(c) && Inv(c, s) && !c.blocking && Matched(c) && Stuck(c, s) && n <= |s.ranks|
    ensures forall r :: 0 <= r < n ==> RankFinished(c, s, r)
  {
    if n > 0 {
      MatchedRanksFinish(c, s, n - 1);
      var r := n - 1;
      assert RankInv(c, r, s.ranks[r]) && !Enabled(c, s, r);
      if s.ranks[r].phase.Fetching? {
        ReadersWaitForLowerRanks(c, s, r);
        var key := s.ranks[r].phase.key;
        var w := WriterOf(key);
        assert RankFinished(c, s, w) && RankInv(c, w, s.ranks[w]);
        assert c.programs[w][..|c.programs[w]|] == c.programs[w];
        assert Published(s, key);
      }
    }
  }

  lemma FinishedMadeWholePlan(c: Config, s: State, r: nat)
    requires Inv(c, s) && Finished(c, s) && r < |s.ranks|
    ensures KeysOf(s.ranks[r].made) == Plan(r, c.programs[r])
  {
    assert RankInv(c, r, s.ranks[r]) && RankFinished(c, s, r);
    assert c.programs[r][..|c.programs[r]|] == c.programs[r];
  }

  // If every rank has finished, every key read has been written by its writer.
  lemma FinishedIsMatched(c: Config, s: State)
    requires Inv(c, s) && Finished(c, s)
    ensures Matched(c)
  {
    forall r, k | 0 <= r < |c.programs| && k in Plan(r, c.programs[r])
      ensures WriterOf(k) < |c.programs| && k in Plan(WriterOf(k), c.programs[WriterOf(k)])
    {
      FinishedMadeWholePlan(c, s, r);
      var i :| 0 <= i < |s.ranks[r].made| && s.ranks[r].made[i].key == k;
      assert Recorded(s, s.ranks[r].made[i]) && Published(s, k);
      FinishedMadeWholePlan(c, s, WriterOf(k));
    }
  }

  // Store-only waiting: a run that can go no further has completed every program
  // exactly when every key that is read is also written.
  lemma CompletesIffMatched(c: Config, sched: seq<nat>)
    requires ValidConfig(c) && !c.blocking && IsSchedule(c, sched) && Stuck(c, Run(c, sched))
    ensures Finished(c, Run(c, sched)) <==> Matched(c)
  {
    RunKeepsInv(c, sched);
    var s := Run(c, sched);
    if Matched(c) {
      MatchedRanksFinish(c, s, |s.ranks|);
    }
    if Finished(c, s) {
      FinishedIsMatched(c, s);
    }
  }

  // ---- Initialisation waits for all members ----

  // How far a rank has got: the number of creations it has completed.
  function Completed(c: Config, s: State, r: nat): nat
    requires r < |s.ranks| == |c.programs| && s.ranks[r].pc <= |c.programs[r]|
  {
    |Plan(r, c.programs[r][..s.ranks[r].pc])|
  }

  lemma {:induction false} ProjectionPrefix(order: seq<Key>, g: nat, r: nat)
    requires g <= |order|
    ensures Projection(order[..g], r) <= Projection(order, r)
  {
    if g < |order| {
      assert order[..|order| - 1][..g] == order[..g];
      ProjectionPrefix(order[..|order| - 1], g, r);
    } else {
      assert order[..g] == order;
    }
  }

  // The key at position g of the order is the next one of each of its members.
  lemma NextOfMember(c: Config, order: seq<Key>, g: nat, r: nat)
    requires GlobalOrder(c, order) && g < |order| && r < |c.programs| && Participates(order[g], r)
    ensures var m := |Projection(order[..g], r)|;
            && |Projection(order[..g + 1], r)| == m + 1 <= |Plan(r, c.programs[r])|
            && Plan(r, c.programs[r])[m] == order[g]
  {
    assert order[..g + 1][..g] == order[..g];
    ProjectionPrefix(order, g + 1, r);
  }

  // Every member has completed its share of the first g creations of the order.
  ghost predicate CaughtUp(c: Config, s: State, order: seq<Key>, g: nat)
    requires Inv(c, s) && g <= |order|
  {
    forall r :: 0 <= r < |s.ranks| ==> RankInv(c, r, s.ranks[r]) && Completed(c, s, r) >= |Projection(order[..g], r)|
  }

  // A member of order[g] that has not completed it and cannot step is at it.
  lemma BehindIsAt(c: Config, s: State, order: seq<Key>, g: nat, r: nat)
    requires ValidConfig(c) && Inv(c, s) && Stuck(c, s) && GlobalOrder(c, order)
    requires g < |order| && CaughtUp(c, s, order, g) && r < |s.ranks| && Participates(order[g], r)
    requires RankInv(c, r, s.ranks[r]) && Completed(c, s, r) <= |Projection(order[..g], r)|
    ensures !s.ranks[r].phase.Idle? && s.ranks[r].phase.key == order[g]
    ensures s.ranks[r].phase.Joining? ==> order[g] in KeysOf(s.ranks[r].made)
  {
    hide Plan, NextKey, Groups, Seen, Projection, StoreInv, IsWriter;
    var me, p := s.ranks[r], c.programs[r];
    NextOfMember(c, order, g, r);
    assert !Enabled(c, s, r) && p[..|p|] == p;
    if me.phase.Idle? {
      assert false;
    }
    PlanNext(r, p, me.pc);
    var q := Plan(r, p[..me.pc + 1]);
    assert q[|q| - 1] == me.phase.key && q <= Plan(r, p);
  }

  // A member that has completed more than that has arrived at order[g].
  lemma AheadHasArrived(c: Config, s: State, order: seq<Key>, g: nat, r: nat)
    requires ValidConfig(c) && Inv(c, s) && GlobalOrder(c, order)
    requires g < |order| && r < |s.ranks| && Participates(order[g], r)
    requires RankInv(c, r, s.ranks[r]) && Completed(c, s, r) > |Projection(order[..g], r)|
    ensures order[g] in KeysOf(s.ranks[r].made)
  {
    var me, p := s.ranks[r], c.programs[r];
    var m := |Projection(order[..g], r)|;
    NextOfMember(c, order, g, r);
    PlanPrefix(r, p, me.pc);
    assert Plan(r, p[..me.pc])[m] == order[g];
    if me.phase.Joining? {
      PlanNext(r, p, me.pc);
      assert Plan(r, p[..me.pc + 1])[m] == order[g];
    }
  }

  // In a stuck state every member has arrived at order[g] ...
  lemma AllArrive(c: Config, s: State, order: seq<Key>, g: nat, r: nat)
    requires ValidConfig(c) && Inv(c, s) && Stuck(c, s) && GlobalOrder(c, order)
    requires g < |order| && CaughtUp(c, s, order, g) && r < |s.ranks| && Participates(order[g], r)
    ensures order[g] in KeysOf(s.ranks[r].made)
  {
    assert RankInv(c, r, s.ranks[r]);
    if Completed(c, s, r) > |Projection(order[..g], r)| {
      AheadHasArrived(c, s, order, g, r);
    } else {
      BehindIsAt(c, s, order, g, r);
      if s.ranks[r].phase.Fetching? {
        ReadersWaitForLowerRanks(c, s, r);
        var w := WriterOf(order[g]);
        assert !Enabled(c, s, r) && Published(s, order[g]) && RankInv(c, w, s.ranks[w]);
        if Completed(c, s, w) > |Projection(order[..g], w)| {
          AheadHasArrived(c, s, order, g, w);
        } else {
          BehindIsAt(c, s, order, g, w);
          if s.ranks[w].phase.Fetching? {
            ReadersWaitForLowerRanks(c, s, w);
          }
        }
      }
    }
  }

  // ... so every member has completed it.
  lemma {:induction false} OrderedRanksCatchUp(c: Config, s: State, order: seq<Key>, g: nat)
    requires ValidConfig(c) && Inv(c, s) && Stuck(c, s) && GlobalOrder(c, order) && g <= |order|
    ensures CaughtUp(c, s, order, g)
  {
    if g > 0 {
      var k := order[g - 1];
      OrderedRanksCatchUp(c, s, order, g - 1);
      assert FullyArrived(s.ranks, k) by {
        forall r | 0 <= r < |s.ranks| && Participates(k, r) ensures k in KeysOf(s.ranks[r].made) {
          AllArrive(c, s, order, g - 1, r);
        }
      }
      forall r | 0 <= r < |s.ranks|
        ensures RankInv(c, r, s.ranks[r]) && Completed(c, s, r) >= |Projection(order[..g], r)|
      {
        assert order[..g][..g - 1] == order[..g - 1];
        if Participates(k, r) && Completed(c, s, r) <= |Projection(order[..g - 1], r)| {
          BehindIsAt(c, s, order, g - 1, r);
          assert !Enabled(c, s, r);
          ReadersHaveNotArrived(c, s, r);
        }
      }
    }
  }

  lemma ReadersHaveNotArrived(c: Config, s: State, r: nat)
    requires ValidConfig(c) && Inv(c, s) && r < |s.ranks| && s.ranks[r].phase.Fetching?
    ensures s.ranks[r].phase.key !in KeysOf(s.ranks[r].made)
  {
    assert RankInv(c, r, s.ranks[r]);
    PlanNext(r, c.programs[r], s.ranks[r].pc);
  }

  lemma OrderedFinishes(c: Config, s: State, order: seq<Key>)
    requires ValidConfig(c) && Inv(c, s) && Stuck(c, s) && GlobalOrder(c, order)
    ensures Finished(c, s)
  {
    OrderedRanksCatchUp(c, s, order, |order|);
    assert order[..|order|] == order;
    forall r | 0 <= r < |s.ranks| ensures RankFinished(c, s, r) {
      assert RankInv(c, r, s.ranks[r]) && !Enabled(c, s, r);
      if !s.ranks[r].phase.Idle? {
        PlanNext(r, c.programs[r], s.ranks[r].pc);
        assert false;
      }
    }
  }

  // ---- The order in which keys became fully attended is a global order ----

  // What rank r has made, up to a key its other members have not reached yet.
  ghost predicate GatheredInv(s: State, r: nat)
    requires r < |s.ranks|
  {
    var me := s.ranks[r];
    var keys := KeysOf(me.made);
    if me.phase.Joining? && me.phase.key !in s.gathered then
      keys != [] && keys[|keys| - 1] == me.phase.key && Projection(s.gathered, r) == keys[..|keys| - 1]
    else
      Projection(s.gathered, r) == keys
  }

  ghost predicate OrderInv(s: State)
  {
    && (forall r :: 0 <= r < |s.ranks| ==> GatheredInv(s, r))
    && (forall k :: k in s.gathered ==> FullyArrived(s.ranks, k))
    && (forall r, k :: 0 <= r < |s.ranks| && k in KeysOf(s.ranks[r].made) && FullyArrived(s.ranks, k) ==> k in s.gathered)
  }

  lemma {:induction false} ProjectionContains(order: seq<Key>, r: nat, k: Key)
    ensures k in Projection(order, r) <==> k in order && Participates(k, r)
  {
    if order != [] {
      ProjectionContains(order[..|order| - 1], r, k);
      assert order == order[..|order| - 1] + [order[|order| - 1]];
    }
  }

  ghost predicate RanksInv(c: Config, s: State)
  {
    |s.ranks| == |c.programs| && forall r :: 0 <= r < |s.ranks| ==> RankInv(c, r, s.ranks[r])
  }

  // A rank only ever handles keys of communicators it belongs to.
  lemma MadeKeysAreMine(c: Config, s: State, r: nat, k: Key)
    requires RanksInv(c, s) && r < |s.ranks| && k in KeysOf(s.ranks[r].made)
    ensures Participates(k, r)
  {
    var me := s.ranks[r];
    assert RankInv(c, r, me);
    PlanContains(r, c.programs[r][..if me.phase.Joining? then me.pc + 1 else me.pc], k);
  }

  // While a key is not fully attended, every member that has reached it is still in it.
  lemma WaitingMember(s: State, q: nat, key: Key)
    requires OrderInv(s) && q < |s.ranks| && key in KeysOf(s.ranks[q].made) && key !in s.gathered
    ensures s.ranks[q].phase.Joining? && s.ranks[q].phase.key == key
  {
    ProjectionContains(s.gathered, q, key);
    assert GatheredInv(s, q);
  }

  // The arriving rank itself ...
  lemma ArriverKeepsGatheredInv(s: State, r: nat, counter: nat, key: Key, id: Id)
    requires OrderInv(s) && r < |s.ranks| && !s.ranks[r].phase.Joining?
    requires key !in KeysOf(s.ranks[r].made) && Participates(key, r)
    ensures key !in s.gathered && GatheredInv(Arrive(s, r, counter, key, id), r)
  {
    var s' := Arrive(s, r, counter, key, id);
    assert key !in s.gathered;
    assert GatheredInv(s, r);
    assert s'.gathered != s.gathered ==> s'.gathered[..|s'.gathered| - 1] == s.gathered;
    KeysOfAppend(s.ranks[r].made, Entry(key, id));
    hide OrderInv, FullyArrived, KeysOf;
  }

  // ... and the others.
  lemma ArriveKeepsGatheredInv(c: Config, s: State, r: nat, counter: nat, key: Key, id: Id, q: nat)
    requires RanksInv(c, s) && OrderInv(s) && r < |s.ranks| && q < |s.ranks|
    requires !s.ranks[r].phase.Joining? && key !in KeysOf(s.ranks[r].made) && Participates(key, r)
    ensures GatheredInv(Arrive(s, r, counter, key, id), q)
  {
    ArriverKeepsGatheredInv(s, r, counter, key, id);
    if q != r {
      var s' := Arrive(s, r, counter, key, id);
      assert GatheredInv(s, q) && s'.ranks[q] == s.ranks[q];
      if s'.gathered == s.gathered {
        hide OrderInv, RanksInv, FullyArrived;
      } else {
        assert s'.gathered == s.gathered + [key] && s'.gathered[..|s.gathered|] == s.gathered;
        assert Participates(key, q) ==> key in KeysOf(s.ranks[q].made);
        hide FullyArrived;
        GatheredGrows(c, s, s', q, key);
      }
    }
  }

  // A member was waiting for this key; no other rank notices.
  lemma GatheredGrows(c: Config, s: State, s': State, q: nat, key: Key)
    requires RanksInv(c, s) && OrderInv(s) && q < |s.ranks| == |s'.ranks| && s'.ranks[q] == s.ranks[q] && GatheredInv(s, q)
    requires key !in s.gathered && s'.gathered == s.gathered + [key] && s'.gathered[..|s.gathered|] == s.gathered
    requires Participates(key, q) ==> key in KeysOf(s.ranks[q].made)
    ensures GatheredInv(s', q)
  {
    hide OrderInv, RanksInv, KeysOf, Participates;
    assert Projection(s'.gathered, q) == Projection(s.gathered, q) + if Participates(key, q) then [key] else [];
    hide Projection;
    if Participates(key, q) {
      WaitingMember(s, q, key);
    } else if s.ranks[q].phase.Joining? && s.ranks[q].phase.key !in s.gathered {
      MadeKeysAreMine(c, s, q, s.ranks[q].phase.key);
    }
  }

  lemma ArriveKeepsOrderInv(c: Config, s: State, r: nat, counter: nat, key: Key, id: Id)
    requires RanksInv(c, s) && OrderInv(s) && r < |s.ranks|
    requires !s.ranks[r].phase.Joining? && key !in KeysOf(s.ranks[r].made) && Participates(key, r)
    ensures OrderInv(Arrive(s, r, counter, key, id))
  {
    var s' := Arrive(s, r, counter, key, id);
    KeysOfAppend(s.ranks[r].made, Entry(key, id));
    forall q | 0 <= q < |s'.ranks| ensures GatheredInv(s', q) {
      ArriveKeepsGatheredInv(c, s, r, counter, key, id, q);
    }
    forall q, k | 0 <= q < |s'.ranks| && k in KeysOf(s'.ranks[q].made) && FullyArrived(s'.ranks, k)
      ensures k in s'.gathered
    {
      if k != key {
        assert FullyArrived(s.ranks, k) by {
          forall p | 0 <= p < |s.ranks| && Participates(k, p) ensures k in KeysOf(s.ranks[p].made) {
            assert k in KeysOf(s'.ranks[p].made);
          }
        }
      }
    }
  }

  // A step that makes nothing new: a cache hit, a blocked get, or the end of an
  // initialisation that all members have reached.
  lemma QuietStepKeepsOrderInv(s: State, s': State, r: nat)
    requires OrderInv(s) && r < |s.ranks| == |s'.ranks| && s'.ranks == s.ranks[r := s'.ranks[r]]
    requires s'.gathered == s.gathered && s'.ranks[r].made == s.ranks[r].made && !s'.ranks[r].phase.Joining?
    requires s.ranks[r].phase.Joining? ==> s.ranks[r].phase.key in s.gathered
    ensures OrderInv(s')
  {
    forall q | 0 <= q < |s'.ranks| ensures GatheredInv(s', q) {
      assert GatheredInv(s, q);
    }
    assert forall k :: FullyArrived(s'.ranks, k) <==> FullyArrived(s.ranks, k);
  }

  lemma PublishKeepsOrderInv(c: Config, s: State, r: nat, key: Key)
    requires RanksInv(c, s) && OrderInv(s)
    ensures RanksInv(c, Publish(s, r, key)) && OrderInv(Publish(s, r, key))
  {
    assert forall q :: 0 <= q < |s.ranks| && GatheredInv(s, q) ==> GatheredInv(Publish(s, r, key), q);
  }

  predicate Publishes(c: Config, s: State, r: nat)
    requires Enabled(c, s, r) && s.ranks[r].phase.Idle?
  {
    var req := c.programs[r][s.ranks[r].pc];
    CommKey(r, req) !in s.ranks[r].cache && IsWriter(r, req)
  }

  lemma PublishedKeyIsNew(c: Config, s: State, r: nat, key: Key)
    requires ValidConfig(c) && Inv(c, s) && Enabled(c, s, r) && s.ranks[r].phase.Idle? && Publishes(c, s, r)
    requires key == StoreKey(r, s.ranks[r].counter, c.programs[r][s.ranks[r].pc])
    ensures key !in KeysOf(s.ranks[r].made) && Participates(key, r)
  {
    assert RankInv(c, r, s.ranks[r]);
    PlanNext(r, c.programs[r], s.ranks[r].pc);
  }

  lemma PublishStepKeepsOrderInv(c: Config, s: State, r: nat)
    requires ValidConfig(c) && Inv(c, s) && OrderInv(s) && Enabled(c, s, r)
    requires s.ranks[r].phase.Idle? && Publishes(c, s, r)
    ensures OrderInv(Step(c, s, r))
  {
    var me, req := s.ranks[r], c.programs[r][s.ranks[r].pc];
    var key := StoreKey(r, me.counter, req);
    PublishedKeyIsNew(c, s, r, key);
    PublishAndArriveKeepsOrderInv(c, s, r, if req.Group? then me.counter + 1 else me.counter, key);
    StepPublishes(c, s, r);
  }

  lemma StepPublishes(c: Config, s: State, r: nat)
    requires Enabled(c, s, r) && s.ranks[r].phase.Idle? && Publishes(c, s, r)
    ensures var me, req := s.ranks[r], c.programs[r][s.ranks[r].pc];
            var key := StoreKey(r, me.counter, req);
            Step(c, s, r) == Arrive(Publish(s, r, key), r, if req.Group? then me.counter + 1 else me.counter, key, s.nextId)
  {
  }

  lemma PublishAndArriveKeepsOrderInv(c: Config, s: State, r: nat, counter: nat, key: Key)
    requires RanksInv(c, s) && OrderInv(s) && r < |s.ranks|
    requires !s.ranks[r].phase.Joining? && key !in KeysOf(s.ranks[r].made) && Participates(key, r)
    ensures OrderInv(Arrive(Publish(s, r, key), r, counter, key, s.nextId))
  {
    PublishKeepsOrderInv(c, s, r, key);
    ArriveKeepsOrderInv(c, Publish(s, r, key), r, counter, key, s.nextId);
  }

  lemma StepKeepsOrderInv(c: Config, s: State, r: nat)
    requires ValidConfig(c) && c.blocking && Inv(c, s) && OrderInv(s) && Enabled(c, s, r)
    ensures OrderInv(Step(c, s, r))
  {
    var me, p := s.ranks[r], c.programs[r];
    if me.phase.Idle? {
      if Publishes(c, s, r) {
        PublishStepKeepsOrderInv(c, s, r);
      } else {
        QuietStepKeepsOrderInv(s, Step(c, s, r), r);
      }
    } else {
      assert RankInv(c, r, me);
      PlanNext(r, p, me.pc);
      if me.phase.Fetching? {
        PlanContains(r, p[..me.pc + 1], me.phase.key);
        ArriveKeepsOrderInv(c, s, r, me.counter, me.phase.key, s.store[me.phase.key]);
      } else {
        assert me.phase.key in KeysOf(me.made);
        QuietStepKeepsOrderInv(s, Step(c, s, r), r);
      }
    }
  }

  lemma {:induction false} RunKeepsOrderInv(c: Config, sched: seq<nat>)
    requires ValidConfig(c) && c.blocking && IsSchedule(c, sched)
    ensures OrderInv(Run(c, sched))
  {
    if sched == [] {
      assert forall r :: 0 <= r < |Init(c).ranks| ==> GatheredInv(Init(c), r);
    } else {
      var before := sched[..|sched| - 1];
      RunKeepsOrderInv(c, before);
      RunKeepsInv(c, before);
      StepKeepsOrderInv(c, Run(c, before), sched[|sched| - 1]);
    }
  }

  lemma FinishedIsOrdered(c: Config, s: State)
    requires Inv(c, s) && OrderInv(s) && Finished(c, s)
    ensures GlobalOrder(c, s.gathered)
  {
    forall r | 0 <= r < |c.programs| ensures Projection(s.gathered, r) == Plan(r, c.programs[r]) {
      assert GatheredInv(s, r) && RankFinished(c, s, r);
      FinishedMadeWholePlan(c, s, r);
    }
  }

  // Waiting for all members: a run that can go no further has completed every program
  // exactly when the plans are the projections of one global sequence of creations.
  lemma BlockingCompletesIffOrdered(c: Config, sched: seq<nat>)
    requires ValidConfig(c) && c.blocking && IsSchedule(c, sched) && Stuck(c, Run(c, sched))
    ensures Finished(c, Run(c, sched)) <==> exists order :: GlobalOrder(c, order)
  {
    RunKeepsInv(c, sched);
    RunKeepsOrderInv(c, sched);
    var s := Run(c, sched);
    if Finished(c, s) {
      FinishedIsOrdered(c, s);
    }
    if order :| GlobalOrder(c, order) {
      OrderedFinishes(c, s, order);
    }
  }

  lemma PlanOfOne(rank: nat, a: Request)
    ensures Plan(rank, [a]) == [StoreKey(rank, 0, a)] && Seen(rank, [a]) == {CommKey(rank, a)}
  {
    assert [a][..0] == [] && Seen(rank, []) == {};
    assert [] + [a] == [a];
    SeenAppend(rank, [], a);
    hide Seen, StoreKey, CommKey;
    assert Plan(rank, []) == [] && NextKey(rank, [], a) == [StoreKey(rank, 0, a)];
  }

  lemma PlanOfTwo(rank: nat, a: Request, b: Request)
    requires CommKey(rank, a) != CommKey(rank, b)
    ensures Plan(rank, [a, b]) == [StoreKey(rank, 0, a), StoreKey(rank, if a.Group? then 1 else 0, b)]
  {
    assert [a, b][..1] == [a] && [a, b][..2] == [a, b];
    PlanOfOne(rank, a);
    var first := StoreKey(rank, 0, a);
    assert first.Number? <==> a.Group?;
    assert [] + [first] == [first];
    GroupsAppend([], first);
    hide Plan, Seen, StoreKey, CommKey;
    PlanNext(rank, [a, b], 1);
    assert NextKey(rank, [a], b) == [StoreKey(rank, Groups([first]), b)];
  }

  function Shared(order: seq<Key>): seq<Key>
  {
    if order == [] then [] else
      var k := order[|order| - 1];
      Shared(order[..|order| - 1]) + if Participates(k, 0) && Participates(k, 1) then [k] else []
  }

  lemma {:induction false} SameMembersSameOrder(order: seq<Key>)
    ensures Shared(order) == Shared(Projection(order, 0)) == Shared(Projection(order, 1))
  {
    if order != [] {
      var n := |order| - 1;
      SameMembersSameOrder(order[..n]);
      var a, b := Projection(order[..n], 0), Projection(order[..n], 1);
      assert (a + [order[n]])[..|a|] == a && (b + [order[n]])[..|b|] == b;
      assert a + [] == a && b + [] == b;
    }
  }

  lemma NoCrossedOrder(order: seq<Key>, x: Key, y: Key)
    requires x != y && forall r :: 0 <= r < 2 ==> Participates(x, r) && Participates(y, r)
    ensures !(Projection(order, 0) == [x, y] && Projection(order, 1) == [y, x])
  {
    SameMembersSameOrder(order);
    assert [x, y][..1] == [x] && [y, x][..1] == [y] && [x][..0] == [] && [y][..0] == [];
    assert Shared([x]) == [] + [x] && Shared([y]) == [] + [y];
    assert Shared([x, y]) == [x] + [y] && Shared([y, x]) == [y] + [x];
    assert ([x] + [y])[0] == x && ([y] + [x])[0] == y;
  }

  function CrossedPrograms(): seq<seq<Request>> { [[Group(0), Peer(1)], [Peer(0), Group(0)]] }

  function CrossedPlans(r: nat): seq<Key>
  {
    if r == 0 then [Number(0), Pair(0, 1)] else [Pair(0, 1), Number(0)]
  }

  lemma CrossedProgramsPlan(c: Config)
    requires c.programs == CrossedPrograms()
    ensures forall r :: 0 <= r < 2 ==> Plan(r, c.programs[r]) == CrossedPlans(r)
  {
    PlanOfTwo(0, Group(0), Peer(1));
    PlanOfTwo(1, Peer(0), Group(0));
  }

  lemma CrossedProgramsAreMatched(c: Config)
    requires c.programs == CrossedPrograms()
    ensures Matched(c)
  {
    CrossedProgramsPlan(c);
    forall r, k | 0 <= r < |c.programs| && k in Plan(r, c.programs[r])
      ensures WriterOf(k) < |c.programs| && k in Plan(WriterOf(k), c.programs[WriterOf(k)])
    {
      assert WriterOf(k) == 0 && CrossedPlans(0)[0] == Number(0) && CrossedPlans(0)[1] == Pair(0, 1);
    }
  }

  lemma CrossedProgramsHaveNoOrder(c: Config, order: seq<Key>)
    requires c.programs == CrossedPrograms()
    ensures !GlobalOrder(c, order)
  {
    CrossedProgramsPlan(c);
    NoCrossedOrder(order, Number(0), Pair(0, 1));
    assert |c.programs| == 2;
  }

  // Two ranks that create the same two communicators in opposite orders: every key is
  // published, yet no global order exists, so blocking initialisation never completes.
  lemma OppositeOrdersDeadlock(c: Config, sched: seq<nat>)
    requires c.programs == CrossedPrograms() && IsSchedule(c, sched) && Stuck(c, Run(c, sched))
    ensures Finished(c, Run(c, sched)) <==> !c.blocking
  {
    CrossedProgramsAreValid(c);
    if c.blocking {
      BlockingCompletesIffOrdered(c, sched);
      forall order ensures !GlobalOrder(c, order) {
        CrossedProgramsHaveNoOrder(c, order);
      }
    } else {
      CompletesIffMatched(c, sched);
      CrossedProgramsAreMatched(c);
    }
  }

  lemma CrossedProgramsAreValid(c: Config)
    requires c.programs == CrossedPrograms()
    ensures ValidConfig(c)
  {
  }

  // ---- One global order is enough without blocking, too ----

  // The members of a pair's communicator are exactly the ranks that can create it.
  lemma PairMembers(lo: nat, hi: nat, r: nat)
    requires lo <= hi
    ensures Participates(Pair(lo, hi), r) <==> exists peer :: Plan(r, [Peer(peer)]) == [Pair(lo, hi)]
    ensures Participates(Pair(lo, hi), r) <==> r == lo || r == hi
  {
    if r == lo || r == hi {
      PlanOfOne(r, Peer(if r == lo then hi else lo));
      assert Plan(r, [Peer(if r == lo then hi else lo)]) == [Pair(lo, hi)];
    }
    forall peer | Plan(r, [Peer(peer)]) == [Pair(lo, hi)] ensures r == lo || r == hi {
      PlanOfOne(r, Peer(peer));
      assert Plan(r, [Peer(peer)])[0] == Pair(lo, hi);
    }
  }

  lemma PlannedPairHasLowRank(rank: nat, p: seq<Request>, k: Key)
    requires k in Plan(rank, p) && k.Pair?
    ensures k.lo <= rank
  {
    PlanContains(rank, p, k);
  }

  // If all plans follow one order, every key that is read is written.
  lemma OrderedIsMatched(c: Config, order: seq<Key>)
    requires ValidConfig(c) && GlobalOrder(c, order)
    ensures Matched(c)
  {
    forall r, k | 0 <= r < |c.programs| && k in Plan(r, c.programs[r])
      ensures WriterOf(k) < |c.programs| && k in Plan(WriterOf(k), c.programs[WriterOf(k)])
    {
      PlanContains(r, c.programs[r], k);
      if k.Pair? {
        PlannedPairHasLowRank(r, c.programs[r], k);
      }
      ProjectionContains(order, r, k);
      ProjectionContains(order, WriterOf(k), k);
      assert Projection(order, WriterOf(k)) == Plan(WriterOf(k), c.programs[WriterOf(k)]);
    }
  }

  // So whichever way initialisation waits, no reachable state is stuck before all
  // programs are finished.
  lemma OrderedNeverStuck(c: Config, sched: seq<nat>, order: seq<Key>)
    requires ValidConfig(c) && GlobalOrder(c, order) && IsSchedule(c, sched) && Stuck(c, Run(c, sched))
    ensures Finished(c, Run(c, sched))
  {
    if c.blocking {
      BlockingCompletesIffOrdered(c, sched);
    } else {
      OrderedIsMatched(c, order);
      CompletesIffMatched(c, sched);
    }
  }
}
