// How the ranks of a process group agree on communicator ids.
//
// Every rank runs its own program of operations.  An operation asks for a
// communicator (all ranks, cached by device; or one pair of ranks, cached by the
// pair) and creates it on the first use: one rank puts a fresh id into a shared
// key-value store, the others block in `get` until it is there, and everybody then
// enters the communicator initialisation.  A run is a schedule: the sequence of
// ranks that take the next step.
module Rendezvous {
  import opened Collections
  import opened Keys

  type Id = nat

  // One operation of a rank's program, as far as it needs a communicator.
  datatype Request =
    | Group(dev: nat)   // a collective or a batched send/recv on device `dev`
    | Peer(peer: nat)   // an unbatched send or recv

  // `blocking` says whether communicator initialisation itself waits for all
  // members (as the runtime's may) or returns as soon as the id is known.
  datatype Config = Config(programs: seq<seq<Request>>, blocking: bool)

  datatype Phase =
    | Idle
    | Fetching(key: Key)         // blocked in store.get(key)
    | Joining(key: Key, id: Id)  // has the id, initialising the communicator

  datatype Entry = Entry(key: Key, id: Id)
  datatype Write = Write(key: Key, rank: nat)

  // `cache` is devXCCLCommMap_ and `counter` is xcclCommCounter_; `made` records the
  // store key and id of every communicator this rank has entered, in order, and `used`
  // the id of the communicator that each of its operations so far has run on.
  datatype RankState = RankState(pc: nat, counter: nat, cache: map<Key, Id>, phase: Phase, made: seq<Entry>, used: seq<Id>)

  // `writes` records every store.set, `gathered` the keys in the order in which the
  // last member arrived, and `nextId` is the next unused id.
  datatype State = State(store: map<Key, Id>, writes: seq<Write>, gathered: seq<Key>, nextId: Id, ranks: seq<RankState>)

  predicate ValidConfig(c: Config)
  {
    && |c.programs| > 0
    && forall r, i :: 0 <= r < |c.programs| && 0 <= i < |c.programs[r]| && c.programs[r][i].Peer?
                      ==> c.programs[r][i].peer < |c.programs|
  }

  // The key under which the communicator is cached.
  function CommKey(rank: nat, req: Request): Key
  {
    match req
    case Group(dev) => Number(dev)
    case Peer(peer) => if rank < peer then Pair(rank, peer) else Pair(peer, rank)
  }

  // The key under which its id is published; pairs use the cache key itself.
  function StoreKey(rank: nat, counter: nat, req: Request): Key
  {
    if req.Group? then Number(counter) else CommKey(rank, req)
  }

  function P2PRank(rank: nat, peer: nat): nat { if rank <= peer then 0 else 1 }

  // The rank that creates the id and sets the key.
  predicate IsWriter(rank: nat, req: Request)
  {
    rank == 0 || (req.Peer? && P2PRank(rank, req.peer) == 0)
  }

  predicate Participates(key: Key, rank: nat)
  {
    match key
    case Number(_) => true
    case Pair(lo, hi) => rank == lo || rank == hi
    case Stream(_, _) => false
  }

  function KeysOf(made: seq<Entry>): (keys: seq<Key>)
    ensures |keys| == |made|
    ensures forall i :: 0 <= i < |made| ==> keys[i] == made[i].key
  {
    seq(|made|, i requires 0 <= i < |made| => made[i].key)
  }

  predicate FullyArrived(ranks: seq<RankState>, key: Key)
  {
    forall r :: 0 <= r < |ranks| && Participates(key, r) ==> key in KeysOf(ranks[r].made)
  }

  // ---- The transition system ----

  function Init(c: Config): State
  {
    State(map[], [], [], 0, seq(|c.programs|, _ => RankState(0, 0, map[], Idle, [], [])))
  }

  predicate Enabled(c: Config, s: State, r: nat)
  {
    && r < |s.ranks| == |c.programs|
    && match s.ranks[r].phase
       case Idle => s.ranks[r].pc < |c.programs[r]|
       case Fetching(key) => key in s.store
       case Joining(key, _) => s.ranks[r].pc < |c.programs[r]| && (c.blocking ==> FullyArrived(s.ranks, key))
  }

  // Rank r obtains `id` for `key` and enters the initialisation.
  function Arrive(s: State, r: nat, counter: nat, key: Key, id: Id): State
    requires r < |s.ranks|
  {
    var me := s.ranks[r];
    var ranks := s.ranks[r := me.(counter := counter, phase := Joining(key, id), made := me.made + [Entry(key, id)])];
    s.(ranks := ranks, gathered := if FullyArrived(ranks, key) then s.gathered + [key] else s.gathered)
  }

  // Rank r sets `key` to the next fresh id.
  function Publish(s: State, r: nat, key: Key): State
  {
    s.(store := s.store[key := s.nextId], writes := s.writes + [Write(key, r)], nextId := s.nextId + 1)
  }

  function Step(c: Config, s: State, r: nat): State
    requires Enabled(c, s, r)
  {
    var me := s.ranks[r];
    match me.phase
    case Idle =>
      var req := c.programs[r][me.pc];
      if CommKey(r, req) in me.cache then
        s.(ranks := s.ranks[r := me.(pc := me.pc + 1, used := me.used + [me.cache[CommKey(r, req)]])])
      else
        var key := StoreKey(r, me.counter, req);
        var counter := if req.Group? then me.counter + 1 else me.counter;
        if IsWriter(r, req) then
          Arrive(Publish(s, r, key), r, counter, key, s.nextId)
        else
          s.(ranks := s.ranks[r := me.(counter := counter, phase := Fetching(key))])
    case Fetching(key) =>
      Arrive(s, r, me.counter, key, s.store[key])
    case Joining(_, id) =>
      var ck := CommKey(r, c.programs[r][me.pc]);
      s.(ranks := s.ranks[r := me.(pc := me.pc + 1, phase := Idle, cache := me.cache[ck := id], used := me.used + [id])])
  }

  ghost predicate IsSchedule(c: Config, sched: seq<nat>)
    decreases |sched|, 0
  {
    sched == [] || (IsSchedule(c, sched[..|sched| - 1]) && Enabled(c, Run(c, sched[..|sched| - 1]), sched[|sched| - 1]))
  }

  // The state after a schedule; every reachable state is one of these.
  ghost function Run(c: Config, sched: seq<nat>): State
    requires IsSchedule(c, sched)
    decreases |sched|, 1
  {
    if sched == [] then Init(c) else Step(c, Run(c, sched[..|sched| - 1]), sched[|sched| - 1])
  }

  predicate RankFinished(c: Config, s: State, r: nat)
    requires r < |s.ranks| == |c.programs|
  {
    s.ranks[r].phase.Idle? && s.ranks[r].pc == |c.programs[r]|
  }

  predicate Finished(c: Config, s: State)
  {
    |s.ranks| == |c.programs| && forall r :: 0 <= r < |s.ranks| ==> RankFinished(c, s, r)
  }

  predicate Stuck(c: Config, s: State)
  {
    forall r :: 0 <= r < |s.ranks| ==> !Enabled(c, s, r)
  }

  // ---- What a program creates, independently of any run ----

  function Seen(rank: nat, p: seq<Request>): set<Key>
  {
    set i | 0 <= i < |p| :: CommKey(rank, p[i])
  }

  function Groups(keys: seq<Key>): nat
  {
    if keys == [] then 0 else Groups(keys[..|keys| - 1]) + if keys[|keys| - 1].Number? then 1 else 0
  }

  // The store keys a rank goes through when it executes the program p: one for every
  // request whose communicator was not requested before.
  function Plan(rank: nat, p: seq<Request>): seq<Key>
    decreases |p|, 0
  {
    if p == [] then [] else
      var q := p[..|p| - 1];
      Plan(rank, q) + NextKey(rank, q, p[|p| - 1])
  }

  function NextKey(rank: nat, done: seq<Request>, req: Request): seq<Key>
    decreases |done|, 1
  {
    if CommKey(rank, req) in Seen(rank, done) then [] else [StoreKey(rank, Groups(Plan(rank, done)), req)]
  }

  function WriterOf(key: Key): nat
  {
    if key.Pair? then key.lo else 0
  }

  predicate Matched(c: Config)
  {
    forall r :: 0 <= r < |c.programs| ==>
      forall k :: k in Plan(r, c.programs[r]) ==>
        WriterOf(k) < |c.programs| && k in Plan(WriterOf(k), c.programs[WriterOf(k)])
  }

  // The part of a global sequence of creations that concerns one rank.
  function Projection(order: seq<Key>, rank: nat): seq<Key>
  {
    if order == [] then [] else
      var k := order[|order| - 1];
      Projection(order[..|order| - 1], rank) + if Participates(k, rank) then [k] else []
  }

  ghost predicate GlobalOrder(c: Config, order: seq<Key>)
  {
    forall r :: 0 <= r < |c.programs| ==> Projection(order, r) == Plan(r, c.programs[r])
  }

  // ---- Facts about plans ----

  lemma {:induction false} PlanContains(rank: nat, p: seq<Request>, k: Key)
    ensures k.Number? ==> (k in Plan(rank, p) <==> k.n < Groups(Plan(rank, p)))
    ensures k.Pair? && k in Plan(rank, p) ==> k in Seen(rank, p) && Participates(k, rank)
    ensures k.Stream? ==> k !in Plan(rank, p)
  {
    if p != [] {
      var q, req := p[..|p| - 1], p[|p| - 1];
      PlanContains(rank, q, k);
      SeenAppend(rank, q, req);
      assert p == q + [req];
      var plan := Plan(rank, q);
      if NextKey(rank, q, req) == [] {
        assert Plan(rank, p) == plan;
      } else {
        var key := NextKey(rank, q, req)[0];
        assert Plan(rank, p) == plan + [key] && key == StoreKey(rank, Groups(plan), req);
        hide Plan, NextKey, Seen;
        GroupsAppend(plan, key);
        hide Groups;
        assert k in plan + [key] <==> k in plan || k == key;
      }
    }
  }

  lemma SeenAppend(rank: nat, q: seq<Request>, req: Request)
    ensures Seen(rank, q + [req]) == Seen(rank, q) + {CommKey(rank, req)}
  {
    var p := q + [req];
    assert p[|q|] == req && forall i :: 0 <= i < |q| ==> p[i] == q[i];
  }

  lemma {:induction false} PlanNoRepeat(rank: nat, p: seq<Request>)
    ensures NoRepeat(Plan(rank, p))
  {
    if p != [] {
      var q, req := p[..|p| - 1], p[|p| - 1];
      PlanNoRepeat(rank, q);
      if NextKey(rank, q, req) != [] {
        PlanContains(rank, q, NextKey(rank, q, req)[0]);
      }
    }
  }

  lemma {:induction false} PlanPrefix(rank: nat, p: seq<Request>, i: nat)
    requires i <= |p|
    ensures Plan(rank, p[..i]) <= Plan(rank, p)
  {
    if i < |p| {
      assert p[..|p| - 1][..i] == p[..i];
      PlanPrefix(rank, p[..|p| - 1], i);
    } else {
      assert p[..i] == p;
    }
  }

  lemma PlanNext(rank: nat, p: seq<Request>, i: nat)
    requires i < |p|
    ensures Plan(rank, p[..i + 1]) == Plan(rank, p[..i]) + NextKey(rank, p[..i], p[i])
    ensures Seen(rank, p[..i + 1]) == Seen(rank, p[..i]) + {CommKey(rank, p[i])}
    ensures Plan(rank, p[..i + 1]) <= Plan(rank, p)
    ensures CommKey(rank, p[i]) !in Seen(rank, p[..i]) ==>
              NextKey(rank, p[..i], p[i])[0] !in Plan(rank, p[..i])
  {
    assert p[..i + 1][..i] == p[..i];
    PlanPrefix(rank, p, i + 1);
    if NextKey(rank, p[..i], p[i]) != [] {
      PlanContains(rank, p[..i], NextKey(rank, p[..i], p[i])[0]);
    }
    assert p[..i + 1] == p[..i] + [p[i]];
    SeenAppend(rank, p[..i], p[i]);
  }

  // ---- The inductive invariant ----

  // Where a rank stands: its cache, counter and record are those of its plan.
  ghost predicate RankInv(c: Config, r: nat, me: RankState)
    requires r < |c.programs|
  {
    var p := c.programs[r];
    && me.pc <= |p|
    && me.cache.Keys == Seen(r, p[..me.pc])
    && (me.phase.Idle? ==>
          KeysOf(me.made) == Plan(r, p[..me.pc]) && me.counter == Groups(Plan(r, p[..me.pc])))
    && (!me.phase.Idle? ==>
          && me.pc < |p|
          && NextKey(r, p[..me.pc], p[me.pc]) == [me.phase.key]
          && me.counter == Groups(Plan(r, p[..me.pc + 1])))
    && (me.phase.Fetching? ==>
          KeysOf(me.made) == Plan(r, p[..me.pc]) && !IsWriter(r, p[me.pc]))
    && (me.phase.Joining? ==>
          && me.made != [] && me.made[|me.made| - 1] == Entry(me.phase.key, me.phase.id)
          && KeysOf(me.made) == Plan(r, p[..me.pc + 1]))
  }

  // A key is in the store exactly when its writer has arrived at it.
  ghost predicate Published(s: State, key: Key)
  {
    key in s.store <==> !key.Stream? && WriterOf(key) < |s.ranks| && key in KeysOf(s.ranks[WriterOf(key)].made)
  }

  ghost predicate Recorded(s: State, e: Entry)
  {
    e.key in s.store && s.store[e.key] == e.id
  }

  ghost predicate IdsDistinct(s: State)
  {
    && (forall k :: k in s.store ==> s.store[k] < s.nextId)
    && (forall j, k :: j in s.store && k in s.store && s.store[j] == s.store[k] ==> j == k)
  }

  ghost predicate WritesOnce(s: State)
  {
    && (forall i :: 0 <= i < |s.writes| ==> s.writes[i].key in s.store && s.writes[i].rank == WriterOf(s.writes[i].key))
    && (forall i, j :: 0 <= i < j < |s.writes| ==> s.writes[i].key != s.writes[j].key)
  }

  ghost predicate StoreInv(s: State)
  {
    && (forall key :: Published(s, key))
    && (forall r, e :: 0 <= r < |s.ranks| && e in s.ranks[r].made ==> Recorded(s, e))
    && IdsDistinct(s)
    && WritesOnce(s)
  }

  ghost predicate Inv(c: Config, s: State)
  {
    && |s.ranks| == |c.programs|
    && (forall r :: 0 <= r < |s.ranks| ==> RankInv(c, r, s.ranks[r]))
    && StoreInv(s)
  }

  lemma HitKeepsRankInv(c: Config, s: State, r: nat)
    requires ValidConfig(c) && Inv(c, s) && Enabled(c, s, r) && s.ranks[r].phase.Idle?
    requires CommKey(r, c.programs[r][s.ranks[r].pc]) in s.ranks[r].cache
    ensures RankInv(c, r, Step(c, s, r).ranks[r])
  {
    var me, p := s.ranks[r], c.programs[r];
    assert RankInv(c, r, me);
    PlanNext(r, p, me.pc);
    assert Seen(r, p[..me.pc + 1]) == me.cache.Keys;
    assert Plan(r, p[..me.pc + 1]) == Plan(r, p[..me.pc]);
  }

  // me' is rank r after a miss: it has its key and counter, and the id when it writes.
  predicate Missed(r: nat, req: Request, me: RankState, me': RankState, id: Id)
  {
    var key := StoreKey(r, me.counter, req);
    && me'.pc == me.pc && me'.cache == me.cache
    && me'.counter == (if key.Number? then me.counter + 1 else me.counter)
    && (if IsWriter(r, req) then me'.phase == Joining(key, id) && me'.made == me.made + [Entry(key, id)]
        else me'.phase == Fetching(key) && me'.made == me.made)
  }

  lemma MissSteps(c: Config, s: State, r: nat)
    requires Enabled(c, s, r) && s.ranks[r].phase.Idle?
    requires CommKey(r, c.programs[r][s.ranks[r].pc]) !in s.ranks[r].cache
    ensures Missed(r, c.programs[r][s.ranks[r].pc], s.ranks[r], Step(c, s, r).ranks[r], s.nextId)
  {
  }

  // The next key of a rank's plan, and what it adds to the plan.
  lemma MissedPlan(c: Config, r: nat, me: RankState)
    requires r < |c.programs| && RankInv(c, r, me) && me.phase.Idle? && me.pc < |c.programs[r]|
    requires CommKey(r, c.programs[r][me.pc]) !in me.cache
    ensures var p, key := c.programs[r], StoreKey(r, me.counter, c.programs[r][me.pc]);
            && NextKey(r, p[..me.pc], p[me.pc]) == [key]
            && Plan(r, p[..me.pc + 1]) == KeysOf(me.made) + [key]
            && Groups(Plan(r, p[..me.pc + 1])) == if key.Number? then me.counter + 1 else me.counter
  {
    var p := c.programs[r];
    PlanNext(r, p, me.pc);
    var key := StoreKey(r, me.counter, p[me.pc]);
    assert NextKey(r, p[..me.pc], p[me.pc]) == [key];
    hide *;
    GroupsAppend(Plan(r, p[..me.pc]), key);
  }

  lemma MissKeepsRankInv(c: Config, r: nat, me: RankState, me': RankState, id: Id)
    requires r < |c.programs| && RankInv(c, r, me) && me.phase.Idle? && me.pc < |c.programs[r]|
    requires CommKey(r, c.programs[r][me.pc]) !in me.cache && Missed(r, c.programs[r][me.pc], me, me', id)
    ensures RankInv(c, r, me')
  {
    MissedPlan(c, r, me);
    KeysOfAppend(me.made, Entry(StoreKey(r, me.counter, c.programs[r][me.pc]), id));
    hide Plan, NextKey, Groups, Seen, StoreKey, CommKey, IsWriter, KeysOf;
  }

  lemma LaterStepKeepsRankInv(c: Config, s: State, r: nat)
    requires ValidConfig(c) && Inv(c, s) && Enabled(c, s, r) && !s.ranks[r].phase.Idle?
    ensures RankInv(c, r, Step(c, s, r).ranks[r])
  {
    hide Plan, NextKey, Groups, Seen, StoreKey, CommKey, StoreInv;
    var me, p := s.ranks[r], c.programs[r];
    PlanNext(r, p, me.pc);
    if me.phase.Fetching? {
      KeysOfAppend(me.made, Entry(me.phase.key, s.store[me.phase.key]));
    }
  }

  lemma GroupsAppend(keys: seq<Key>, key: Key)
    ensures Groups(keys + [key]) == Groups(keys) + if key.Number? then 1 else 0
  {
    assert (keys + [key])[..|keys|] == keys;
  }

  lemma WriterIsWriterOf(r: nat, counter: nat, req: Request)
    ensures IsWriter(r, req) <==> WriterOf(StoreKey(r, counter, req)) == r
  {
  }

  lemma KeysOfAppend(made: seq<Entry>, e: Entry)
    ensures KeysOf(made + [e]) == KeysOf(made) + [e.key]
  {
  }

  lemma QuietStepKeepsStoreInv(s: State, s': State)
    requires StoreInv(s) && |s'.ranks| == |s.ranks|
    requires s'.store == s.store && s'.writes == s.writes && s'.nextId == s.nextId
    requires forall r :: 0 <= r < |s.ranks| ==> s'.ranks[r].made == s.ranks[r].made
    ensures StoreInv(s')
  {
    forall key ensures Published(s', key) {
      assert Published(s, key);
    }
    forall r, e | 0 <= r < |s'.ranks| && e in s'.ranks[r].made ensures Recorded(s', e) {
      assert Recorded(s, e);
    }
  }

  // s' is s after rank r obtained the id of e.key, having published it itself when
  // it is the writer.
  ghost predicate Arrival(s: State, s': State, r: nat, e: Entry)
  {
    && r < |s.ranks| == |s'.ranks|
    && !e.key.Stream?
    && s'.store == s.store[e.key := e.id]
    && (forall q :: 0 <= q < |s.ranks| ==> s'.ranks[q].made == if q == r then s.ranks[q].made + [e] else s.ranks[q].made)
    && if e.key in s.store then
         s.store[e.key] == e.id && WriterOf(e.key) != r && s'.writes == s.writes && s'.nextId == s.nextId
       else
         WriterOf(e.key) == r && e.id == s.nextId && s'.writes == s.writes + [Write(e.key, r)] && s'.nextId == s.nextId + 1
  }

  lemma ArrivalPublishes(s: State, s': State, r: nat, e: Entry, key: Key)
    requires StoreInv(s) && Arrival(s, s', r, e)
    ensures Published(s', key)
  {
    KeysOfAppend(s.ranks[r].made, e);
    assert Published(s, key);
  }

  lemma ArrivalKeepsStoreInv(s: State, s': State, r: nat, e: Entry)
    requires StoreInv(s) && Arrival(s, s', r, e)
    ensures StoreInv(s')
  {
    forall key ensures Published(s', key) {
      ArrivalPublishes(s, s', r, e, key);
    }
    forall q, x | 0 <= q < |s'.ranks| && x in s'.ranks[q].made ensures Recorded(s', x) {
      assert q != r ==> Recorded(s, x);
      assert x in s.ranks[r].made ==> Recorded(s, x);
    }
  }

  lemma StepKeepsRankInv(c: Config, s: State, r: nat)
    requires ValidConfig(c) && Inv(c, s) && Enabled(c, s, r)
    ensures RankInv(c, r, Step(c, s, r).ranks[r])
  {
    if !s.ranks[r].phase.Idle? {
      LaterStepKeepsRankInv(c, s, r);
    } else if CommKey(r, c.programs[r][s.ranks[r].pc]) in s.ranks[r].cache {
      HitKeepsRankInv(c, s, r);
    } else {
      assert RankInv(c, r, s.ranks[r]);
      MissSteps(c, s, r);
      MissKeepsRankInv(c, r, s.ranks[r], Step(c, s, r).ranks[r], s.nextId);
    }
  }

  lemma StepKeepsStoreInv(c: Config, s: State, r: nat)
    requires ValidConfig(c) && Inv(c, s) && Enabled(c, s, r)
    ensures StoreInv(Step(c, s, r))
  {
    var me, p, s' := s.ranks[r], c.programs[r], Step(c, s, r);
    assert RankInv(c, r, me);
    if me.phase.Fetching? {
      WriterIsWriterOf(r, Groups(Plan(r, p[..me.pc])), p[me.pc]);
      ArrivalKeepsStoreInv(s, s', r, Entry(me.phase.key, s.store[me.phase.key]));
    } else if me.phase.Idle? && CommKey(r, p[me.pc]) !in me.cache && IsWriter(r, p[me.pc]) {
      var key := StoreKey(r, me.counter, p[me.pc]);
      WriterIsWriterOf(r, me.counter, p[me.pc]);
      PlanNext(r, p, me.pc);
      assert Published(s, key);
      ArrivalKeepsStoreInv(s, s', r, Entry(key, s.nextId));
    } else {
      QuietStepKeepsStoreInv(s, s');
    }
  }

  // A step changes no other rank.
  lemma OnlyOwnRankSteps(c: Config, s: State, r: nat)
    requires Enabled(c, s, r)
    ensures var s' := Step(c, s, r); s'.ranks == s.ranks[r := s'.ranks[r]]
  {
  }

  lemma StepKeepsInv(c: Config, s: State, r: nat)
    requires ValidConfig(c) && Inv(c, s) && Enabled(c, s, r)
    ensures Inv(c, Step(c, s, r))
  {
    hide RankInv, StoreInv;
    StepKeepsRankInv(c, s, r);
    StepKeepsStoreInv(c, s, r);
    OnlyOwnRankSteps(c, s, r);
    hide Step, Enabled;
  }

  lemma {:induction false} RunKeepsInv(c: Config, sched: seq<nat>)
    requires ValidConfig(c) && IsSchedule(c, sched)
    ensures Inv(c, Run(c, sched))
  {
    if sched == [] {
      forall key ensures Published(Init(c), key) { }
    } else {
      RunKeepsInv(c, sched[..|sched| - 1]);
      StepKeepsInv(c, Run(c, sched[..|sched| - 1]), sched[|sched| - 1]);
    }
  }

  // ---- Safety over every interleaving ----

  // Every key is set at most once, and only by rank 0 (counter keys) or by the lower
  // rank of the pair.
  lemma UniqueWriters(c: Config, sched: seq<nat>)
    requires ValidConfig(c) && IsSchedule(c, sched)
    ensures var w := Run(c, sched).writes;
            && (forall i, j :: 0 <= i < j < |w| ==> w[i].key != w[j].key)
            && (forall i :: 0 <= i < |w| ==> w[i].rank == if w[i].key.Pair? then w[i].key.lo else 0)
  {
    RunKeepsInv(c, sched);
  }

  // Two ranks that entered communicators hold the same id exactly when they used the
  // same key: members agree, and different communicators never share an id.
  lemma Agreement(c: Config, sched: seq<nat>, a: nat, i: nat, b: nat, j: nat)
    requires ValidConfig(c) && IsSchedule(c, sched)
    requires a < |Run(c, sched).ranks| && i < |Run(c, sched).ranks[a].made|
    requires b < |Run(c, sched).ranks| && j < |Run(c, sched).ranks[b].made|
    ensures var x, y := Run(c, sched).ranks[a].made[i], Run(c, sched).ranks[b].made[j];
            x.key == y.key <==> x.id == y.id
  {
    RunKeepsInv(c, sched);
    assert Recorded(Run(c, sched), Run(c, sched).ranks[a].made[i]);
    assert Recorded(Run(c, sched), Run(c, sched).ranks[b].made[j]);
  }

  // The group-wide creations of a rank, in order.
  function GroupEntries(made: seq<Entry>): seq<Entry>
  {
    if made == [] then [] else
      GroupEntries(made[..|made| - 1]) + if made[|made| - 1].key.Number? then [made[|made| - 1]] else []
  }

  lemma {:induction false} GroupEntriesCount(made: seq<Entry>)
    ensures |GroupEntries(made)| == Groups(KeysOf(made))
  {
    if made != [] {
      var m := made[..|made| - 1];
      GroupEntriesCount(m);
      assert KeysOf(made)[..|m|] == KeysOf(m);
    }
  }

  // The group-wide keys of a plan are numbered from 0 on.
  lemma {:induction false} GroupEntryAt(rank: nat, p: seq<Request>, made: seq<Entry>, k: nat) returns (i: nat)
    requires KeysOf(made) == Plan(rank, p) && k < |GroupEntries(made)|
    ensures i < |made| && made[i] == GroupEntries(made)[k] && made[i].key == Number(k)
  {
    var q := p[..|p| - 1];
    if NextKey(rank, q, p[|p| - 1]) == [] {
      i := GroupEntryAt(rank, q, made, k);
    } else {
      var m, key := made[..|made| - 1], NextKey(rank, q, p[|p| - 1])[0];
      assert Plan(rank, p) == Plan(rank, q) + [key] && (key.Number? ==> key.n == Groups(Plan(rank, q)));
      hide Plan, NextKey, Groups;
      assert KeysOf(made)[|m|] == made[|m|].key && KeysOf(m) == Plan(rank, q);
      GroupEntriesCount(m);
      if k < |GroupEntries(m)| {
        i := GroupEntryAt(rank, q, m, k);
      } else {
        i := |m|;
      }
    }
  }

  // The k-th group-wide communicator has the same id on every rank that has reached
  // it, however many pair communicators each of them created in between.
  lemma PairsDoNotShiftGroupIds(c: Config, sched: seq<nat>, a: nat, b: nat, k: nat)
    requires ValidConfig(c) && IsSchedule(c, sched)
    requires a < |Run(c, sched).ranks| && k < |GroupEntries(Run(c, sched).ranks[a].made)|
    requires b < |Run(c, sched).ranks| && k < |GroupEntries(Run(c, sched).ranks[b].made)|
    ensures GroupEntries(Run(c, sched).ranks[a].made)[k] == GroupEntries(Run(c, sched).ranks[b].made)[k]
    ensures GroupEntries(Run(c, sched).ranks[a].made)[k].key == Number(k)
  {
    RunKeepsInv(c, sched);
    var s := Run(c, sched);
    var x, y := s.ranks[a], s.ranks[b];
    var pa := c.programs[a][..if x.phase.Joining? then x.pc + 1 else x.pc];
    var pb := c.programs[b][..if y.phase.Joining? then y.pc + 1 else y.pc];
    var i := GroupEntryAt(a, pa, x.made, k);
    var j := GroupEntryAt(b, pb, y.made, k);
    Agreement(c, sched, a, i, b, j);
  }

  // ---- Which operations share a communicator ----

  // The devices of a program in the order of their first use.
  function Devices(p: seq<Request>): seq<nat>
  {
    if p == [] then [] else
      var init, req := Devices(p[..|p| - 1]), p[|p| - 1];
      if req.Group? && req.dev !in init then init + [req.dev] else init
  }

  // Each device once, and earlier ones were used earlier.
  lemma {:induction false} DevicesInOrder(p: seq<Request>)
    ensures NoRepeat(Devices(p))
    ensures forall d :: d in Devices(p) <==> Group(d) in p
    ensures forall k, l :: 0 <= k < l < |Devices(p)| ==> UsedBefore(p, Devices(p)[k], Devices(p)[l])
  {
    if p != [] {
      var q := p[..|p| - 1];
      DevicesInOrder(q);
      assert p == q + [p[|p| - 1]];
      forall k, l | 0 <= k < l < |Devices(p)| ensures UsedBefore(p, Devices(p)[k], Devices(p)[l]) {
        var d := Devices(q)[k];
        if l < |Devices(q)| {
          assert UsedBefore(q, d, Devices(q)[l]);
          var i :| 0 <= i < |q| && q[i] == Group(d) && Group(Devices(q)[l]) !in q[..i];
          assert p[..i] == q[..i];
        } else {
          assert Group(d) in q;
          var i :| 0 <= i < |q| && q[i] == Group(d);
          assert forall j :: 0 <= j < i ==> p[..i][j] == q[j];
        }
      }
    }
  }

  // d is used before e is used for the first time.
  predicate UsedBefore(p: seq<Request>, d: nat, e: nat)
  {
    exists i :: 0 <= i < |p| && p[i] == Group(d) && Group(e) !in p[..i]
  }

  lemma {:induction false} DevicesPrefix(p: seq<Request>, i: nat)
    requires i <= |p|
    ensures Devices(p[..i]) <= Devices(p)
  {
    if i < |p| {
      assert p[..|p| - 1][..i] == p[..i];
      DevicesPrefix(p[..|p| - 1], i);
    } else {
      assert p[..i] == p;
    }
  }

  // The counter has moved once per device.
  lemma {:induction false} DevicesCounted(rank: nat, p: seq<Request>)
    ensures |Devices(p)| == Groups(Plan(rank, p))
    ensures forall d :: d in Devices(p) <==> Number(d) in Seen(rank, p)
  {
    if p != [] {
      var q, req := p[..|p| - 1], p[|p| - 1];
      DevicesCounted(rank, q);
      assert p == q + [req];
      SeenAppend(rank, q, req);
      if NextKey(rank, q, req) == [] {
        assert Plan(rank, p) == Plan(rank, q);
      } else {
        GroupsAppend(Plan(rank, q), NextKey(rank, q, req)[0]);
      }
    }
  }

  // The key that a request's communicator is published under: the pair itself, or the
  // position of the device.
  ghost predicate KeyFor(rank: nat, p: seq<Request>, req: Request, key: Key)
  {
    match req
    case Group(dev) => key.Number? && key.n < |Devices(p)| && Devices(p)[key.n] == dev
    case Peer(_) => key == CommKey(rank, req)
  }

  lemma NextKeyFor(rank: nat, p: seq<Request>, i: nat)
    requires i < |p| && CommKey(rank, p[i]) !in Seen(rank, p[..i])
    ensures KeyFor(rank, p, p[i], NextKey(rank, p[..i], p[i])[0])
  {
    DevicesCounted(rank, p[..i]);
    DevicesPrefix(p, i + 1);
    assert p[..i + 1][..i] == p[..i];
    hide Plan, Groups;
  }

  // Requests of one rank that are cached alike are alike.
  lemma CommKeyInjective(rank: nat, x: Request, y: Request)
    ensures CommKey(rank, x) == CommKey(rank, y) <==> x == y
  {
  }

  // Each operation used the communicator cached for its request, and that was made under
  // the request's key.
  ghost predicate UseInv(c: Config, r: nat, me: RankState)
    requires r < |c.programs|
  {
    var p := c.programs[r];
    && |me.used| == me.pc <= |p|
    && forall i :: 0 <= i < me.pc ==> UsedRight(r, p, me, i)
  }

  ghost predicate UsedRight(r: nat, p: seq<Request>, me: RankState, i: nat)
    requires i < |me.used| && i < |p|
  {
    && CommKey(r, p[i]) in me.cache && me.cache[CommKey(r, p[i])] == me.used[i]
    && exists key :: KeyFor(r, p, p[i], key) && Entry(key, me.used[i]) in me.made
  }

  lemma HitKeepsUseInv(c: Config, s: State, r: nat)
    requires ValidConfig(c) && Inv(c, s) && Enabled(c, s, r) && s.ranks[r].phase.Idle? && UseInv(c, r, s.ranks[r])
    requires CommKey(r, c.programs[r][s.ranks[r].pc]) in s.ranks[r].cache
    ensures UseInv(c, r, Step(c, s, r).ranks[r])
  {
    var me, me', p := s.ranks[r], Step(c, s, r).ranks[r], c.programs[r];
    assert RankInv(c, r, me);
    var j :| 0 <= j < me.pc && CommKey(r, p[..me.pc][j]) == CommKey(r, p[me.pc]);
    CommKeyInjective(r, p[j], p[me.pc]);
    hide Plan, NextKey, Groups, KeyFor, CommKey, StoreInv, Seen;
    forall i | 0 <= i < me'.pc ensures UsedRight(r, p, me', i) {
      assert UsedRight(r, p, me, if i < me.pc then i else j);
    }
  }

  lemma JoinKeepsUseInv(c: Config, s: State, r: nat)
    requires ValidConfig(c) && Inv(c, s) && Enabled(c, s, r) && s.ranks[r].phase.Joining? && UseInv(c, r, s.ranks[r])
    ensures UseInv(c, r, Step(c, s, r).ranks[r])
  {
    var me, me', p := s.ranks[r], Step(c, s, r).ranks[r], c.programs[r];
    assert RankInv(c, r, me);
    NextKeyFor(r, p, me.pc);
    assert me.made[|me.made| - 1] in me.made;
    hide Plan, NextKey, Groups, KeyFor, CommKey, StoreInv;
    forall i | 0 <= i < me'.pc ensures UsedRight(r, p, me', i) {
      if i < me.pc {
        assert UsedRight(r, p, me, i);
        assert CommKey(r, p[..me.pc][i]) in Seen(r, p[..me.pc]);
      }
    }
  }

  lemma StepKeepsUseInv(c: Config, s: State, r: nat)
    requires ValidConfig(c) && Inv(c, s) && Enabled(c, s, r) && UseInv(c, r, s.ranks[r])
    ensures UseInv(c, r, Step(c, s, r).ranks[r])
  {
    var me, p := s.ranks[r], c.programs[r];
    if me.phase.Joining? {
      JoinKeepsUseInv(c, s, r);
    } else if me.phase.Idle? && CommKey(r, p[me.pc]) in me.cache {
      HitKeepsUseInv(c, s, r);
    } else {
      var me' := Step(c, s, r).ranks[r];
      assert me'.pc == me.pc && me'.cache == me.cache && me'.used == me.used && me.made <= me'.made;
      hide Step, KeyFor, CommKey, Inv;
      forall i | 0 <= i < me'.pc ensures UsedRight(r, p, me', i) {
        assert UsedRight(r, p, me, i);
      }
    }
  }

  lemma {:induction false} RunKeepsUseInv(c: Config, sched: seq<nat>, r: nat)
    requires ValidConfig(c) && IsSchedule(c, sched) && r < |c.programs|
    ensures |Run(c, sched).ranks| == |c.programs| && UseInv(c, r, Run(c, sched).ranks[r])
  {
    if sched != [] {
      var before, q := sched[..|sched| - 1], sched[|sched| - 1];
      RunKeepsUseInv(c, before, r);
      RunKeepsInv(c, before);
      OnlyOwnRankSteps(c, Run(c, before), q);
      hide Inv, UseInv, Step;
      if q == r {
        StepKeepsUseInv(c, Run(c, before), r);
      }
    }
  }

  // Operation x of rank a and operation y of rank b are for the same communicator: both
  // for the k-th device their rank uses, or both for the same two ranks.
  ghost predicate Meet(a: nat, p: seq<Request>, x: Request, b: nat, q: seq<Request>, y: Request)
  {
    match (x, y)
    case (Group(d), Group(e)) =>
      exists k :: 0 <= k < |Devices(p)| && k < |Devices(q)| && Devices(p)[k] == d && Devices(q)[k] == e
    case (Peer(u), Peer(v)) => {a, u} == {b, v}
    case _ => false
  }

  lemma SameSet(a: nat, u: nat, b: nat, v: nat)
    ensures {a, u} == {b, v} <==> (a == b && u == v) || (a == v && u == b)
  {
    assert {a, u} == {b, v} ==> a in {b, v} && u in {b, v} && b in {a, u} && v in {a, u};
    assert {v, u} == {u, v};
  }

  lemma KeysMeet(a: nat, p: seq<Request>, x: Request, j: Key, b: nat, q: seq<Request>, y: Request, k: Key)
    requires KeyFor(a, p, x, j) && KeyFor(b, q, y, k)
    ensures j == k <==> Meet(a, p, x, b, q, y)
  {
    if x.Group? && y.Group? {
      DevicesInOrder(p);
      DevicesInOrder(q);
    } else if x.Peer? && y.Peer? {
      SameSet(a, x.peer, b, y.peer);
    }
  }

  // In every reachable state: the operations i of rank a and j of rank b ran on the same
  // communicator exactly when they are for the same one.
  lemma UsesAgree(c: Config, sched: seq<nat>, a: nat, i: nat, b: nat, j: nat)
    requires ValidConfig(c) && IsSchedule(c, sched) && a < |c.programs| && b < |c.programs|
    requires |Run(c, sched).ranks| == |c.programs| && i < |Run(c, sched).ranks[a].used| && j < |Run(c, sched).ranks[b].used|
    ensures i < |c.programs[a]| && j < |c.programs[b]|
    ensures Run(c, sched).ranks[a].used[i] == Run(c, sched).ranks[b].used[j]
            <==> Meet(a, c.programs[a], c.programs[a][i], b, c.programs[b], c.programs[b][j])
  {
    var s := Run(c, sched);
    RunKeepsUseInv(c, sched, a);
    RunKeepsUseInv(c, sched, b);
    var x, y := s.ranks[a], s.ranks[b];
    assert UsedRight(a, c.programs[a], x, i) && UsedRight(b, c.programs[b], y, j);
    var k :| KeyFor(a, c.programs[a], c.programs[a][i], k) && Entry(k, x.used[i]) in x.made;
    var l :| KeyFor(b, c.programs[b], c.programs[b][j], l) && Entry(l, y.used[j]) in y.made;
    var m :| 0 <= m < |x.made| && x.made[m] == Entry(k, x.used[i]);
    var n :| 0 <= n < |y.made| && y.made[n] == Entry(l, y.used[j]);
    hide Run, UseInv, KeyFor, Meet, UsedRight;
    Agreement(c, sched, a, m, b, n);
    KeysMeet(a, c.programs[a], c.programs[a][i], k, b, c.programs[b], c.programs[b][j], l);
  }

  // So on one rank two operations share a communicator exactly when they ask for the same
  // device or the same peer; a device's communicator is never a pair's.
  lemma OwnUses(c: Config, sched: seq<nat>, r: nat, i: nat, j: nat)
    requires ValidConfig(c) && IsSchedule(c, sched) && r < |c.programs| == |Run(c, sched).ranks|
    requires i < |Run(c, sched).ranks[r].used| && j < |Run(c, sched).ranks[r].used|
    ensures |Run(c, sched).ranks[r].used| <= |c.programs[r]|
    ensures Run(c, sched).ranks[r].used[i] == Run(c, sched).ranks[r].used[j] <==> c.programs[r][i] == c.programs[r][j]
  {
    RunKeepsUseInv(c, sched, r);
    UsesAgree(c, sched, r, i, r, j);
    var p := c.programs[r];
    DevicesInOrder(p);
    if p[i].Peer? && p[j].Peer? {
      SameSet(r, p[i].peer, r, p[j].peer);
    } else if p[i].Group? && p[i] == p[j] {
      assert Group(p[i].dev) in p;
    }
  }

  // ---- Termination ----

  function Weight(me: RankState, p: seq<Request>): int
  {
    3 * (|p| - me.pc) - match me.phase case Idle => 0 case Fetching(_) => 1 case Joining(_, _) => 2
  }

  function TotalWeight(programs: seq<seq<Request>>, ranks: seq<RankState>): int
    requires |programs| == |ranks|
  {
    if ranks == [] then 0 else
      TotalWeight(programs[..|ranks| - 1], ranks[..|ranks| - 1]) + Weight(ranks[|ranks| - 1], programs[|ranks| - 1])
  }

  lemma {:induction false} TotalWeightUpdate(programs: seq<seq<Request>>, ranks: seq<RankState>, r: nat, me: RankState)
    requires |programs| == |ranks| && r < |ranks|
    ensures TotalWeight(programs, ranks[r := me]) - TotalWeight(programs, ranks) == Weight(me, programs[r]) - Weight(ranks[r], programs[r])
  {
    var n := |ranks| - 1;
    if r < n {
      assert ranks[r := me][..n] == ranks[..n][r := me];
      TotalWeightUpdate(programs[..n], ranks[..n], r, me);
    } else {
      assert ranks[r := me][..n] == ranks[..n];
    }
  }

  lemma {:induction false} TotalWeightNonNegative(c: Config, ranks: seq<RankState>, n: nat)
    requires n <= |ranks| == |c.programs| && forall r :: 0 <= r < |ranks| ==> RankInv(c, r, ranks[r])
    ensures TotalWeight(c.programs[..n], ranks[..n]) >= 0
  {
    if n > 0 {
      assert ranks[..n][..n - 1] == ranks[..n - 1] && c.programs[..n][..n - 1] == c.programs[..n - 1];
      TotalWeightNonNegative(c, ranks, n - 1);
      assert RankInv(c, n - 1, ranks[n - 1]);
    }
  }

  lemma StepLowersWeight(c: Config, s: State, r: nat)
    requires Inv(c, s) && Enabled(c, s, r)
    ensures var s' := Step(c, s, r);
            s'.ranks == s.ranks[r := s'.ranks[r]] && Weight(s'.ranks[r], c.programs[r]) < Weight(s.ranks[r], c.programs[r])
  {
    assert RankInv(c, r, s.ranks[r]);
  }

  // Every run is finite: its length is bounded by the weight of the initial state.
  lemma {:induction false} RunsAreBounded(c: Config, sched: seq<nat>)
    requires ValidConfig(c) && IsSchedule(c, sched)
    ensures |Run(c, sched).ranks| == |c.programs|
    ensures |sched| + TotalWeight(c.programs, Run(c, sched).ranks) <= TotalWeight(c.programs, Init(c).ranks)
    ensures |sched| <= TotalWeight(c.programs, Init(c).ranks)
  {
    RunKeepsInv(c, sched);
    var end := Run(c, sched).ranks;
    TotalWeightNonNegative(c, end, |c.programs|);
    assert c.programs[..|c.programs|] == c.programs && end[..|c.programs|] == end;
    if sched != [] {
      var before, r := sched[..|sched| - 1], sched[|sched| - 1];
      RunsAreBounded(c, before);
      RunKeepsInv(c, before);
      StepLowersWeight(c, Run(c, before), r);
      TotalWeightUpdate(c.programs, Run(c, before).ranks, r, end[r]);
    }
  }
}
