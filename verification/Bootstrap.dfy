// The bootstrap as each rank executes it: methods over the string-keyed store and
// communicator cache, proved to perform exactly the steps of Rendezvous.dfy.
module Bootstrap {
  import opened Keys
  import opened Rendezvous

  // A string map files the same entries as a map over structured keys.
  ghost predicate Files(m: map<string, Id>, abs: map<Key, Id>)
  {
    forall k: Key :: (Render(k) in m <==> k in abs) && (k in abs ==> m[Render(k)] == abs[k])
  }

  // Filing one more key disturbs no other, because keys never render alike.
  lemma FilesUpdate(m: map<string, Id>, abs: map<Key, Id>, key: Key, id: Id)
    requires Files(m, abs)
    ensures Files(m[Render(key) := id], abs[key := id])
  {
    forall k: Key | Render(k) == Render(key) ensures k == key {
      RenderInjective(k, key);
    }
  }

  // The shared key-value store.
  class KeyValueStore {
    var entries: map<string, Id>
  }

  // What an operation finds when it asks for its communicator.
  datatype Outcome =
    | Cached(comm: Id)
    | HasId(id: Id)            // goes on to initialise the communicator
    | Waits(storeKey: string)  // blocked in get on this key

  class Rank {
    const rank: nat
    const store: KeyValueStore
    var commCounter: nat        // xcclCommCounter_
    var comms: map<string, Id>  // devXCCLCommMap_

    constructor (rank: nat, store: KeyValueStore, ghost c: Config)
      ensures this.rank == rank && this.store == store && commCounter == 0 && comms == map[]
      ensures rank < |c.programs| && store.entries == map[] ==> Models(Init(c))
    {
      this.rank := rank;
      this.store := store;
      commCounter := 0;
      comms := map[];
    }

    // This object is rank `rank` of the abstract state s.
    ghost predicate Models(s: State)
      reads this, store
    {
      && rank < |s.ranks|
      && commCounter == s.ranks[rank].counter
      && Files(comms, s.ranks[rank].cache)
      && Files(store.entries, s.store)
    }

    ghost predicate Shows(s: State, o: Outcome)
      requires rank < |s.ranks|
    {
      match s.ranks[rank].phase
      case Idle => o.Cached?
      case Fetching(key) => o == Waits(Render(key))
      case Joining(_, id) => o == HasId(id)
    }

    // Agree on an id: publish one or look it up.
    method BroadcastUniqueId(single: bool, p2pKey: string, p2pRank: nat, freshId: Id) returns (o: Outcome)
      modifies this`commCounter, store
      ensures commCounter == old(commCounter) + if single then 0 else 1
      ensures var storeKey := if single then p2pKey else Decimal(old(commCounter));
              if rank == 0 || (single && p2pRank == 0) then
                o == HasId(freshId) && store.entries == old(store.entries)[storeKey := freshId]
              else
                && store.entries == old(store.entries)
                && o == if storeKey in store.entries then HasId(store.entries[storeKey]) else Waits(storeKey)
    {
      var storeKey := p2pKey;
      if !single {
        storeKey := Decimal(commCounter);
        commCounter := commCounter + 1;
      }
      if rank == 0 || (single && p2pRank == 0) {
        store.entries := store.entries[storeKey := freshId];
        o := HasId(freshId);
      } else if storeKey in store.entries {
        o := HasId(store.entries[storeKey]);
      } else {
        o := Waits(storeKey);
      }
    }

    // getXCCLComm, and initXCCLComm up to the point where the id is known.  The
    // method performs one step of the protocol, or two when the key to fetch is
    // already there.
    method GetOrInitComm(req: Request, freshId: Id, ghost c: Config, ghost s: State) returns (o: Outcome, ghost s': State)
      requires ValidConfig(c) && Inv(c, s) && Models(s) && Enabled(c, s, rank)
      requires s.ranks[rank].phase.Idle? && req == c.programs[rank][s.ranks[rank].pc] && freshId == s.nextId
      modifies this`commCounter, store
      ensures Models(s') && Shows(s', o)
      ensures s' == Step(c, s, rank) || (Enabled(c, Step(c, s, rank), rank) && s' == Step(c, Step(c, s, rank), rank))
      ensures o.Cached? ==> Render(CommKey(rank, req)) in comms && o.comm == comms[Render(CommKey(rank, req))]
      ensures o.Cached? ==> rank < |s'.ranks| && s'.ranks[rank].used == s.ranks[rank].used + [o.comm]
      ensures o.Waits? ==> o.storeKey !in store.entries
    {
      var key := CommKey(rank, req);
      s' := Step(c, s, rank);
      assert key in s.ranks[rank].cache <==> Render(key) in comms;
      if Render(key) in comms {
        o := Cached(comms[Render(key)]);
        return;
      }
      ghost var storeKey := StoreKey(rank, commCounter, req);
      FilesUpdate(store.entries, s.store, storeKey, freshId);
      assert storeKey in s.store <==> Render(storeKey) in store.entries;
      o := BroadcastUniqueId(req.Peer?, Render(key), if req.Peer? then P2PRank(rank, req.peer) else 0, freshId);
      if s'.ranks[rank].phase.Fetching? && storeKey in s.store {
        s' := Step(c, s', rank);
      }
    }

    // The blocked get returns: the key has been set meanwhile.
    method FinishGet(storeKey: string, ghost c: Config, ghost s: State) returns (o: Outcome)
      requires Models(s) && Enabled(c, s, rank)
      requires s.ranks[rank].phase.Fetching? && storeKey == Render(s.ranks[rank].phase.key)
      ensures storeKey in store.entries && o == HasId(store.entries[storeKey])
      ensures Models(Step(c, s, rank)) && Shows(Step(c, s, rank), o)
    {
      assert s.ranks[rank].phase.key in s.store;
      o := HasId(store.entries[storeKey]);
    }

    // The communicator is ready and goes into the cache.
    method FinishInit(req: Request, id: Id, ghost c: Config, ghost s: State)
      requires Models(s) && Enabled(c, s, rank)
      requires s.ranks[rank].phase.Joining? && id == s.ranks[rank].phase.id
      requires req == c.programs[rank][s.ranks[rank].pc]
      modifies this`comms
      ensures comms == old(comms)[Render(CommKey(rank, req)) := id]
      ensures Models(Step(c, s, rank)) && Step(c, s, rank).ranks[rank].used == s.ranks[rank].used + [id]
    {
      FilesUpdate(comms, s.ranks[rank].cache, CommKey(rank, req), id);
      comms := comms[Render(CommKey(rank, req)) := id];
    }
  }

  // ---- All ranks of one run ----

  // Rank r is ranks[r], all use one store, and together they are the abstract state.
  ghost predicate Follow(ranks: seq<Rank>, store: KeyValueStore, s: State)
    reads ranks, store
  {
    && |ranks| == |s.ranks|
    && forall r :: 0 <= r < |ranks| ==> ranks[r].rank == r && ranks[r].store == store && ranks[r].Models(s)
  }

  lemma ScheduleExtends(c: Config, sched: seq<nat>, r: nat)
    requires IsSchedule(c, sched) && Enabled(c, Run(c, sched), r)
    ensures IsSchedule(c, sched + [r]) && Run(c, sched + [r]) == Step(c, Run(c, sched), r)
  {
    assert (sched + [r])[..|sched + [r]| - 1] == sched;
  }

  lemma JoiningEnds(c: Config, s: State, r: nat)
    requires Enabled(c, s, r) && s.ranks[r].phase.Joining?
    ensures Step(c, s, r).ranks[r].phase.Idle?
  {
  }

  // The objects of a new process group are at the start of the empty schedule.
  method CreateRanks(c: Config) returns (ranks: seq<Rank>, store: KeyValueStore)
    ensures Follow(ranks, store, Run(c, []))
  {
    store := new KeyValueStore;
    store.entries := map[];
    ranks := [];
    while |ranks| < |c.programs|
      invariant |ranks| <= |c.programs| && store.entries == map[]
      invariant forall r :: 0 <= r < |ranks| ==> ranks[r].rank == r && ranks[r].store == store && ranks[r].Models(Init(c))
    {
      var next := new Rank(|ranks|, store, c);
      ranks := ranks + [next];
    }
  }

  // Whichever rank goes on next, and in whichever of the three methods it is, all rank
  // objects stay together at a state that some schedule reaches.
  method GoOn(me: Rank, ghost ranks: seq<Rank>, store: KeyValueStore, req: Request, last: Outcome, freshId: Id,
              ghost c: Config, ghost sched: seq<nat>)
    returns (o: Outcome, ghost sched': seq<nat>)
    requires ValidConfig(c) && IsSchedule(c, sched) && Follow(ranks, store, Run(c, sched)) && Enabled(c, Run(c, sched), me.rank)
    requires me.rank < |ranks| && me == ranks[me.rank] && me.Shows(Run(c, sched), last) && freshId == Run(c, sched).nextId
    requires var now := Run(c, sched).ranks[me.rank];
             !now.phase.Fetching? ==> req == c.programs[me.rank][now.pc]
    modifies me`commCounter, me`comms, store
    ensures IsSchedule(c, sched') && (sched' == sched + [me.rank] || sched' == sched + [me.rank] + [me.rank])
    ensures Follow(ranks, store, Run(c, sched')) && me.Shows(Run(c, sched'), o)
    // An operation that has its communicator runs on it.
    ensures o.Cached? ==> Run(c, sched').ranks[me.rank].used == Run(c, sched).ranks[me.rank].used + [o.comm]
  {
    hide Inv, Files, Step, Enabled, IsSchedule, Run, ValidConfig, CommKey, Render;
    ghost var s := Run(c, sched);
    RunKeepsInv(c, sched);
    ScheduleExtends(c, sched, me.rank);
    OnlyOwnRankSteps(c, s, me.rank);
    sched' := sched + [me.rank];
    match last
    case Cached(_) =>
      ghost var s';
      o, s' := me.GetOrInitComm(req, freshId, c, s);
      if s' != Step(c, s, me.rank) {
        ScheduleExtends(c, sched', me.rank);
        OnlyOwnRankSteps(c, Step(c, s, me.rank), me.rank);
        sched' := sched' + [me.rank];
      }
    case Waits(storeKey) =>
      o := me.FinishGet(storeKey, c, s);
    case HasId(id) =>
      JoiningEnds(c, s, me.rank);
      me.FinishInit(req, id, c, s);
      o := Cached(id);
  }
}
