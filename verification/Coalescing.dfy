// The coalescing and group state of one process group on one thread: which bits are
// set, which device and communicator a region is bound to, which sequence numbers
// operations get, and how native groups nest.  Regions are well bracketed and not
// nested; everything else, including the error for mixing devices, is as in the code.
module Coalescing {
  import opened Collections
  import opened Keys
  import Rendezvous
  import opened Traces

  // The bits of coalescing_state_: CoalActive, CoalColl, CoalP2P.
  datatype Bits = Bits(active: bool, coll: bool, p2p: bool)

  const NO_BITS := Bits(false, false, false)

  // Result of an operation: the recorded sequence number, or the exception
  // MULTI_DEVICE_ERROR_MSG.
  datatype Result = Ok(number: nat) | MultiDevice

  // Every communicator has its stream and event; the entry "d_s" is stream s of
  // device d itself; the entry "d" is some stream of device d.
  ghost predicate CachesOk(comms: map<Key, nat>, streams: map<Key, XpuStream>, events: set<Key>)
  {
    && comms.Keys <= streams.Keys
    && comms.Keys == events
    && (forall k: Key :: k in streams && !k.Stream? ==> k in comms)
    && (forall d: nat, i: int :: Stream(d, i) in streams ==> streams[Stream(d, i)] == XpuStream(d, i))
    && (forall d: nat :: Number(d) in comms ==> streams[Number(d)].dev == d)
  }

  // The bits, device and communicator of a region agree with what is in it.
  ghost predicate RegionOk(state: Bits, device: int, comm: Option<nat>, comms: map<Key, nat>, units: Trace<Unit>)
  {
    if Active(units) then
      var u := units.last;
      && state == Bits(true, u.collectives > 0, u.p2ps > 0)
      && (comm.Some? <==> u.collectives + u.p2ps > 0)
      && (comm.Some? <==> device >= 0)
      && (comm.Some? ==> Number(device) in comms && comms[Number(device)] == comm.value)
    else
      state == NO_BITS && comm.None?
  }

  // 1 if the event is the first operation of this kind in its unit.
  function Starts(units: Trace<Unit>, e: Event, kind: Kind): nat
  {
    if e.Op? && e.kind == kind && !(Active(units) && units.last.Count(kind) > 0) then 1 else 0
  }

  // The counters count units and operations, and every event got its unit's number.
  predicate NumbersOk(log: Trace<Event>, collectives: nat, p2ps: nat, ops: nat)
  {
    && Numbered(log)
    && collectives == UnitsWith(Units(log), Coll)
    && p2ps == UnitsWith(Units(log), P2P)
    && ops == Ops(log)
  }

  lemma NumbersExtend(log: Trace<Event>, e: Event, collectives: nat, p2ps: nat, ops: nat)
    requires NumbersOk(log, collectives, p2ps, ops)
    requires e.Op? || e.EndWork? ==>
               e.number == (if e.kind.Coll? then collectives else p2ps) + Starts(Units(log), e, e.kind)
    ensures NumbersOk(Then(log, e), collectives + Starts(Units(log), e, Coll), p2ps + Starts(Units(log), e, P2P),
                      ops + if e.Op? then 1 else 0)
  {
    hide Extend, AddOp;
    ExtendCounts(Units(log), e, Coll);
    ExtendCounts(Units(log), e, P2P);
  }

  lemma UnitsOfOp(log: Trace<Event>, kind: Kind, number: nat)
    ensures Units(Then(log, Op(kind, number))) == AddOp(Units(log), kind)
    ensures Active(AddOp(Units(log), kind)) == Active(Units(log))
    ensures !Active(Units(log)) ==> Starts(Units(log), Op(kind, number), kind) == 1
  {
  }

  lemma ExtendCounts(units: Trace<Unit>, e: Event, kind: Kind)
    ensures UnitsWith(Extend(units, e), kind) == UnitsWith(units, kind) + Starts(units, e, kind)
  {
  }

  // A new communicator gets its entries under a key that no other entry uses.
  lemma CachesInsert(comms: map<Key, nat>, streams: map<Key, XpuStream>, events: set<Key>,
                     key: Key, c: nat, stream: XpuStream)
    requires CachesOk(comms, streams, events) && key !in comms
    requires !key.Stream? && (key.Number? ==> key.n == stream.dev)
    ensures key !in streams
    ensures CachesOk(comms[key := c], streams[key := stream], events + {key})
  {
  }

  // More communicators in the cache do not disturb a region.
  lemma RegionOkGrows(state: Bits, device: int, comm: Option<nat>, comms: map<Key, nat>, units: Trace<Unit>)
    requires RegionOk(state, device, comm, comms, units)
    ensures forall more: map<Key, nat> :: (forall k :: k in comms ==> k in more && more[k] == comms[k])
              ==> RegionOk(state, device, comm, more, units)
  {
  }

  // What initXCCLComm does to the native groups: close them all, create, reopen.
  function CreationCalls(calls: Trace<NativeCall>, key: Key, groups: nat): Trace<NativeCall>
  {
    Repeat(Then(Repeat(calls, GroupEnd, groups), CreateComm(key)), GroupStart, groups)
  }

  function LaunchCalls(calls: Trace<NativeCall>, c: nat, stream: XpuStream, n: nat, group: bool): Trace<NativeCall>
  {
    if group then Then(Repeat(Then(calls, GroupStart), Launch(c, stream), n), GroupEnd)
    else Repeat(calls, Launch(c, stream), n)
  }

  // One creation, for this key, and every group that was open is closed before and open
  // after; what happened before stays.
  lemma CreationCounts(calls: Trace<NativeCall>, key: Key, groups: nat, x: NativeCall)
    ensures var after := CreationCalls(calls, key, groups);
            && Prefix(calls, after) && Length(after) == Length(calls) + 2 * groups + 1
            && Occurrences(after, x) == Occurrences(calls, x)
                 + (if x == CreateComm(key) then 1 else 0) + if x == GroupStart || x == GroupEnd then groups else 0
  {
    var closed := Repeat(calls, GroupEnd, groups);
    var made := Then(closed, CreateComm(key));
    RepeatOccurs(calls, GroupEnd, groups, x);
    RepeatOccurs(made, GroupStart, groups, x);
    PrefixTransitive(calls, closed, made);
    PrefixTransitive(calls, made, CreationCalls(calls, key, groups));
  }

  // One launch per input, on this communicator and stream, and one group around them all
  // where that is asked for.
  lemma LaunchCounts(calls: Trace<NativeCall>, c: nat, stream: XpuStream, n: nat, group: bool, x: NativeCall)
    ensures var after := LaunchCalls(calls, c, stream, n, group);
            && Prefix(calls, after) && Length(after) == Length(calls) + n + (if group then 2 else 0)
            && Occurrences(after, x) == Occurrences(calls, x)
                 + (if x == Launch(c, stream) then n else 0) + if group && (x == GroupStart || x == GroupEnd) then 1 else 0
  {
    if group {
      var begun := Then(calls, GroupStart);
      var launched := Repeat(begun, Launch(c, stream), n);
      RepeatOccurs(begun, Launch(c, stream), n, x);
      PrefixTransitive(calls, begun, launched);
      PrefixTransitive(calls, launched, Then(launched, GroupEnd));
    } else {
      RepeatOccurs(calls, Launch(c, stream), n, x);
    }
  }

  // The launches themselves are inside that group.
  lemma LaunchesInside(calls: Trace<NativeCall>, c: nat, stream: XpuStream, n: nat, group: bool, p: Trace<NativeCall>)
    requires Prefix(p, LaunchCalls(calls, c, stream, n, group)) && Length(p) > Length(calls) && p.last.Launch?
    ensures Depth(p) == Depth(calls) + if group then 1 else 0
  {
    var begun := if group then Then(calls, GroupStart) else calls;
    RepeatDepth(begun, c, stream, n, p);
    if Prefix(p, begun) {
      PrefixLength(p, begun);
    }
  }

  lemma {:induction false} RepeatDepth(begun: Trace<NativeCall>, c: nat, stream: XpuStream, n: nat, p: Trace<NativeCall>)
    ensures Prefix(p, Repeat(begun, Launch(c, stream), n)) ==> Depth(p) == Depth(begun) || Prefix(p, begun)
    ensures Depth(Repeat(begun, Launch(c, stream), n)) == Depth(begun)
    ensures Length(Repeat(begun, Launch(c, stream), n)) == Length(begun) + n
  {
    if n > 0 {
      RepeatDepth(begun, c, stream, n - 1, p);
    }
  }

  // The communicator of a send or receive: the device's inside a group, else the pair's.
  function P2PKey(groups: nat, rank: nat, dev: nat, peer: nat): Key
  {
    if groups > 0 then Number(dev) else if rank < peer then Pair(rank, peer) else Pair(peer, rank)
  }

  // Outside a group both sides of a transfer use one communicator.
  lemma BothSidesMeet(rank: nat, peer: nat, dev: nat, peerDev: nat)
    ensures P2PKey(0, rank, dev, peer) == P2PKey(0, peer, peerDev, rank)
  {
  }

  // Two transfers outside groups share a communicator exactly when they are between the
  // same two ranks; those inside a group share it with the operations of their device.
  lemma P2PKeysAgreeIff(rank: nat, dev: nat, peer: nat, other: nat, otherDev: nat, otherPeer: nat, groups: nat)
    ensures P2PKey(0, rank, dev, peer) == P2PKey(0, other, otherDev, otherPeer) <==> {rank, peer} == {other, otherPeer}
    ensures groups > 0 ==> P2PKey(groups, rank, dev, peer) == Number(dev) != P2PKey(0, other, otherDev, otherPeer)
  {
    Rendezvous.SameSet(rank, peer, other, otherPeer);
  }

  // The key is the one under which the ranks agree on the communicator's id.
  lemma P2PKeyIsCommKey(groups: nat, rank: nat, dev: nat, peer: nat)
    ensures P2PKey(groups, rank, dev, peer)
            == Rendezvous.CommKey(rank, if groups > 0 then Rendezvous.Group(dev) else Rendezvous.Peer(peer))
  {
  }

  class ProcessGroup {
    const rank: nat
    var comms: map<Key, nat>            // devXCCLCommMap_
    var streams: map<Key, XpuStream>    // xcclStreamsMap_
    var events: set<Key>                // keys of xcclEventsMap_
    var state: Bits                         // coalescing_state_
    var device: int                        // coalescedDevice_.index()
    var comm: Option<nat>                  // coalescedComm_
    var isAsync: bool                      // coalescedAsync_
    var groups: nat                        // xcclActiveGroupCounter_
    var seqCollective: nat
    var seqP2P: nat
    var opId: nat
    var nextComm: nat
    ghost var native: Trace<NativeCall>
    ghost var log: Trace<Event>

    ghost predicate Valid()
      reads this
    {
      && CachesOk(comms, streams, events)
      && RegionOk(state, device, comm, comms, Units(log))
      && GroupsOk(native) && Depth(native) == groups
      && groups == (if Active(Units(log)) then 1 else 0)
      && NumbersOk(log, seqCollective, seqP2P, opId)
    }

    constructor (rank: nat)
      ensures Valid() && log == Start && native == Start && comms == map[] && streams == map[]
    {
      this.rank := rank;
      comms, streams, events := map[], map[], {};
      state, device, comm, isAsync, groups := NO_BITS, -1, None, false, 0;
      seqCollective, seqP2P, opId, nextComm := 0, 0, 0, 0;
      native, log := Start, Start;
    }

    method GroupStart()
      requires GroupsOk(native) && Depth(native) == groups
      modifies this`native, this`groups
      ensures native == Then(old(native), Traces.GroupStart) && groups == old(groups) + 1
      ensures GroupsOk(native) && Depth(native) == groups
    {
      native := Then(native, Traces.GroupStart);
      groups := groups + 1;
    }

    method GroupEnd()
      requires GroupsOk(native) && Depth(native) == groups > 0
      modifies this`native, this`groups
      ensures native == Then(old(native), Traces.GroupEnd) && groups == old(groups) - 1
      ensures GroupsOk(native) && Depth(native) == groups
    {
      native := Then(native, Traces.GroupEnd);
      groups := groups - 1;
    }

    method StartCoalescing()
      requires Valid() && !Active(Units(log))
      modifies this
      ensures Valid() && log == Then(old(log), Begin) && Active(Units(log))
      ensures comms == old(comms) && streams == old(streams) && native == Then(old(native), Traces.GroupStart)
    {
      NumbersExtend(log, Begin, seqCollective, seqP2P, opId);
      device := -1;
      comm := None;
      state := state.(active := true);
      GroupStart();
      log := Then(log, Begin);
    }

    // Returns the number of the work object that stands for the region, if any.  The
    // lookups `streams[...]` are the unchecked `.at(key)` of the source.
    method EndCoalescing() returns (work: Option<nat>)
      requires Valid() && Active(Units(log))
      modifies this
      ensures Valid() && !Active(Units(log))
      ensures comms == old(comms) && streams == old(streams) && native == Then(old(native), Traces.GroupEnd)
      ensures var u := Units(old(log)).last;
              if u.collectives + u.p2ps == 0 then
                work == None && log == Then(old(log), End)
              else
                var kind := if u.p2ps > 0 then P2P else Coll;
                var number := UnitsWith(Units(old(log)), kind);
                log == Then(old(log), EndWork(kind, number)) && work == if isAsync then Some(number) else None
    {
      ghost var u := Units(log).last;
      hide Numbered, UnitsWith, CachesOk, Starts, GroupsOk, Depth;
      ghost var e := End;
      if comm == None {
        GroupEnd();
        work := None;
      } else {
        assert device >= 0;
        var stream := streams[Number(device)];
        var number := if state.p2p then seqP2P else seqCollective;
        e := EndWork(if state.p2p then P2P else Coll, number);
        GroupEnd();
        work := if isAsync then Some(number) else None;
      }
      state := NO_BITS;
      comm := None;
      NumbersExtend(log, e, seqCollective, seqP2P, opId);
      log := Then(log, e);
    }

    // Leave every native group this thread is in.
    method CloseGroups()
      requires GroupsOk(native) && Depth(native) == groups
      modifies this`native
      ensures GroupsOk(native) && Depth(native) == 0
      ensures native == Repeat(old(native), Traces.GroupEnd, groups)
    {
      var i := 0;
      while i < groups
        invariant 0 <= i <= groups
        invariant GroupsOk(native) && Depth(native) == groups - i
        invariant native == Repeat(old(native), Traces.GroupEnd, i)
      {
        native := Then(native, Traces.GroupEnd);
        i := i + 1;
      }
    }

    method ReopenGroups()
      requires GroupsOk(native) && Depth(native) == 0
      modifies this`native
      ensures GroupsOk(native) && Depth(native) == groups
      ensures native == Repeat(old(native), Traces.GroupStart, groups)
    {
      var i := 0;
      while i < groups
        invariant 0 <= i <= groups
        invariant GroupsOk(native) && Depth(native) == i
        invariant native == Repeat(old(native), Traces.GroupStart, i)
      {
        native := Then(native, Traces.GroupStart);
        i := i + 1;
      }
    }

    // initXCCLComm: leaves every native group it is in, creates, and re-enters them.
    method InitComm(key: Key, dev: nat, poolId: int) returns (c: nat)
      requires CachesOk(comms, streams, events) && GroupsOk(native) && Depth(native) == groups
      requires key !in comms && !key.Stream? && (key.Number? ==> key.n == dev)
      modifies this`comms, this`streams, this`events, this`native, this`nextComm
      ensures CachesOk(comms, streams, events) && GroupsOk(native) && Depth(native) == groups
      ensures native == CreationCalls(old(native), key, groups)
      ensures comms == old(comms)[key := c]
      ensures streams == old(streams)[key := XpuStream(dev, poolId)] && key !in old(streams)
    {
      CloseGroups();
      c := nextComm;
      nextComm := nextComm + 1;
      native := Then(native, CreateComm(key));
      ReopenGroups();
      CachesInsert(comms, streams, events, key, c, XpuStream(dev, poolId));
      comms := comms[key := c];
      if key !in streams {
        streams := streams[key := XpuStream(dev, poolId)];
      }
      events := events + {key};
    }

    // getXCCLComm, then initXCCLComm on a miss.
    method GetOrInitComm(key: Key, dev: nat, poolId: int) returns (c: nat)
      requires CachesOk(comms, streams, events) && GroupsOk(native) && Depth(native) == groups
      requires !key.Stream? && (key.Number? ==> key.n == dev)
      modifies this`comms, this`streams, this`events, this`native, this`nextComm
      ensures CachesOk(comms, streams, events) && GroupsOk(native) && Depth(native) == groups
      ensures native == if key in old(comms) then old(native) else CreationCalls(old(native), key, groups)
      ensures key in comms && c == comms[key]
      ensures forall k :: k in old(comms) ==> k in comms && comms[k] == old(comms)[k]
      ensures forall k :: k in old(streams) ==> k in streams && streams[k] == old(streams)[k]
    {
      if key in comms {
        c := comms[key];
      } else {
        c := InitComm(key, dev, poolId);
      }
    }

    // The part of an operation inside a region: bind the region to this device and
    // communicator, or check that it already is.
    method JoinRegion(kind: Kind, dev: nat, c: nat, async: bool) returns (ok: bool)
      modifies this`state, this`device, this`comm, this`isAsync, this`seqCollective, this`seqP2P
      requires RegionOk(state, device, comm, comms, Units(log)) && Active(Units(log))
      requires Number(dev) in comms && comms[Number(dev)] == c
      ensures RegionOk(state, device, comm, comms, AddOp(Units(log), kind))
      ensures ok <==> old(device) < 0 || old(device) == dev
      ensures isAsync == if ok then async else old(isAsync)
      ensures seqCollective == old(seqCollective) + Starts(Units(log), Op(kind, 0), Coll)
      ensures seqP2P == old(seqP2P) + Starts(Units(log), Op(kind, 0), P2P)
    {
      ghost var u := Units(log).last;
      if kind.Coll? {
        if !state.coll {
          seqCollective := seqCollective + 1;
        }
        state := state.(coll := true);
      } else {
        if !state.p2p {
          seqP2P := seqP2P + 1;
        }
        state := state.(p2p := true);
      }
      if device < 0 {
        device := dev;
      } else if device != dev {
        return false;
      }
      if comm == None {
        comm := Some(c);
      } else {
        // The second check of the source can never throw.
        assert comm == Some(c);
      }
      isAsync := async;
      return true;
    }

    // What collective and pointToPoint do before they pick a stream: number the
    // operation and, inside a region, bind it.  `c` is its communicator.
    method Enter(kind: Kind, dev: nat, c: nat, async: bool) returns (r: Result)
      requires Valid()
      requires Active(Units(log)) ==> Number(dev) in comms && comms[Number(dev)] == c
      modifies this`state, this`device, this`comm, this`isAsync, this`seqCollective, this`seqP2P, this`opId, this`log
      ensures Valid() && opId == old(opId) + 1
      ensures var number := if kind.Coll? then seqCollective else seqP2P;
              && log == Then(old(log), Op(kind, number))
              && r == if Active(Units(old(log))) && old(device) >= 0 && old(device) != dev then MultiDevice else Ok(number)
    {
      hide Extend, AddOp, Numbered, UnitsWith, GroupsOk, Depth, CachesOk, Units;
      ghost var collectives, p2ps := seqCollective, seqP2P;
      opId := opId + 1;
      var ok := true;
      if state.active {
        ok := JoinRegion(kind, dev, c, async);
      } else if kind.Coll? {
        seqCollective := seqCollective + 1;
      } else {
        seqP2P := seqP2P + 1;
      }
      var number := if kind.Coll? then seqCollective else seqP2P;
      NumbersExtend(log, Op(kind, number), collectives, p2ps, opId - 1);
      UnitsOfOp(log, kind, number);
      log := Then(log, Op(kind, number));
      r := if ok then Ok(number) else MultiDevice;
    }

    // A collective on device `dev`, launched once per input; `raw` says whether the
    // backend brackets the launches itself (collectiveCoalesced).  `current` is the
    // caller's current stream on that device.
    method Collective(dev: nat, async: bool, current: int, poolId: int, inputs: nat, raw: bool) returns (r: Result)
      requires Valid() && inputs > 0
      modifies this
      ensures Valid()
      ensures log == Then(old(log), Op(Coll, seqCollective)) && opId == old(opId) + 1
      ensures r == if Active(Units(old(log))) && old(device) >= 0 && old(device) != dev then MultiDevice else Ok(seqCollective)
      ensures forall k :: k in old(comms) ==> k in comms && comms[k] == old(comms)[k]
      ensures forall k :: k in old(streams) ==> k in streams && streams[k] == old(streams)[k]
      ensures Number(dev) in comms
      ensures var made := if Number(dev) in old(comms) then old(native) else CreationCalls(old(native), Number(dev), groups);
              var stream := if async then streams[Number(dev)] else XpuStream(dev, current);
              native == if r.Ok? then LaunchCalls(made, comms[Number(dev)], stream, inputs, raw) else made
    {
      hide Units, NumbersOk, GroupsOk, Depth, CreationCalls, Active, LaunchCalls, CachesOk;
      var key := Number(dev);
      RegionOkGrows(state, device, comm, comms, Units(log));
      var c := GetOrInitComm(key, dev, poolId);
      r := Enter(Coll, dev, c, async);
      if r.MultiDevice? {
        return;
      }
      var stream := PickStream(dev, async, current);
      Launches(c, stream, inputs, raw);
    }

    // The stream of a collective: the communicator's, or the caller's current one, for
    // which a native stream is created and filed on the first use.
    method PickStream(dev: nat, async: bool, current: int) returns (stream: XpuStream)
      requires CachesOk(comms, streams, events) && Number(dev) in comms
      modifies this`streams
      ensures CachesOk(comms, streams, events)
      ensures Number(dev) in streams && stream == if async then streams[Number(dev)] else XpuStream(dev, current)
      ensures forall k :: k in old(streams) ==> k in streams && streams[k] == old(streams)[k]
    {
      stream := XpuStream(dev, current);
      if async {
        stream := streams[Number(dev)];
      } else if Stream(dev, current) in streams {
        // The cached native stream wraps the caller's own stream.
        assert streams[Stream(dev, current)] == stream;
      } else {
        streams := streams[Stream(dev, current) := stream];
      }
    }

    method Launches(c: nat, stream: XpuStream, inputs: nat, raw: bool)
      requires GroupsOk(native)
      modifies this`native
      ensures GroupsOk(native) && Depth(native) == Depth(old(native))
      ensures native == LaunchCalls(old(native), c, stream, inputs, raw)
    {
      if raw {
        native := Then(native, Traces.GroupStart);
      }
      ghost var begun := native;
      var i := 0;
      while i < inputs
        invariant 0 <= i <= inputs
        invariant native == Repeat(begun, Launch(c, stream), i)
        invariant GroupsOk(native) && Depth(native) == Depth(begun)
      {
        native := Then(native, Launch(c, stream));
        i := i + 1;
      }
      if raw {
        native := Then(native, Traces.GroupEnd);
      }
    }

    // A send or receive.  Inside a group it shares the device's communicator, outside
    // it uses the pair's own one and brackets the native call.
    method PointToPoint(dev: nat, peer: nat, poolId: int) returns (r: Result)
      requires Valid()
      modifies this
      ensures Valid()
      ensures log == Then(old(log), Op(P2P, seqP2P)) && opId == old(opId) + 1
      ensures r == if Active(Units(old(log))) && old(device) >= 0 && old(device) != dev then MultiDevice else Ok(seqP2P)
      ensures forall k :: k in old(comms) ==> k in comms && comms[k] == old(comms)[k]
      ensures forall k :: k in old(streams) ==> k in streams && streams[k] == old(streams)[k]
      ensures P2PKey(groups, rank, dev, peer) in comms
      ensures var key := P2PKey(groups, rank, dev, peer);
              var made := if key in old(comms) then old(native) else CreationCalls(old(native), key, groups);
              var launch := Launch(comms[key], streams[key]);
              native == if r.MultiDevice? then made
                        else if groups > 0 then Then(made, launch)
                        else Then(Then(Then(made, Traces.GroupStart), launch), Traces.GroupEnd)
    {
      hide Units, NumbersOk, CreationCalls, CachesOk;
      var batchP2P := groups > 0;
      RegionOkGrows(state, device, comm, comms, Units(log));
      var key := P2PKey(groups, rank, dev, peer);
      var c := GetOrInitComm(key, dev, poolId);
      r := Enter(P2P, dev, c, true);
      if r.MultiDevice? {
        return;
      }
      var stream := streams[key];
      if !batchP2P {
        native := Then(native, Traces.GroupStart);
        assert GroupsOk(native) && Depth(native) == 1;
        native := Then(native, Launch(c, stream));
        assert GroupsOk(native) && Depth(native) == 1;
        native := Then(native, Traces.GroupEnd);
      } else {
        native := Then(native, Launch(c, stream));
      }
    }
  }
}
