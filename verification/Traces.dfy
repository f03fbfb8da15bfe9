// What a process group did, as two ghost traces: the calls into the native library
// (is every group closed, and where are communicators created?) and the operations
// of the user (how many units of work are there, and which number does each get?).
module Traces {
  import opened Collections
  import opened Keys

  datatype XpuStream = XpuStream(dev: nat, id: int)

  // ---- Calls into the native library ----

  datatype NativeCall =
    | GroupStart
    | GroupEnd
    | CreateComm(key: Key)
    | Launch(comm: nat, stream: XpuStream)

  function Depth(calls: Trace<NativeCall>): int
  {
    if calls.Start? then 0 else Depth(calls.before) + Nesting(calls.last)
  }

  function Nesting(call: NativeCall): int
  {
    match call case GroupStart => 1 case GroupEnd => -1 case _ => 0
  }

  // No group is ended that was not started, and communicators are created outside
  // all groups.
  predicate GroupsOk(calls: Trace<NativeCall>)
  {
    calls.Start? ||
    (GroupsOk(calls.before) && Depth(calls) >= 0 && (calls.last.CreateComm? ==> Depth(calls) == 0))
  }

  // What GroupsOk says about each moment of the trace.
  lemma {:induction false} GroupsOkAt(calls: Trace<NativeCall>, p: Trace<NativeCall>)
    requires GroupsOk(calls) && Prefix(p, calls)
    ensures Depth(p) >= 0
    ensures p.Then? && p.last.CreateComm? ==> Depth(p.before) == 0
  {
    if p != calls {
      GroupsOkAt(calls.before, p);
    }
  }

  // ---- Operations of the user ----

  datatype Kind = Coll | P2P

  // `number` is the sequence number the operation was recorded under.  A region is
  // closed with a work object (which has a kind and number too) or without one.
  datatype Event =
    | Begin
    | Op(kind: Kind, number: nat)
    | End
    | EndWork(kind: Kind, number: nat)

  // A unit of work: a standalone operation, or everything between Begin and End.
  datatype Unit = Unit(active: bool, collectives: nat, p2ps: nat)
  {
    function Count(kind: Kind): nat { if kind.Coll? then collectives else p2ps }

    function Add(kind: Kind): Unit
    {
      if kind.Coll? then this.(collectives := collectives + 1) else this.(p2ps := p2ps + 1)
    }
  }

  function Units(log: Trace<Event>): Trace<Unit>
  {
    if log.Start? then Start else Extend(Units(log.before), log.last)
  }

  predicate Active(units: Trace<Unit>) { units.Then? && units.last.active }

  function Extend(units: Trace<Unit>, e: Event): Trace<Unit>
  {
    match e
    case Begin => Then(units, Unit(true, 0, 0))
    case Op(kind, _) => AddOp(units, kind)
    case _ =>
      if Active(units) then Then(units.before, units.last.(active := false)) else units
  }

  function AddOp(units: Trace<Unit>, kind: Kind): Trace<Unit>
  {
    if Active(units) then Then(units.before, units.last.Add(kind)) else Then(units, Unit(false, 0, 0).Add(kind))
  }

  // The number of units that contain an operation of this kind.
  function UnitsWith(units: Trace<Unit>, kind: Kind): nat
  {
    if units.Start? then 0 else UnitsWith(units.before, kind) + if units.last.Count(kind) > 0 then 1 else 0
  }

  function Ops(log: Trace<Event>): nat
  {
    if log.Start? then 0 else Ops(log.before) + if log.last.Op? then 1 else 0
  }

  // Each operation is recorded under the number of units of its kind so far.
  predicate Numbered(log: Trace<Event>)
  {
    log.Start? ||
    (Numbered(log.before) && (log.last.Op? || log.last.EndWork? ==> log.last.number == UnitsWith(Units(log), log.last.kind)))
  }

  lemma {:induction false} NumberedAt(log: Trace<Event>, p: Trace<Event>)
    requires Numbered(log) && Prefix(p, log) && p.Then? && (p.last.Op? || p.last.EndWork?)
    ensures p.last.number == UnitsWith(Units(p), p.last.kind)
  {
    if p != log {
      NumberedAt(log.before, p);
    }
  }

  // Later events only add to the last unit or start new ones: the earlier units are
  // a prefix of the later ones, up to what was added to the last of them.
  ghost predicate Grows(us: Trace<Unit>, vs: Trace<Unit>)
  {
    || us == vs
    || (us.Then? && vs.Then? && us.before == vs.before && forall k :: us.last.Count(k) <= vs.last.Count(k))
    || (vs.Then? && Grows(us, vs.before))
  }

  lemma {:induction false} ExtendGrows(us: Trace<Unit>, vs: Trace<Unit>, e: Event)
    requires Grows(us, vs)
    ensures Grows(us, Extend(vs, e))
  {
    var ws := Extend(vs, e);
    if ws.Then? && ws.before == vs {
      assert Grows(us, ws.before);
    }
  }

  lemma {:induction false} UnitsGrow(p: Trace<Event>, log: Trace<Event>)
    requires Prefix(p, log)
    ensures Grows(Units(p), Units(log))
  {
    if p != log {
      UnitsGrow(p, log.before);
      ExtendGrows(Units(p), Units(log.before), log.last);
    }
  }

  lemma {:induction false} CountsGrow(us: Trace<Unit>, vs: Trace<Unit>, kind: Kind)
    requires Grows(us, vs)
    ensures Length(us) <= Length(vs) && UnitsWith(us, kind) <= UnitsWith(vs, kind)
    ensures Length(us) < Length(vs) && vs.last.Count(kind) > 0 ==> UnitsWith(us, kind) < UnitsWith(vs, kind)
    ensures Length(us) == Length(vs) && us.Then? && us.last.Count(kind) > 0 ==> UnitsWith(us, kind) == UnitsWith(vs, kind)
  {
    if us != vs && !(us.Then? && vs.Then? && us.before == vs.before && forall k :: us.last.Count(k) <= vs.last.Count(k)) {
      CountsGrow(us, vs.before, kind);
    }
  }

  // All operations of one kind in one unit carry the same number; operations of that
  // kind in a later unit carry a strictly larger one.  The operations are the last
  // events of the prefixes p and q.
  lemma NumbersFollowUnits(log: Trace<Event>, p: Trace<Event>, q: Trace<Event>)
    requires Numbered(log) && Prefix(p, q) && Prefix(q, log)
    requires p.Then? && q.Then? && p.last.Op? && q.last.Op? && p.last.kind == q.last.kind
    ensures Length(Units(p)) <= Length(Units(q))
    ensures Length(Units(p)) == Length(Units(q)) ==> p.last.number == q.last.number
    ensures Length(Units(p)) < Length(Units(q)) ==> p.last.number < q.last.number
  {
    PrefixTransitive(p, q, log);
    NumberedAt(log, p);
    NumberedAt(log, q);
    UnitsGrow(p, q);
    CountsGrow(Units(p), Units(q), p.last.kind);
  }
}
