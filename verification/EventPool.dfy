// The recycling pool of device events.  create and the deleter of the handle it
// returns run under one mutex, so a run is a sequence of these two steps, by any
// number of threads.
module EventPool {
  import opened Collections

  // What happened so far, latest last; `timing` is the class of the event.
  datatype Step = Create(timing: bool) | Release(timing: bool)

  type History = Trace<Step>

  // Events of a class handed out and not yet returned.
  function Outstanding(h: History, timing: bool): int
  {
    match h
    case Start => 0
    case Then(before, Create(t)) => Outstanding(before, timing) + if t == timing then 1 else 0
    case Then(before, Release(t)) => Outstanding(before, timing) - if t == timing then 1 else 0
  }

  // The most that were ever outstanding at the same time.
  function Peak(h: History, timing: bool): int
  {
    match h
    case Start => 0
    case Then(before, _) =>
      var now := Outstanding(h, timing);
      if now > Peak(before, timing) then now else Peak(before, timing)
  }

  // What is outstanding was handed out and not returned.
  lemma {:induction false} OutstandingCounts(h: History, timing: bool)
    ensures Outstanding(h, timing) == Occurrences(h, Create(timing)) - Occurrences(h, Release(timing))
  {
    if h.Then? {
      OutstandingCounts(h.before, timing);
    }
  }

  // The peak is the most that was outstanding at any moment.
  lemma {:induction false} PeakIsMost(h: History, timing: bool) returns (p: History)
    ensures Prefix(p, h) && Outstanding(p, timing) == Peak(h, timing)
    ensures forall q :: Prefix(q, h) ==> Outstanding(q, timing) <= Peak(h, timing)
  {
    p := h;
    if h.Then? {
      var before := PeakIsMost(h.before, timing);
      if Outstanding(h, timing) <= Peak(h.before, timing) {
        p := before;
      }
    }
  }

  type Event = nat

  // The events handed out with this class captured by their deleter.
  function HeldOf(held: map<Event, bool>, timing: bool): set<Event>
  {
    set e | e in held && held[e] == timing
  }

  // The events made with this class; event e was made with classes[e].
  function MadeOf(classes: seq<bool>, timing: bool): set<Event>
  {
    set e | 0 <= e < |classes| && classes[e] == timing
  }

  // Every event of a class is either held by one handle or idle in its own class, once.
  // The number made is the peak of what the history held at the same time.
  ghost predicate ClassOk(idle: seq<Event>, held: map<Event, bool>, classes: seq<bool>, h: History, timing: bool)
  {
    && NoRepeat(idle)
    && (forall e :: e in HeldOf(held, timing) || e in idle <==> e in MadeOf(classes, timing))
    && (forall e :: e in idle ==> e !in HeldOf(held, timing))
    && |HeldOf(held, timing)| == Outstanding(h, timing)
    && |MadeOf(classes, timing)| == Peak(h, timing)
  }

  lemma SubsetSize(a: set<Event>, b: set<Event>)
    requires a <= b
    ensures |a| <= |b|
  {
    assert b == a + (b - a);
  }

  lemma HeldGrows(held: map<Event, bool>, timing: bool, e: Event)
    requires e !in held
    ensures HeldOf(held[e := timing], timing) == HeldOf(held, timing) + {e} && e !in HeldOf(held, timing)
    ensures HeldOf(held[e := timing], !timing) == HeldOf(held, !timing)
  {
  }

  lemma MadeGrows(classes: seq<bool>, timing: bool)
    ensures MadeOf(classes + [timing], timing) == MadeOf(classes, timing) + {|classes|} && |classes| !in MadeOf(classes, timing)
    ensures MadeOf(classes + [timing], !timing) == MadeOf(classes, !timing)
  {
  }

  // Handing out one more event than there was the peak of makes a new peak ...
  lemma NewPeak(h: History, timing: bool)
    requires Outstanding(h, timing) == Peak(h, timing)
    ensures Peak(Then(h, Create(timing)), timing) == Outstanding(Then(h, Create(timing)), timing) == Peak(h, timing) + 1
  {
  }

  // ... otherwise the peak stays.
  lemma OldPeak(h: History, timing: bool)
    requires Outstanding(h, timing) < Peak(h, timing)
    ensures Peak(Then(h, Create(timing)), timing) == Peak(h, timing)
    ensures Outstanding(Then(h, Create(timing)), timing) == Outstanding(h, timing) + 1
  {
  }

  // Reusing the first idle event.
  lemma Reuse(idle: seq<Event>, held: map<Event, bool>, classes: seq<bool>, h: History, timing: bool)
    requires idle != [] && ClassOk(idle, held, classes, h, timing) && idle[0] !in held
    ensures ClassOk(idle[1..], held[idle[0] := timing], classes, Then(h, Create(timing)), timing)
  {
    var e := idle[0];
    HeldGrows(held, timing, e);
    assert idle == [e] + idle[1..] && e in idle;
    hide HeldOf, MadeOf, Outstanding, Peak;
    SubsetSize(HeldOf(held, timing) + {e}, MadeOf(classes, timing));
    OldPeak(h, timing);
  }

  // Making a new one when none is idle.
  lemma Allocate(held: map<Event, bool>, classes: seq<bool>, h: History, timing: bool)
    requires ClassOk([], held, classes, h, timing) && |classes| !in held
    ensures ClassOk([], held[|classes| := timing], classes + [timing], Then(h, Create(timing)), timing)
  {
    assert HeldOf(held, timing) == MadeOf(classes, timing);
    HeldGrows(held, timing, |classes|);
    MadeGrows(classes, timing);
    NewPeak(h, timing);
    hide HeldOf, MadeOf, Outstanding, Peak;
  }

  // The other class does not notice.
  lemma OtherClass(idle: seq<Event>, held: map<Event, bool>, classes: seq<bool>, h: History, timing: bool, e: Event)
    requires ClassOk(idle, held, classes, h, timing) && e !in held && e <= |classes|
    ensures ClassOk(idle, held[e := !timing], classes, Then(h, Create(!timing)), timing)
    ensures ClassOk(idle, held[e := !timing], classes + [!timing], Then(h, Create(!timing)), timing)
  {
    HeldGrows(held, !timing, e);
    MadeGrows(classes, !timing);
    hide HeldOf, MadeOf;
  }

  // Returning an event to its class.
  lemma Return(idle: seq<Event>, held: map<Event, bool>, classes: seq<bool>, h: History, timing: bool, e: Event)
    requires ClassOk(idle, held, classes, h, timing) && e in held && held[e] == timing
    ensures ClassOk(idle + [e], held - {e}, classes, Then(h, Release(timing)), timing)
  {
    assert HeldOf(held, timing) == HeldOf(held - {e}, timing) + {e};
    assert e !in idle by {
      assert e in HeldOf(held, timing);
    }
  }

  lemma OtherReturn(idle: seq<Event>, held: map<Event, bool>, classes: seq<bool>, h: History, timing: bool, e: Event)
    requires ClassOk(idle, held, classes, h, timing) && e in held && held[e] == !timing
    ensures ClassOk(idle, held - {e}, classes, Then(h, Release(!timing)), timing)
  {
    assert HeldOf(held, timing) == HeldOf(held - {e}, timing);
  }

  class XPUEventCache {
    var plain: seq<Event>             // eventsArray_[0]
    var timed: seq<Event>             // eventsArray_[1]
    var classes: seq<bool>            // the timing flags of all events made so far
    ghost var held: map<Event, bool>  // handed-out events, with the class their deleter captured
    ghost var history: History

    function Idle(timing: bool): seq<Event>
      reads this
    {
      if timing then timed else plain
    }

    ghost predicate Valid()
      reads this
    {
      && ClassOk(plain, held, classes, history, false)
      && ClassOk(timed, held, classes, history, true)
    }

    constructor ()
      ensures Valid() && history == Start && held == map[]
    {
      plain, timed, classes, held, history := [], [], [], map[], Start;
      new;
      assert HeldOf(map[], false) == {} && HeldOf(map[], true) == {};
      assert MadeOf([], false) == {} && MadeOf([], true) == {};
    }

    method CreateEvent(timing: bool) returns (e: Event)
      requires Valid()
      modifies this
      ensures Valid() && history == Then(old(history), Create(timing))
      ensures e !in old(held) && held == old(held)[e := timing]
      ensures if old(Idle(timing)) != [] then
                e == old(Idle(timing))[0] && Idle(timing) == old(Idle(timing))[1..] && classes == old(classes)
              else
                e == |old(classes)| && Idle(timing) == [] && classes == old(classes) + [timing]
      ensures Idle(!timing) == old(Idle(!timing))
    {
      if Idle(timing) != [] {
        e := Idle(timing)[0];
        NotHeld(plain, timed, held, classes, history, timing, e);
        Reuse(Idle(timing), held, classes, history, timing);
        OtherClass(Idle(!timing), held, classes, history, !timing, e);
        if timing {
          timed := timed[1..];
        } else {
          plain := plain[1..];
        }
      } else {
        e := |classes|;
        NotHeld(plain, timed, held, classes, history, timing, e);
        Allocate(held, classes, history, timing);
        OtherClass(Idle(!timing), held, classes, history, !timing, e);
        classes := classes + [timing];
      }
      held := held[e := timing];
      history := Then(history, Create(timing));
    }

    // The deleter of a handle.
    method ReleaseEvent(e: Event, timing: bool)
      requires Valid() && e in held && held[e] == timing
      modifies this
      ensures Valid() && history == Then(old(history), Release(timing))
      ensures held == old(held) - {e} && classes == old(classes)
      ensures Idle(timing) == old(Idle(timing)) + [e] && Idle(!timing) == old(Idle(!timing))
    {
      Return(Idle(timing), held, classes, history, timing, e);
      OtherReturn(Idle(!timing), held, classes, history, !timing, e);
      if timing {
        timed := timed + [e];
      } else {
        plain := plain + [e];
      }
      held := held - {e};
      history := Then(history, Release(timing));
    }
  }

  // An idle event, or one not made yet, is held by nobody.
  lemma NotHeld(plain: seq<Event>, timed: seq<Event>, held: map<Event, bool>, classes: seq<bool>, h: History, timing: bool, e: Event)
    requires ClassOk(plain, held, classes, h, false) && ClassOk(timed, held, classes, h, true)
    requires e in (if timing then timed else plain) || e == |classes|
    ensures e !in held && e <= |classes|
  {
    forall x | x in held ensures x < |classes| && classes[x] == held[x] && x in HeldOf(held, held[x]) {
      assert x in HeldOf(held, held[x]);
      assert x in MadeOf(classes, held[x]);
    }
    assert e in (if timing then timed else plain) ==> e in MadeOf(classes, timing);
  }
}
