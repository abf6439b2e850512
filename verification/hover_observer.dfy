/** The hover-state controller of src/ReactHoverObserver.js: the debounce state
    machine driven by timers, the four mouse-event forwarders and the child
    decoration done by `render`. The functions over `Observer` values specify
    the state machine; the class `ReactHoverObserver` is the component instance,
    whose methods update its fields in place and are proved against them. */
module HoverObserver {
  import opened Wrappers
  import opened Props
  import opened Timers

  /** An instance's state: `this.state.isHovering`, the two handle fields
      (None while still `undefined`) and the timer queue. */
  datatype Observer = Observer(
    isHovering: bool,
    hoverScheduleId: Option<Handle>,
    hoverOffScheduleId: Option<Handle>,
    clock: Clock)

  /** The handle fields only hold handles already given out, and a handle
      field whose timer is still pending names a timer of its own kind. */
  ghost predicate Invariant(s: Observer)
  {
    && Timers.Valid(s.clock)
    && (s.hoverScheduleId.Some? ==> s.hoverScheduleId.value < s.clock.nextHandle)
    && (s.hoverOffScheduleId.Some? ==> s.hoverOffScheduleId.value < s.clock.nextHandle)
    && (s.hoverScheduleId.Some? && s.hoverScheduleId.value in s.clock.pending ==>
          s.clock.pending[s.hoverScheduleId.value].kind == TurnOn)
    && (s.hoverOffScheduleId.Some? && s.hoverOffScheduleId.value in s.clock.pending ==>
          s.clock.pending[s.hoverOffScheduleId.value].kind == TurnOff)
  }

  /** getInitialState: not hovering, no handle recorded, no timer pending. */
  function InitialState(): (s: Observer)
    ensures Invariant(s) && !s.isHovering && s.clock.pending == map[]
    ensures s.hoverScheduleId.None? && s.hoverOffScheduleId.None?
  {
    Observer(false, None, None, Timers.Start())
  }

  /** setIsHovering: cancels only the timer under `hoverOffScheduleId`, adds
      exactly one "on" timer due `hoverDelayInMs` from now and records its
      handle in `hoverScheduleId`; earlier "on" timers stay pending and
      `isHovering` is untouched. */
  function ScheduleOn(s: Observer, hoverDelayInMs: int): (r: Observer)
    requires Invariant(s)
    ensures Invariant(r)
    ensures r.isHovering == s.isHovering && r.hoverOffScheduleId == s.hoverOffScheduleId
    ensures r.clock.now == s.clock.now && r.clock.nextHandle == s.clock.nextHandle + 1
    ensures r.hoverScheduleId == Some(s.clock.nextHandle) && s.clock.nextHandle !in s.clock.pending
    ensures s.clock.nextHandle in r.clock.pending
    ensures r.clock.pending[s.clock.nextHandle] == Timer(s.clock.now + ClampDelay(hoverDelayInMs), TurnOn)
    ensures forall h :: h in s.clock.pending && Some(h) != s.hoverOffScheduleId ==>
      h in r.clock.pending && r.clock.pending[h] == s.clock.pending[h]
    ensures forall h :: h in r.clock.pending ==>
      h == s.clock.nextHandle || (h in s.clock.pending && Some(h) != s.hoverOffScheduleId)
  {
    var cleared := Timers.ClearTimeout(s.clock, s.hoverOffScheduleId);
    var scheduled := Timers.SetTimeout(cleared, hoverDelayInMs, TurnOn);
    s.(hoverScheduleId := Some(scheduled.1), clock := scheduled.0)
  }

  /** unsetIsHovering, the mirror image: cancels only the timer under
      `hoverScheduleId`, adds exactly one "off" timer due `hoverOffDelayInMs`
      from now and records its handle in `hoverOffScheduleId`. */
  function ScheduleOff(s: Observer, hoverOffDelayInMs: int): (r: Observer)
    requires Invariant(s)
    ensures Invariant(r)
    ensures r.isHovering == s.isHovering && r.hoverScheduleId == s.hoverScheduleId
    ensures r.clock.now == s.clock.now && r.clock.nextHandle == s.clock.nextHandle + 1
    ensures r.hoverOffScheduleId == Some(s.clock.nextHandle) && s.clock.nextHandle !in s.clock.pending
    ensures s.clock.nextHandle in r.clock.pending
    ensures r.clock.pending[s.clock.nextHandle] == Timer(s.clock.now + ClampDelay(hoverOffDelayInMs), TurnOff)
    ensures forall h :: h in s.clock.pending && Some(h) != s.hoverScheduleId ==>
      h in r.clock.pending && r.clock.pending[h] == s.clock.pending[h]
    ensures forall h :: h in r.clock.pending ==>
      h == s.clock.nextHandle || (h in s.clock.pending && Some(h) != s.hoverScheduleId)
  {
    var cleared := Timers.ClearTimeout(s.clock, s.hoverScheduleId);
    var scheduled := Timers.SetTimeout(cleared, hoverOffDelayInMs, TurnOff);
    s.(hoverOffScheduleId := Some(scheduled.1), clock := scheduled.0)
  }

  /** One capability call made by a listener, with the delays read from props. */
  function Perform(s: Observer, props: PropMap, req: Request): (r: Observer)
    requires Invariant(s)
    ensures Invariant(r) && r.isHovering == s.isHovering && r.clock.now == s.clock.now
    ensures r.clock.nextHandle == s.clock.nextHandle + 1
  {
    match req
    case CallSetIsHovering => ScheduleOn(s, DelayProp(props, "hoverDelayInMs"))
    case CallUnsetIsHovering => ScheduleOff(s, DelayProp(props, "hoverOffDelayInMs"))
  }

  /** The capability calls of a listener, in order: each schedules exactly one
      timer, none moves the clock or changes `isHovering`. */
  function PerformAll(s: Observer, props: PropMap, reqs: seq<Request>): (r: Observer)
    requires Invariant(s)
    ensures Invariant(r) && r.isHovering == s.isHovering && r.clock.now == s.clock.now
    ensures r.clock.nextHandle == s.clock.nextHandle + |reqs|
    decreases |reqs|
  {
    if reqs == [] then s
    else Perform(PerformAll(s, props, reqs[..|reqs| - 1]), props, reqs[|reqs| - 1])
  }

  /** Performing one more capability call extends the run of the earlier ones. */
  lemma PerformAllStep(s: Observer, props: PropMap, reqs: seq<Request>, i: nat)
    requires Invariant(s) && i < |reqs|
    ensures PerformAll(s, props, reqs[..i + 1]) == Perform(PerformAll(s, props, reqs[..i]), props, reqs[i])
  {
    assert reqs[..i + 1][..i] == reqs[..i];
  }

  /** The raw event a forwarder receives. */
  datatype SyntheticEvent = SyntheticEvent(eventType: string)

  /** The two capabilities handed to a listener: the instance's own
      setIsHovering and unsetIsHovering. */
  datatype Capability = SetIsHoveringCapability | UnsetIsHoveringCapability

  /** The one argument a listener receives: `{e, setIsHovering, unsetIsHovering}`. */
  datatype ListenerArgs = ListenerArgs(e: SyntheticEvent, setIsHovering: Capability, unsetIsHovering: Capability)

  /** A call of the listener prop named `listener`. */
  datatype Invocation = Invocation(listener: string, args: ListenerArgs)

  /** Calling a listener prop that is not a function throws a TypeError. */
  datatype TypeError = NotAFunction(prop: string)

  datatype Forwarded = Forwarded(call: Invocation, after: Observer)

  /** onMouseEnter / onMouseLeave / onMouseOver / onMouseOut: call the listener
      prop of that name once, with the event and the two capabilities. The
      forwarder itself changes nothing; every change afterwards is one timer
      per capability call the listener makes. */
  function Forward(s: Observer, props: PropMap, listener: string, e: SyntheticEvent): (r: Result<Forwarded, TypeError>)
    requires Invariant(s)
    ensures r.Ok? <==> listener in props && props[listener].Callback?
    ensures r.Err? ==> r.error == NotAFunction(listener)
    ensures r.Ok? ==> r.value.call.listener == listener && r.value.call.args.e == e
    ensures r.Ok? ==> r.value.call.args.setIsHovering == SetIsHoveringCapability
    ensures r.Ok? ==> r.value.call.args.unsetIsHovering == UnsetIsHoveringCapability
    ensures r.Ok? ==> Invariant(r.value.after) && r.value.after.isHovering == s.isHovering
    ensures r.Ok? ==> r.value.after.clock.now == s.clock.now
    ensures r.Ok? ==> r.value.after.clock.nextHandle == s.clock.nextHandle + |props[listener].requests|
    ensures r.Ok? ==> r.value.after == PerformAll(s, props, props[listener].requests)
    ensures r.Ok? && props[listener].requests == [] ==> r.value.after == s
  {
    if listener in props && props[listener].Callback? then
      var args := ListenerArgs(e, SetIsHoveringCapability, UnsetIsHoveringCapability);
      Ok(Forwarded(Invocation(listener, args), PerformAll(s, props, props[listener].requests)))
    else
      Err(NotAFunction(listener))
  }

  /** A listener left to its default is called and changes nothing at all. */
  lemma DefaultListenerIsInert(s: Observer, given: PropMap, listener: string, e: SyntheticEvent)
    requires Invariant(s) && listener in ListenerKeys && (listener !in given || given[listener].Undefined?)
    ensures Forward(s, ResolveProps(given), listener, e).Ok?
    ensures Forward(s, ResolveProps(given), listener, e).value.after == s
  {
  }

  /** The event loop runs the next timer; its callback sets `isHovering` to
      true for an "on" timer and to false for an "off" timer. */
  ghost function FireEarliest(s: Observer): (r: Observer)
    requires Invariant(s) && s.clock.pending != map[]
    ensures Invariant(r)
    ensures r.isHovering == (s.clock.pending[Earliest(s.clock.pending)].kind == TurnOn)
    ensures r.hoverScheduleId == s.hoverScheduleId && r.hoverOffScheduleId == s.hoverOffScheduleId
    ensures r.clock.now == s.clock.pending[Earliest(s.clock.pending)].deadline
    ensures r.clock.nextHandle == s.clock.nextHandle
    ensures forall h :: h in r.clock.pending <==> h in s.clock.pending && h != Earliest(s.clock.pending)
    ensures forall h :: h in r.clock.pending ==> r.clock.pending[h] == s.clock.pending[h]
    ensures |r.clock.pending| < |s.clock.pending|
  {
    var popped := PopEarliest(s.clock);
    s.(isHovering := popped.1.kind == TurnOn, clock := popped.0)
  }

  /** Some pending timer is due at time `t`. */
  ghost predicate Due(s: Observer, t: nat)
  {
    s.clock.pending != map[] && s.clock.pending[Earliest(s.clock.pending)].deadline <= t
  }

  /** Let the clock run to `t`: every timer due by then fires, in order, and
      the clock reads `t` (it never runs backwards). */
  ghost function AdvanceTo(s: Observer, t: nat): (r: Observer)
    requires Invariant(s)
    ensures Invariant(r)
    ensures r.clock.now == if t < s.clock.now then s.clock.now else t
    ensures r.hoverScheduleId == s.hoverScheduleId && r.hoverOffScheduleId == s.hoverOffScheduleId
    ensures r.clock.nextHandle == s.clock.nextHandle
    ensures forall h :: h in r.clock.pending <==> h in s.clock.pending && t < s.clock.pending[h].deadline
    ensures forall h :: h in r.clock.pending ==> r.clock.pending[h] == s.clock.pending[h]
    decreases |s.clock.pending|
  {
    if Due(s, t) then AdvanceTo(FireEarliest(s), t)
    else s.(clock := s.clock.(now := if t < s.clock.now then s.clock.now else t))
  }

  /** `isHovering` changes only when a timer fires: if letting the clock run
      to `t` changes it, a timer pending at the start and due by `t` has the
      kind that gives the new value. A cancelled timer is no longer pending,
      so it never changes the state. */
  lemma {:induction false} OnlyFiringChangesState(s: Observer, t: nat)
    requires Invariant(s)
    ensures AdvanceTo(s, t).isHovering != s.isHovering ==>
      exists h :: h in s.clock.pending && s.clock.pending[h].deadline <= t &&
        (s.clock.pending[h].kind == TurnOn) == AdvanceTo(s, t).isHovering
    decreases |s.clock.pending|
  {
    if Due(s, t) {
      var fired := FireEarliest(s);
      var first := Earliest(s.clock.pending);
      OnlyFiringChangesState(fired, t);
      if AdvanceTo(fired, t).isHovering != fired.isHovering {
        var h :| h in fired.clock.pending && fired.clock.pending[h].deadline <= t &&
          (fired.clock.pending[h].kind == TurnOn) == AdvanceTo(fired, t).isHovering;
        assert h in s.clock.pending && s.clock.pending[h] == fired.clock.pending[h];
      } else {
        assert first in s.clock.pending && s.clock.pending[first].deadline <= t;
      }
    }
  }

  /** With no "on" timer pending, letting the clock run never turns hovering
      on, and once some timer has come due the state is off. */
  lemma {:induction false} OffTimersOnlyTurnOff(s: Observer, t: nat)
    requires Invariant(s)
    requires forall h :: h in s.clock.pending ==> s.clock.pending[h].kind == TurnOff
    ensures AdvanceTo(s, t).isHovering ==> s.isHovering
    ensures (exists h :: h in s.clock.pending && s.clock.pending[h].deadline <= t) ==>
      !AdvanceTo(s, t).isHovering
  {
    OnlyFiringChangesState(s, t);
    if exists h :: h in s.clock.pending && s.clock.pending[h].deadline <= t {
      var h :| h in s.clock.pending && s.clock.pending[h].deadline <= t;
      var first := Earliest(s.clock.pending);
      assert Precedes(s.clock.pending[first], first, s.clock.pending[h], h);
      assert Due(s, t);
      var fired := FireEarliest(s);
      assert !fired.isHovering;
      OnlyFiringChangesState(fired, t);
    }
  }

  /** The debounce guarantee: when the only "on" timer that may be pending is
      the one recorded in `hoverScheduleId`, unsetIsHovering supersedes it.
      Hovering is never turned on afterwards, and it is off once the off-delay
      has elapsed. */
  lemma UnsetSupersedesPendingSet(s: Observer, hoverOffDelayInMs: int, t: nat)
    requires Invariant(s)
    requires forall h :: h in s.clock.pending && s.clock.pending[h].kind == TurnOn ==> Some(h) == s.hoverScheduleId
    ensures AdvanceTo(ScheduleOff(s, hoverOffDelayInMs), t).isHovering ==> s.isHovering
    ensures t >= s.clock.now + ClampDelay(hoverOffDelayInMs) ==>
      !AdvanceTo(ScheduleOff(s, hoverOffDelayInMs), t).isHovering
  {
    var r := ScheduleOff(s, hoverOffDelayInMs);
    OffTimersOnlyTurnOff(r, t);
    if t >= s.clock.now + ClampDelay(hoverOffDelayInMs) {
      assert s.clock.nextHandle in r.clock.pending && r.clock.pending[s.clock.nextHandle].deadline <= t;
    }
  }

  /** A timer alone in the queue lands exactly at its deadline, not before. */
  lemma LoneTimerLands(s: Observer, h: Handle, t: nat)
    requires Invariant(s) && s.clock.pending.Keys == {h}
    ensures AdvanceTo(s, t).isHovering ==
      if t < s.clock.pending[h].deadline then s.isHovering else s.clock.pending[h].kind == TurnOn
  {
    assert IsEarliest(s.clock.pending, h);
    EarliestUnique(s.clock.pending, h, Earliest(s.clock.pending));
    if s.clock.pending[h].deadline <= t {
      var fired := FireEarliest(s);
      assert fired.clock.pending == map[];
    }
  }

  /** A single setIsHovering on an empty queue turns hovering on exactly
      `hoverDelayInMs` later, and not before. */
  lemma SingleSetLandsAtDelay(s: Observer, hoverDelayInMs: int, t: nat)
    requires Invariant(s) && s.clock.pending == map[]
    ensures AdvanceTo(ScheduleOn(s, hoverDelayInMs), t).isHovering ==
      (t >= s.clock.now + ClampDelay(hoverDelayInMs) || s.isHovering)
  {
    var r := ScheduleOn(s, hoverDelayInMs);
    assert r.clock.pending.Keys == {s.clock.nextHandle};
    LoneTimerLands(r, s.clock.nextHandle, t);
  }

  /** With `hoverDelayInMs` left to its default, a first setIsHovering on a
      freshly mounted instance turns hovering on at once: at every time from
      mounting on, the state is hovering. */
  lemma DefaultDelaySetLandsAtOnce(given: PropMap, t: nat)
    requires "hoverDelayInMs" !in given || given["hoverDelayInMs"].Undefined?
    ensures AdvanceTo(ScheduleOn(InitialState(), DelayProp(ResolveProps(given), "hoverDelayInMs")), t).isHovering
  {
    DelaysDefaultToZero(given, "hoverDelayInMs");
    SingleSetLandsAtDelay(InitialState(), DelayProp(ResolveProps(given), "hoverDelayInMs"), t);
  }

  /** Exactly one setIsHovering, then unsetIsHovering before the on-delay has
      elapsed: the "on" effect never happens, and the state is off once the
      off-delay has elapsed. */
  lemma SetThenEarlyUnset(s: Observer, hoverDelayInMs: int, hoverOffDelayInMs: int, t1: nat, t2: nat)
    requires Invariant(s) && s.clock.pending == map[] && !s.isHovering
    requires s.clock.now <= t1 < s.clock.now + ClampDelay(hoverDelayInMs)
    ensures var beforeUnset := AdvanceTo(ScheduleOn(s, hoverDelayInMs), t1);
      && !beforeUnset.isHovering
      && !AdvanceTo(ScheduleOff(beforeUnset, hoverOffDelayInMs), t2).isHovering
  {
    var on := ScheduleOn(s, hoverDelayInMs);
    SingleSetLandsAtDelay(s, hoverDelayInMs, t1);
    var beforeUnset := AdvanceTo(on, t1);
    forall h | h in beforeUnset.clock.pending && beforeUnset.clock.pending[h].kind == TurnOn
      ensures Some(h) == beforeUnset.hoverScheduleId
    {
      assert h in on.clock.pending;
    }
    UnsetSupersedesPendingSet(beforeUnset, hoverOffDelayInMs, t2);
  }

  /** A listener that calls setIsHovering and then unsetIsHovering in the same
      turn, with no "on" timer pending before: whatever the two delays (the
      default 0 included), hovering is never turned on, and it is off once
      the off-delay has elapsed. */
  lemma SetThenUnsetInOneListener(s: Observer, hoverDelayInMs: int, hoverOffDelayInMs: int, t: nat)
    requires Invariant(s)
    requires forall h :: h in s.clock.pending ==> s.clock.pending[h].kind == TurnOff
    ensures AdvanceTo(ScheduleOff(ScheduleOn(s, hoverDelayInMs), hoverOffDelayInMs), t).isHovering ==> s.isHovering
    ensures t >= s.clock.now + ClampDelay(hoverOffDelayInMs) ==>
      !AdvanceTo(ScheduleOff(ScheduleOn(s, hoverDelayInMs), hoverOffDelayInMs), t).isHovering
  {
    var on := ScheduleOn(s, hoverDelayInMs);
    forall h | h in on.clock.pending && on.clock.pending[h].kind == TurnOn
      ensures Some(h) == on.hoverScheduleId
    {
    }
    UnsetSupersedesPendingSet(on, hoverOffDelayInMs, t);
  }

  /** The same through the forwarder: a listener prop that calls
      setIsHovering and then unsetIsHovering schedules exactly the two timers
      of the two capability calls, with the instance's delay props, so
      hovering never turns on and is off once the off-delay has elapsed. */
  lemma ForwardedSetThenUnset(s: Observer, props: PropMap, listener: string, e: SyntheticEvent, t: nat)
    requires Invariant(s)
    requires forall h :: h in s.clock.pending ==> s.clock.pending[h].kind == TurnOff
    requires listener in props && props[listener] == Callback([CallSetIsHovering, CallUnsetIsHovering])
    ensures Forward(s, props, listener, e).Ok?
    ensures Forward(s, props, listener, e).value.after ==
      ScheduleOff(ScheduleOn(s, DelayProp(props, "hoverDelayInMs")), DelayProp(props, "hoverOffDelayInMs"))
    ensures AdvanceTo(Forward(s, props, listener, e).value.after, t).isHovering ==> s.isHovering
    ensures t >= s.clock.now + ClampDelay(DelayProp(props, "hoverOffDelayInMs")) ==>
      !AdvanceTo(Forward(s, props, listener, e).value.after, t).isHovering
  {
    var reqs := props[listener].requests;
    assert reqs[..1] == [CallSetIsHovering] && reqs[..1][..0] == [];
    assert PerformAll(s, props, reqs[..1]) == ScheduleOn(s, DelayProp(props, "hoverDelayInMs"));
    assert reqs[..|reqs| - 1] == reqs[..1];
    SetThenUnsetInOneListener(s, DelayProp(props, "hoverDelayInMs"), DelayProp(props, "hoverOffDelayInMs"), t);
  }

  /** The scenario with delays of 100 ms on and 200 ms off: a set at 0 lands
      at 100, not at 50; an unset at 150, after the "on" timer has fired
      (so its clearTimeout is a no-op), lands at 350, not at 349. */
  lemma HundredTwoHundredScenario()
    ensures !AdvanceTo(ScheduleOn(InitialState(), 100), 50).isHovering
    ensures AdvanceTo(ScheduleOn(InitialState(), 100), 100).isHovering
    ensures var hovering := AdvanceTo(ScheduleOn(InitialState(), 100), 150);
      && AdvanceTo(ScheduleOff(hovering, 200), 349).isHovering
      && !AdvanceTo(ScheduleOff(hovering, 200), 350).isHovering
  {
    var s0 := InitialState();
    SingleSetLandsAtDelay(s0, 100, 50);
    SingleSetLandsAtDelay(s0, 100, 100);
    SingleSetLandsAtDelay(s0, 100, 150);
    var hovering := AdvanceTo(ScheduleOn(s0, 100), 150);
    assert hovering.clock.pending == map[];
    var off := ScheduleOff(hovering, 200);
    assert off.clock.pending.Keys == {hovering.clock.nextHandle};
    LoneTimerLands(off, hovering.clock.nextHandle, 349);
    LoneTimerLands(off, hovering.clock.nextHandle, 350);
  }

  /** The source cancels only the most recently recorded "on" handle: after two
      setIsHovering calls with a 100 ms delay and an immediate unsetIsHovering,
      the first "on" timer is still pending and turns hovering on at 100,
      after the "off" timer has fired, although the last request was an unset. */
  lemma StaleOnTimerCanLand()
    ensures var twice := ScheduleOn(ScheduleOn(InitialState(), 100), 100);
      && !AdvanceTo(ScheduleOff(twice, 0), 99).isHovering
      && AdvanceTo(ScheduleOff(twice, 0), 100).isHovering
  {
    var once := ScheduleOn(InitialState(), 100);
    var twice := ScheduleOn(once, 100);
    var off := ScheduleOff(twice, 0);
    assert off.clock.pending.Keys == {1, 3};
    assert IsEarliest(off.clock.pending, 3);
    EarliestUnique(off.clock.pending, 3, Earliest(off.clock.pending));
    var fired := FireEarliest(off);
    assert !fired.isHovering && fired.clock.pending.Keys == {1};
    LoneTimerLands(fired, 1, 99);
    LoneTimerLands(fired, 1, 100);
  }

  /** What a forwarder reports, against the specification `f`: the listener
      call and the new state, or the error and an unchanged state. */
  ghost predicate Reports(f: Result<Forwarded, TypeError>, r: Result<Invocation, TypeError>,
                          before: Observer, after: Observer)
  {
    match f
    case Ok(fw) => r == Ok(fw.call) && after == fw.after
    case Err(err) => r == Err(err) && after == before
  }

  /** A ReactHoverObserver instance. The clock fields stand for the host's
      timer queue, which setTimeout and clearTimeout reach through globals. */
  class ReactHoverObserver {
    const props: PropMap
    var isHovering: bool
    var hoverScheduleId: Option<Handle>
    var hoverOffScheduleId: Option<Handle>
    var now: nat
    var pending: map<Handle, Timer>
    var nextHandle: Handle

    function Timeline(): Clock
      reads this
    {
      Clock(now, pending, nextHandle)
    }

    function State(): Observer
      reads this
    {
      Observer(isHovering, hoverScheduleId, hoverOffScheduleId, Timeline())
    }

    ghost predicate Valid()
      reads this
    {
      Invariant(State())
    }

    /** Mounting: the props are the owner's with the defaults filled in, and
        the state is the initial one. */
    constructor (given: PropMap)
      ensures Valid()
      ensures props == ResolveProps(given) && State() == InitialState()
    {
      props := ResolveProps(given);
      isHovering := false;
      hoverScheduleId := None;
      hoverOffScheduleId := None;
      now := 0;
      pending := map[];
      nextHandle := 1;
    }

    method ClearTimeout(id: Option<Handle>)
      requires Timers.Valid(Timeline())
      modifies this`pending
      ensures Timeline() == Timers.ClearTimeout(old(Timeline()), id)
    {
      if id.Some? {
        pending := pending - {id.value};
      }
    }

    method SetTimeout(ms: int, kind: Kind) returns (id: Handle)
      requires Timers.Valid(Timeline())
      modifies this`pending, this`nextHandle
      ensures (Timeline(), id) == Timers.SetTimeout(old(Timeline()), ms, kind)
    {
      id := nextHandle;
      pending := pending[id := Timer(now + ClampDelay(ms), kind)];
      nextHandle := nextHandle + 1;
    }

    method SetIsHovering()
      requires Valid()
      modifies this
      ensures Valid()
      ensures State() == ScheduleOn(old(State()), DelayProp(props, "hoverDelayInMs"))
    {
      ClearTimeout(hoverOffScheduleId);
      var id := SetTimeout(DelayProp(props, "hoverDelayInMs"), TurnOn);
      hoverScheduleId := Some(id);
    }

    method UnsetIsHovering()
      requires Valid()
      modifies this
      ensures Valid()
      ensures State() == ScheduleOff(old(State()), DelayProp(props, "hoverOffDelayInMs"))
    {
      ClearTimeout(hoverScheduleId);
      var id := SetTimeout(DelayProp(props, "hoverOffDelayInMs"), TurnOff);
      hoverOffScheduleId := Some(id);
    }

    /** The capability calls a listener makes, in order. */
    method PerformRequests(requests: seq<Request>)
      requires Valid()
      modifies this
      ensures Valid()
      ensures State() == PerformAll(old(State()), props, requests)
    {
      ghost var start := State();
      var i := 0;
      while i < |requests|
        invariant 0 <= i <= |requests|
        invariant Valid()
        invariant State() == PerformAll(start, props, requests[..i])
      {
        PerformAllStep(start, props, requests, i);
        if requests[i] == CallSetIsHovering {
          SetIsHovering();
        } else {
          UnsetIsHovering();
        }
        i := i + 1;
      }
      assert requests[..i] == requests;
    }

    /** Calls the listener prop `listener` once, with the event and the two
        capabilities; the listener then makes its capability calls. */
    method Notify(listener: string, e: SyntheticEvent) returns (r: Result<Invocation, TypeError>)
      requires Valid()
      modifies this
      ensures Valid()
      ensures Reports(Forward(old(State()), props, listener, e), r, old(State()), State())
    {
      if listener !in props || !props[listener].Callback? {
        return Err(NotAFunction(listener));
      }
      PerformRequests(props[listener].requests);
      r := Ok(Invocation(listener, ListenerArgs(e, SetIsHoveringCapability, UnsetIsHoveringCapability)));
    }

    method OnMouseEnter(e: SyntheticEvent) returns (r: Result<Invocation, TypeError>)
      requires Valid()
      modifies this
      ensures Valid()
      ensures Reports(Forward(old(State()), props, "onMouseEnter", e), r, old(State()), State())
    {
      r := Notify("onMouseEnter", e);
    }

    method OnMouseLeave(e: SyntheticEvent) returns (r: Result<Invocation, TypeError>)
      requires Valid()
      modifies this
      ensures Valid()
      ensures Reports(Forward(old(State()), props, "onMouseLeave", e), r, old(State()), State())
    {
      r := Notify("onMouseLeave", e);
    }

    method OnMouseOver(e: SyntheticEvent) returns (r: Result<Invocation, TypeError>)
      requires Valid()
      modifies this
      ensures Valid()
      ensures Reports(Forward(old(State()), props, "onMouseOver", e), r, old(State()), State())
    {
      r := Notify("onMouseOver", e);
    }

    method OnMouseOut(e: SyntheticEvent) returns (r: Result<Invocation, TypeError>)
      requires Valid()
      modifies this
      ensures Valid()
      ensures Reports(Forward(old(State()), props, "onMouseOut", e), r, old(State()), State())
    {
      r := Notify("onMouseOut", e);
    }

    /** The event loop runs the next pending timer, if there is one; its
        callback is `setState({isHovering: ...})`, applied at once. */
    method FireNext() returns (fired: bool)
      requires Valid()
      modifies this
      ensures Valid()
      ensures fired <==> old(pending) != map[]
      ensures State() == if fired then FireEarliest(old(State())) else old(State())
    {
      if pending == map[] {
        return false;
      }
      EarliestExists(pending);
      var h :| h in pending && IsEarliest(pending, h);
      EarliestUnique(pending, h, Earliest(pending));
      var timer := pending[h];
      pending := pending - {h};
      now := timer.deadline;
      isHovering := timer.kind == TurnOn;
      fired := true;
    }

    /** The host lets time pass until `t`, running every timer that comes due. */
    method RunUntil(t: nat)
      requires Valid()
      modifies this
      ensures Valid()
      ensures State() == AdvanceTo(old(State()), t)
    {
      while pending != map[]
        invariant Valid()
        invariant AdvanceTo(State(), t) == AdvanceTo(old(State()), t)
        decreases |pending|
      {
        EarliestExists(pending);
        var h :| h in pending && IsEarliest(pending, h);
        EarliestUnique(pending, h, Earliest(pending));
        if t < pending[h].deadline {
          break;
        }
        var _ := FireNext();
      }
      if now < t {
        now := t;
      }
    }

    /** render: every child is cloned with `isHovering` from the state (unless
        the owner passed an `isHovering` prop, which wins) and every
        non-reserved prop; nothing else is added to a child. */
    function Render(children: seq<Element>): (r: seq<Element>)
      reads this
      ensures |r| == |children|
      ensures forall i :: 0 <= i < |r| ==>
        && "isHovering" in r[i].props
        && r[i].props["isHovering"] == if "isHovering" in props then props["isHovering"] else Bool(isHovering)
      ensures forall i, k :: 0 <= i < |r| && k in r[i].props ==>
        k in children[i].props || k == "isHovering" || (k in props && k !in ReservedKeys)
      ensures forall i, k :: 0 <= i < |r| && k in r[i].props && k in ReservedKeys ==>
        k in children[i].props && r[i].props[k] == children[i].props[k]
      ensures forall i, k :: 0 <= i < |r| && k in props && k !in ReservedKeys ==>
        k in r[i].props && r[i].props[k] == props[k]
      ensures forall i, k ::
        (0 <= i < |r| && k in children[i].props && k != "isHovering" && (k !in props || k in ReservedKeys)) ==>
        (k in r[i].props && r[i].props[k] == children[i].props[k])
    {
      RenderChildrenWithProps(children, ChildProps(props, isHovering))
    }
  }
}
