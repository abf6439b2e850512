# ReactHoverObserver, modelled in Dafny

ReactHoverObserver is a React component. It wraps its children in a `div` and tells
them, through an `isHovering` prop, whether the pointer is over it. The four mouse
events of the `div` do not change anything themselves. Each one calls a listener prop
(`onMouseEnter`, `onMouseLeave`, `onMouseOver`, `onMouseOut`) with the event and two
capabilities, `setIsHovering` and `unsetIsHovering`. The listener decides which one to
call. `setIsHovering` clears the timer recorded in `hoverOffScheduleId` and starts an
"on" timer after `hoverDelayInMs`. `unsetIsHovering` does the mirror image. The state
`isHovering` flips only when one of these timers fires.

The model has four modules:

- `Wrappers` (wrappers.dfy): `Option`, used for handle fields that are still
  `undefined`, and `Result`.
- `Props` (props.dfy): prop maps, `getDefaultProps`, how React fills in defaults, the
  child props computed in `render`, and `renderChildrenWithProps`. A child is an
  `Element` with a type and a prop map. For a child whose type has no `defaultProps`,
  `cloneElement` is a shallow merge in which the new props win.
- `Timers` (timers.dfy): a deterministic virtual stand-in for `setTimeout` and
  `clearTimeout`. It has a clock in milliseconds, a map from handle to (deadline, kind),
  and the next handle to give out, starting at 1. A negative delay is clamped to 0, as
  in the HTML timer rules. `clearTimeout` of `undefined`, of an unknown handle or of a
  handle that already fired does nothing. Timers fire in order of deadline, and in order
  of creation on a tie.
- `HoverObserver` (hover_observer.dfy): an instance's state as an `Observer` value, the
  transitions over it, and the lemmas. The class `ReactHoverObserver` holds the same
  state in fields. Its methods update those fields in place, and each method is proved
  equal to the matching transition.

A listener prop is a user function. The model describes it by the capability calls it
makes synchronously, in order (`Callback(requests)`). `noop` makes no calls. A listener
that calls a capability later is modelled as the host calling
`ReactHoverObserver.SetIsHovering` or `UnsetIsHovering` later. A listener prop that is
not a function makes the forwarder raise a TypeError (`NotAFunction`), and the state is
left unchanged.

The source cancels only the opposite kind's timer, and only the handle recorded last
(src/ReactHoverObserver.js:70, 80); it does not cancel every pending timer. Lemma
`StaleOnTimerCanLand` shows what this allows. The source also has no `onHoverChanged`
callback, no switch to turn child decoration off, no skipping of DOM children and no
unmount handler. The tests expect the first three of these; the model follows the source.

A prop that is not passed and a prop passed as `undefined` are kept apart (`Undefined`).
React fills in a default for both, but `lodash.assign` and `cloneElement` copy an own
`undefined` value, so, for a child whose type has no `defaultProps`,
`isHovering={undefined}` reaches the children as `undefined`.

## Model

| member | source | states |
|---|---|---|
| Props.DefaultProps | src/ReactHoverObserver.js:10-19 | the defaults are exactly the two delays, both 0, and the four listeners, all no-ops |
| Props.ResolveProps | src/ReactHoverObserver.js:10-19 | the instance's props hold every given prop unchanged, except that each delay or listener not passed or passed as `undefined` gets its default |
| Props.DelayProp | src/ReactHoverObserver.js:76 | the delay handed to setTimeout is the prop's number, and 0 for a value that is not a number |
| Props.DelaysDefaultToZero | src/ReactHoverObserver.js:10-19 | a delay prop that is not passed, or passed as `undefined`, reaches setTimeout as the default 0; a number passed for it reaches setTimeout unchanged |
| Props.ChildProps | src/ReactHoverObserver.js:95-110 | the child props hold `isHovering` plus exactly the non-reserved props; `isHovering` comes from the state unless a caller-supplied `isHovering` prop overrides it; every other value is the prop's own |
| Props.Clone | src/ReactHoverObserver.js:91 | cloneElement keeps the child's type; every key of the new props is set to its new value, and the child's other props stay |
| Props.RenderChildrenWithProps | src/ReactHoverObserver.js:89-93 | every child, in order and with its type kept, gets every key of the child props with the same value; its own other props stay |
| Props.ChildrenShareDecoration | src/ReactHoverObserver.js:89-93 | every child gets the same value for each child-props key, `isHovering` included |
| Props.OnlyStateDecoratesUnderReservedProps | src/ReactHoverObserver.js:95-110 | when only reserved props are given, the child props are exactly `{isHovering: state}`, and a child without props ends up with exactly that |
| Timers.SetTimeout | src/ReactHoverObserver.js:72-76 | adds exactly one timer, under a handle never given out before, due after the clamped delay; every earlier timer stays |
| Timers.ClearTimeout | src/ReactHoverObserver.js:70 | removes only the named timer; on `undefined`, an unknown or an already fired handle it changes nothing |
| Timers.PopEarliest | src/ReactHoverObserver.js:72-75 | the timer that fires is the earliest pending one; the clock moves to its deadline; it leaves the queue and the others stay |
| HoverObserver.InitialState | src/ReactHoverObserver.js:31-35 | the initial state is not hovering, with no handle recorded and no timer pending |
| HoverObserver.ScheduleOn | src/ReactHoverObserver.js:69-77 | setIsHovering cancels only `hoverOffScheduleId`'s timer and adds exactly one "on" timer due at now + `hoverDelayInMs`, recorded in `hoverScheduleId`; earlier "on" timers stay pending; `isHovering` does not change |
| HoverObserver.ScheduleOff | src/ReactHoverObserver.js:79-87 | unsetIsHovering cancels only `hoverScheduleId`'s timer and adds exactly one "off" timer due at now + `hoverOffDelayInMs`, overwriting `hoverOffScheduleId`; `isHovering` does not change |
| HoverObserver.PerformAll | src/ReactHoverObserver.js:37-67 | a listener's capability calls schedule one timer each; none of them moves the clock or changes `isHovering` |
| HoverObserver.Forward | src/ReactHoverObserver.js:37-67 | a forwarder calls its listener once with `{e, setIsHovering, unsetIsHovering}`; it raises a TypeError exactly when the listener prop is not a function; the state afterwards is exactly what the listener's capability calls make of it, so a listener that makes no call leaves the whole state unchanged |
| HoverObserver.DefaultListenerIsInert | src/ReactHoverObserver.js:14-17 | a listener not passed, or passed as `undefined`, is the default `noop`: it is called and leaves the whole state unchanged |
| HoverObserver.FireEarliest | src/ReactHoverObserver.js:72-85 | a firing "on" timer sets `isHovering` to true and an "off" timer sets it to false; only that timer leaves the queue |
| HoverObserver.AdvanceTo | src/ReactHoverObserver.js:72-85 | running the clock to `t` fires exactly the timers due by `t` and keeps the rest unchanged; the handle fields are untouched |
| HoverObserver.OnlyFiringChangesState | src/ReactHoverObserver.js:72-85 | `isHovering` changes only when a pending timer fires, to that timer's kind; a cancelled timer never changes it |
| HoverObserver.OffTimersOnlyTurnOff | src/ReactHoverObserver.js:82-85 | with only "off" timers pending, hovering is never turned on, and it is off once one of them has fired |
| HoverObserver.UnsetSupersedesPendingSet | src/ReactHoverObserver.js:79-87 | when the only "on" timer that may be pending is `hoverScheduleId`'s, unsetIsHovering supersedes it: hovering never turns on afterwards, and it is off once the off-delay has elapsed |
| HoverObserver.LoneTimerLands | src/ReactHoverObserver.js:72-76 | a timer alone in the queue changes the state exactly at its deadline, not before |
| HoverObserver.SingleSetLandsAtDelay | src/ReactHoverObserver.js:69-77 | one setIsHovering on an empty queue turns hovering on exactly `hoverDelayInMs` later, and not before |
| HoverObserver.DefaultDelaySetLandsAtOnce | test/ReactHoverObserver.spec.js:178-194 | with `hoverDelayInMs` left to its default, a first setIsHovering on a fresh instance turns hovering on at once, at every time from mounting on |
| HoverObserver.SetThenEarlyUnset | src/ReactHoverObserver.js:69-87 | one setIsHovering, then unsetIsHovering before the on-delay elapses: the "on" effect never happens, and the state stays off |
| HoverObserver.SetThenUnsetInOneListener | src/ReactHoverObserver.js:69-87 | setIsHovering then unsetIsHovering in one listener call, with no "on" timer pending before and any delays (0 included): hovering never turns on, and it is off once the off-delay has elapsed |
| HoverObserver.ForwardedSetThenUnset | src/ReactHoverObserver.js:37-87 | a listener prop that calls setIsHovering then unsetIsHovering, forwarded through a mouse handler, yields exactly the two timers with the instance's delay props; hovering never turns on, and it is off once the off-delay has elapsed |
| HoverObserver.HundredTwoHundredScenario | src/ReactHoverObserver.js:69-87 | with delays 100/200: a set at 0 lands at 100 and not at 50; an unset at 150 lands at 350 and not at 349 |
| HoverObserver.StaleOnTimerCanLand | src/ReactHoverObserver.js:69-87 | two sets and then an immediate unset leave the first "on" timer pending, so hovering turns on at 100 although the last request was an unset |
| HoverObserver.ReactHoverObserver.constructor | src/ReactHoverObserver.js:10-35 | a new instance has the resolved props and the initial state |
| HoverObserver.ReactHoverObserver.ClearTimeout | src/ReactHoverObserver.js:70 | updates the pending-timer field as `Timers.ClearTimeout` specifies |
| HoverObserver.ReactHoverObserver.SetTimeout | src/ReactHoverObserver.js:72-76 | updates the pending-timer and next-handle fields and returns the handle, as `Timers.SetTimeout` specifies |
| HoverObserver.ReactHoverObserver.SetIsHovering | src/ReactHoverObserver.js:69-77 | the fields after the call are `ScheduleOn` of the fields before, with the instance's `hoverDelayInMs` |
| HoverObserver.ReactHoverObserver.UnsetIsHovering | src/ReactHoverObserver.js:79-87 | the fields after the call are `ScheduleOff` of the fields before, with the instance's `hoverOffDelayInMs` |
| HoverObserver.ReactHoverObserver.PerformRequests | src/ReactHoverObserver.js:37-67 | the listener's capability calls, made in order, leave the fields at `PerformAll` of the fields before |
| HoverObserver.ReactHoverObserver.Notify | src/ReactHoverObserver.js:37-67 | the listener call, or the TypeError, and the new fields are what `Forward` specifies |
| HoverObserver.ReactHoverObserver.OnMouseEnter | src/ReactHoverObserver.js:37-43 | forwards to `onMouseEnter` as `Forward` specifies |
| HoverObserver.ReactHoverObserver.OnMouseLeave | src/ReactHoverObserver.js:45-51 | forwards to `onMouseLeave` as `Forward` specifies |
| HoverObserver.ReactHoverObserver.OnMouseOver | src/ReactHoverObserver.js:53-59 | forwards to `onMouseOver` as `Forward` specifies |
| HoverObserver.ReactHoverObserver.OnMouseOut | src/ReactHoverObserver.js:61-67 | forwards to `onMouseOut` as `Forward` specifies |
| HoverObserver.ReactHoverObserver.FireNext | src/ReactHoverObserver.js:72-85 | runs the earliest pending timer's callback, as `FireEarliest` specifies, or does nothing on an empty queue |
| HoverObserver.ReactHoverObserver.RunUntil | src/ReactHoverObserver.js:72-85 | the fields after letting time pass to `t` are `AdvanceTo` of the fields before |
| HoverObserver.ReactHoverObserver.Render | src/ReactHoverObserver.js:95-120 | every rendered child carries `isHovering` from the state, unless a caller-supplied `isHovering` prop overrides it; every non-reserved prop reaches it with its value; it gains nothing else; its own props outside the child props stay |

## Left out

- The wrapping `div`, its `className` and its four event bindings (src/ReactHoverObserver.js:112-122) are not modelled. React's rendering, reconciliation and JSX are not modelled either. `Render` gives only the decorated children.
- `displayName` and the `propTypes` runtime checks (src/ReactHoverObserver.js:8, 21-29) are not modelled.
- Children are a list of elements. `Children.map`'s handling of `null`, text and nested-array children, and element keys and refs, is not modelled.
- The delay passed to `setTimeout`: a delay prop that is not a number is taken as 0. JavaScript's coercion of such values (`"100"` to 100, `true` to 1) is not modelled. Neither are fractional delays, delays above 2^31-1, or the host's minimum-delay clamping.
- The host's timer queue is global. The model keeps one queue per instance, so interleaving with other instances' timers is not modelled. Instances share no state, so this changes nothing that one instance observes.
- `setState` batching and re-rendering: a firing timer assigns `isHovering` at once.
- A listener is reduced to the fixed list of capability calls it makes. Those calls cannot depend on the event `e` or on the state, so a listener that, say, ignores a `mouseout` coming from a child element is not expressible as a prop. Only the direct calls of `SetIsHovering` and `UnsetIsHovering` on the class can model such a listener. Other user code in a listener, and a listener that throws, are not modelled.
- Props.Clone: React 15's `cloneElement` replaces a new prop whose value is `undefined` with the child type's `defaultProps` value for that key. The model's children have no `defaultProps`, so that case is not modelled.
- Props do not change after mounting. A re-render with new props is not modelled.
- The tests expect `onHoverChanged` (test/ReactHoverObserver.spec.js:32, 96-126), `shouldDecorateChildren` (test/ReactHoverObserver.spec.js:37, 128-136) and skipping DOM children (test/ReactHoverObserver.spec.js:62-75). The source has none of them, so the model has none of them.
- The source cancels only the opposite-kind handle (src/ReactHoverObserver.js:70, 80) and has no unmount handler. So the model has no cancel-all and no teardown.
