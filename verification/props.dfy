/** The props of a ReactHoverObserver and the props it hands to its children
    (src/ReactHoverObserver.js: getDefaultProps, render, renderChildrenWithProps). */
module Props {

  /** A call a listener makes on one of the two capabilities it is handed. */
  datatype Request = CallSetIsHovering | CallUnsetIsHovering

  /** A prop value. A function prop is described by the capability calls it
      makes, in order, when it is invoked; `Noop` makes none. `Undefined` is a
      prop that is present with the value `undefined`. */
  datatype Value =
    | Undefined
    | Bool(b: bool)
    | Number(n: int)
    | Text(s: string)
    | Callback(requests: seq<Request>)

  /** A props object. A key that is absent is a prop that was not passed; it
      differs from a key whose value is `Undefined` wherever an own property
      is copied (`lodash.assign`, `cloneElement`). */
  type PropMap = map<string, Value>

  /** A child element: its type and its props. */
  datatype Element = Element(kind: string, props: PropMap)

  const Noop: Value := Callback([])

  const DelayKeys: set<string> := {"hoverDelayInMs", "hoverOffDelayInMs"}

  const ListenerKeys: set<string> := {"onMouseEnter", "onMouseLeave", "onMouseOver", "onMouseOut"}

  /** The keys `render` leaves out of the props it passes to the children. */
  const ReservedKeys: set<string> := {"children", "className"} + DelayKeys + ListenerKeys

  /** getDefaultProps: both delays are 0 and the four listeners do nothing. */
  function DefaultProps(): (d: PropMap)
    ensures d.Keys == DelayKeys + ListenerKeys
    ensures forall k :: k in DelayKeys ==> d[k] == Number(0)
    ensures forall k :: k in ListenerKeys ==> d[k] == Noop
  {
    map["hoverDelayInMs" := Number(0), "hoverOffDelayInMs" := Number(0),
        "onMouseEnter" := Noop, "onMouseLeave" := Noop,
        "onMouseOver" := Noop, "onMouseOut" := Noop]
  }

  /** The props a component instance sees: every prop its owner passed, and a
      default for each defaulted key the owner did not pass or passed as
      `undefined`. */
  function ResolveProps(given: PropMap): (r: PropMap)
    ensures r.Keys == given.Keys + DelayKeys + ListenerKeys
    ensures forall k :: k in given && !(given[k].Undefined? && k in DelayKeys + ListenerKeys) ==>
      r[k] == given[k]
    ensures forall k :: k in DelayKeys && (k !in given || given[k].Undefined?) ==> r[k] == Number(0)
    ensures forall k :: k in ListenerKeys && (k !in given || given[k].Undefined?) ==> r[k] == Noop
  {
    var defaults := DefaultProps();
    map k | k in given.Keys + defaults.Keys ::
      if k in given && !(given[k].Undefined? && k in defaults) then given[k] else defaults[k]
  }

  /** The delay setTimeout is handed for `key`: the prop's number, and 0 for
      a value that is not a number. */
  function DelayProp(props: PropMap, key: string): (ms: int)
    ensures key in props && props[key].Number? ==> ms == props[key].n
    ensures !(key in props && props[key].Number?) ==> ms == 0
  {
    if key in props && props[key].Number? then props[key].n else 0
  }

  /** A delay prop that is not passed, or passed as `undefined`, reaches
      setTimeout as 0 (the default); a number passed for it reaches setTimeout
      unchanged. */
  lemma DelaysDefaultToZero(given: PropMap, k: string)
    requires k in DelayKeys
    ensures (k !in given || given[k].Undefined?) ==> DelayProp(ResolveProps(given), k) == 0
    ensures k in given && given[k].Number? ==> DelayProp(ResolveProps(given), k) == given[k].n
  {
  }

  /** The props `render` gives every child: `isHovering` from the state, then
      every prop whose key is not reserved, the later source winning. */
  function ChildProps(props: PropMap, isHovering: bool): (cp: PropMap)
    ensures forall k :: k in cp <==> k == "isHovering" || (k in props && k !in ReservedKeys)
    ensures cp["isHovering"] == if "isHovering" in props then props["isHovering"] else Bool(isHovering)
    ensures forall k :: k in cp && k != "isHovering" ==> cp[k] == props[k]
  {
    map["isHovering" := Bool(isHovering)] + (map k | k in props && k !in ReservedKeys :: props[k])
  }

  /** cloneElement: the child keeps its type; its props are merged with `cp`,
      and `cp` wins on a shared key. */
  function Clone(child: Element, cp: PropMap): (r: Element)
    ensures r.kind == child.kind && r.props.Keys == child.props.Keys + cp.Keys
    ensures forall k :: k in cp ==> r.props[k] == cp[k]
    ensures forall k :: k in child.props && k !in cp ==> r.props[k] == child.props[k]
  {
    Element(child.kind, child.props + cp)
  }

  /** renderChildrenWithProps: every child, in order, cloned with the same props. */
  function RenderChildrenWithProps(children: seq<Element>, cp: PropMap): (r: seq<Element>)
    ensures |r| == |children|
    ensures forall i :: 0 <= i < |r| ==> r[i].kind == children[i].kind
    ensures forall i :: 0 <= i < |r| ==> r[i].props.Keys == children[i].props.Keys + cp.Keys
    ensures forall i, k :: 0 <= i < |r| && k in cp ==> r[i].props[k] == cp[k]
    ensures forall i, k :: 0 <= i < |r| && k in children[i].props && k !in cp ==>
      r[i].props[k] == children[i].props[k]
  {
    seq(|children|, i requires 0 <= i < |children| => Clone(children[i], cp))
  }

  /** Every child receives the same decoration: for each key of the child
      props, all children end up with one and the same value. */
  lemma ChildrenShareDecoration(children: seq<Element>, props: PropMap, isHovering: bool)
    ensures var r := RenderChildrenWithProps(children, ChildProps(props, isHovering));
      forall i, j, k :: 0 <= i < |r| && 0 <= j < |r| && k in ChildProps(props, isHovering) ==>
        k in r[i].props && k in r[j].props && r[i].props[k] == r[j].props[k]
  {
  }

  /** When the owner passes only reserved props, each child gets exactly the
      key `isHovering` with the state's value on top of its own props; a child
      without props ends up with `{isHovering: state}` alone. */
  lemma OnlyStateDecoratesUnderReservedProps(given: PropMap, isHovering: bool, children: seq<Element>)
    requires given.Keys <= ReservedKeys
    ensures ChildProps(ResolveProps(given), isHovering) == map["isHovering" := Bool(isHovering)]
    ensures forall i :: 0 <= i < |children| && children[i].props == map[] ==>
      RenderChildrenWithProps(children, ChildProps(ResolveProps(given), isHovering))[i].props
        == map["isHovering" := Bool(isHovering)]
  {
    var cp := ChildProps(ResolveProps(given), isHovering);
    assert cp.Keys == {"isHovering"};
  }
}
