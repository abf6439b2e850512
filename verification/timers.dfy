/** A deterministic stand-in for the host's setTimeout/clearTimeout: a virtual
    clock in milliseconds, the pending timers by handle, and the next handle
    to give out. Handles start at 1, as a browser's do, so an `undefined`
    handle field is never confused with a real one. */
module Timers {
  import opened Wrappers

  type Handle = nat

  /** What a hover timer does when it fires: set or clear `isHovering`. */
  datatype Kind = TurnOn | TurnOff

  datatype Timer = Timer(deadline: nat, kind: Kind)

  datatype Clock = Clock(now: nat, pending: map<Handle, Timer>, nextHandle: Handle)

  /** Every pending timer has a handle already given out and is not yet overdue. */
  ghost predicate Valid(c: Clock)
  {
    && 1 <= c.nextHandle
    && forall h :: h in c.pending ==> 1 <= h < c.nextHandle && c.now <= c.pending[h].deadline
  }

  /** The timer queue at page load. */
  function Start(): (c: Clock)
    ensures Valid(c) && c.pending == map[]
  {
    Clock(0, map[], 1)
  }

  /** setTimeout treats a negative delay as 0. */
  function ClampDelay(ms: int): nat
  {
    if ms < 0 then 0 else ms
  }

  /** setTimeout: one new timer, under a handle never given out before, due
      `ms` after now; every earlier timer stays as it was. */
  function SetTimeout(c: Clock, ms: int, kind: Kind): (r: (Clock, Handle))
    requires Valid(c)
    ensures Valid(r.0)
    ensures r.1 !in c.pending && r.1 in r.0.pending
    ensures r.0.pending[r.1] == Timer(c.now + ClampDelay(ms), kind)
    ensures forall h :: h in c.pending ==> h in r.0.pending && r.0.pending[h] == c.pending[h]
    ensures forall h :: h in r.0.pending ==> h == r.1 || h in c.pending
    ensures r.0.now == c.now && r.1 == c.nextHandle && r.0.nextHandle == c.nextHandle + 1
  {
    (Clock(c.now, c.pending[c.nextHandle := Timer(c.now + ClampDelay(ms), kind)], c.nextHandle + 1),
     c.nextHandle)
  }

  /** clearTimeout: the timer under `id` no longer fires; on `undefined`, an
      unknown or an already fired handle it does nothing. */
  function ClearTimeout(c: Clock, id: Option<Handle>): (r: Clock)
    requires Valid(c)
    ensures Valid(r) && r.now == c.now && r.nextHandle == c.nextHandle
    ensures forall h :: h in r.pending <==> h in c.pending && id != Some(h)
    ensures forall h :: h in r.pending ==> r.pending[h] == c.pending[h]
    ensures id.None? || id.value !in c.pending ==> r == c
  {
    match id
    case None => c
    case Some(h) => c.(pending := c.pending - {h})
  }

  /** Timers fire in order of deadline, and in order of creation on a tie. */
  predicate Precedes(a: Timer, ha: Handle, b: Timer, hb: Handle)
  {
    a.deadline < b.deadline || (a.deadline == b.deadline && ha <= hb)
  }

  /** `h` is the pending timer that fires first. */
  predicate IsEarliest(p: map<Handle, Timer>, h: Handle)
  {
    h in p && forall g :: g in p ==> Precedes(p[h], h, p[g], g)
  }

  /** A non-empty timer map has a first timer. */
  lemma {:induction false} EarliestExists(p: map<Handle, Timer>)
    requires p != map[]
    ensures exists h :: IsEarliest(p, h)
    decreases |p|
  {
    var k :| k in p;
    var rest := p - {k};
    assert rest.Keys == p.Keys - {k};
    if rest == map[] {
      forall g | g in p
        ensures Precedes(p[k], k, p[g], g)
      {
        assert g !in rest;
      }
      assert IsEarliest(p, k);
    } else {
      EarliestExists(rest);
      var h :| IsEarliest(rest, h);
      if Precedes(p[k], k, p[h], h) {
        forall g | g in p
          ensures Precedes(p[k], k, p[g], g)
        {
          if g != k { assert g in rest && Precedes(rest[h], h, rest[g], g); }
        }
        assert IsEarliest(p, k);
      } else {
        forall g | g in p
          ensures Precedes(p[h], h, p[g], g)
        {
          if g != k { assert g in rest && Precedes(rest[h], h, rest[g], g); }
        }
        assert IsEarliest(p, h);
      }
    }
  }

  /** There is only one first timer. */
  lemma EarliestUnique(p: map<Handle, Timer>, h1: Handle, h2: Handle)
    requires IsEarliest(p, h1) && IsEarliest(p, h2)
    ensures h1 == h2
  {
    assert Precedes(p[h1], h1, p[h2], h2) && Precedes(p[h2], h2, p[h1], h1);
  }

  /** The handle of the timer that fires next. */
  ghost function Earliest(p: map<Handle, Timer>): (h: Handle)
    requires p != map[]
    ensures IsEarliest(p, h)
  {
    EarliestExists(p);
    var h :| IsEarliest(p, h);
    h
  }

  /** The event loop running the next timer: the clock moves to its deadline
      and the timer leaves the queue; it fires no later than any timer left. */
  ghost function PopEarliest(c: Clock): (r: (Clock, Timer))
    requires Valid(c) && c.pending != map[]
    ensures Valid(r.0)
    ensures r.1 == c.pending[Earliest(c.pending)]
    ensures forall h :: h in r.0.pending <==> h in c.pending && h != Earliest(c.pending)
    ensures forall h :: h in r.0.pending ==> r.0.pending[h] == c.pending[h]
    ensures forall h :: h in r.0.pending ==> r.1.deadline <= r.0.pending[h].deadline
    ensures c.now <= r.0.now == r.1.deadline && r.0.nextHandle == c.nextHandle
    ensures |r.0.pending| < |c.pending|
  {
    var h := Earliest(c.pending);
    var rest := c.pending - {h};
    assert rest.Keys == c.pending.Keys - {h};
    (Clock(c.pending[h].deadline, rest, c.nextHandle), c.pending[h])
  }
}
