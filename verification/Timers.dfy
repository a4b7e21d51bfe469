/** Servicing the guest's timers at a loop boundary: the queue mirrors the APIC's
    armed deadline and the run's horizon. */
module Timers {
  import opened Prelude
  import opened VecBits
  import opened Interrupts
  import opened TimerMath
  import opened Lapic
  import opened EventQueue

  datatype TimerKind = LapicDeadline | StopRun

  /** The earlier of two optional deadlines. */
  function MinDeadline(a: Option<u64>, b: Option<u64>): (d: Option<u64>)
    ensures d == a || d == b
    ensures d.None? ==> a.None? && b.None?
    ensures d.Some? ==> (a.Some? ==> d.value <= a.value) && (b.Some? ==> d.value <= b.value)
  {
    match (a, b)
    case (Some(x), Some(y)) => Some(Min(x, y))
    case (Some(_), None) => a
    case (None, _) => b
  }

  /** The queue while the armed deadline and the horizon may be pending. */
  function Queued(armed: Option<Event<TimerKind>>, stop: Option<Event<TimerKind>>): seq<Event<TimerKind>> {
    (if armed.Some? then [armed.value] else []) + (if stop.Some? then [stop.value] else [])
  }

  function ArmedEvent(deadline: Option<u64>, base: nat): Option<Event<TimerKind>> {
    if deadline.Some? then Some(Event(deadline.value, LapicDeadline, base)) else None
  }

  function StopEvent(horizon: Option<u64>, deadline: Option<u64>, base: nat): Option<Event<TimerKind>> {
    if horizon.None? then None
    else Some(Event(horizon.value, StopRun, if deadline.Some? then base + 1 else base))
  }

  /** An event, if it is still to come after `now`. */
  function IfLater(e: Option<Event<TimerKind>>, now: u64): Option<Event<TimerKind>> {
    if e.Some? && e.value.deadline > now then e else None
  }

  predicate HorizonDue(horizon: Option<u64>, now: u64) {
    horizon.Some? && horizon.value <= now
  }

  lemma PopOne(armed: Option<Event<TimerKind>>, stop: Option<Event<TimerKind>>, m: nat)
    requires armed.Some? ==> armed.value.payload.LapicDeadline?
    requires stop.Some? ==> stop.value.payload.StopRun?
    requires IsFirst(Queued(armed, stop), m)
    ensures var e := Queued(armed, stop)[m];
            if e.payload.LapicDeadline?
            then armed == Some(e) && Without(Queued(armed, stop), m) == Queued(None, stop)
            else stop == Some(e) && Without(Queued(armed, stop), m) == Queued(armed, None)
  {
  }

  lemma AllLater(armed: Option<Event<TimerKind>>, stop: Option<Event<TimerKind>>, now: u64)
    requires NoneDue(Queued(armed, stop), now)
    ensures IfLater(armed, now) == armed && IfLater(stop, now) == stop
  {
    assert armed.Some? ==> armed.value in Queued(armed, stop);
    assert stop.Some? ==> stop.value in Queued(armed, stop);
  }

  method MirrorDeadlines(events: EventQueue<TimerKind>, deadline: Option<u64>, horizon: Option<u64>)
    requires events.Valid()
    modifies events
    ensures events.Valid()
    ensures events.heap == Queued(ArmedEvent(deadline, old(events.nextSeq)),
                                  StopEvent(horizon, deadline, old(events.nextSeq)))
  {
    events.Clear();
    if deadline.Some? {
      events.Push(deadline.value, LapicDeadline);
    }
    if horizon.Some? {
      events.Push(horizon.value, StopRun);
    }
  }

  /** The APIC's timer and priorities, as one value. */
  datatype Ticking = Ticking(timer: Timer, apic: Apic)

  ghost function View(lapic: Lapic): Ticking
    requires lapic.Valid()
    reads lapic
  {
    Ticking(lapic.Armed(), lapic.Priorities())
  }

  /** The APIC after servicing its timer at `now`. */
  ghost function Serviced(s: Ticking, now: u64): Ticking
    requires NoWrap(s.timer, now)
  {
    Ticking(s.timer.(deadline := Rearmed(s.timer, now)),
            s.apic.(irr := s.apic.irr + RaisedBy(s.timer, now)))
  }

  lemma NothingToService(s: Ticking, now: u64)
    requires NoWrap(s.timer, now) && !Due(s.timer, now)
    ensures Serviced(s, now) == s
  {
    assert s.apic.irr + {} == s.apic.irr;
  }

  /** Fire whatever is due at `now`, once: the APIC timer iff its deadline has come,
      the horizon iff it has. What was mirrored and is later stays queued. */
  method ServiceTimers(lapic: Lapic, events: EventQueue<TimerKind>, horizon: Option<u64>, now: u64)
    returns (horizonFired: bool)
    requires lapic.Valid() && events.Valid() && NoWrap(lapic.Armed(), now)
    modifies lapic, events
    ensures lapic.Valid() && events.Valid()
    ensures View(lapic) == Serviced(old(View(lapic)), now)
    ensures horizonFired == HorizonDue(horizon, now)
    ensures var l, base := old(lapic.timerDeadline), old(events.nextSeq);
            events.heap == Queued(IfLater(ArmedEvent(l, base), now), IfLater(StopEvent(horizon, l, base), now))
  {
    hide Vectors, NextBoundary, TimerOk, Masked, TimerVector, Queued, Without, InOrder, Rearmed, RaisedBy;
    ghost var start := View(lapic);
    ghost var armed0 := ArmedEvent(lapic.timerDeadline, events.nextSeq);
    ghost var stop0 := StopEvent(horizon, lapic.timerDeadline, events.nextSeq);
    if !Due(start.timer, now) {
      NothingToService(start, now);
    }
    MirrorDeadlines(events, lapic.timerDeadline, horizon);
    horizonFired := false;
    ghost var armed, stop := armed0, stop0;
    var more := true;
    while more
      invariant lapic.Valid() && events.Valid()
      invariant events.heap == Queued(armed, stop)
      invariant armed == armed0 || (armed == None && Due(start.timer, now))
      invariant stop == stop0 || (stop == None && HorizonDue(horizon, now))
      invariant View(lapic) == if armed == armed0 then start else Serviced(start, now)
      invariant horizonFired == (stop != stop0)
      invariant !more ==> NoneDue(events.heap, now)
      decreases |events.heap|, more
    {
      var e := events.PopDue(now);
      if e.None? {
        more := false;
      } else {
        ghost var m: nat :| IsFirst(Queued(armed, stop), m) && e.value == Queued(armed, stop)[m]
                            && events.heap == Without(Queued(armed, stop), m);
        PopOne(armed, stop, m);
        match e.value.payload
        case LapicDeadline =>
          var _ := lapic.FireTimerIfDue(now);
          armed := None;
        case StopRun =>
          horizonFired := true;
          stop := None;
      }
    }
    AllLater(armed, stop, now);
  }

  /** The next time anything is to happen, read at the boundary just serviced: the
      live APIC deadline or the horizon, whichever is first, and later than `now`. */
  method BoundaryTarget(lapic: Lapic, events: EventQueue<TimerKind>, ghost horizon: Option<u64>,
                        ghost before: Timer, ghost base: nat, ghost now: u64)
    returns (target: Option<u64>)
    requires lapic.Valid() && events.Valid() && NoWrap(before, now) && !HorizonDue(horizon, now)
    requires lapic.timerDeadline == Rearmed(before, now)
    requires events.heap == Queued(IfLater(ArmedEvent(before.deadline, base), now),
                                   StopEvent(horizon, before.deadline, base))
    ensures target == MinDeadline(lapic.timerDeadline, horizon)
    ensures target.Some? ==> target.value > now
  {
    hide NextBoundary;
    var queued := events.PeekDeadline();
    target := MinDeadline(queued, lapic.timerDeadline);
    assert horizon.Some? ==> StopEvent(horizon, before.deadline, base).value in events.heap;
    if Due(before, now) && before.period > 0 {
      NextBoundaryIsFirst(before.deadline.value, before.period, now, 0);
    } else if before.deadline.Some? && !Due(before, now) {
      assert ArmedEvent(before.deadline, base).value in events.heap;
    }
  }

  // Parking: many services stand for one.

  lemma RearmedTwice(t: Timer, now: u64, later: u64)
    requires now <= later && NoWrap(t, later)
    ensures NoWrap(t, now)
    ensures var r := t.(deadline := Rearmed(t, now));
            && NoWrap(r, later)
            && Rearmed(r, later) == Rearmed(t, later)
  {
    if Due(t, now) && t.period > 0 {
      var dl := t.deadline.value;
      CatchUpTwice(dl, t.period, now, later);
      NextBoundaryIsFirst(dl, t.period, later, 0);
      NextBoundaryIsFirst(dl, t.period, now, 0);
      var next := NextBoundary(dl, t.period, now);
      if next <= later {
        NextBoundaryIsFirst(next, t.period, later, 0);
      }
    }
  }

  /** Servicing at `now` and again `later` is servicing once, `later`. */
  lemma ServicedTwice(s: Ticking, now: u64, later: u64)
    requires now <= later && NoWrap(s.timer, later)
    ensures NoWrap(s.timer, now) && NoWrap(Serviced(s, now).timer, later)
    ensures Serviced(Serviced(s, now), later) == Serviced(s, later)
  {
    hide NextBoundary, Rearmed, Masked, TimerVector;
    RearmedTwice(s.timer, now, later);
    var irr := s.apic.irr;
    var first, second := RaisedBy(s.timer, now), RaisedBy(Serviced(s, now).timer, later);
    RaisedOnce(s.timer, now, later);
    assert irr + first + second == irr + (first + second);
  }

  lemma RaisedOnce(t: Timer, now: u64, later: u64)
    requires now <= later && NoWrap(t, now)
    ensures RaisedBy(t, now) + RaisedBy(t.(deadline := Rearmed(t, now)), later) == RaisedBy(t, later)
  {
  }

  ghost predicate Ascending(times: seq<u64>) {
    forall i, j :: 0 <= i < j < |times| ==> times[i] <= times[j]
  }

  /** A parked APIC serviced again and again at non-decreasing times is in the state
      one service at the last time would have left it in, and the horizon is seen to
      fire iff the last time has reached it. */
  method ServiceWhileParked(lapic: Lapic, events: EventQueue<TimerKind>, horizon: Option<u64>, times: seq<u64>)
    returns (horizonFired: bool)
    requires lapic.Valid() && events.Valid() && times != [] && Ascending(times)
    requires NoWrap(lapic.Armed(), times[|times| - 1])
    modifies lapic, events
    ensures lapic.Valid() && events.Valid()
    ensures View(lapic) == Serviced(old(View(lapic)), times[|times| - 1])
    ensures horizonFired == HorizonDue(horizon, times[|times| - 1])
  {
    hide Lapic.Armed, Lapic.Priorities, Serviced, Rearmed, RaisedBy, NextBoundary, Queued, IfLater;
    hide StopEvent, ArmedEvent;
    ghost var start, last := View(lapic), times[|times| - 1];
    horizonFired := false;
    ghost var at: Option<u64> := None;
    for i := 0 to |times|
      invariant lapic.Valid() && events.Valid()
      invariant at == if i == 0 then None else Some(times[i - 1])
      invariant at.Some? ==> NoWrap(start.timer, at.value) && View(lapic) == Serviced(start, at.value)
      invariant at.None? ==> View(lapic) == start
      invariant NoWrap(View(lapic).timer, last)
      invariant horizonFired == (at.Some? && HorizonDue(horizon, at.value))
    {
      var now := times[i];
      ServicedTwice(start, now, last);
      if at.Some? {
        ServicedTwice(start, at.value, now);
      }
      var due := ServiceTimers(lapic, events, horizon, now);
      horizonFired := horizonFired || due;
      at := Some(now);
    }
  }
}
