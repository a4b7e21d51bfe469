/** The tick doorbell: a host timer whose signal breaks the guest out of KVM_RUN.
    The vCPU loop, the host timer and the signal handler interleave freely; no
    interleaving enters the guest with a deadline pending and nothing to end the run. */
module Doorbell {
  import opened Prelude

  type Deadline = Option<int>

  /** Where the vCPU thread is. */
  datatype Pc =
    | Top
    | Cleared
    | Boundary
    | Swapped(sawFire: bool)
    | Sampled(now: int)
    | Running
    | Exited
    | Parked
    | ParkedBoundary

  /** `host` is the host counter, `host + offset` virtual time. `timer` holds the host
      time of a live one-shot, set when the offset was `armOffset` and `gap` host
      cycles after the clock was read for it. `immediateExit` and `fired` are what
      the signal handler sets. */
  datatype Bell = Bell(
    pc: Pc, host: int, offset: int,
    lapic: Deadline, horizon: Deadline, queue: Deadline, servicedAt: int,
    immediateExit: bool, fired: bool, signalPending: bool,
    timer: Deadline, armOffset: int, gap: nat, lastArmed: Deadline)
  {
    function Now(): int {
      host + offset
    }

    /** `min_deadline` of the queue and the live APIC deadline. */
    function Target(): Deadline {
      Earliest(queue, lapic)
    }
  }

  function Earliest(a: Deadline, b: Deadline): Deadline {
    if a.None? then b else if b.None? then a else Some(Min(a.value, b.value))
  }

  function Later(d: Deadline, now: int): Deadline {
    if d.Some? && d.value > now then d else None
  }

  datatype Move =
    // the world
    | Tick(n: nat)
    | Expire
    | Deliver
    // the vCPU loop
    | Clear
    | Service(rearmed: Deadline)
    | Swap
    | SkipArming
    | Disarm
    | Sample
    | SetTimer(span: int)
    | Exit
    | Eintr
    | Mmio(programmed: Deadline)
    | Halt
    // the park
    | ParkService(rearmed: Deadline)
    | ParkWait
    | Jump
    | Wake

  /** Servicing fires what is due: a later deadline stays, a due one is disarmed or
      moved beyond now. The horizon ends the run instead. */
  predicate MayService(b: Bell, rearmed: Deadline) {
    && Later(b.horizon, b.Now()) == b.horizon
    && if Later(b.lapic, b.Now()) == b.lapic then rearmed == b.lapic else Later(rearmed, b.Now()) == rearmed
  }

  function AfterService(b: Bell, pc: Pc, rearmed: Deadline): Bell {
    b.(pc := pc, servicedAt := b.Now(), lapic := rearmed,
       queue := Earliest(Later(b.lapic, b.Now()), b.horizon))
  }

  /** The span a one-shot for `d` may be set to when the clock was read at `now`: no
      longer than to the deadline, or than one nanosecond (`tick` cycles). The span
      counts from the moment the timer is set. */
  predicate MaySet(d: int, now: int, span: int, tick: nat) {
    span <= d - now || span <= tick
  }

  predicate NeedsArming(b: Bell) {
    b.pc.Swapped? && (b.pc.sawFire || b.Target() != b.lastArmed)
  }

  predicate Enabled(b: Bell, m: Move, tick: nat) {
    match m
    case Tick(_) => true
    case Expire => b.timer.Some? && b.timer.value <= b.host
    case Deliver => b.signalPending
    case Clear => b.pc.Top?
    case Service(r) => b.pc.Cleared? && MayService(b, r)
    case Swap => b.pc.Boundary?
    case SkipArming => b.pc.Swapped? && !b.pc.sawFire && b.Target() == b.lastArmed
    case Disarm => NeedsArming(b) && b.Target().None?
    case Sample => NeedsArming(b) && b.Target().Some?
    case SetTimer(span) =>
      b.pc.Sampled? && b.Target().Some? && MaySet(b.Target().value, b.pc.now + b.offset, span, tick)
    case Exit => b.pc.Running?
    case Eintr => b.pc.Running?
    case Mmio(_) => b.pc.Exited?
    case Halt => b.pc.Exited?
    case ParkService(r) => b.pc.Parked? && MayService(b, r)
    case ParkWait => b.pc.ParkedBoundary?
    case Jump => b.pc.ParkedBoundary? && b.queue.Some? && b.queue.value > b.Now()
    case Wake => b.pc.ParkedBoundary?
  }

  function Next(b: Bell, m: Move): Bell {
    match m
    case Tick(n) => b.(host := b.host + n)
    case Expire => b.(timer := None, signalPending := true)
    case Deliver => b.(signalPending := false, immediateExit := true, fired := true)
    case Clear => b.(pc := Cleared, immediateExit := false)
    case Service(r) => AfterService(b, Boundary, r)
    case Swap => b.(pc := Swapped(b.fired), fired := false)
    case SkipArming => b.(pc := Running)
    case Disarm => b.(pc := Running, lastArmed := None, timer := None)
    case Sample => b.(pc := Sampled(b.host), lastArmed := b.Target())
    case SetTimer(span) =>
      if b.pc.Sampled? && b.pc.now <= b.host then
        b.(pc := Running, timer := Some(b.host + span), armOffset := b.offset, gap := b.host - b.pc.now)
      else b
    case Exit => b.(pc := Exited)
    case Eintr => b.(pc := Top)
    case Mmio(d) => b.(pc := Top, lapic := d)
    case Halt => b.(pc := Parked)
    case ParkService(r) => AfterService(b, ParkedBoundary, r)
    case ParkWait => b.(pc := Parked)
    case Jump => if b.queue.Some? then b.(pc := Parked, offset := b.offset + (b.queue.value - b.Now())) else b
    case Wake => b.(pc := Top)
  }

  predicate Run(start: Bell, moves: seq<Move>, tick: nat)
    decreases |moves|
  {
    moves == [] ||
    (Run(start, moves[..|moves| - 1], tick) &&
     Enabled(After(start, moves[..|moves| - 1]), moves[|moves| - 1], tick))
  }

  function After(start: Bell, moves: seq<Move>): Bell
    decreases |moves|
  {
    if moves == [] then start else Next(After(start, moves[..|moves| - 1]), moves[|moves| - 1])
  }

  predicate Initial(b: Bell) {
    b.pc == Top && b.timer == None && b.lastArmed == None && !b.immediateExit && !b.fired && !b.signalPending
  }

  /** Something will end a guest run in time for `d`: KVM_RUN returns at once, a
      signal is waiting, or the live timer goes off by `d`, late by no more than the
      time between reading the clock and setting it (or a nanosecond from now). */
  predicate WillWake(b: Bell, d: int, tick: nat) {
    || b.immediateExit
    || b.signalPending
    || (b.timer.Some? && (b.timer.value + b.offset <= d + b.gap || b.timer.value <= b.host + tick))
  }

  // The invariant.

  /** After a service until the guest's exit is handled, everything pending is later
      than the service, and the target is the minimum of all of it. */
  predicate TargetOk(b: Bell) {
    b.pc.Boundary? || b.pc.Swapped? || b.pc.Sampled? || b.pc.Running? || b.pc.Exited? ==>
      && Later(b.Target(), b.servicedAt) == b.Target()
      && b.Target() == Earliest(b.lapic, b.horizon)
  }

  /** The deadline the timer was last set for is the target from arming on; parked, it
      is the pending minimum until it is behind. */
  predicate ArmedOk(b: Bell) {
    match b.pc
    case Sampled(now) => now <= b.host && b.lastArmed == b.Target()
    case Running => b.lastArmed == b.Target()
    case Exited => b.lastArmed == b.Target()
    case Parked => b.lastArmed == Earliest(b.lapic, b.horizon) || Behind(b.lastArmed, b.Now())
    case ParkedBoundary =>
      (b.lastArmed == b.queue && b.queue == Earliest(b.lapic, b.horizon)) || Behind(b.lastArmed, b.Now())
    case _ => true
  }

  predicate Behind(d: Deadline, now: int) {
    d.Some? && d.value <= now
  }

  /** A jump leaves the timer set under an earlier offset only when its deadline is
      behind, so the next arming cannot take it for current. */
  predicate StaleIsBehind(b: Bell) {
    || b.armOffset == b.offset
    || b.lastArmed.None?
    || b.pc.Sampled?
    || (&& Behind(b.lastArmed, if b.pc.Boundary? || b.pc.Swapped? then b.servicedAt else b.Now())
        && !b.pc.Running? && !b.pc.Exited?)
  }

  /** A deadline once armed has a live timer in time for it, or its signal has left
      a trace that the next arming, or KVM_RUN, will see. */
  predicate Traced(b: Bell, tick: nat) {
    && (b.lastArmed.Some? && !b.pc.Sampled? ==>
          b.timer.Some? || b.signalPending || b.fired || (b.pc.Swapped? && b.pc.sawFire))
    && (b.lastArmed.Some? && b.timer.Some? && !b.pc.Sampled? ==>
          b.timer.value + b.armOffset <= b.lastArmed.value + b.gap || b.timer.value <= b.host + tick)
    && (b.fired && (b.pc.Swapped? || b.pc.Sampled? || b.pc.Running?) ==> b.immediateExit)
  }

  predicate Inv(b: Bell, tick: nat) {
    TargetOk(b) && ArmedOk(b) && StaleIsBehind(b) && Traced(b, tick)
  }

  lemma KeepsTarget(b: Bell, m: Move, tick: nat)
    requires TargetOk(b) && Enabled(b, m, tick)
    ensures TargetOk(Next(b, m))
  {
  }

  lemma KeepsArmed(b: Bell, m: Move, tick: nat)
    requires Inv(b, tick) && Enabled(b, m, tick)
    ensures ArmedOk(Next(b, m))
  {
    hide Traced;
  }

  lemma KeepsStale(b: Bell, m: Move, tick: nat)
    requires Inv(b, tick) && Enabled(b, m, tick)
    ensures StaleIsBehind(Next(b, m))
  {
    hide Traced;
  }

  lemma KeepsTraced(b: Bell, m: Move, tick: nat)
    requires Inv(b, tick) && Enabled(b, m, tick)
    ensures Traced(Next(b, m), tick)
  {
    hide StaleIsBehind;
  }

  lemma NextKeeps(b: Bell, m: Move, tick: nat)
    requires Inv(b, tick) && Enabled(b, m, tick)
    ensures Inv(Next(b, m), tick)
  {
    hide TargetOk, ArmedOk, StaleIsBehind, Traced, Enabled, Next;
    KeepsTarget(b, m, tick);
    KeepsArmed(b, m, tick);
    KeepsStale(b, m, tick);
    KeepsTraced(b, m, tick);
  }

  lemma {:induction false} RunKeeps(start: Bell, moves: seq<Move>, tick: nat)
    requires Initial(start) && Run(start, moves, tick)
    ensures Inv(After(start, moves), tick)
    decreases |moves|
  {
    hide Inv, Enabled, Next;
    if moves == [] {
      assert Inv(start, tick) by {
        InitialInv(start, tick);
      }
    } else {
      RunKeeps(start, moves[..|moves| - 1], tick);
      NextKeeps(After(start, moves[..|moves| - 1]), moves[|moves| - 1], tick);
    }
  }

  lemma InitialInv(b: Bell, tick: nat)
    requires Initial(b)
    ensures Inv(b, tick)
  {
  }

  /** No lost wakeup: in every interleaving, whenever the guest runs with a deadline
      pending, something is set to end the run for the earliest one: at once, or when
      it is due, late by no more than the gap in arming. */
  lemma NoLostWakeup(start: Bell, moves: seq<Move>, tick: nat)
    requires Initial(start) && Run(start, moves, tick)
    ensures var b := After(start, moves);
            var first := Earliest(b.lapic, b.horizon);
            b.pc.Running? && first.Some? ==> WillWake(b, first.value, tick)
  {
    hide Run, After;
    RunKeeps(start, moves, tick);
  }

  /** The gap is real: however long the thread is held up between reading the clock
      and setting the timer, the timer is that late. */
  lemma HeldUpArming(n: nat, tick: nat) returns (start: Bell, moves: seq<Move>)
    ensures Initial(start) && Run(start, moves, tick)
    ensures var b := After(start, moves);
            b.pc.Running? && b.lapic.Some? && b.timer == Some(b.lapic.value - b.offset + n)
  {
    start, moves := Late(Top, 0, None, None, 0, None), [];
    assert Run(start, moves, tick) && After(start, moves) == start;
    FirstSteps(tick);
    LastSteps(n, tick);
    hide Run, After, Enabled, Next;
    moves := Extend(start, moves, Clear, tick);
    moves := Extend(start, moves, Service(Some(100)), tick);
    moves := Extend(start, moves, Swap, tick);
    moves := Extend(start, moves, Sample, tick);
    moves := Extend(start, moves, Tick(n), tick);
    moves := Extend(start, moves, SetTimer(100), tick);
  }

  /** A bell with one deadline, at 100, and no jump or signal yet. */
  function Late(pc: Pc, host: int, queue: Deadline, timer: Deadline, gap: nat, lastArmed: Deadline): Bell {
    Bell(pc, host, 0, Some(100), None, queue, 0, false, false, false, timer, 0, gap, lastArmed)
  }

  lemma FirstSteps(tick: nat)
    ensures var a, b := Late(Top, 0, None, None, 0, None), Late(Cleared, 0, None, None, 0, None);
            Enabled(a, Clear, tick) && Next(a, Clear) == b
    ensures var a, b := Late(Cleared, 0, None, None, 0, None), Late(Boundary, 0, Some(100), None, 0, None);
            Enabled(a, Service(Some(100)), tick) && Next(a, Service(Some(100))) == b
    ensures var a, b := Late(Boundary, 0, Some(100), None, 0, None), Late(Swapped(false), 0, Some(100), None, 0, None);
            Enabled(a, Swap, tick) && Next(a, Swap) == b
  {
  }

  lemma LastSteps(n: nat, tick: nat)
    ensures var a, b := Late(Swapped(false), 0, Some(100), None, 0, None),
                        Late(Sampled(0), 0, Some(100), None, 0, Some(100));
            Enabled(a, Sample, tick) && Next(a, Sample) == b
    ensures var a, b := Late(Sampled(0), 0, Some(100), None, 0, Some(100)),
                        Late(Sampled(0), n, Some(100), None, 0, Some(100));
            Enabled(a, Tick(n), tick) && Next(a, Tick(n)) == b
    ensures var a, b := Late(Sampled(0), n, Some(100), None, 0, Some(100)),
                        Late(Running, n, Some(100), Some(n + 100), n, Some(100));
            Enabled(a, SetTimer(100), tick) && Next(a, SetTimer(100)) == b
  {
  }

  lemma Extend(start: Bell, before: seq<Move>, m: Move, tick: nat) returns (moves: seq<Move>)
    requires Run(start, before, tick) && Enabled(After(start, before), m, tick)
    ensures Run(start, moves, tick) && After(start, moves) == Next(After(start, before), m)
  {
    moves := before + [m];
    assert moves[..|before|] == before;
  }

  /** A jump lands on the queue's minimum and so passes nothing queued; and with it
      the deadline the timer was set for is behind. */
  lemma JumpPassesNothing(start: Bell, moves: seq<Move>, tick: nat)
    requires Initial(start) && Run(start, moves, tick)
    ensures var b := After(start, moves);
            b.pc.ParkedBoundary? && Enabled(b, Jump, tick) ==>
              && Next(b, Jump).Now() == b.queue.value
              && Behind(b.lastArmed, Next(b, Jump).Now())
  {
    hide Run, After;
    RunKeeps(start, moves, tick);
  }

  // What the flags tell.

  datatype Flag = ExitFlag | FiredFlag | SignalFlag

  predicate Raises(m: Move, f: Flag) {
    match f
    case ExitFlag => m.Deliver?
    case FiredFlag => m.Deliver?
    case SignalFlag => m.Expire?
  }

  predicate Lowers(m: Move, f: Flag) {
    match f
    case ExitFlag => m.Clear?
    case FiredFlag => m.Swap?
    case SignalFlag => m.Deliver?
  }

  function IsUp(b: Bell, f: Flag): bool {
    match f
    case ExitFlag => b.immediateExit
    case FiredFlag => b.fired
    case SignalFlag => b.signalPending
  }

  /** Raised, and not lowered since. */
  predicate RaisedLast(moves: seq<Move>, f: Flag) {
    exists k :: 0 <= k < |moves| && Raises(moves[k], f) && forall j :: k < j < |moves| ==> !Lowers(moves[j], f)
  }

  lemma RaisedStep(moves: seq<Move>, m: Move, f: Flag)
    ensures RaisedLast(moves + [m], f) <==> Raises(m, f) || (RaisedLast(moves, f) && !Lowers(m, f))
  {
    hide Raises, Lowers;
    var all := moves + [m];
    assert all[|moves|] == m;
    if RaisedLast(all, f) && !Raises(m, f) {
      var k :| 0 <= k < |all| && Raises(all[k], f) && forall j :: k < j < |all| ==> !Lowers(all[j], f);
      assert Raises(moves[k], f) && forall j :: k < j < |moves| ==> moves[j] == all[j];
    }
    if RaisedLast(moves, f) && !Lowers(m, f) {
      var k :| 0 <= k < |moves| && Raises(moves[k], f) && forall j :: k < j < |moves| ==> !Lowers(moves[j], f);
      assert Raises(all[k], f);
    }
  }

  lemma FlagStep(b: Bell, m: Move, f: Flag)
    ensures IsUp(Next(b, m), f) <==> Raises(m, f) || (IsUp(b, f) && !Lowers(m, f))
  {
  }

  /** KVM_RUN is cut short only by a signal that came since the loop last cleared the
      way, a fire is seen once, and a signal waits until it is delivered: a guest that
      no signal disturbs does run. */
  lemma {:induction false} FlagsTell(start: Bell, moves: seq<Move>, f: Flag)
    requires Initial(start)
    ensures IsUp(After(start, moves), f) <==> RaisedLast(moves, f)
    decreases |moves|
  {
    if moves != [] {
      var before, m := moves[..|moves| - 1], moves[|moves| - 1];
      assert moves == before + [m];
      FlagsTell(start, before, f);
      RaisedStep(before, m, f);
      FlagStep(After(start, before), m, f);
      hide RaisedLast, IsUp, Raises, Lowers, Next;
    }
  }

  /** With nothing armed there is no timer to disturb it. */
  lemma {:induction false} NothingArmed(start: Bell, moves: seq<Move>, tick: nat)
    requires Initial(start) && Run(start, moves, tick)
    ensures After(start, moves).lastArmed.None? ==> After(start, moves).timer.None?
    decreases |moves|
  {
    if moves != [] {
      var before := moves[..|moves| - 1];
      hide Inv, Enabled, Next;
      NothingArmed(start, before, tick);
      RunKeeps(start, before, tick);
      UnarmedStep(After(start, before), moves[|moves| - 1], tick);
    }
  }

  lemma UnarmedStep(b: Bell, m: Move, tick: nat)
    requires Inv(b, tick) && Enabled(b, m, tick) && (b.lastArmed.None? ==> b.timer.None?)
    ensures Next(b, m).lastArmed.None? ==> Next(b, m).timer.None?
  {
    hide TargetOk, StaleIsBehind, Traced, MayService, AfterService, MaySet;
    if m.Service? || m.ParkService? {
      ServiceKeepsTimer(b, if m.Service? then Boundary else ParkedBoundary, m.rearmed);
    }
  }

  lemma ServiceKeepsTimer(b: Bell, pc: Pc, rearmed: Deadline)
    ensures AfterService(b, pc, rearmed).timer == b.timer && AfterService(b, pc, rearmed).lastArmed == b.lastArmed
  {
  }
}
