/** The fast-forward park: a halted guest's clock jumps to the next deadline, but
    never over live external state. */
module Park {
  import opened Prelude
  import opened VecBits
  import opened Interrupts
  import opened TimerMath
  import opened Lapic
  import opened EventQueue
  import opened Timers
  import opened VirtualClock
  import EgressCodec
  import opened EgressHost
  import opened EgressChannel
  import Doorbell

  datatype ParkOutcome =
    | Deliverable
    | Horizon
    | DriverFinish
    | FramingLost
    | JumpTooLong
    | GateBreached // the tripwire before every jump
    | ClockRefused
    | OutOfRange   // virtual time within a timer period of 2^64

  /** The world as it was when the clock was moved. */
  datatype Jump = Jump(
    from: u64, landed: u64,
    queue: seq<Event<TimerKind>>, apic: Apic,
    sockets: set<u16>, asked: set<Job>, unparsed: seq<byte>, unsent: seq<byte>, captured: seq<byte>)

  const NO_APIC := Apic(false, 0, {}, {})
  const NO_EGRESS := Jump(0, 0, [], NO_APIC, {}, {}, [], [], [])

  /** No socket is open, no name is being looked up, no byte is between guest and
      world; no interrupt could be delivered instead; and the clock stops exactly at the
      earliest queued deadline, within the bound unless that is the run's horizon. */
  ghost predicate Safe(j: Jump, horizon: Option<u64>, maxJump: nat) {
    && j.sockets == {} && j.asked == {}
    && j.unparsed == [] && j.unsent == [] && j.captured == []
    && Interrupts.Deliverable(j.apic).None?
    && j.from < j.landed
    && (exists e :: e in j.queue && e.deadline == j.landed)
    && (forall e :: e in j.queue ==> j.landed <= e.deadline)
    && (j.landed - j.from <= maxJump || horizon == Some(j.landed))
  }

  /** Virtual time a jump skips. */
  function Skipped(j: Option<Jump>): int {
    if j.Some? then j.value.landed - j.value.from else 0
  }

  function TotalSkipped(jumps: seq<Jump>): int {
    if jumps == [] then 0
    else TotalSkipped(jumps[..|jumps| - 1]) + Skipped(Some(jumps[|jumps| - 1]))
  }

  predicate MoreRaised(before: Apic, after: Apic) {
    before.irr <= after.irr && after == before.(irr := after.irr)
  }

  /** The APIC as a service at `now` leaves it, with whatever devices raised besides. */
  ghost predicate ServicedAt(before: Ticking, after: Ticking, now: u64) {
    && NoWrap(before.timer, now)
    && after.timer == before.timer.(deadline := Rearmed(before.timer, now))
    && MoreRaised(before.apic.(irr := before.apic.irr + RaisedBy(before.timer, now)), after.apic)
  }

  /** The deadlines still to come: the one that was armed, and the horizon. */
  ghost predicate Awaited(queue: seq<Event<TimerKind>>, armed: Option<u64>, horizon: Option<u64>, now: u64) {
    exists base: nat ::
      queue == Queued(IfLater(ArmedEvent(armed, base), now), IfLater(StopEvent(horizon, armed, base), now))
  }

  /** Interrupts other devices raise while we look away. */
  method DevicesRaise(lapic: Lapic)
    requires lapic.Valid()
    modifies lapic`irr
    ensures lapic.Valid() && MoreRaised(old(lapic.Priorities()), lapic.Priorities())
  {
    hide Vectors;
    var rounds: int := *;
    while rounds > 0
      invariant lapic.Valid() && MoreRaised(old(lapic.Priorities()), lapic.Priorities())
    {
      var v: Vector := *;
      lapic.RaiseVector(v);
      rounds := rounds - 1;
    }
  }

  /** Record what egress holds, if there is any. */
  ghost function Egress(channel: EgressChannel?): Jump
    reads channel, if channel != null then {channel.backend, channel.backend.connector} else {}
  {
    if channel == null then NO_EGRESS
    else Jump(0, 0, [], NO_APIC, channel.backend.connector.sockets, channel.backend.connector.asked,
              channel.backend.rxParse, channel.backend.txPending, channel.captured)
  }

  ghost predicate EgressValid(channel: EgressChannel?)
    reads channel, if channel != null then {channel.backend, channel.backend.connector} else {}
  {
    channel != null ==> channel.Valid()
  }

  predicate Quiescent(channel: EgressChannel?)
    reads channel, if channel != null then {channel.backend} else {}
  {
    channel != null ==> channel.backend.IsQuiescent()
  }

  /** What the guest wrote still splits into frames. */
  ghost predicate FramingHolds(channel: EgressChannel?)
    reads channel, if channel != null then {channel.backend} else {}
  {
    channel != null ==> EgressCodec.Parse(channel.backend.rxParse + channel.captured).error.None?
  }

  /** The pump of the boundary, when there is egress at all. */
  method PumpEgress(channel: EgressChannel?) returns (ok: bool)
    requires EgressValid(channel)
    modifies channel, if channel != null then {channel.backend, channel.backend.connector} else {}
    ensures EgressValid(channel) && ok == old(FramingHolds(channel))
    ensures channel != null ==> channel.captured == []
  {
    hide EgressChannel.Valid, EgressCodec.Parse;
    ok := true;
    if channel != null {
      var error := channel.Pump();
      ok := error.None?;
    }
  }

  /** The gate is open exactly when egress holds nothing. */
  lemma QuiescentIffIdle(channel: EgressChannel?)
    requires EgressValid(channel) && (channel != null ==> channel.captured == [])
    ensures var e := Egress(channel);
            Quiescent(channel) <==>
              e.sockets == {} && e.asked == {} && e.unparsed == [] && e.unsent == [] && e.captured == []
  {
    if channel != null {
      channel.backend.QuiescentIffIdle();
    }
  }

  /** The jump itself, from one host sample: the bound, the tripwire, the bump. It is
      made whenever the deadline is ahead and none of them is in the way. */
  method TryJump(clock: Clock, channel: EgressChannel?, next: u64, host: u64, horizon: Option<u64>, maxJump: nat,
                 ghost queue: seq<Event<TimerKind>>, ghost apic: Apic)
    returns (outcome: Option<ParkOutcome>, ghost jump: Option<Jump>)
    requires clock.Valid() && EgressValid(channel) && (channel != null ==> channel.captured == [])
    requires exists e :: e in queue && e.deadline == next
    requires forall e :: e in queue ==> next <= e.deadline
    requires Interrupts.Deliverable(apic).None?
    modifies clock, clock.kvm
    ensures clock.Valid() && EgressValid(channel)
    ensures clock.offset == old(clock.offset) + Skipped(jump)
    ensures jump.Some? ==>
              && Safe(jump.value, horizon, maxJump) && jump.value.queue == queue && jump.value.apic == apic
              && jump.value.from == old(clock.VtscFromHost(host)) && clock.VtscFromHost(host) == jump.value.landed
    ensures outcome.None? ==> (jump.Some? <==> next > old(clock.VtscFromHost(host)))
    ensures outcome.Some? ==> jump.None? && next > old(clock.VtscFromHost(host)) && JumpFails(outcome.value)
    ensures outcome == Some(JumpTooLong) <==>
              horizon != Some(next) && next - old(clock.VtscFromHost(host)) > maxJump
    ensures outcome == Some(GateBreached) <==>
              && next > old(clock.VtscFromHost(host)) && !old(Quiescent(channel))
              && (horizon == Some(next) || next - old(clock.VtscFromHost(host)) <= maxJump)
  {
    hide Interrupts.Deliverable;
    outcome, jump := None, None;
    var now := clock.VtscFromHost(host);
    if next <= now {
      return;
    }
    if horizon != Some(next) && next - now > maxJump {
      return Some(JumpTooLong), None;
    }
    if !Quiescent(channel) {
      return Some(GateBreached), None;
    }
    QuiescentIffIdle(channel);
    var r := clock.JumpTo(host, next);
    if !r.Bumped? {
      return Some(ClockRefused), None;
    }
    jump := Some(Egress(channel).(from := now, landed := next, queue := queue, apic := apic));
  }

  /** The host sample and the jump. */
  method JumpNow(clock: Clock, channel: EgressChannel?, next: u64, horizon: Option<u64>, maxJump: nat,
                 counter: HostCounter, ghost queue: seq<Event<TimerKind>>, ghost apic: Apic)
    returns (outcome: Option<ParkOutcome>, ghost jump: Option<Jump>)
    requires clock.Valid() && EgressValid(channel) && (channel != null ==> channel.captured == [])
    requires exists e :: e in queue && e.deadline == next
    requires forall e :: e in queue ==> next <= e.deadline
    requires counter.InStep(clock.offset) && Interrupts.Deliverable(apic).None?
    modifies clock, clock.kvm, counter
    ensures clock.Valid() && EgressValid(channel)
    ensures counter.InStep(clock.offset) && old(counter.readings) <= counter.readings
    ensures clock.offset == old(clock.offset) + Skipped(jump)
    ensures jump.Some? ==> Safe(jump.value, horizon, maxJump) && jump.value.queue == queue && jump.value.apic == apic
    ensures outcome.None? && jump.None? ==> next <= Vtsc(counter.now, clock.offset)
    ensures outcome.Some? ==> jump.None? && JumpFails(outcome.value)
    ensures outcome == Some(GateBreached) ==> !old(Quiescent(channel))
  {
    hide EgressChannel.Valid, Ordered, Interrupts.Deliverable;
    var host := counter.Read(clock);
    outcome, jump := TryJump(clock, channel, next, host, horizon, maxJump, queue, apic);
  }

  /** Ways in which a park ends at the jump. */
  predicate JumpFails(outcome: ParkOutcome) {
    outcome.JumpTooLong? || outcome.GateBreached? || outcome.ClockRefused?
  }

  /** Service the timers at a reading of the clock, unless that is within a period of
      the end of virtual time. */
  method ServiceDue(lapic: Lapic, events: EventQueue<TimerKind>, clock: Clock, horizon: Option<u64>,
                    counter: HostCounter)
    returns (inRange: bool, stop: bool, now: u64)
    requires lapic.Valid() && events.Valid() && counter.InStep(clock.offset)
    modifies lapic, events, counter
    ensures lapic.Valid() && events.Valid()
    ensures counter.InStep(clock.offset) && old(counter.readings) <= counter.readings
    ensures now == Vtsc(counter.now, clock.offset) && inRange == (now + old(lapic.timerPeriod) < TWO64)
    ensures inRange ==>
              && ServicedAt(old(View(lapic)), View(lapic), now)
              && Awaited(events.heap, old(lapic.timerDeadline), horizon, now)
              && stop == HorizonDue(horizon, now)
  {
    hide Vectors, TimerOk, HostCounter.InStep, Rearmed, RaisedBy, NoWrap, Queued, IfLater, Serviced, ServicedAt, Vtsc;
    hide Interrupts.Deliverable, HorizonDue, ArmedEvent, StopEvent;
    stop := false;
    ghost var start := View(lapic);
    DevicesRaise(lapic);
    ghost var raised := View(lapic);
    var host := counter.Read(clock);
    now := clock.VtscFromHost(host);
    inRange := now + lapic.timerPeriod < TWO64;
    if inRange {
      InRange(lapic.Armed(), now);
      stop := ServiceTimers(lapic, events, horizon, now);
      RaisedThenServiced(start, raised, View(lapic), now);
    }
  }

  /** The first half of a turn: service what is due, look whether the run is over, and
      pump. */
  method ServiceBoundary(lapic: Lapic, events: EventQueue<TimerKind>, clock: Clock, channel: EgressChannel?,
                         horizon: Option<u64>, counter: HostCounter)
    returns (outcome: Option<ParkOutcome>, now: u64)
    requires lapic.Valid() && events.Valid() && clock.Valid() && EgressValid(channel)
    requires counter.InStep(clock.offset)
    modifies lapic, events, counter
    modifies channel, if channel != null then {channel.backend, channel.backend.connector} else {}
    ensures lapic.Valid() && events.Valid() && clock.Valid() && EgressValid(channel)
    ensures counter.InStep(clock.offset) && old(counter.readings) <= counter.readings
    ensures now == Vtsc(counter.now, clock.offset)
    ensures outcome == Some(OutOfRange) <==> now + old(lapic.timerPeriod) >= TWO64
    ensures outcome != Some(OutOfRange) ==>
              && ServicedAt(old(View(lapic)), View(lapic), now)
              && Awaited(events.heap, old(lapic.timerDeadline), horizon, now)
              && (outcome == Some(Horizon) <==> HorizonDue(horizon, now))
    ensures outcome.Some? ==> !JumpFails(outcome.value) && !outcome.value.Deliverable?
    ensures outcome.None? ==> old(FramingHolds(channel)) && (channel != null ==> channel.captured == [])
    ensures outcome == Some(FramingLost) ==> !old(FramingHolds(channel))
  {
    hide Vectors, TimerOk, EgressValid, HostCounter.InStep, ServicedAt, Awaited, Vtsc, HorizonDue, FramingHolds;
    outcome := None;
    var inRange, stop;
    inRange, stop, now := ServiceDue(lapic, events, clock, horizon, counter);
    if !inRange {
      return Some(OutOfRange), now;
    }
    if stop {
      return Some(Horizon), now;
    }
    var finished: bool := *;
    if finished {
      return Some(DriverFinish), now;
    }
    var ok := PumpEgress(channel);
    if !ok {
      return Some(FramingLost), now;
    }
  }

  lemma RaisedThenServiced(start: Ticking, raised: Ticking, after: Ticking, now: u64)
    requires raised.timer == start.timer && MoreRaised(start.apic, raised.apic)
    requires NoWrap(raised.timer, now) && after == Serviced(raised, now)
    ensures ServicedAt(start, after, now)
  {
    hide Rearmed, RaisedBy, NoWrap;
  }

  /** The second half of a turn: a deliverable interrupt ends the park, and without one
      the clock jumps to the earliest deadline, if there is one ahead and the gate lets
      it. */
  method DeliverOrJump(lapic: Lapic, events: EventQueue<TimerKind>, clock: Clock, channel: EgressChannel?,
                       horizon: Option<u64>, maxJump: nat, unsafeJumps: bool, counter: HostCounter)
    returns (outcome: Option<ParkOutcome>, ghost jump: Option<Jump>)
    requires lapic.Valid() && events.Valid() && clock.Valid() && EgressValid(channel)
    requires counter.InStep(clock.offset) && (channel != null ==> channel.captured == [])
    modifies lapic`irr, clock, clock.kvm, counter
    ensures lapic.Valid() && clock.Valid() && EgressValid(channel)
    ensures MoreRaised(old(lapic.Priorities()), lapic.Priorities())
    ensures counter.InStep(clock.offset) && old(counter.readings) <= counter.readings
    ensures clock.offset == old(clock.offset) + Skipped(jump)
    ensures outcome == Some(ParkOutcome.Deliverable) <==> Interrupts.Deliverable(lapic.Priorities()).Some?
    ensures outcome.Some? ==> outcome.value.Deliverable? || JumpFails(outcome.value)
    ensures jump.Some? ==>
              && outcome.None? && Safe(jump.value, horizon, maxJump)
              && jump.value.queue == events.heap && jump.value.apic == lapic.Priorities()
    ensures outcome.None? && jump.None? ==>
              || (!unsafeJumps && !Quiescent(channel)) || events.heap == []
              || exists e :: e in events.heap && e.deadline <= Vtsc(counter.now, clock.offset)
    ensures outcome == Some(GateBreached) ==> unsafeJumps
  {
    hide Vectors, TimerOk, EgressValid, Safe, Interrupts.Deliverable, HostCounter.InStep, Vtsc;
    outcome, jump := None, None;
    DevicesRaise(lapic);
    var deliverable := lapic.DeliverableVector();
    if deliverable.Some? {
      return Some(ParkOutcome.Deliverable), None;
    }
    if !unsafeJumps && !Quiescent(channel) {
      return; // park at real rate until the next boundary
    }
    var next := events.PeekDeadline();
    if next.Some? {
      outcome, jump := JumpNow(clock, channel, next.value, horizon, maxJump, counter, events.heap, lapic.Priorities());
    }
  }

  /** One turn of the park loop: what is due is serviced; a deliverable interrupt ends
      the park, and without one the clock jumps to the earliest deadline, if there is
      one ahead and the gate lets it. */
  method ParkTurn(lapic: Lapic, events: EventQueue<TimerKind>, clock: Clock, channel: EgressChannel?,
                  horizon: Option<u64>, maxJump: nat, unsafeJumps: bool, counter: HostCounter)
    returns (outcome: Option<ParkOutcome>, ghost jump: Option<Jump>, ghost now: u64)
    requires lapic.Valid() && events.Valid() && clock.Valid() && EgressValid(channel)
    requires counter.InStep(clock.offset)
    modifies lapic, events, clock, clock.kvm, counter
    modifies channel, if channel != null then {channel.backend, channel.backend.connector} else {}
    ensures lapic.Valid() && events.Valid() && clock.Valid() && EgressValid(channel)
    ensures counter.InStep(clock.offset) && old(counter.readings) <= counter.readings
    ensures clock.offset == old(clock.offset) + Skipped(jump)
    ensures outcome == Some(OutOfRange) <==> now + old(lapic.timerPeriod) >= TWO64
    ensures outcome != Some(OutOfRange) ==>
              && ServicedAt(old(View(lapic)), View(lapic), now)
              && Awaited(events.heap, old(lapic.timerDeadline), horizon, now)
              && (outcome == Some(Horizon) <==> HorizonDue(horizon, now))
    ensures outcome == Some(ParkOutcome.Deliverable) ==> Interrupts.Deliverable(lapic.Priorities()).Some?
    ensures outcome.None? || JumpFails(outcome.value) ==> Interrupts.Deliverable(lapic.Priorities()).None?
    ensures jump.Some? ==>
              && outcome.None? && Safe(jump.value, horizon, maxJump)
              && jump.value.queue == events.heap && jump.value.apic == lapic.Priorities()
    ensures outcome.None? && jump.None? ==>
              || (!unsafeJumps && !Quiescent(channel)) || events.heap == []
              || exists e :: e in events.heap && e.deadline <= Vtsc(counter.now, clock.offset)
    ensures outcome == Some(GateBreached) ==> unsafeJumps
  {
    hide Vectors, TimerOk, EgressValid, Safe, Interrupts.Deliverable, HostCounter.InStep;
    hide ServicedAt, Awaited, HorizonDue, Vtsc, FramingHolds, MoreRaised;
    jump := None;
    outcome, now := ServiceBoundary(lapic, events, clock, channel, horizon, counter);
    if outcome.None? {
      ghost var before := View(lapic);
      outcome, jump := DeliverOrJump(lapic, events, clock, channel, horizon, maxJump, unsafeJumps, counter);
      StillServiced(old(View(lapic)), before, View(lapic), now);
    }
  }

  lemma StillServiced(start: Ticking, before: Ticking, after: Ticking, now: u64)
    requires ServicedAt(start, before, now) && after.timer == before.timer && MoreRaised(before.apic, after.apic)
    ensures ServicedAt(start, after, now)
  {
    hide Rearmed, RaisedBy, NoWrap;
  }

  lemma InRange(t: Timer, now: u64)
    requires now + t.period < TWO64
    ensures NoWrap(t, now)
  {
    if Due(t, now) && t.period > 0 {
      NextBoundaryIsFirst(t.deadline.value, t.period, now, 0);
    }
  }

  /** What `ServiceTimers` leaves armed is what the doorbell's interleavings allow a
      service to leave. */
  lemma ServiceIsAMove(b: Doorbell.Bell, t: Timer, now: u64)
    requires NoWrap(t, now) && b.Now() == now && b.lapic == t.deadline
    requires b.horizon.Some? ==> b.horizon.value > now
    ensures Doorbell.MayService(b, Rearmed(t, now))
  {
    hide NextBoundary;
    if Due(t, now) && t.period > 0 {
      NextBoundaryIsFirst(t.deadline.value, t.period, now, 0);
    }
  }

  /** However long the guest stays parked and whatever the world does meanwhile:
      virtual time moves only by safe jumps, and by their sum. The gate may be
      switched off (`unsafeJumps`); the tripwire then aborts instead. */
  method FastForwardPark(lapic: Lapic, events: EventQueue<TimerKind>, clock: Clock, channel: EgressChannel?,
                         horizon: Option<u64>, maxJump: nat, unsafeJumps: bool, turns: nat, counter: HostCounter)
    returns (outcome: Option<ParkOutcome>, ghost jumps: seq<Jump>)
    requires lapic.Valid() && events.Valid() && clock.Valid() && EgressValid(channel)
    requires counter.InStep(clock.offset)
    modifies lapic, events, clock, clock.kvm, counter
    modifies channel, if channel != null then {channel.backend, channel.backend.connector} else {}
    ensures lapic.Valid() && events.Valid() && clock.Valid() && EgressValid(channel)
    ensures counter.InStep(clock.offset) && old(counter.readings) <= counter.readings
    ensures forall j :: j in jumps ==> Safe(j, horizon, maxJump)
    ensures clock.offset == old(clock.offset) + TotalSkipped(jumps)
    ensures outcome == Some(GateBreached) ==> unsafeJumps
    ensures outcome == Some(ParkOutcome.Deliverable) ==> Interrupts.Deliverable(lapic.Priorities()).Some?
  {
    hide EgressValid, Safe, HostCounter.InStep, Interrupts.Deliverable, ServicedAt, Awaited, Vtsc;
    outcome, jumps := None, [];
    var left := turns;
    while left > 0 && outcome.None?
      invariant lapic.Valid() && events.Valid() && clock.Valid() && EgressValid(channel)
      invariant counter.InStep(clock.offset) && old(counter.readings) <= counter.readings
      invariant forall j :: j in jumps ==> Safe(j, horizon, maxJump)
      invariant clock.offset == old(clock.offset) + TotalSkipped(jumps)
      invariant outcome == Some(GateBreached) ==> unsafeJumps
      invariant outcome == Some(ParkOutcome.Deliverable) ==> Interrupts.Deliverable(lapic.Priorities()).Some?
    {
      ghost var jump: Option<Jump>, now: u64;
      outcome, jump, now := ParkTurn(lapic, events, clock, channel, horizon, maxJump, unsafeJumps, counter);
      if jump.Some? {
        assert (jumps + [jump.value])[..|jumps|] == jumps;
        jumps := jumps + [jump.value];
      }
      left := left - 1;
    }
  }

  // Whole runs.

  /** One thing that happens between two parks: the guest touches the APIC or its port,
      or the vCPU loop comes to a boundary at virtual time `now`. */
  method GuestStep(lapic: Lapic, events: EventQueue<TimerKind>, channel: EgressChannel?, horizon: Option<u64>, now: u64)
    requires lapic.Valid() && events.Valid() && EgressValid(channel)
    modifies lapic, events
    modifies channel, if channel != null then {channel.backend, channel.backend.connector} else {}
    ensures lapic.Valid() && events.Valid() && EgressValid(channel)
  {
    hide Vectors, TimerOk, Serviced, Queued, IfLater, StopEvent, ArmedEvent, EgressChannel.Valid;
    var word: bv32 := *;
    if
    case true => lapic.EndOfInterrupt();
    case true => lapic.WriteIcr(word);
    case true => lapic.WriteLvtTimer(word);
    case true => lapic.WriteSvr(word);
    case true => lapic.WriteTpr(word);
    case true =>
      var cr8: bv64 := *;
      lapic.SyncTprFromCr8(cr8);
    case true =>
      var dcr: u32 := *;
      lapic.WriteTimerDcr(dcr);
    case true =>
      var count: u32 := *;
      lapic.WriteTimerIct(count, now);
    case true =>
      var v := lapic.DeliverableVector();
      if v.Some? {
        lapic.AckInjected(v.value);
      }
    case now + lapic.timerPeriod < TWO64 =>
      InRange(lapic.Armed(), now);
      var _ := ServiceTimers(lapic, events, horizon, now);
    case channel != null =>
      var b: byte := *;
      channel.PioWrite(b);
    case channel != null => var _ := channel.PioRead();
    case channel != null => var _ := channel.Pump();
  }

  lemma {:induction false} SkippedAppend(a: seq<Jump>, b: seq<Jump>)
    ensures TotalSkipped(a + b) == TotalSkipped(a) + TotalSkipped(b)
    decreases |b|
  {
    if b == [] {
      assert a + b == a;
    } else {
      assert (a + b)[..|a + b| - 1] == a + b[..|b| - 1];
      SkippedAppend(a, b[..|b| - 1]);
    }
  }

  /** A whole run: the guest runs and parks, again and again, and does what it likes in
      between, while the host's counter only ever moves on. Every jump of every park is
      safe, the clock has moved by exactly what they skipped, and virtual time, at
      whatever moments it is read, never runs backwards while it does not wrap. */
  method WholeRun(lapic: Lapic, events: EventQueue<TimerKind>, clock: Clock, channel: EgressChannel?,
                  horizon: Option<u64>, maxJump: nat, unsafeJumps: bool, parks: nat, turns: nat, counter: HostCounter)
    returns (ghost jumps: seq<Jump>)
    requires lapic.Valid() && events.Valid() && clock.Valid() && EgressValid(channel)
    requires counter.readings == []
    modifies lapic, events, clock, clock.kvm, counter
    modifies channel, if channel != null then {channel.backend, channel.backend.connector} else {}
    ensures lapic.Valid() && events.Valid() && clock.Valid() && EgressValid(channel)
    ensures forall j :: j in jumps ==> Safe(j, horizon, maxJump)
    ensures clock.offset == old(clock.offset) + TotalSkipped(jumps)
    ensures Unwrapped(counter.readings) ==> Forward(counter.readings)
  {
    hide EgressValid, Safe, Forward, Unwrapped;
    jumps := [];
    assert TotalSkipped(jumps) == 0;
    hide TotalSkipped;
    var left := parks;
    assert counter.InStep(clock.offset);
    while left > 0
      invariant lapic.Valid() && events.Valid() && clock.Valid() && EgressValid(channel)
      invariant counter.InStep(clock.offset)
      invariant forall j :: j in jumps ==> Safe(j, horizon, maxJump)
      invariant clock.offset == old(clock.offset) + TotalSkipped(jumps)
    {
      RunGuest(lapic, events, clock, channel, horizon, counter);
      ghost var more: seq<Jump>;
      var outcome;
      outcome, more := FastForwardPark(lapic, events, clock, channel, horizon, maxJump, unsafeJumps, turns, counter);
      SkippedAppend(jumps, more);
      jumps := jumps + more;
      if outcome.Some? && !outcome.value.Deliverable? {
        break;
      }
      left := left - 1;
    }
    if Unwrapped(counter.readings) {
      NeverBackwards(counter.readings);
    }
  }

  /** Any number of guest steps, each at a reading of the clock. */
  method RunGuest(lapic: Lapic, events: EventQueue<TimerKind>, clock: Clock, channel: EgressChannel?,
                  horizon: Option<u64>, counter: HostCounter)
    requires lapic.Valid() && events.Valid() && clock.Valid() && EgressValid(channel)
    requires counter.InStep(clock.offset)
    modifies lapic, events, counter
    modifies channel, if channel != null then {channel.backend, channel.backend.connector} else {}
    ensures lapic.Valid() && events.Valid() && clock.Valid() && EgressValid(channel)
    ensures counter.InStep(clock.offset) && old(counter.readings) <= counter.readings
  {
    hide EgressValid, HostCounter.InStep;
    var steps: int := *;
    while steps > 0
      invariant lapic.Valid() && events.Valid() && clock.Valid() && EgressValid(channel)
      invariant counter.InStep(clock.offset) && old(counter.readings) <= counter.readings
    {
      var host := counter.Read(clock);
      GuestStep(lapic, events, channel, horizon, clock.VtscFromHost(host));
      steps := steps - 1;
    }
  }
}
