/** The local APIC: its registers as a mutable object, refining the interrupt
    priorities on sets of vectors and a timer on values. */
module Lapic {
  import opened Prelude
  import opened VecBits
  import opened Interrupts
  import opened TimerMath

  // The timer.

  const ONE_SHOT: bv32 := 0
  const PERIODIC: bv32 := 1
  const TSC_DEADLINE: bv32 := 2
  const LVT_MASK: bv32 := 0x1_0000
  const SVR_ENABLE: bv32 := 0x100

  function Mode(lvt: bv32): bv32 {
    (lvt >> 17) & 3
  }

  /** Bit 17 is periodic, bit 18 deadline mode; with both set no count is kept. */
  lemma ModeBits(lvt: bv32)
    ensures Mode(lvt) == ONE_SHOT <==> lvt & 0x2_0000 == 0 && lvt & 0x4_0000 == 0
    ensures Mode(lvt) == PERIODIC <==> lvt & 0x2_0000 != 0 && lvt & 0x4_0000 == 0
    ensures Mode(lvt) == TSC_DEADLINE <==> lvt & 0x2_0000 == 0 && lvt & 0x4_0000 != 0
  {
  }

  function TimerVector(lvt: bv32): Vector {
    (lvt & 0xff) as bv8
  }

  predicate Masked(lvt: bv32) {
    lvt & LVT_MASK != 0
  }

  datatype Timer = Timer(lvt: bv32, deadline: Option<u64>, period: u64, dcr: u32)

  /** A period is left over only while a periodic timer is armed. */
  predicate TimerOk(t: Timer) {
    t.period > 0 ==> Mode(t.lvt) == PERIODIC && t.deadline.Some?
  }

  predicate Due(t: Timer, now: u64) {
    t.deadline.Some? && t.deadline.value <= now
  }

  /** Catching up to `now` stays below 2^64. */
  ghost predicate NoWrap(t: Timer, now: u64) {
    Due(t, now) && t.period > 0 ==> NextBoundary(t.deadline.value, t.period, now) < TWO64
  }

  /** The armed deadline once everything due at `now` has fired. */
  ghost function Rearmed(t: Timer, now: u64): Option<u64>
    requires NoWrap(t, now)
  {
    if !Due(t, now) then t.deadline
    else if t.period == 0 then None
    else Some(NextBoundary(t.deadline.value, t.period, now))
  }

  /** The vectors the timer raises when serviced at `now`. */
  ghost function RaisedBy(t: Timer, now: u64): set<Vector> {
    if Due(t, now) && !Masked(t.lvt) then {TimerVector(t.lvt)} else {}
  }

  /** Missed ticks coalesce: the next boundary of the phase after `now`. */
  method CatchUp(dl: u64, period: u64, now: u64) returns (next: u64)
    requires period > 0 && dl <= now && NextBoundary(dl, period, now) < TWO64
    ensures next == NextBoundary(dl, period, now)
  {
    next := dl;
    ghost var k: nat := 0;
    while now >= next
      invariant next == dl + k * period
      invariant next <= NextBoundary(dl, period, now)
      decreases now - next
    {
      NextBoundaryIsFirst(dl, period, now, k);
      OneMore(dl, period, now, k);
      next := (next + period) % TWO64;
      k := k + 1;
    }
    NextBoundaryIsFirst(dl, period, now, k);
  }

  lemma OneMore(dl: nat, period: nat, now: nat, k: nat)
    requires period > 0 && dl <= now && dl + k * period <= now
    ensures dl + k * period + period == dl + (k + 1) * period <= NextBoundary(dl, period, now)
  {
    assert (k + 1) * period == k * period + period;
    QuotientAtLeast(now - dl, period, k);
    MulMonotone(k + 1, (now - dl) / period + 1, period);
  }

  class Lapic {
    const num: u64
    const den: u64
    var tpr: Vector
    var svr: bv32
    var irr: VecBits
    var isr: VecBits
    var lvtTimer: bv32
    var timerDeadline: Option<u64>
    var timerPeriod: u64
    var timerDcr: u32
    var timerIct: u32

    ghost predicate Valid()
      reads this
    {
      num > 0 && den > 0 && irr.Valid() && isr.Valid() && TimerOk(Armed())
    }

    predicate Enabled()
      reads this
    {
      svr & SVR_ENABLE != 0
    }

    /** What priority decisions depend on, with the bitmaps as sets. */
    ghost function Priorities(): Apic
      reads this
      requires Valid()
    {
      Apic(Enabled(), tpr, Vectors(irr), Vectors(isr))
    }

    function Armed(): Timer
      reads this
    {
      Timer(lvtTimer, timerDeadline, timerPeriod, timerDcr)
    }

    /** Cycles of `den` counts at the current divisor. */
    function Per(): nat
      reads this`timerDcr
    {
      CyclesPerCount(TimerDivisor(timerDcr), num)
    }

    constructor (num: u64, den: u64)
      requires num > 0 && den > 0
      ensures Valid() && this.num == num && this.den == den
      ensures Priorities() == Apic(false, 0, {}, {})
      ensures Armed() == Timer(LVT_MASK, None, 0, 0)
    {
      this.num, this.den := num, den;
      tpr, svr := 0, 0xff;
      irr, isr := EMPTY, EMPTY;
      lvtTimer := LVT_MASK;
      timerDeadline, timerPeriod, timerDcr, timerIct := None, 0, 0, 0;
      new;
      EmptyHasNone();
    }

    // Priority and delivery.

    /** CR8 is the upper four bits of the task priority. */
    method SyncTprFromCr8(cr8: bv64)
      requires Valid()
      modifies this`tpr
      ensures Valid()
      ensures tpr & 0xf == 0 && (tpr >> 4) as bv64 == cr8 & 0xf
    {
      tpr := ((cr8 & 0xf) as bv8) << 4;
    }

    method DeliverableVector() returns (v: Option<Vector>)
      requires Valid()
      ensures v == Deliverable(Priorities())
    {
      hide Vectors, HighestFrom, HighestBelow, Class;
      HighestOfBits(irr);
      HighestOfBits(isr);
      if !Enabled() {
        return None;
      }
      var irrv, isrv := OrZero(Highest(irr)), OrZero(Highest(isr));
      if irrv == 0 {
        return None;
      }
      var ppr := if Class(tpr) >= Class(isrv) then tpr else Class(isrv);
      if Class(irrv) > Class(ppr) {
        v := Some(irrv);
      } else {
        v := None;
      }
    }

    method AckInjected(vec: Vector)
      requires Valid()
      modifies this`irr, this`isr
      ensures Valid() && Priorities() == Inject(old(Priorities()), vec)
    {
      hide Vectors, VecBits.Set, VecBits.Clear;
      ClearRemoves(irr, vec);
      SetAdds(isr, vec);
      irr := irr.Clear(vec);
      isr := isr.Set(vec);
    }

    method RaiseVector(vec: Vector)
      requires Valid()
      modifies this`irr
      ensures Valid() && Priorities() == Raise(old(Priorities()), vec)
    {
      hide Vectors, VecBits.Set;
      SetAdds(irr, vec);
      irr := irr.Set(vec);
    }

    method EndOfInterrupt()
      requires Valid()
      modifies this`isr
      ensures Valid() && Priorities() == Eoi(old(Priorities()))
    {
      hide Vectors, VecBits.Clear, HighestFrom, HighestBelow;
      HighestOfBits(isr);
      match Highest(isr)
      case Some(vec) =>
        ClearRemoves(isr, vec);
        isr := isr.Clear(vec);
      case None =>
        HighestIsMax(isr);
        assert Vectors(isr) - {0} == Vectors(isr);
    }

    /** Fixed delivery to this CPU raises the vector; anything else does nothing. */
    method WriteIcr(val: bv32)
      requires Valid()
      modifies this`irr
      ensures Valid()
      ensures Priorities() ==
              if (val >> 8) & 7 == 0 && (val >> 18) & 3 != 3
              then Raise(old(Priorities()), (val & 0xff) as bv8)
              else old(Priorities())
    {
      var vector := (val & 0xff) as bv8;
      if (val >> 8) & 7 != 0 {
        return;
      }
      if (val >> 18) & 3 != 3 {
        RaiseVector(vector);
      }
    }

    /** The software enable bit, the task priority and the divisor are plain registers:
        writing one changes nothing that is pending or armed. */
    method WriteSvr(val: bv32)
      requires Valid()
      modifies this`svr
      ensures Valid() && Priorities() == old(Priorities()).(enabled := val & SVR_ENABLE != 0)
    {
      svr := val;
    }

    method WriteTpr(val: bv32)
      requires Valid()
      modifies this`tpr
      ensures Valid() && Priorities() == old(Priorities()).(tpr := (val & 0xff) as bv8)
    {
      tpr := (val & 0xff) as bv8;
    }

    method WriteTimerDcr(val: u32)
      requires Valid()
      modifies this`timerDcr
      ensures Valid() && Armed() == old(Armed()).(dcr := val)
    {
      timerDcr := val;
    }

    // The timer.

    /** A change of mode disarms; a write in the same mode leaves the timer running. */
    method WriteLvtTimer(val: bv32)
      requires Valid()
      modifies this`lvtTimer, this`timerDeadline, this`timerPeriod
      ensures Valid() && lvtTimer == val
      ensures if Mode(val) == Mode(old(lvtTimer))
              then timerDeadline == old(timerDeadline) && timerPeriod == old(timerPeriod)
              else timerDeadline == None && timerPeriod == 0
    {
      var oldMode := Mode(lvtTimer);
      lvtTimer := val;
      if Mode(val) != oldMode {
        timerDeadline, timerPeriod := None, 0;
      }
    }

    /** Program the initial count at virtual time `now`. */
    method WriteTimerIct(val: u32, now: u64)
      requires Valid()
      modifies this`timerIct, this`timerDeadline, this`timerPeriod
      ensures Valid() && timerIct == val
      ensures Mode(lvtTimer) == TSC_DEADLINE ==> Armed() == old(Armed())
      ensures Mode(lvtTimer) != TSC_DEADLINE && val == 0 ==> timerDeadline == None && timerPeriod == 0
      ensures Mode(lvtTimer) != TSC_DEADLINE && val != 0 ==>
                var span := SpanFromCount(val, Per(), den);
                && timerDeadline == Some((now + span) % TWO64)
                && timerPeriod == if Mode(lvtTimer) == PERIODIC then span else 0
    {
      hide Per, SpanFromCount, Mode;
      timerIct := val;
      if Mode(lvtTimer) == TSC_DEADLINE {
        return;
      }
      if val == 0 {
        timerDeadline, timerPeriod := None, 0;
        return;
      }
      var span := SpanFromCount(val, Per(), den);
      timerDeadline := Some((now + span) % TWO64);
      timerPeriod := if Mode(lvtTimer) == PERIODIC then span else 0;
    }

    /** TMCCT: the count left in the counting modes, zero when disarmed, due or in
        deadline mode. */
    method TimerCurrentCount(now: u64) returns (c: nat)
      requires Valid()
      ensures c <= U32_MAX
      ensures Mode(lvtTimer) != ONE_SHOT && Mode(lvtTimer) != PERIODIC ==> c == 0
      ensures timerDeadline.None? || Due(Armed(), now) ==> c == 0
      ensures (Mode(lvtTimer) == ONE_SHOT || Mode(lvtTimer) == PERIODIC) && timerDeadline.Some? ==>
                c == CountUntil(timerDeadline.value, now, Per(), den)
    {
      if (Mode(lvtTimer) == ONE_SHOT || Mode(lvtTimer) == PERIODIC) && timerDeadline.Some? {
        c := CountUntil(timerDeadline.value, now, Per(), den);
      } else {
        c := 0;
      }
    }

    /** Fire the timer if it is due: raise its vector unless masked, and disarm it or
        move it to its first boundary after `now`. */
    method FireTimerIfDue(now: u64) returns (fired: bool)
      requires Valid() && NoWrap(Armed(), now)
      modifies this`irr, this`timerDeadline
      ensures Valid() && fired == Due(old(Armed()), now)
      ensures Armed() == old(Armed()).(deadline := Rearmed(old(Armed()), now))
      ensures Priorities() ==
              old(Priorities()).(irr := old(Priorities()).irr + RaisedBy(old(Armed()), now))
    {
      hide Vectors, NextBoundary, Mode, Masked, TimerVector;
      if timerDeadline.None? || now < timerDeadline.value {
        assert Vectors(irr) + {} == Vectors(irr);
        return false;
      }
      if timerPeriod > 0 {
        var next := CatchUp(timerDeadline.value, timerPeriod, now);
        timerDeadline := Some(next);
      } else {
        timerDeadline := None;
      }
      if !Masked(lvtTimer) {
        RaiseVector(TimerVector(lvtTimer));
      } else {
        assert Vectors(irr) + {} == Vectors(irr);
      }
      fired := true;
    }
  }

  function OrZero(v: Option<Vector>): Vector {
    match v
    case Some(x) => x
    case None => 0
  }

  lemma HighestOfBits(b: VecBits)
    requires b.Valid()
    ensures HighestOrZero(Vectors(b)) == OrZero(Highest(b))
  {
    hide Vectors, HighestFrom, HighestBelow;
    HighestIsMax(b);
    if Highest(b).Some? {
      HighestIs(Vectors(b), Highest(b).value);
    } else {
      HighestOfNone(255);
    }
  }
}
