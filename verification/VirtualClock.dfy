/** The virtual clock: guest time is the host counter plus an offset that only
    fast-forward jumps move, written through to KVM. */
module VirtualClock {
  import opened Prelude

  const TWO63: int := 0x8000_0000_0000_0000
  const NANOS: int := 1_000_000_000

  /** `(host + offset)` in wrapping 64-bit arithmetic. */
  function Vtsc(host: u64, offset: i64): u64 {
    (host + offset) % TWO64
  }

  /** A 64-bit count reinterpreted as signed. */
  function AsSigned(delta: u64): i64 {
    if delta < TWO63 then delta else delta - TWO64
  }

  datatype Bump = Bumped | Overflow | KvmFailed | Panicked

  /** The offset KVM applies to the guest's own reads of the counter. */
  class KvmOffset {
    var offset: i64

    constructor (offset: i64)
      ensures this.offset == offset
    {
      this.offset := offset;
    }

    /** The attribute write, which may fail. */
    method Write(value: i64) returns (ok: bool)
      modifies this
      ensures offset == if ok then value else old(offset)
    {
      ok := *;
      if ok {
        offset := value;
      }
    }
  }

  class Clock {
    var offset: i64
    const kvm: KvmOffset

    /** The cached offset is the one the guest sees. */
    ghost predicate Valid()
      reads this, kvm
    {
      offset == kvm.offset
    }

    constructor (kvm: KvmOffset)
      ensures Valid() && this.kvm == kvm && offset == kvm.offset
    {
      this.kvm := kvm;
      offset := kvm.offset;
    }

    function VtscFromHost(host: u64): u64
      reads this
    {
      Vtsc(host, offset)
    }

    /** Advance by `delta`: the cache and KVM move together or not at all. */
    method BumpOffset(delta: i64) returns (r: Bump)
      requires Valid()
      modifies this`offset, kvm
      ensures Valid()
      ensures r.Panicked? <==> delta < 0
      ensures r.Overflow? <==> delta >= 0 && old(offset) + delta >= TWO63
      ensures offset == if r.Bumped? then old(offset) + delta else old(offset)
    {
      if delta < 0 {
        return Panicked;
      }
      if offset + delta >= TWO63 {
        return Overflow;
      }
      var ok := kvm.Write(offset + delta);
      if !ok {
        return KvmFailed;
      }
      offset := offset + delta;
      r := Bumped;
    }

    /** The jump from the host sample `host` to the deadline `next`. It lands exactly,
        by moving the offset up; it is refused before touching anything exactly when
        the distance does not fit a signed count or the offset would overflow. */
    method JumpTo(host: u64, next: u64) returns (r: Bump)
      requires Valid() && VtscFromHost(host) < next
      modifies this`offset, kvm
      ensures Valid()
      ensures r.Bumped? ==> VtscFromHost(host) == next
      ensures r.Bumped? ==> offset == old(offset) + (next - old(VtscFromHost(host)))
      ensures !r.Bumped? ==> offset == old(offset)
      ensures r.Panicked? <==> next - old(VtscFromHost(host)) >= TWO63
      ensures r.Overflow? <==> next - old(VtscFromHost(host)) < TWO63
                               && old(offset) + (next - old(VtscFromHost(host))) >= TWO63
    {
      var delta := next - VtscFromHost(host);
      r := BumpOffset(AsSigned(delta));
      if r.Bumped? {
        ExactLanding(host, old(offset), next);
      }
    }
  }

  lemma ExactLanding(host: u64, offset: i64, next: u64)
    requires offset + (next - Vtsc(host, offset)) < TWO63 && next >= Vtsc(host, offset)
    ensures Vtsc(host, offset + (next - Vtsc(host, offset))) == next
  {
    var q := (host + offset) / TWO64;
    assert host + offset == TWO64 * q + Vtsc(host, offset);
    Reduced(host + offset + (next - Vtsc(host, offset)), q, next);
  }

  lemma Reduced(x: int, q: int, r: int)
    requires x == TWO64 * q + r && 0 <= r < TWO64
    ensures x % TWO64 == r
  {
  }

  /** Guest time never runs backwards: not as the host counter advances, nor over a
      jump, as long as the counter does not wrap. */
  lemma VtscMonotone(host: u64, later: u64, offset: i64, raised: i64)
    requires host <= later && offset <= raised
    requires 0 <= host + offset && later + raised < TWO64
    ensures Vtsc(host, offset) <= Vtsc(later, raised)
    ensures Vtsc(later, raised) - Vtsc(host, offset) == (later - host) + (raised - offset)
  {
    Reduced(host + offset, 0, host + offset);
    Reduced(later + raised, 0, later + raised);
  }

  /** A reading of the clock: the host counter, under the offset of the moment. */
  datatype Reading = Reading(host: u64, offset: i64)

  ghost predicate Ordered(run: seq<Reading>) {
    forall a, b :: 0 <= a < b < |run| ==> run[a].host <= run[b].host && run[a].offset <= run[b].offset
  }

  /** No wrap from the first reading to the last. */
  predicate Unwrapped(run: seq<Reading>) {
    run == [] || (0 <= run[0].host + run[0].offset && run[|run| - 1].host + run[|run| - 1].offset < TWO64)
  }

  /** No reading is before an earlier one. */
  ghost predicate Forward(run: seq<Reading>) {
    forall i, j :: 0 <= i <= j < |run| ==> Vtsc(run[i].host, run[i].offset) <= Vtsc(run[j].host, run[j].offset)
  }

  lemma NeverBackwards(run: seq<Reading>)
    requires Ordered(run) && Unwrapped(run)
    ensures Forward(run)
  {
    hide Vtsc;
    forall i, j | 0 <= i <= j < |run|
      ensures Vtsc(run[i].host, run[i].offset) <= Vtsc(run[j].host, run[j].offset)
    {
      var last := |run| - 1;
      assert 0 <= run[i].host + run[i].offset;
      assert run[j].host + run[j].offset <= run[last].host + run[last].offset;
      VtscMonotone(run[i].host, run[j].host, run[i].offset, run[j].offset);
    }
  }

  /** The host's counter, which never runs backwards, and every reading of the clock
      taken from it. */
  class HostCounter {
    var now: u64
    ghost var readings: seq<Reading>

    /** No reading was of a later counter or under a higher offset than the present. */
    ghost predicate InStep(offset: i64)
      reads this
    {
      && Ordered(readings)
      && forall r :: r in readings ==> r.host <= now && r.offset <= offset
    }

    constructor (now: u64)
      ensures this.now == now && readings == []
    {
      this.now, readings := now, [];
    }

    /** Time passes, and the counter is read. */
    method Read(clock: Clock) returns (host: u64)
      requires InStep(clock.offset)
      modifies this
      ensures InStep(clock.offset) && host == now >= old(now)
      ensures readings == old(readings) + [Reading(host, clock.offset)]
    {
      var later: u64 := *;
      if later > now {
        now := later;
      }
      host := now;
      assert forall k :: 0 <= k < |readings| ==> readings[k] in readings;
      readings := readings + [Reading(host, clock.offset)];
    }
  }

  // Cycles and nanoseconds.

  function CyclesToNs(cycles: u64, hz: u64): u64
    requires hz > 0
  {
    cycles * NANOS / hz % TWO64
  }

  function NsToCycles(ns: u64, hz: u64): u64
    requires hz > 0
  {
    ns * hz / NANOS % TWO64
  }

  lemma FloorAtMost(a: nat, b: nat)
    requires b > 0
    ensures 0 <= a / b * b <= a
  {
  }

  lemma ProductAtMost(x: nat, y: nat, z: nat)
    requires x <= y
    ensures x * z <= y * z
  {
  }

  lemma RemainderAtMost(x: nat)
    ensures 0 <= x % TWO64 <= x
  {
  }

  /** A wait of `CyclesToNs(c)` nanoseconds is never longer than `c` cycles and, if
      nothing is cut to 64 bits, less than a nanosecond shorter.  Back in cycles it is
      at most `c`, and less than a cycle and a nanosecond below. */
  lemma ConversionNeverLate(c: u64, hz: u64)
    requires hz > 0
    ensures CyclesToNs(c, hz) * hz <= c * NANOS
    ensures NsToCycles(CyclesToNs(c, hz), hz) <= c
    ensures c * NANOS < TWO64 * hz ==>
              && (CyclesToNs(c, hz) + 1) * hz > c * NANOS
              && (NsToCycles(CyclesToNs(c, hz), hz) + 1) * NANOS + hz > c * NANOS
  {
    var whole := c * NANOS / hz;
    FloorAtMost(c * NANOS, hz);
    assert whole >= 0 by { WholePositive(c * NANOS, hz); }
    RemainderAtMost(whole);
    var ns := whole % TWO64;
    ProductAtMost(ns, whole, hz);
    FloorAtMost(ns * hz, NANOS);
    WholePositive(ns * hz, NANOS);
    RemainderAtMost(ns * hz / NANOS);
    if c * NANOS < TWO64 * hz {
      NotCut(c * NANOS, hz);
      FloorAbove(c * NANOS, hz);
      assert ns == whole;
      BackNotCut(c, ns, hz);
    }
  }

  /** A quotient that fits 64 bits is not cut. */
  lemma NotCut(a: nat, b: nat)
    requires b > 0 && a < TWO64 * b
    ensures 0 <= a / b < TWO64 && a / b % TWO64 == a / b
  {
    WholePositive(a, b);
    FloorAtMost(a, b);
    if a / b >= TWO64 {
      ProductAtMost(TWO64, a / b, b);
    }
  }

  lemma FloorAbove(a: nat, b: nat)
    requires b > 0
    ensures (a / b + 1) * b > a
  {
  }

  lemma BackNotCut(c: u64, ns: nat, hz: nat)
    requires hz > 0 && ns * hz <= c * NANOS < (ns + 1) * hz
    ensures (ns * hz / NANOS % TWO64 + 1) * NANOS + hz > c * NANOS
  {
    NotCut(ns * hz, NANOS);
    FloorAbove(ns * hz, NANOS);
    assert (ns + 1) * hz == ns * hz + hz;
  }

  lemma WholePositive(a: nat, b: nat)
    requires b > 0
    ensures a / b >= 0
  {
  }
}
