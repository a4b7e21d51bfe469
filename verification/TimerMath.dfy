/** The arithmetic of the APIC timer: spans of counts in TSC cycles and back, and
    the next boundary of a periodic timer. */
module TimerMath {
  import opened Prelude

  const U32_MAX: nat := 0xffff_ffff

  /** TDCR divide value: bits 0, 1 and 3 form the code. */
  function TimerDivisor(dcr: u32): (d: nat)
    ensures 1 <= d <= 128
  {
    var code := dcr / 8 % 2 * 4 + dcr % 4;
    if code == 0 then 2
    else if code == 1 then 4
    else if code == 2 then 8
    else if code == 3 then 16
    else if code == 4 then 32
    else if code == 5 then 64
    else if code == 6 then 128
    else 1
  }

  function PowerOfTwo(n: nat): nat {
    if n == 0 then 1 else 2 * PowerOfTwo(n - 1)
  }

  /** The divide value doubles from one code to the next, the last of the eight codes
      stands for one, and the register's other bits (2 and from 4 on) do not count. */
  lemma DivisorOfCode(dcr: u32, low: nat, bit2: nat, bit3: nat, rest: nat)
    requires low < 4 && bit2 < 2 && bit3 < 2 && dcr == low + 4 * bit2 + 8 * bit3 + 16 * rest
    ensures TimerDivisor(dcr) == PowerOfTwo((4 * bit3 + low + 1) % 8)
  {
    CodeBits(dcr, low, bit2, bit3, rest);
    if 4 * bit3 + low < 7 {
      PowersTo(4 * bit3 + low + 1);
    }
  }

  lemma CodeBits(dcr: u32, low: nat, bit2: nat, bit3: nat, rest: nat)
    requires low < 4 && bit2 < 2 && bit3 < 2 && dcr == low + 4 * bit2 + 8 * bit3 + 16 * rest
    ensures dcr % 4 == low && dcr / 8 % 2 == bit3
  {
    By4(bit2 + 2 * bit3 + 4 * rest, low);
    By8(bit3 + 2 * rest, low + 4 * bit2);
    By2(rest, bit3);
  }

  lemma By2(q: nat, r: nat)
    requires r < 2
    ensures (r + 2 * q) % 2 == r
  {
  }

  lemma By4(q: nat, r: nat)
    requires r < 4
    ensures (r + 4 * q) % 4 == r
  {
  }

  lemma By8(q: nat, r: nat)
    requires r < 8
    ensures (r + 8 * q) / 8 == q
  {
  }

  lemma PowersTo(n: nat)
    requires 1 <= n <= 7
    ensures PowerOfTwo(n) == if n == 1 then 2 else if n == 2 then 4 else if n == 3 then 8 else if n == 4 then 16
                             else if n == 5 then 32 else if n == 6 then 64 else 128
  {
    if n > 1 {
      PowersTo(n - 1);
    }
  }

  function CyclesPerCount(divisor: nat, num: u64): nat {
    divisor * num
  }

  /** Cycles that `count` decrements take, where one takes `per / den` cycles: the
      exact quotient, cut to 64 bits. */
  function SpanFromCount(count: u32, per: nat, den: nat): u64
    requires den > 0
  {
    count * per / den % TWO64
  }

  /** Decrements left until `deadline`. */
  function CountUntil(deadline: u64, now: u64, per: nat, den: nat): (c: nat)
    requires per > 0
    ensures c <= U32_MAX
  {
    if now >= deadline then 0
    else
      DivNonNegative((deadline - now) * den, per);
      Min((deadline - now) * den / per, U32_MAX)
  }

  lemma DivNonNegative(a: nat, b: nat)
    requires b > 0
    ensures a / b >= 0
  {
  }

  lemma QuotientBounds(a: int, b: int)
    requires b > 0
    ensures b * (a / b) <= a < b * (a / b) + b
  {
  }

  /** A quotient is at least `q` exactly when the dividend holds `q` divisors. */
  lemma QuotientAtLeast(a: int, b: int, q: int)
    requires b > 0
    ensures a / b >= q <==> a >= q * b
  {
    QuotientBounds(a, b);
    if a / b >= q {
      MulMonotone(q, a / b, b);
    } else {
      MulMonotone(a / b + 1, q, b);
      assert (a / b + 1) * b == b * (a / b) + b;
    }
  }

  lemma MulMonotone(x: int, y: int, z: int)
    requires x <= y && z >= 0
    ensures x * z <= y * z
  {
  }

  lemma RemainderOf(a: int, b: int)
    requires b > 0
    ensures a % b == a - b * (a / b)
  {
  }

  /** A span is the product of count, divisor and ratio to within a cycle, and a count
      read is the cycles left over that ratio to within one; neither where it is cut. */
  lemma SpanAndCount(count: u32, divisor: nat, num: u64, den: nat, deadline: u64, now: u64)
    requires divisor > 0 && num > 0 && den > 0 && now <= deadline
    ensures var span := SpanFromCount(count, CyclesPerCount(divisor, num), den);
            count * (divisor * num) < TWO64 * den ==>
              span * den <= count * (divisor * num) < (span + 1) * den
    ensures var c := CountUntil(deadline, now, CyclesPerCount(divisor, num), den);
            && c * (divisor * num) <= (deadline - now) * den
            && (c < U32_MAX ==> (deadline - now) * den < (c + 1) * (divisor * num))
  {
    var per := CyclesPerCount(divisor, num);
    Positive(divisor, num);
    hide CyclesPerCount;
    Quotient(count * per, den);
    if count * per < TWO64 * den {
      QuotientAtLeast(count * per, den, TWO64);
    }
    var left := (deadline - now) * den;
    Quotient(left, per);
    MulMonotone(Min(left / per, U32_MAX), left / per, per);
    if now == deadline {
      QuotientAtLeast(left, per, 1);
    }
  }

  lemma Positive(x: nat, y: nat)
    requires x > 0 && y > 0
    ensures x * y > 0
  {
  }

  lemma Quotient(a: nat, b: nat)
    requires b > 0
    ensures 0 <= a / b && a / b * b <= a < (a / b + 1) * b
  {
    DivNonNegative(a, b);
    QuotientBounds(a, b);
    Products(a / b, b);
  }

  lemma Products(q: int, b: int)
    ensures q * b == b * q && (q + 1) * b == b * q + b
  {
  }

  // Reading a count back.

  /** Right after programming `c`, the current count is never above `c`, is `c`
      exactly when the span had no rounding, and is at worst one less when a count
      takes at least a cycle. */
  lemma ReadBack(c: u32, now: u64, per: nat, den: nat)
    requires per > 0 && den > 0 && now + c * per / den < TWO64
    ensures var d := now + SpanFromCount(c, per, den);
            && CountUntil(d, now, per, den) <= c
            && (CountUntil(d, now, per, den) == c <==> c * per % den == 0)
            && (per >= den ==> CountUntil(d, now, per, den) >= c - 1)
  {
    var span := c * per / den;
    DivNonNegative(c * per, den);
    QuotientBounds(c * per, den);
    RemainderOf(c * per, den);
    assert span % TWO64 == span;
    var back := span * den / per;
    DivNonNegative(span * den, per);
    assert span * den == den * span;
    QuotientAtLeast(span * den, per, c + 1);
    assert (c + 1) * per == c * per + per;
    QuotientAtLeast(span * den, per, c);
    QuotientAtLeast(span * den, per, c - 1);
    assert (c - 1) * per == c * per - per;
    ReadBackValue(now, span, per, den);
  }

  /** When one count is a whole number of cycles, every count is: reading back is
      exact for all of them. */
  lemma WholeCycles(c: nat, per: nat, den: nat)
    requires den > 0 && per % den == 0
    ensures c * per % den == 0
  {
    var q := per / den;
    QuotientBounds(per, den);
    RemainderOf(per, den);
    Regroup(c, den, q);
    MultipleOf(den, c * q);
  }

  lemma Regroup(c: int, den: int, q: int)
    ensures c * (den * q) == den * (c * q)
  {
  }

  lemma MultipleOf(den: nat, k: int)
    requires den > 0
    ensures den * k % den == 0
  {
    var x := den * k;
    QuotientBounds(x, den);
    RemainderOf(x, den);
    QuotientAtLeast(x, den, k);
    QuotientAtLeast(x, den, k + 1);
    assert (k + 1) * den == den * k + den;
  }

  lemma ReadBackValue(now: u64, span: nat, per: nat, den: nat)
    requires per > 0 && den > 0 && now + span < TWO64 && span * den / per <= U32_MAX
    ensures CountUntil(now + span, now, per, den) == span * den / per
  {
  }

  /** The count never rises as time passes, and is zero from the deadline on. */
  lemma CountFalls(deadline: u64, t: u64, u: u64, per: nat, den: nat)
    requires per > 0 && t <= u
    ensures CountUntil(deadline, u, per, den) <= CountUntil(deadline, t, per, den)
    ensures deadline <= t ==> CountUntil(deadline, t, per, den) == 0
  {
    if u < deadline {
      var a, b := (deadline - u) * den, (deadline - t) * den;
      MulMonotone(deadline - u, deadline - t, den);
      QuotientAtLeast(b, per, a / per);
      QuotientBounds(a, per);
      assert a / per * per == per * (a / per);
    }
  }

  // Periodic boundaries.

  /** The first of `dl`, `dl + period`, ... after `now`. */
  function NextBoundary(dl: nat, period: nat, now: nat): nat
    requires period > 0 && dl <= now
  {
    DivNonNegative(now - dl, period);
    dl + ((now - dl) / period + 1) * period
  }

  lemma NextBoundaryIsFirst(dl: nat, period: nat, now: nat, k: nat)
    requires period > 0 && dl <= now
    ensures now < NextBoundary(dl, period, now) <= now + period
    ensures now < dl + k * period ==> NextBoundary(dl, period, now) <= dl + k * period
  {
    var q := (now - dl) / period;
    QuotientBounds(now - dl, period);
    assert (q + 1) * period == period * q + period;
    if now < dl + k * period {
      QuotientAtLeast(now - dl, period, k);
      MulMonotone(q + 1, k, period);
    }
  }

  /** Catching up to `t` and then to `u` ends at the boundary that catching up to
      `u` alone would reach. */
  lemma CatchUpTwice(dl: nat, period: nat, t: nat, u: nat)
    requires period > 0 && dl <= t <= u
    ensures var next := NextBoundary(dl, period, t);
            NextBoundary(dl, period, u) == if next <= u then NextBoundary(next, period, u) else next
  {
    var k, m := (t - dl) / period + 1, (u - dl) / period + 1;
    var next := dl + k * period;
    DivNonNegative(t - dl, period);
    DivNonNegative(u - dl, period);
    NextBoundaryIsFirst(dl, period, t, m);
    NextBoundaryIsFirst(dl, period, u, k);
    if next <= u {
      var j := (u - next) / period + 1;
      DivNonNegative(u - next, period);
      Shift(dl, k, j, period);
      NextBoundaryIsFirst(dl, period, u, k + j);
      if k <= m {
        Shift(dl, k, m - k, period);
        NextBoundaryIsFirst(next, period, u, m - k);
      } else {
        MulMonotone(m, k, period);
        assert false;
      }
    }
  }

  lemma Shift(dl: nat, k: nat, j: nat, period: nat)
    ensures dl + k * period + j * period == dl + (k + j) * period
  {
  }
}
