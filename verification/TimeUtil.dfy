/** Tick arithmetic of base/time_util.h and the deadline of Monitor::WaitForTimeRelative.
    Integers are unbounded here; the source uses int64_t. */
module TimeUtil {

  const NS_PER_S := 1000000000
  const US_PER_S := 1000000
  const MS_PER_S := 1000
  const NS_PER_MS := 1000000
  const US_PER_MS := 1000

  datatype Timespec = Timespec(sec: int, nsec: int)
  datatype Timeval = Timeval(sec: int, usec: int)

  /** C's division and remainder, which truncate toward zero. */
  function Quot(a: int, b: int): int
    requires b > 0
  {
    if a >= 0 then a / b else -((-a) / b)
  }

  function Rem(a: int, b: int): int
    requires b > 0
  {
    if a >= 0 then a % b else -((-a) % b)
  }

  function ToTimespec(ms: int): Timespec {
    Timespec(Quot(ms, MS_PER_S), Rem(ms, MS_PER_S) * NS_PER_MS)
  }

  function ToTimeval(ms: int): Timeval {
    Timeval(Quot(ms, MS_PER_S), Rem(ms, MS_PER_S) * US_PER_MS)
  }

  function Ticks(secs: int, frac: int, oldPerSec: int, newPerSec: int): int
    requires oldPerSec > 0 && newPerSec > 0
  {
    var ratio := oldPerSec / newPerSec;
    secs * newPerSec + Quot(frac * newPerSec, oldPerSec)
    + if ratio != 0 && Rem(frac, ratio) >= ratio / 2 then 1 else 0
  }

  /** The source's assignments to its out parameter. */
  method ToTicks(secs: int, oldTicks: int, oldPerSec: int, newPerSec: int) returns (result: int)
    requires oldPerSec > 0 && newPerSec > 0
    ensures result == Ticks(secs, oldTicks, oldPerSec, newPerSec)
  {
    result := secs * newPerSec;
    result := result + Quot(oldTicks * newPerSec, oldPerSec);
    var oldPerNew := Quot(oldPerSec, newPerSec);
    if oldPerNew != 0 && Rem(oldTicks, oldPerNew) >= Quot(oldPerNew, 2) {
      result := result + 1;
    }
  }

  function SpecToMs(t: Timespec): int { Ticks(t.sec, t.nsec, NS_PER_S, MS_PER_S) }
  function ValToMs(t: Timeval): int { Ticks(t.sec, t.usec, US_PER_S, MS_PER_S) }
  function ValToUsec(t: Timeval): int { Ticks(t.sec, t.usec, US_PER_S, US_PER_S) }

  // ---------------------------------------------------------------- division

  lemma {:induction false} MulMono(a: nat, b: nat, k: nat)
    requires a <= b
    ensures a * k <= b * k
  {
  }

  /** Quotient and remainder are the only pair that fits. */
  lemma DivUnique(x: int, y: int, q: int, r: int)
    requires y > 0 && x == q * y + r && 0 <= r < y
    ensures x / y == q && x % y == r
  {
    var p, s := x / y, x % y;
    assert x == p * y + s;
    assert (q - p) * y == q * y - p * y && (p - q) * y == p * y - q * y;
    if p < q {
      MulMono(1, q - p, y);
    } else if p > q {
      MulMono(1, p - q, y);
    }
  }

  lemma DivMono(a: int, b: int, d: int)
    requires a <= b && d > 0
    ensures a / d <= b / d
  {
    var p, q := a / d, b / d;
    assert a == p * d + a % d && b == q * d + b % d;
    assert (p - q) * d == p * d - q * d;
    if q < p {
      MulMono(1, p - q, d);
    }
  }

  /** n / d rounded to the nearest integer, halves upward. */
  function RoundHalfUp(n: int, d: int): int
    requires d > 0
  {
    (2 * n + d) / (2 * d)
  }

  lemma RoundHalfUpIs(n: int, d: int, q: int, r: int)
    requires d > 0 && n == q * d + r && 0 <= r < d
    ensures RoundHalfUp(n, d) == if 2 * r >= d then q + 1 else q
  {
    var up := if 2 * r >= d then q + 1 else q;
    var rest := 2 * n + d - up * (2 * d);
    assert q * (2 * d) == 2 * (q * d);
    assert (q + 1) * (2 * d) == 2 * (q * d) + 2 * d;
    DivUnique(2 * n + d, 2 * d, up, rest);
  }

  // ---------------------------------------------------------------- ticks

  /** Scaling both sides of a division does not change it. */
  lemma ScaledDiv(x: nat, d: int, m: int)
    requires d > 0 && m > 0 && d * m > 0 && x * m >= 0
    ensures x * m / (d * m) == x / d
  {
    var q, r := x / d, x % d;
    assert x == q * d + r;
    MulMono(r, d - 1, m);
    MulMono(0, r, m);
    assert (d - 1) * m == d * m - m;
    assert x * m == (q * d) * m + r * m;
    assert (q * d) * m == q * (d * m);
    DivUnique(x * m, d * m, q, r * m);
  }

  lemma TicksSplit(secs: int, frac: int, d: int, newPerSec: int)
    requires d > 0 && newPerSec > 0 && frac >= 0 && d * newPerSec > 0
    ensures Ticks(secs, frac, d * newPerSec, newPerSec)
            == secs * newPerSec + frac / d + if frac % d >= d / 2 then 1 else 0
  {
    DivUnique(d * newPerSec, newPerSec, d, 0);
    MulMono(0, frac, newPerSec);
    ScaledDiv(frac, d, newPerSec);
  }

  lemma TotalSplit(secs: int, frac: int, d: int, newPerSec: int)
    requires d > 0
    ensures secs * (d * newPerSec) + frac == (secs * newPerSec + frac / d) * d + frac % d
  {
    assert frac == (frac / d) * d + frac % d;
    assert secs * (d * newPerSec) == (secs * newPerSec) * d;
  }

  /** For an exact ratio d of old to new ticks, ToTicks rounds the total to the nearest new tick,
      halves upward, and is one too large in exactly one case: d odd and the remainder d / 2,
      which is just below the half. */
  lemma TicksRound(secs: int, frac: int, d: int, newPerSec: int)
    requires d > 0 && newPerSec > 0 && frac >= 0 && d * newPerSec > 0
    ensures Ticks(secs, frac, d * newPerSec, newPerSec)
            == RoundHalfUp(secs * (d * newPerSec) + frac, d) + if d % 2 == 1 && frac % d == d / 2 then 1 else 0
  {
    TicksSplit(secs, frac, d, newPerSec);
    TotalSplit(secs, frac, d, newPerSec);
    RoundHalfUpIs(secs * (d * newPerSec) + frac, d, secs * newPerSec + frac / d, frac % d);
  }

  lemma OffsetDiv(n: int, d: int, q: int, r: int)
    requires d > 0 && n == q * d + r && 0 <= r < d
    ensures (n + d - d / 2) / d == if r >= d / 2 then q + 1 else q
  {
    assert (q + 1) * d == q * d + d;
    if r >= d / 2 {
      DivUnique(n + d - d / 2, d, q + 1, r - d / 2);
    } else {
      DivUnique(n + d - d / 2, d, q, r + d - d / 2);
    }
  }

  /** So it is one rounded-down division of the total, with an offset of half the ratio. */
  lemma TicksAreQuotient(secs: int, frac: int, d: int, newPerSec: int)
    requires d > 0 && newPerSec > 0 && frac >= 0 && d * newPerSec > 0
    ensures Ticks(secs, frac, d * newPerSec, newPerSec) == (secs * (d * newPerSec) + frac + d - d / 2) / d
  {
    TicksSplit(secs, frac, d, newPerSec);
    TotalSplit(secs, frac, d, newPerSec);
    OffsetDiv(secs * (d * newPerSec) + frac, d, secs * newPerSec + frac / d, frac % d);
  }

  /** Hence it is monotone in (secs, frac), compared lexicographically, for every exact ratio. */
  lemma TicksMonotone(s1: int, o1: int, s2: int, o2: int, d: int, newPerSec: int)
    requires d > 0 && newPerSec > 0 && d * newPerSec > 0
    requires 0 <= o1 < d * newPerSec && 0 <= o2 < d * newPerSec
    requires s1 < s2 || (s1 == s2 && o1 <= o2)
    ensures Ticks(s1, o1, d * newPerSec, newPerSec) <= Ticks(s2, o2, d * newPerSec, newPerSec)
  {
    var per := d * newPerSec;
    TicksAreQuotient(s1, o1, d, newPerSec);
    TicksAreQuotient(s2, o2, d, newPerSec);
    if s1 < s2 {
      MulMono(1, s2 - s1, per);
      assert (s2 - s1) * per == s2 * per - s1 * per;
    }
    DivMono(s1 * per + o1 + d - d / 2, s2 * per + o2 + d - d / 2, d);
  }

  /** At ratio 1, as in ToUsec of a timeval, the result is always exactly one too large. */
  lemma UnitRatioIsOff(secs: int, usec: int)
    requires usec >= 0
    ensures ValToUsec(Timeval(secs, usec)) == secs * US_PER_S + usec + 1
  {
  }

  /** To a finer unit the conversion is exact, also for negative fractions. */
  lemma TicksScaleUp(secs: int, frac: int, d: int, oldPerSec: int)
    requires d > 1 && oldPerSec > 0 && d * oldPerSec > 0
    ensures Ticks(secs, frac, oldPerSec, d * oldPerSec) == (secs * oldPerSec + frac) * d
  {
    MulMono(2, d, oldPerSec);
    DivUnique(oldPerSec, d * oldPerSec, 0, oldPerSec);
    var x := if frac >= 0 then frac else -frac;
    assert x * (d * oldPerSec) == (x * d) * oldPerSec;
    DivUnique(x * (d * oldPerSec), oldPerSec, x * d, 0);
    MulMono(0, x, d * oldPerSec);
    assert (-x) * (d * oldPerSec) == -(x * (d * oldPerSec));
    assert secs * (d * oldPerSec) == secs * oldPerSec * d;
  }

  /** Converting milliseconds to a timespec or a timeval and back is the identity. */
  lemma MillisecondsRoundTrip(ms: int)
    ensures SpecToMs(ToTimespec(ms)) == ms
    ensures ValToMs(ToTimeval(ms)) == ms
  {
  }

  // ---------------------------------------------------------------- deadlines

  datatype Deadline = Forever | Until(t: Timespec)

  function DeadlineAfter(timeoutMs: int, clock: Timespec): Timespec {
    ToTimespec(SpecToMs(clock) + timeoutMs)
  }

  /** WaitForTimeRelative: the deadline given to pthread_cond_timedwait for the clock sample. */
  method WaitDeadline(timeoutMs: int, clock: Timespec) returns (d: Deadline)
    ensures d == if timeoutMs == 0 then Forever else Until(DeadlineAfter(timeoutMs, clock))
  {
    if timeoutMs == 0 {
      return Forever;
    }
    var now := ToTicks(clock.sec, clock.nsec, NS_PER_S, MS_PER_S);
    d := Until(ToTimespec(now + timeoutMs));
  }

  function Nanos(t: Timespec): int { t.sec * NS_PER_S + t.nsec }

  predicate Normal(t: Timespec) { t.sec >= 0 && 0 <= t.nsec < NS_PER_S }

  /** The timespec of a number of milliseconds holds exactly those, whole seconds apart, both
      parts with the sign of the number. */
  lemma ToTimespecNanos(ms: int)
    ensures var t := ToTimespec(ms);
            && Nanos(t) == ms * NS_PER_MS && -NS_PER_S < t.nsec < NS_PER_S
            && (if ms >= 0 then t.sec >= 0 && t.nsec >= 0 else t.sec <= 0 && t.nsec <= 0)
    ensures ms >= 0 ==> Normal(ToTimespec(ms))
  {
  }

  lemma ToTimevalMicros(ms: int)
    ensures var t := ToTimeval(ms);
            && t.sec * US_PER_S + t.usec == ms * US_PER_MS && -US_PER_S < t.usec < US_PER_S
            && (if ms >= 0 then t.sec >= 0 && t.usec >= 0 else t.sec <= 0 && t.usec <= 0)
  {
  }

  /** The deadline is the whole millisecond nearest to the sample plus the timeout, halves upward,
      and it lies after the sample exactly when the timeout is at least one millisecond. */
  lemma DeadlineBound(timeoutMs: int, clock: Timespec)
    requires Normal(clock) && timeoutMs != 0
    ensures var late := Nanos(DeadlineAfter(timeoutMs, clock)) - (Nanos(clock) + timeoutMs * NS_PER_MS);
            -NS_PER_MS < 2 * late <= NS_PER_MS
    ensures Nanos(DeadlineAfter(timeoutMs, clock)) % NS_PER_MS == 0
    ensures Nanos(DeadlineAfter(timeoutMs, clock)) > Nanos(clock) <==> timeoutMs >= 1
    ensures timeoutMs >= 1 ==> Normal(DeadlineAfter(timeoutMs, clock))
  {
  }
}
