/** The 32-bit wrapping clock of CoDel and its signed comparisons
    (section 3.2 of RFC 1982), next to unbounded real time. */
module SerialTime {

  const WRAP: int := 0x1_0000_0000
  const HALF: int := 0x8000_0000

  type u32 = x: int | 0 <= x < 0x1_0000_0000
  type u16 = x: int | 0 <= x < 0x1_0000

  /** Conversion of any integer to `u32`. */
  function Wrap(t: int): u32 {
    t % WRAP
  }

  /** Conversion of a `u32` to `s32`. */
  function Signed(d: u32): int {
    if d < HALF then d else d - WRAP
  }

  predicate After(a: u32, b: u32) {
    Signed(Wrap(a - b)) > 0
  }

  predicate AfterEq(a: u32, b: u32) {
    Signed(Wrap(a - b)) >= 0
  }

  predicate Before(a: u32, b: u32) {
    After(b, a)
  }

  lemma WrapDifference(a: int, b: int)
    ensures Wrap(Wrap(a) - Wrap(b)) == Wrap(a - b)
    ensures Wrap(Wrap(a) + Wrap(b)) == Wrap(a + b)
  {
    var p, q := a / WRAP, b / WRAP;
    assert Wrap(a) - Wrap(b) == (a - b) - (p - q) * WRAP;
    assert Wrap(a) + Wrap(b) == (a + b) - (p + q) * WRAP;
    WrapShift(a - b, -(p - q));
    WrapShift(a + b, -(p + q));
  }

  lemma WrapShift(t: int, k: int)
    ensures Wrap(t + k * WRAP) == Wrap(t)
  {
    var q, r := t / WRAP, t % WRAP;
    WrapUnique(t + k * WRAP, q + k, r);
  }

  lemma WrapUnique(t: int, q: int, r: int)
    requires t == q * WRAP + r && 0 <= r < WRAP
    ensures Wrap(t) == r
  {
  }

  /** The wrapped comparisons order two instants exactly as real time does when
      and only when the instants are less than half the clock's range apart
      (the one tolerated exception is a distance of exactly half, backwards). */
  lemma SerialOrder(a: int, b: int)
    requires -HALF <= a - b < HALF
    ensures After(Wrap(a), Wrap(b)) <==> a > b
    ensures AfterEq(Wrap(a), Wrap(b)) <==> a >= b
  {
    WrapDifference(a, b);
    if a >= b { WrapUnique(a - b, 0, a - b); } else { WrapUnique(a - b, -1, a - b + WRAP); }
  }

  /** Half a range forwards is already read as "before". */
  lemma SerialOrderFailsAtHalf(b: int)
    ensures !AfterEq(Wrap(b + HALF), Wrap(b))
  {
    WrapDifference(b + HALF, b);
    WrapUnique(HALF, 0, HALF);
  }

  /** A sojourn that is not "before" the target really is at least the target,
      for every real sojourn, exactly when the target is below half the range. */
  lemma SojournTestExact(target: u32)
    ensures (forall s: nat :: !Before(Wrap(s), target) ==> s >= target) <==> target < HALF
  {
    if target < HALF {
      forall s: nat | !Before(Wrap(s), target) ensures s >= target {
        if s < target {
          WrapUnique(s, 0, s);
          WrapUnique(target - s, 0, target - s);
        }
      }
    } else {
      var s: nat := target - HALF;
      WrapUnique(s, 0, s);
      WrapUnique(target - s, 0, HALF);
      assert !Before(Wrap(s), target) && s < target;
    }
  }

  /** `now` compares after the mark that was set at `start`, one interval ahead. */
  predicate PastMark(start: nat, now: nat, interval: u32) {
    After(Wrap(now), Wrap(start + interval))
  }

  /** If the first-above mark was set to `start + interval`, a later instant that
      compares after the mark is more than an interval later in real time, for
      every pair of instants, exactly when the interval is at most half the range. */
  lemma IntervalTestExact(interval: u32)
    ensures (forall start: nat, now: nat :: start <= now && PastMark(start, now, interval)
                ==> now - start > interval)
            <==> interval <= HALF
  {
    if interval <= HALF {
      forall start: nat, now: nat | start <= now && PastMark(start, now, interval)
        ensures now - start > interval
      {
        IntervalElapsed(start, now, interval);
      }
    } else {
      var i: int := interval;
      SerialDistance(0, i);
      WrapUnique(-i, -1, WRAP - i);
      assert PastMark(0, 0, interval);
    }
  }

  lemma SerialDistance(a: int, b: int)
    ensures After(Wrap(a), Wrap(b)) <==> Signed(Wrap(a - b)) > 0
  {
    WrapDifference(a, b);
  }

  lemma IntervalElapsed(start: nat, now: nat, interval: u32)
    requires start <= now && interval <= HALF
    requires PastMark(start, now, interval)
    ensures now - start > interval
  {
    if now - start <= interval {
      SerialOrder(now, start + interval);
    }
  }

  /** Conversely, less than half a range after the mark the comparison fires as
      soon as more than an interval has passed. */
  lemma IntervalFires(start: nat, now: nat, interval: u32)
    requires start + interval < now < start + interval + HALF
    ensures PastMark(start, now, interval)
  {
    SerialOrder(now, start + interval);
  }

  /** At `now`, what was planned at `made` for `wait` later compares as due. */
  predicate TakenAsDue(made: nat, now: nat, wait: u32) {
    AfterEq(Wrap(now), Wrap(made + wait))
  }

  /** A time planned some wait ahead is not taken to have come before it has, for every pair of instants, exactly when
      the wait is at most half the range. */
  lemma PlanTestExact(wait: u32)
    ensures (forall made: nat, now: nat :: made <= now && TakenAsDue(made, now, wait) ==> made + wait <= now) <==> wait <= HALF
  {
    if wait <= HALF {
      forall made: nat, now: nat | made <= now && TakenAsDue(made, now, wait) ensures made + wait <= now {
        if now - (made + wait) < HALF { SerialOrder(now, made + wait); }
      }
    } else {
      var w: int := wait;
      WrapDifference(0, w);
      WrapUnique(-w, -1, WRAP - w);
      assert TakenAsDue(0, 0, wait);
    }
  }

  const SHIFT_RANGE: int := 1024
  const NSEC_PER_USEC: int := 1000

  /** Microseconds to clock units, as a configuration request is stored. */
  function FromMicroseconds(us: u32): u32 {
    us * NSEC_PER_USEC / SHIFT_RANGE
  }

  /** A configured interval is within the range the comparisons tolerate exactly
      below 2200 seconds (2199 seconds and a fraction). */
  lemma ConfigurableRange(us: u32)
    ensures FromMicroseconds(us) < HALF <==> us < 2_199_023_256
  {
  }
}
