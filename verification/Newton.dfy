/** The fixed-point reciprocal square root behind the CoDel control law.
    `rec` is Q0.16; `N` is the fixed-point one, 2^32, so that `count * rec^2 <= N`
    says that `rec / 2^16` does not exceed `1 / sqrt(count)`. */
module Newton {
  import opened SerialTime

  const N: int := 0x1_0000_0000
  const U64: int := 0x1_0000_0000_0000_0000

  /** One Newton step in the machine's own arithmetic, every shift and every
      narrowing spelled out. */
  function NewtonStep(count: u32, rec: u16): u16 {
    Scaled((3 * N - count * Squared(rec)) % U64, rec)
  }

  /** `rec` as Q0.32, squared, as Q0.32 again. */
  function Squared(rec: u16): int {
    ((rec * 0x1_0000) * (rec * 0x1_0000)) % U64 / N
  }

  /** The second half of the step: times `rec`, scaled back and narrowed. */
  function Scaled(val: int, rec: u16): u16 {
    (val / 4 * (rec * 0x1_0000)) % U64 / 0x8000_0000 / 0x1_0000 % 0x1_0000
  }

  /** `interval / sqrt(count)` as the control law adds it to a time. */
  function Advance(interval: u32, rec: u16): u32 {
    ScaleBound(interval, rec);
    interval * (rec * 0x1_0000) / N
  }

  function ControlLaw(t: u32, interval: u32, rec: u16): u32 {
    Wrap(t + Advance(interval, rec))
  }

  lemma ScaleBound(interval: u32, rec: u16)
    ensures 0 <= interval * (rec * 0x1_0000) / N <= interval
    ensures N * (interval * (rec * 0x1_0000) / N) <= interval * (rec * 0x1_0000)
  {
    MulMono(rec * 0x1_0000, N, interval);
    assert interval * (rec * 0x1_0000) <= interval * N;
  }

  /** The same step without machine arithmetic. */
  function ExactStep(t: int, rec: int): int {
    (3 * N - t) / 4 * rec / 0x8000_0000
  }

  lemma MulMono(a: int, b: int, c: int)
    requires a <= b && 0 <= c
    ensures c * a <= c * b && a * c <= b * c
  {
  }

  lemma SquareMono(a: int, b: int)
    requires 0 <= a <= b
    ensures a * a <= b * b
  {
    MulMono(a, b, a);
    MulMono(a, b, b);
  }

  lemma SquareOfShifted(rec: int)
    ensures (rec * 0x1_0000) * (rec * 0x1_0000) == rec * rec * N
  {
  }

  /** Outside the wrap cases the machine step is the exact one: the subtraction from
      `3 << 32` does not underflow and no 64-bit product overflows. */
  lemma NewtonNoWrap(count: u32, rec: u16)
    requires count * (rec * rec) <= 3 * N
    ensures 0 <= 3 * N - count * (rec * rec) < U64
    ensures 0 <= (3 * N - count * (rec * rec)) / 4 * (rec * 0x1_0000) < U64
    ensures 0 <= ExactStep(count * (rec * rec), rec)
    ensures NewtonStep(count, rec) == ExactStep(count * (rec * rec), rec) % 0x1_0000
  {
    MulMono(0, rec * rec, count);
    var t := count * (rec * rec);
    ProductFits(t, rec);
    StepUnfolded(count, rec, t);
    ScaledExactly(3 * N - t, rec);
  }

  lemma StepUnfolded(count: u32, rec: u16, t: int)
    requires t == count * (rec * rec) && 0 <= t <= 3 * N
    ensures NewtonStep(count, rec) == Scaled(3 * N - t, rec)
  {
    SquareFits(rec);
    assert count * Squared(rec) == t;
    assert (3 * N - t) % U64 == 3 * N - t;
  }

  lemma ScaledExactly(val: int, rec: u16)
    requires 0 <= val <= 3 * N
    ensures Scaled(val, rec) == val / 4 * rec / 0x8000_0000 % 0x1_0000
  {
    ProductFits(3 * N - val, rec);
    Shifted(val / 4, rec);
    ScaledDown(val / 4 * (rec * 0x1_0000), val / 4 * rec);
  }

  lemma ScaledDown(x: int, y: int)
    requires 0 <= x < U64 && x == y * 0x1_0000
    ensures x % U64 / 0x8000_0000 / 0x1_0000 == y / 0x8000_0000
  {
    DivDiv(y);
  }

  lemma Shifted(q: int, rec: int)
    ensures q * (rec * 0x1_0000) == q * rec * 0x1_0000
  {
  }

  lemma SquareFits(rec: u16)
    ensures 0 <= rec * rec < N
    ensures Squared(rec) == rec * rec
  {
    SquareMono(rec, 0xFFFF);
    SquareOfShifted(rec);
  }

  lemma ProductFits(t: int, rec: u16)
    requires 0 <= t <= 3 * N
    ensures 0 <= (3 * N - t) / 4 * rec
    ensures 0 <= (3 * N - t) / 4 * (rec * 0x1_0000) < U64
  {
    var q := (3 * N - t) / 4;
    MulMono(0, rec, q);
    MulMono(rec * 0x1_0000, 0xFFFF_0000, q);
    MulMono(q, 3 * N / 4, 0xFFFF_0000);
    MulMono(0, rec * 0x1_0000, q);
  }

  lemma DivDiv(x: int)
    requires 0 <= x
    ensures x * 0x1_0000 / 0x8000_0000 / 0x1_0000 == x / 0x8000_0000
  {
    var a := x * 0x1_0000 / 0x8000_0000;
    assert a == x / 0x8000;
  }

  /** The identity the bound rests on. */
  lemma CubicIdentity(n: int, t: int)
    ensures 4 * (n * n * n) - t * ((3 * n - t) * (3 * n - t)) == (n - t) * (n - t) * (4 * n - t)
  {
  }

  /** The exact step from below the curve ends below the curve. */
  lemma ExactStepBound(count: int, rec: int)
    requires 0 <= count && 0 <= rec && count * (rec * rec) <= 3 * N
    ensures var s := ExactStep(count * (rec * rec), rec); 0 <= s && count * (s * s) <= N
  {
    var t := count * (rec * rec);
    var s := ExactStep(t, rec);
    MulMono(0, rec * rec, count);
    StepBelowCurve(t, rec);
    BelowCurveSquared(N, count, rec, t, s);
    CancelSquare(count * (s * s));
  }

  lemma BelowCurveSquared(n: int, count: int, rec: int, t: int, s: int)
    requires 0 <= count && 0 <= n && t == count * (rec * rec) <= 3 * n
    requires 0 <= 2 * n * s <= rec * (3 * n - t)
    ensures 4 * (n * n) * (count * (s * s)) <= 4 * (n * n * n)
  {
    SquaredStep(n, count, rec, 3 * n - t, s);
    CubicIdentity(n, t);
    var d := n - t;
    assert 0 <= d * d;
    MulMono(0, 4 * n - t, d * d);
  }

  lemma StepBelowCurve(t: int, rec: int)
    requires 0 <= rec && t <= 3 * N
    ensures 0 <= 2 * N * ExactStep(t, rec) <= rec * (3 * N - t)
  {
    var q := (3 * N - t) / 4;
    MulMono(0, rec, q);
    MulMono(4 * q, 3 * N - t, rec);
    var s := ExactStep(t, rec);
    assert 0x8000_0000 * s <= q * rec;
    assert 4 * (q * rec) == (4 * q) * rec;
  }

  lemma SquaredStep(n: int, count: int, rec: int, z: int, s: int)
    requires 0 <= count && 0 <= 2 * n * s <= rec * z
    ensures 4 * (n * n) * (count * (s * s)) <= count * (rec * rec) * (z * z)
  {
    SquareMono(2 * n * s, rec * z);
    var p, w := 4 * (n * n) * (s * s), (rec * rec) * (z * z);
    assert (2 * n * s) * (2 * n * s) == p;
    assert (rec * z) * (rec * z) == w;
    MulMono(p, w, count);
    assert count * p == 4 * (n * n) * (count * (s * s));
    assert count * w == count * (rec * rec) * (z * z);
  }

  lemma CancelSquare(x: int)
    requires 4 * (N * N) * x <= 4 * (N * N * N)
    ensures x <= N
  {
  }

  /** `rec / 2^16` does not exceed `1 / sqrt(count)`. */
  predicate OnCurve(count: int, rec: int) {
    count * (rec * rec) <= N
  }

  /** What every state of a flow keeps. The second case is ordinary running; the first is
      where the counter ends up long before it can wrap, and what it never leaves
      until the next reset. */
  predicate CurveInv(count: u32, lastcount: u32, rec: u16) {
    rec <= 1 || (lastcount <= count && OnCurve(count, rec))
  }

  lemma CurveInvMeansOnCurve(count: u32, lastcount: u32, rec: u16)
    requires CurveInv(count, lastcount, rec)
    ensures OnCurve(count, rec)
  {
    if rec <= 1 { assert rec * rec <= 1; MulMono(rec * rec, 1, count); }
  }

  /** A step taken from at most one increment above the curve lands on or below it and is exact. */
  lemma StepReturnsToCurve(count: u32, rec: u16)
    requires rec <= 1 || (1 <= count && count * (rec * rec) <= N + rec * rec)
    ensures count * (rec * rec) <= 3 * N
    ensures NewtonStep(count, rec) == ExactStep(count * (rec * rec), rec)
    ensures OnCurve(count, NewtonStep(count, rec))
    ensures rec <= 1 ==> NewtonStep(count, rec) <= 1
  {
    var t := count * (rec * rec);
    StartBound(count, rec, t);
    NewtonNoWrap(count, rec);
    ExactStepBound(count, rec);
    StepFits(t, rec);
  }

  lemma StartBound(count: u32, rec: u16, t: int)
    requires t == count * (rec * rec)
    requires rec <= 1 || (1 <= count && t <= N + rec * rec)
    ensures 0 <= t <= 3 * N && (rec <= 1 ==> t <= N) && (rec >= 2 ==> rec * rec <= t)
  {
    SquareFits(rec);
    MulMono(0, rec * rec, count);
    if rec <= 1 { MulMono(rec * rec, 1, count); } else { MulMono(1, count, rec * rec); }
  }

  /** The exact result needs no narrowing. */
  lemma StepFits(t: int, rec: u16)
    requires 0 <= t <= 3 * N && (rec >= 2 ==> rec * rec <= t)
    ensures 0 <= ExactStep(t, rec) < 0x1_0000
    ensures rec <= 1 ==> ExactStep(t, rec) <= 1
  {
    StepBelowCurve(t, rec);
    if rec >= 2 {
      MulMono(3 * N - t, 3 * N - rec * rec, rec);
      BelowOne(0x1_0000, rec);
      assert rec * (3 * N - rec * rec) < 2 * N * 0x1_0000;
    }
  }

  lemma BelowOne(x: int, r: int)
    requires 0 <= r < x
    ensures r * (3 * (x * x) - r * r) < 2 * (x * x) * x
  {
    var d := x - r;
    assert 2 * (x * x) * x - r * (3 * (x * x) - r * r) == d * d * (2 * x + r);
    assert 1 <= d * d;
    MulMono(1, d * d, 2 * x + r);
  }

  /** `count++; Newton step` inside the drop loop, the wrap of `count` included. */
  lemma IncrementKeepsCurve(count: u32, lastcount: u32, rec: u16)
    requires CurveInv(count, lastcount, rec)
    ensures var c := Wrap(count + 1); CurveInv(c, lastcount, NewtonStep(c, rec)) && OnCurve(c, NewtonStep(c, rec))
    ensures var c := Wrap(count + 1); NewtonStep(c, rec) == ExactStep(c * (rec * rec), rec)
  {
    var c := Wrap(count + 1);
    if rec >= 2 {
      SquareMono(2, rec);
      if count == WRAP - 1 {
        MulMono(4, rec * rec, count);
        assert false;
      }
      assert c * (rec * rec) == count * (rec * rec) + rec * rec;
    }
    StepReturnsToCurve(c, rec);
  }

  /** Re-entering the dropping state, with the remembered rate or from scratch. */
  lemma ReentryKeepsCurve(count: u32, lastcount: u32, rec: u16)
    requires CurveInv(count, lastcount, rec)
    ensures var d := Wrap(count - lastcount);
            d > 1 ==> CurveInv(d, d, NewtonStep(d, rec)) && OnCurve(d, NewtonStep(d, rec))
    ensures CurveInv(1, 1, 0xFFFF)
  {
    var d := Wrap(count - lastcount);
    if d > 1 {
      if rec >= 2 {
        assert 0 <= rec * rec;
        MulMono(d, count, rec * rec);
      }
      StepReturnsToCurve(d, rec);
    }
  }

  /** The control law never waits longer than `interval / sqrt(count)`. */
  lemma AdvanceBound(interval: u32, count: u32, rec: u16)
    requires OnCurve(count, rec)
    ensures var a := Advance(interval, rec); count * (a * a) <= interval * interval
  {
    var a := Advance(interval, rec);
    ScaleBound(interval, rec);
    assert interval * (rec * 0x1_0000) == (interval * rec) * 0x1_0000;
    assert 0x1_0000 * a <= interval * rec;
    SquaredAdvance(0x1_0000, a, interval, rec, count);
  }

  lemma SquaredAdvance(x: int, a: int, interval: int, rec: int, count: int)
    requires x == 0x1_0000 && 0 <= a && 0 <= count && 0 <= x * a <= interval * rec
    requires count * (rec * rec) <= x * x
    ensures count * (a * a) <= interval * interval
  {
    SquareMono(x * a, interval * rec);
    var p, w := (x * x) * (a * a), (interval * interval) * (rec * rec);
    assert (x * a) * (x * a) == p && (interval * rec) * (interval * rec) == w;
    MulMono(p, w, count);
    var i2 := interval * interval;
    assert count * w == i2 * (count * (rec * rec));
    MulMono(count * (rec * rec), x * x, i2);
    assert count * p == (x * x) * (count * (a * a));
    Cancel(count * (a * a), i2);
  }

  lemma Cancel(u: int, v: int)
    requires N * u <= v * N
    ensures u <= v
  {
  }

  /** Quadratic convergence: if a step starts with relative shortfall `(N - t) / N`, it ends
      (up to the two units the truncations cost) with at most the square of it. */
  lemma QuadraticConvergence(count: u32, rec: u16)
    requires 1 <= count && count * (rec * rec) <= N + rec * rec
    ensures ShortfallAtMostSquared(N, count, count * (rec * rec), NewtonStep(count, rec) + 2)
  {
    StepReturnsToCurve(count, rec);
    MulMono(0, rec * rec, count);
    StepNearCurve(count * (rec * rec), rec);
    ShortfallSquares(N, count, rec, count * (rec * rec), NewtonStep(count, rec) + 2);
  }

  /** With `t / n` the starting point: `count * y^2 / n >= 1 - (1 - t / n)^2`. */
  predicate ShortfallAtMostSquared(n: int, count: int, t: int, y: int) {
    n * (count * (y * y)) >= n * n - (n - t) * (n - t)
  }

  lemma StepNearCurve(t: int, rec: u16)
    requires t <= 3 * N
    ensures rec * (3 * N - t) <= 2 * N * (ExactStep(t, rec) + 2)
  {
    var q := (3 * N - t) / 4;
    var s := ExactStep(t, rec);
    MulMono(3 * N - t, 4 * q + 3, rec);
    assert (4 * q + 3) * rec == 4 * (q * rec) + 3 * rec;
    assert q * rec < 0x8000_0000 * (s + 1);
  }

  lemma AboveCurveSquared(n: int, count: int, rec: int, t: int, y: int)
    requires 0 <= count && 0 <= n && 0 <= rec && 0 <= t == count * (rec * rec) <= 3 * n
    requires rec * (3 * n - t) <= 2 * n * y
    ensures 4 * n * (n * n - (n - t) * (n - t)) <= 4 * n * (n * (count * (y * y)))
  {
    var z := 3 * n - t;
    MulMono(0, z, rec);
    SquareMono(rec * z, 2 * n * y);
    var p, w := 4 * (n * n) * (y * y), (rec * rec) * (z * z);
    SquareOfProduct(rec, z);
    SquareOfProduct(2 * n, y);
    MulMono(w, p, count);
    Reordered(n, count, rec, t, y, z);
    CubicIdentity(n, t);
    CubicPart(n, t);
  }

  lemma SquareOfProduct(a: int, b: int)
    ensures (a * b) * (a * b) == (a * a) * (b * b)
  {
    assert (a * b) * (a * b) == a * (b * (a * b));
    assert b * (a * b) == a * (b * b);
  }

  lemma Reordered(n: int, count: int, rec: int, t: int, y: int, z: int)
    requires t == count * (rec * rec)
    ensures count * ((rec * rec) * (z * z)) == t * (z * z)
    ensures count * (4 * (n * n) * (y * y)) == 4 * n * (n * (count * (y * y)))
  {
    var r, k := rec * rec, y * y;
    assert count * (r * (z * z)) == (count * r) * (z * z);
    assert count * (4 * (n * n) * k) == 4 * n * (n * (count * k));
  }

  lemma CubicPart(n: int, t: int)
    requires 0 <= t
    ensures 4 * n * (n * n - (n - t) * (n - t)) <= 4 * (n * n * n) - (n - t) * (n - t) * (4 * n - t)
  {
    var d := n - t;
    var e := d * d;
    MulMono(0, t, e);
    assert e * (4 * n - t) == e * (4 * n) - e * t;
    assert 4 * n * (n * n - e) == 4 * (n * n * n) - e * (4 * n);
  }

  lemma ShortfallSquares(n: int, count: int, rec: int, t: int, y: int)
    requires 0 <= count && 0 < n && 0 <= rec && 0 <= t == count * (rec * rec) <= 3 * n
    requires rec * (3 * n - t) <= 2 * n * y
    ensures ShortfallAtMostSquared(n, count, t, y)
  {
    AboveCurveSquared(n, count, rec, t, y);
    CancelFour(n, n * (count * (y * y)), n * n - (n - t) * (n - t));
  }

  lemma CancelFour(n: int, u: int, v: int)
    requires 0 < n && 4 * n * v <= 4 * n * u
    ensures v <= u
  {
    if u < v { MulMono(u + 1, v, 4 * n); }
  }

  /** The estimate never collapses to zero once it is positive. */
  lemma StepStaysPositive(count: u32, rec: u16)
    requires 1 <= rec && (rec == 1 || (1 <= count && count * (rec * rec) <= N + rec * rec))
    ensures 1 <= NewtonStep(count, rec)
  {
    var t := count * (rec * rec);
    StepReturnsToCurve(count, rec);
    var q := (3 * N - t) / 4;
    SquareFits(rec);
    if rec == 1 {
      assert q >= 0x8000_0000;
    } else {
      assert q >= 0x4000_0000;
      MulMono(2, rec, q);
    }
  }

  // ---------- how far the estimate can lag ----------

  /** The estimate is within a factor of the square root of two of `1 / sqrt(peak)`, up to the two units the
      truncations cost. No estimate has been made while `peak` is 0. */
  predicate NotFarBelow(peak: nat, rec: u16) {
    peak == 0 || N <= 2 * (peak * ((rec + 2) * (rec + 2)))
  }

  /** From below the curve a step does not go down. */
  lemma StepFromBelow(count: u32, rec: u16)
    requires count * (rec * rec) <= N && NewtonStep(count, rec) == ExactStep(count * (rec * rec), rec)
    ensures NewtonStep(count, rec) >= rec
  {
    var q := (3 * N - count * (rec * rec)) / 4;
    assert q >= 0x8000_0000;
    MulMono(0x8000_0000, q, rec);
  }

  /** With `t` between `n` and `2 * n`: the exact image of a point above the curve is not below half of it. */
  lemma HalfOfCurve(n: int, t: int)
    requires 0 < n <= t <= 2 * n
    ensures t * ((3 * n - t) * (3 * n - t)) >= 2 * (n * n * n)
  {
    var d := t - n;
    CubicIdentity(n, t);
    assert (n - t) * (n - t) == d * d;
    assert (d * d) * (4 * n - t) == (d * d) * (3 * n - d);
    SquareMono(d, n);
    MulMono(0, d, n);
    var k := 2 * (n * n) + 2 * (n * d) - d * d;
    assert k >= 0;
    MulMono(0, n - d, k);
    HalfIdentity(n, d);
  }

  lemma HalfIdentity(n: int, d: int)
    ensures (n - d) * (2 * (n * n) + 2 * (n * d) - d * d) == 2 * (n * n * n) - (d * d) * (3 * n - d)
  {
  }

  /** From just above the curve a step ends above half of it. */
  lemma StepFromAbove(count: u32, rec: u16)
    requires N <= count * (rec * rec) <= N + rec * rec && NewtonStep(count, rec) == ExactStep(count * (rec * rec), rec)
    ensures var y := NewtonStep(count, rec) + 2; N <= 2 * (count * (y * y))
  {
    var t := count * (rec * rec);
    var y := NewtonStep(count, rec) + 2;
    SquareFits(rec);
    StepNearCurve(t, rec);
    HalfOfCurve(N, t);
    var z := 3 * N - t;
    MulMono(0, z, rec);
    SquareMono(rec * z, 2 * N * y);
    SquareOfProduct(rec, z);
    SquareOfProduct(2 * N, y);
    MulMono((rec * rec) * (z * z), 4 * (N * N) * (y * y), count);
    Reordered(N, count, rec, t, y, z);
    HalfCancels(count * (y * y), t * (z * z));
  }

  lemma HalfCancels(u: int, w: int)
    requires 2 * (N * N * N) <= w <= 4 * N * (N * u)
    ensures N <= 2 * u
  {
  }

  lemma PeakMono(peak: nat, more: nat, y: int)
    requires peak <= more && 0 <= y
    ensures peak * (y * y) <= more * (y * y)
  {
    SquareMono(0, y);
    MulMono(peak, more, y * y);
  }

  lemma NearMono(peak: nat, rec: u16, more: nat, r: u16)
    requires NotFarBelow(peak, rec) && 0 < peak <= more && rec <= r
    ensures NotFarBelow(more, r)
  {
    SquareMono(rec + 2, r + 2);
    MulMono((rec + 2) * (rec + 2), (r + 2) * (r + 2), peak);
    PeakMono(peak, more, r + 2);
  }

  /** A step that starts within the factor ends within it, for the highest count so far. */
  lemma StepKeepsNear(peak: nat, count: u32, rec: u16, more: nat)
    requires NotFarBelow(peak, rec) && 0 < peak <= more && count <= more
    requires NewtonStep(count, rec) == ExactStep(count * (rec * rec), rec) && count * (rec * rec) <= N + rec * rec
    ensures NotFarBelow(more, NewtonStep(count, rec))
  {
    if count * (rec * rec) <= N {
      StepFromBelow(count, rec);
      NearMono(peak, rec, more, NewtonStep(count, rec));
    } else {
      StepFromAbove(count, rec);
      NearMono(count, NewtonStep(count, rec), more, NewtonStep(count, rec));
    }
  }

  /** What the control law adds to a time, set by an estimate that does not lag behind `peak` by more than the factor. */
  predicate LongEnough(interval: u32, peak: nat, wait: nat) {
    var w := 0x1_0000 * (wait + 1) + 2 * interval;
    interval * interval * N <= 2 * (peak * (w * w))
  }

  lemma LongFrom(i: int, a: int, w: int, peak: int, n: int)
    requires 0 <= i && 0 <= a && 0 <= peak && i * a <= w && n <= 2 * (peak * (a * a))
    ensures i * i * n <= 2 * (peak * (w * w))
  {
    MulMono(0, a, i);
    SquareMono(i * a, w);
    SquareOfProduct(i, a);
    LongParts(i * i, a * a, w * w, peak, n);
  }

  lemma LongParts(i2: int, a2: int, w2: int, peak: int, n: int)
    requires 0 <= i2 && 0 <= peak && i2 * a2 <= w2 && n <= 2 * (peak * a2)
    ensures i2 * n <= 2 * (peak * w2)
  {
    MulMono(i2 * a2, w2, peak);
    MulMono(n, 2 * (peak * a2), i2);
    assert i2 * (2 * (peak * a2)) == 2 * (peak * (i2 * a2));
  }

  lemma AdvanceAtLeast(interval: u32, rec: u16)
    ensures interval * rec < 0x1_0000 * (Advance(interval, rec) + 1)
  {
    assert interval * (rec * 0x1_0000) == (interval * rec) * 0x1_0000;
  }

  lemma AdvanceLongEnough(interval: u32, peak: nat, rec: u16)
    requires 0 < peak && NotFarBelow(peak, rec)
    ensures LongEnough(interval, peak, Advance(interval, rec))
  {
    var wait := Advance(interval, rec);
    AdvanceAtLeast(interval, rec);
    assert interval * (rec + 2) == interval * rec + 2 * interval;
    LongFrom(interval, rec + 2, 0x1_0000 * (wait + 1) + 2 * interval, peak, N);
  }

  /** With the estimate at its start, the wait is an interval but for a 65536th. */
  lemma FullAdvance(interval: u32)
    ensures var w := Advance(interval, 0xFFFF); 0xFFFF * interval < 0x1_0000 * (w + 1) && NotFarBelow(1, 0xFFFF)
  {
  }
}
