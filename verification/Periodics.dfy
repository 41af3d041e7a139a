/** periodic_recalc over exact reals. */
module Periodics {
  // 1/2^13, the smallest interval the division trusts.
  const MIN_INTERVAL := 0.0001220703125

  // The first multiple tried: at or before now, offset plus a multiple of the larger of interval and MIN_INTERVAL.
  function BaseTime(offset: real, interval: real, now: real): (r: real)
    ensures r <= now
  {
    var step := if interval > MIN_INTERVAL then interval else MIN_INTERVAL;
    FloorBracket(now - offset, step);
    offset + Times(((now - offset) / step).Floor, step)
  }

  function Scale(x: real, interval: real): real {
    x * interval
  }

  function Times(k: int, interval: real): real {
    Scale(k as real, interval)
  }

  lemma TimesAdd(a: int, b: int, interval: real)
    ensures Times(a + b, interval) == Times(a, interval) + Times(b, interval)
    ensures Times(1, interval) == interval
  {
  }

  lemma ScaleMonotone(a: real, b: real, interval: real)
    requires interval > 0.0
    ensures a <= b ==> Scale(a, interval) <= Scale(b, interval)
    ensures a < b ==> Scale(a, interval) < Scale(b, interval)
  {
    assert Scale(b, interval) - Scale(a, interval) == Scale(b - a, interval);
  }

  // The quotient rounded down brackets the dividend.
  lemma FloorBracket(late: real, interval: real)
    requires interval > 0.0
    ensures late >= 0.0 ==> (late / interval).Floor >= 0
    ensures Times((late / interval).Floor, interval) <= late < Times((late / interval).Floor + 1, interval)
  {
    var q := late / interval;
    assert Scale(q, interval) == late;
    assert Scale(0.0, interval) == 0.0;
    hide Scale;
    ScaleMonotone(q.Floor as real, q, interval);
    ScaleMonotone(q, (q.Floor + 1) as real, interval);
    ScaleMonotone(q, 0.0, interval);
  }

  // How many intervals after the base time the next due time lies.
  function Steps(offset: real, interval: real, now: real): int
    requires interval > 0.0
  {
    ((now - BaseTime(offset, interval, now)) / interval).Floor + 1
  }

  function NextPeriodic(offset: real, interval: real, now: real): real
    requires interval > 0.0
  {
    BaseTime(offset, interval, now) + Times(Steps(offset, interval, now), interval)
  }

  lemma NextIsSoon(offset: real, interval: real, now: real)
    requires interval > 0.0
    ensures Steps(offset, interval, now) >= 1
    ensures now < NextPeriodic(offset, interval, now) <= now + interval
  {
    hide BaseTime, Times;
    var base, n := BaseTime(offset, interval, now), Steps(offset, interval, now);
    FloorBracket(now - base, interval);
    TimesAdd(n - 1, 1, interval);
  }

  lemma EarlyUntil(offset: real, interval: real, now: real, k: int)
    requires interval > 0.0 && k < Steps(offset, interval, now)
    ensures BaseTime(offset, interval, now) + Times(k, interval) <= now
  {
    hide BaseTime, Scale;
    var base, n := BaseTime(offset, interval, now), Steps(offset, interval, now);
    FloorBracket(now - base, interval);
    ScaleMonotone(k as real, (n - 1) as real, interval);
  }

  // periodic_recalc. With exact arithmetic `nat == at` never holds, so its branch is not taken.
  method PeriodicRecalc(offset: real, interval: real, now: real) returns (at: real)
    requires interval > 0.0
    ensures at == NextPeriodic(offset, interval, now)
  {
    hide BaseTime, Steps, NextPeriodic;
    at := BaseTime(offset, interval, now);
    ghost var base, k, steps := at, 0, Steps(offset, interval, now);
    StepsBound(offset, interval, now);
    while at <= now
      invariant 0 <= k <= steps && at == base + Times(k, interval)
      decreases steps - k
    {
      TimesAdd(k, 1, interval);
      at := at + interval;
      k := k + 1;
    }
    if k < steps { EarlyUntil(offset, interval, now, k); }
  }

  lemma StepsBound(offset: real, interval: real, now: real)
    requires interval > 0.0
    ensures Steps(offset, interval, now) >= 1
    ensures NextPeriodic(offset, interval, now) ==
            BaseTime(offset, interval, now) + Times(Steps(offset, interval, now), interval)
    ensures now < NextPeriodic(offset, interval, now)
  {
    NextIsSoon(offset, interval, now);
  }

  // A time is on the schedule when it is the offset plus a whole number of intervals.
  ghost predicate Scheduled(t: real, offset: real, interval: real) {
    exists k: int :: t == offset + Times(k, interval)
  }

  // t is the least scheduled time after now.
  ghost predicate IsNext(t: real, offset: real, interval: real, now: real) {
    && Scheduled(t, offset, interval) && now < t
    && forall u :: Scheduled(u, offset, interval) && now < u ==> t <= u
  }

  // What a caller can compute beforehand: the base time lies a whole number of intervals from the offset.
  predicate BaseIsWhole(offset: real, interval: real, now: real)
    requires interval > 0.0
  {
    interval >= MIN_INTERVAL || IsWhole(Times(((now - offset) / MIN_INTERVAL).Floor, MIN_INTERVAL) / interval)
  }

  predicate IsWhole(x: real) {
    x.Floor as real == x
  }

  // The next due time is the least scheduled one after now for every interval from MIN_INTERVAL on; for a smaller one,
  // exactly when the base time happens to be on the schedule. It is after now by at most an interval in any case.
  lemma NextIsLeastIff(offset: real, interval: real, now: real)
    requires interval > 0.0
    ensures IsNext(NextPeriodic(offset, interval, now), offset, interval, now) <==> BaseIsWhole(offset, interval, now)
  {
    hide BaseTime, Steps, Times, NextPeriodic;
    NextIsSoon(offset, interval, now);
    BaseScheduledIff(offset, interval, now);
    ScheduledIff(offset, interval, now);
    if BaseIsWhole(offset, interval, now) {
      forall u | Scheduled(u, offset, interval) && now < u ensures NextPeriodic(offset, interval, now) <= u {
        NextIsLeast(offset, interval, now, u);
      }
    }
  }

  lemma NextIsLeast(offset: real, interval: real, now: real, t: real)
    requires interval > 0.0 && Scheduled(BaseTime(offset, interval, now), offset, interval)
    requires Scheduled(t, offset, interval) && now < t
    ensures NextPeriodic(offset, interval, now) <= t
  {
    hide BaseTime, Steps, Scale;
    var n := Steps(offset, interval, now);
    var f: int :| BaseTime(offset, interval, now) == offset + Times(f, interval);
    var j: int :| t == offset + Times(j, interval);
    TimesAdd(f, n, interval);
    EarlyUntil(offset, interval, now, n - 1);
    TimesAdd(f, n - 1, interval);
    if j <= f + n - 1 {
      ScaleMonotone(j as real, (f + n - 1) as real, interval);
    } else {
      ScaleMonotone((f + n) as real, j as real, interval);
    }
  }

  lemma BaseScheduledIff(offset: real, interval: real, now: real)
    requires interval > 0.0
    ensures Scheduled(BaseTime(offset, interval, now), offset, interval) <==> BaseIsWhole(offset, interval, now)
  {
    if interval >= MIN_INTERVAL {
      assert BaseTime(offset, interval, now) == offset + Times(((now - offset) / interval).Floor, interval);
    } else {
      WholeMultiple(Times(((now - offset) / MIN_INTERVAL).Floor, MIN_INTERVAL), offset, interval);
    }
  }

  lemma WholeMultiple(x: real, offset: real, interval: real)
    requires interval > 0.0
    ensures Scheduled(offset + x, offset, interval) <==> IsWhole(x / interval)
  {
    var q := x / interval;
    assert Scale(q, interval) == x;
    if IsWhole(q) {
      assert offset + x == offset + Times(q.Floor, interval);
    }
    if Scheduled(offset + x, offset, interval) {
      var k: int :| offset + x == offset + Times(k, interval);
      hide Scale;
      ScaleMonotone(q, k as real, interval);
      ScaleMonotone(k as real, q, interval);
    }
  }

  // Adding whole intervals neither leaves the schedule nor reaches it.
  lemma ScheduledIff(offset: real, interval: real, now: real)
    requires interval > 0.0
    ensures Scheduled(NextPeriodic(offset, interval, now), offset, interval) <==>
            Scheduled(BaseTime(offset, interval, now), offset, interval)
  {
    hide BaseTime, Steps, Times;
    var base, n, next := BaseTime(offset, interval, now), Steps(offset, interval, now),
      NextPeriodic(offset, interval, now);
    if Scheduled(base, offset, interval) {
      var k: int :| base == offset + Times(k, interval);
      TimesAdd(k, n, interval);
      assert next == offset + Times(k + n, interval);
    }
    if Scheduled(next, offset, interval) {
      var k: int :| next == offset + Times(k, interval);
      TimesAdd(k - n, n, interval);
      assert base == offset + Times(k - n, interval);
    }
  }

  // An interval of three quarters of MIN_INTERVAL, at MIN_INTERVAL: the result is not on the schedule.
  lemma OffSchedule()
    ensures !Scheduled(NextPeriodic(0.0, 0.75 * MIN_INTERVAL, MIN_INTERVAL), 0.0, 0.75 * MIN_INTERVAL)
  {
    ScheduledIff(0.0, 0.75 * MIN_INTERVAL, MIN_INTERVAL);
    assert BaseTime(0.0, 0.75 * MIN_INTERVAL, MIN_INTERVAL) == MIN_INTERVAL;
    forall k: int {:trigger Times(k, 0.75 * MIN_INTERVAL)} ensures MIN_INTERVAL != 0.0 + Times(k, 0.75 * MIN_INTERVAL) {
      assert 3 * k != 4;
    }
  }
}
