/** The filters between the sensors and the logic: sliding averages, debouncing, retries, and the vote over frames. */
module Filters {
  import opened Rings

  function Sum(s: seq<int>): int {
    if s == [] then 0 else Sum(s[..|s| - 1]) + s[|s| - 1]
  }

  lemma SumOne(x: int)
    ensures Sum([x]) == x && Sum([]) == 0
  {
    assert [x][..0] == [];
  }

  lemma {:induction false} SumAppend(s: seq<int>, t: seq<int>)
    ensures Sum(s + t) == Sum(s) + Sum(t)
  {
    if t == [] {
      assert s + t == s;
    } else {
      SumAppend(s, t[..|t| - 1]);
      assert (s + t)[..|s + t| - 1] == s + t[..|t| - 1];
    }
  }

  // The order in a full ring does not matter to its sum.
  lemma SumUnrolled(s: seq<int>, head: nat)
    requires head < |s|
    ensures Sum(Unrolled(s, head, |s|)) == Sum(s)
  {
    SumAppend(s[head..], s[..head]);
    SumAppend(s[..head], s[head..]);
    assert s[..head] + s[head..] == s;
    if head == 0 { assert s[0..|s|] == s; }
  }

  // In a full ring the new entry takes the place of the oldest.
  lemma Slides<T>(s: seq<T>, head: nat, x: T)
    requires head < |s|
    ensures Unrolled(s[head := x], Wrapped(head + 1, |s|), |s|) == Unrolled(s, head, |s|)[1..] + [x]
  {
  }

  function Last<T>(s: seq<T>, n: nat): (r: seq<T>)
    ensures |r| == (if |s| <= n then |s| else n) && s == s[..|s| - |r|] + r
  {
    if |s| <= n then s else s[|s| - n..]
  }

  // Division as in C, toward zero
  function TruncDiv(a: int, b: int): int
    requires b > 0
  {
    if a >= 0 then a / b else -(-a / b)
  }

  // The quotient leaves a remainder smaller than the divisor, with the sign of the dividend.
  lemma RemainderHasSign(a: int, b: int)
    requires b > 0
    ensures a >= 0 ==> 0 <= a - b * TruncDiv(a, b) < b
    ensures a <= 0 ==> -b < a - b * TruncDiv(a, b) <= 0
  {
  }

  // The buffer holds the last samples, from index 0 on while it fills, around its end when it is full.
  ghost predicate Window(buf: seq<int>, idx: nat, count: nat, samples: seq<int>) {
    && idx < |buf| && count <= |buf|
    && (count < |buf| ==> idx == count && buf[..count] == samples)
    && (count == |buf| ==> |samples| >= count && Unrolled(buf, idx, count) == Last(samples, count))
  }

  lemma WindowFills(buf: seq<int>, count: nat, samples: seq<int>, v: int)
    requires Window(buf, count, count, samples) && count < |buf|
    ensures Window(buf[count := v], Wrapped(count + 1, |buf|), count + 1, samples + [v])
  {
    assert buf[count := v][..count + 1] == samples + [v];
  }

  lemma WindowSlides(buf: seq<int>, idx: nat, samples: seq<int>, v: int)
    requires Window(buf, idx, |buf|, samples)
    ensures Window(buf[idx := v], Wrapped(idx + 1, |buf|), |buf|, samples + [v])
  {
    hide Unrolled;
    Slides(buf, idx, v);
    assert Last(samples + [v], |buf|) == Last(samples, |buf|)[1..] + [v];
  }

  // sliding_average, with its buffer, index and count
  class SlidingAverage {
    const buf: array<int>
    var idx: nat
    var count: nat
    ghost var samples: seq<int>

    ghost predicate Valid()
      reads this, buf
    {
      Window(buf[..], idx, count, samples)
    }

    constructor (size: nat)
      requires size > 0
      ensures Valid() && samples == [] && buf.Length == size && fresh(buf)
    {
      buf := new int[size](_ => 0);
      idx, count, samples := 0, 0, [];
    }

    // The mean of the last samples, as many as there are or as the window holds, truncated
    method Sample(v: int) returns (average: int)
      requires Valid()
      modifies this, buf
      ensures Valid() && samples == old(samples) + [v]
      ensures average == TruncDiv(Sum(Last(samples, buf.Length)), |Last(samples, buf.Length)|)
    {
      hide Unrolled, TruncDiv, Last;
      Store(v);
      var sum := 0;
      for i := 0 to count
        invariant sum == Sum(buf[..i])
      {
        assert buf[..i + 1][..i] == buf[..i];
        sum := sum + buf[i];
      }
      WindowSum();
      average := TruncDiv(sum, count);
    }

    method Store(v: int)
      requires Valid()
      modifies this, buf
      ensures Valid() && samples == old(samples) + [v] && 0 < count <= buf.Length
    {
      hide Unrolled, Step, Window, Last;
      ghost var was := buf[..];
      WindowShape();
      if count < buf.Length { WindowFills(was, count, samples, v); } else { WindowSlides(was, idx, samples, v); }
      buf[idx] := v;
      assert buf[..] == was[idx := v];
      idx := Step(idx, buf.Length);
      samples := samples + [v];
      if count < buf.Length {
        count := count + 1;
      }
    }

    lemma WindowShape()
      requires Valid()
      ensures idx < buf.Length && count <= buf.Length && (count < buf.Length ==> idx == count)
    {
    }

    lemma WindowSum()
      requires Valid() && count > 0
      ensures Sum(buf[..count]) == Sum(Last(samples, buf.Length)) && |Last(samples, buf.Length)| == count
    {
      if count == buf.Length {
        SumUnrolled(buf[..], idx);
        assert buf[..count] == buf[..];
      }
    }
  }

  // The state of one sensor in sensor_info

  const FAILURE_THRESHOLD := 5
  const RETRY_INTERVAL := 60

  datatype Status = Online | Offline | Unknown

  // How many reads at the end have failed
  function Failures(tries: seq<bool>): nat {
    if tries == [] || tries[|tries| - 1] then 0 else Failures(tries[..|tries| - 1]) + 1
  }

  lemma {:induction false} FailuresAreLast(tries: seq<bool>)
    ensures var n := Failures(tries);
            && n <= |tries| && (forall i :: |tries| - n <= i < |tries| ==> !tries[i])
            && (n < |tries| ==> tries[|tries| - n - 1])
  {
    if tries != [] && !tries[|tries| - 1] { FailuresAreLast(tries[..|tries| - 1]); }
  }

  class Sensor {
    var status: Status
    var failureCount: nat
    var lastSuccess: int
    var lastFailure: int
    ghost var tries: seq<bool>   // whether each read so far succeeded

    // A sensor is offline exactly after five failures in a row.
    ghost predicate Valid()
      reads this
    {
      failureCount == Failures(tries) && (status == Offline <==> failureCount >= FAILURE_THRESHOLD)
    }

    constructor ()
      ensures Valid() && tries == [] && status == Unknown
    {
      status, failureCount, lastSuccess, lastFailure, tries := Unknown, 0, 0, 0, [];
    }

    // sensor_record_success and sensor_record_failure
    method Record(success: bool, now: int)
      requires Valid()
      modifies this
      ensures Valid() && tries == old(tries) + [success]
      ensures success ==> status == Online && lastSuccess == now && lastFailure == old(lastFailure)
      ensures !success ==> lastFailure == now && lastSuccess == old(lastSuccess)
      ensures !success && Failures(tries) < 5 ==> status == old(status)
    {
      tries := tries + [success];
      assert tries[..|tries| - 1] == old(tries);
      if success {
        failureCount, status, lastSuccess := 0, Online, now;
      } else {
        failureCount, lastFailure := failureCount + 1, now;
        if failureCount >= FAILURE_THRESHOLD {
          status := Offline;
        }
      }
    }

    // sensor_should_retry
    predicate ShouldRetry(now: int): (r: bool)
      reads this
      ensures status != Offline ==> r
      ensures status == Offline ==> (r <==> now - lastFailure >= 60)
    {
      status != Offline || now - lastFailure >= RETRY_INTERVAL
    }
  }

  // The debounced smoke input

  const DEBOUNCE := 3

  // The value of the last three equal reads in a row, and 1 before there are any
  function Confirmed(raws: seq<bool>): bool {
    if raws == [] then true
    else if ThreeAlike(raws) then raws[|raws| - 1]
    else Confirmed(raws[..|raws| - 1])
  }

  predicate ThreeAlike(raws: seq<bool>) {
    |raws| >= 3 && raws[|raws| - 1] == raws[|raws| - 2] == raws[|raws| - 3]
  }

  // How many reads at the end have this value
  function Run(raws: seq<bool>, v: bool): nat {
    if raws == [] || raws[|raws| - 1] != v then 0 else Run(raws[..|raws| - 1], v) + 1
  }

  lemma RunOfThree(raws: seq<bool>, v: bool)
    ensures Run(raws, v) >= 3 <==> ThreeAlike(raws) && raws[|raws| - 1] == v
  {
    if |raws| >= 2 {
      assert Run(raws[..|raws| - 1], v) == if raws[|raws| - 2] != v then 0
        else Run(raws[..|raws| - 1][..|raws| - 2], v) + 1;
      if |raws| >= 3 {
        var two := raws[..|raws| - 1][..|raws| - 2];
        assert Run(two, v) == if raws[|raws| - 3] != v then 0 else Run(two[..|two| - 1], v) + 1;
      }
    }
  }

  // So the output changes exactly at the third read in a row that differs from it.
  lemma ChangesAtThree(raws: seq<bool>, v: bool)
    ensures Confirmed(raws + [v]) != Confirmed(raws) <==> v != Confirmed(raws) && Run(raws + [v], v) >= 3
    ensures v != Confirmed(raws) ==> Run(raws, v) < 3
  {
    assert (raws + [v])[..|raws|] == raws;
    RunOfThree(raws + [v], v);
    RunOfThree(raws, v);
  }

  lemma {:induction false} RunIsLongest(raws: seq<bool>, v: bool)
    ensures var n := Run(raws, v);
            && n <= |raws| && (forall i :: |raws| - n <= i < |raws| ==> raws[i] == v)
            && (n < |raws| ==> raws[|raws| - n - 1] != v)
  {
    if raws != [] && raws[|raws| - 1] == v { RunIsLongest(raws[..|raws| - 1], v); }
  }

  // Before three reads in a row have been alike, the output is 1, and so it is while all reads are.
  lemma {:induction false} FirstOutput(raws: seq<bool>)
    requires forall n :: 0 <= n <= |raws| && ThreeAlike(raws[..n]) ==> raws[n - 1]
    ensures Confirmed(raws)
  {
    if raws != [] {
      var before := raws[..|raws| - 1];
      assert raws[..|raws|] == raws;
      forall n | 0 <= n <= |before| && ThreeAlike(before[..n]) ensures before[n - 1] {
        assert before[..n] == raws[..n];
      }
      FirstOutput(before);
    }
  }

  datatype Reading = Value(v: bool) | SensorOffline | ReadError

  class SmokeInput {
    const sensor: Sensor
    var confirmed: bool       // smoke_confirmed_state
    var debounce: nat         // smoke_debounce_count
    ghost var raws: seq<bool> // the reads that succeeded

    ghost predicate Valid()
      reads this, sensor
    {
      sensor.Valid() && confirmed == Confirmed(raws) && debounce == Run(raws, !confirmed) < DEBOUNCE
    }

    constructor ()
      ensures Valid() && fresh(sensor) && raws == []
    {
      sensor := new Sensor();
      confirmed, debounce, raws := true, 0, [];
    }

    // hal_sensor_smoke_digital_read; `ok` and `raw` are what the pin gives.
    method Read(ok: bool, raw: bool, now: int) returns (r: Reading)
      requires Valid()
      modifies this, sensor
      ensures Valid()
      ensures r == if !old(sensor.ShouldRetry(now)) then SensorOffline else if !ok then ReadError
              else Value(Confirmed(raws))
      ensures r == SensorOffline <==> Failures(old(sensor.tries)) >= 5 && now - old(sensor.lastFailure) < 60
      ensures r != SensorOffline ==> (r == ReadError <==> !ok)
      ensures r.Value? ==> raws == old(raws) + [raw] && sensor.tries == old(sensor.tries) + [true]
      ensures r == ReadError ==> sensor.tries == old(sensor.tries) + [false]
      ensures r == SensorOffline ==> sensor.tries == old(sensor.tries)
      ensures !r.Value? ==> raws == old(raws) && confirmed == old(confirmed)
    {
      if !sensor.ShouldRetry(now) {
        return SensorOffline;
      }
      if !ok {
        sensor.Record(false, now);
        return ReadError;
      }
      ghost var more := raws + [raw];
      assert more[..|raws|] == raws;
      RunOfThree(more, raw);
      if raw == confirmed {
        debounce := 0;
      } else {
        debounce := debounce + 1;
        if debounce >= DEBOUNCE {
          confirmed, debounce := raw, 0;
        }
      }
      raws := more;
      r := Value(confirmed);
      sensor.Record(true, now);
    }
  }

  // The vote over camera frames

  const AI_WINDOW := 5
  const AI_COOLDOWN := 30

  class AiVote {
    const frames: array<int>
    const threshold: int       // consecutive_frames
    var index: nat
    var lastAlert: int         // g_last_ai_alert_time
    ghost var accepted: seq<int> // the frames since the last alert, behind a window of zeros
    ghost var alerts: seq<int>   // when the vote called an alert
    ghost var clock: int

    ghost predicate Window()
      reads this`index, this`accepted, frames
    {
      && frames.Length == AI_WINDOW && index < AI_WINDOW && |accepted| >= AI_WINDOW
      && Unrolled(frames[..], index, AI_WINDOW) == Last(accepted, AI_WINDOW)
    }

    ghost predicate Valid()
      reads this, frames
    {
      && Window() && clock >= 0 && lastAlert == (if alerts == [] then 0 else alerts[|alerts| - 1])
      && (forall i :: 0 <= i < |alerts| ==> 0 < alerts[i] <= clock)
      && (forall i, j :: 0 <= i < j < |alerts| ==> alerts[j] - alerts[i] >= AI_COOLDOWN)
    }

    constructor (threshold: int)
      ensures Valid() && this.threshold == threshold && accepted == [0, 0, 0, 0, 0] && alerts == [] && fresh(frames)
    {
      frames := new int[AI_WINDOW](_ => 0);
      this.threshold := threshold;
      index, lastAlert, accepted, alerts, clock := 0, 0, [0, 0, 0, 0, 0], [], 0;
    }

    // ai_vote: 1 calls an alert, 0 does not, -1 in the cooldown after one
    method Vote(detected: bool, now: int) returns (r: int)
      requires Valid() && 0 < now && clock <= now
      modifies this, frames
      ensures Valid()
      ensures if old(alerts) != [] && now - old(alerts)[|old(alerts)| - 1] < AI_COOLDOWN then
                r == -1 && accepted == old(accepted) && alerts == old(alerts)
              else
                var all := old(accepted) + [if detected then 1 else 0];
                if Sum(Last(all, AI_WINDOW)) >= threshold then
                  r == 1 && alerts == old(alerts) + [now] && accepted == [0, 0, 0, 0, 0]
                else
                  r == 0 && alerts == old(alerts) && accepted == all
    {
      hide Window, Last, Sum;
      clock := now;
      if lastAlert > 0 && now - lastAlert < AI_COOLDOWN {
        return -1;
      }
      Accept(if detected then 1 else 0);
      var sum := Total();
      r := 0;
      if sum >= threshold {
        lastAlert, alerts := now, alerts + [now];
        Reset();
        r := 1;
      }
    }

    method Total() returns (sum: int)
      requires Window()
      ensures sum == Sum(Last(accepted, AI_WINDOW))
    {
      hide Unrolled, Last;
      sum := 0;
      for i := 0 to AI_WINDOW
        invariant sum == Sum(frames[..i])
      {
        assert frames[..i + 1][..i] == frames[..i];
        sum := sum + frames[i];
      }
      assert frames[..AI_WINDOW] == frames[..];
      SumUnrolled(frames[..], index);
    }

    method Accept(frame: int)
      requires Window()
      modifies this`index, this`accepted, frames
      ensures Window() && accepted == old(accepted) + [frame]
    {
      hide Unrolled, Step;
      Slides(frames[..], index, frame);
      ghost var was := frames[..];
      frames[index] := frame;
      assert frames[..] == was[index := frame];
      index := Step(index, AI_WINDOW);
      accepted := accepted + [frame];
      assert Last(accepted, AI_WINDOW) == Last(old(accepted), AI_WINDOW)[1..] + [frame];
    }

    // The window is emptied after an alert.
    method Reset()
      requires Window()
      modifies this`index, this`accepted, frames
      ensures Window() && accepted == [0, 0, 0, 0, 0]
    {
      forall i | 0 <= i < AI_WINDOW {
        frames[i] := 0;
      }
      index, accepted := 0, [0, 0, 0, 0, 0];
    }
  }
}
