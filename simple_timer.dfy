/** A stopwatch: two millisecond timestamps, `0` meaning "unset", moved by start, end and
    reset, and the quantities derived from them: elapsed time, throughput, mean latency
    and a linear estimate of the time to completion (ETA). The wall clock is the `now`
    argument of every operation that reads it. Floating-point quotients are stated over
    mathematical reals. */
module Timers {
  import opened JavaNumerics

  /** A length of time in milliseconds. */
  datatype Duration = Duration(millis: int64)

  /** The three states encoded by the timestamp sentinels. */
  datatype TimerState = Unstarted | Running | Stopped

  class SimpleTimer {
    var startTime: int64
    var endTime: int64

    constructor ()
      ensures startTime == 0 && endTime == 0
      ensures State() == Unstarted
    {
      startTime, endTime := 0, 0;
    }

    /** The state the two sentinels encode. */
    function State(): TimerState
      reads this
    {
      if startTime == 0 then Unstarted
      else if endTime == 0 then Running
      else Stopped
    }

    /** `start()`: resets, then records `now` as the start. A running or stopped timer
        starts over; a clock reading of `0` leaves it unstarted. */
    method Start(now: int64)
      modifies this
      ensures startTime == now && endTime == 0
      ensures now != 0 ==> State() == Running
      ensures now == 0 ==> State() == Unstarted
    {
      Reset();
      startTime := now;
    }

    /** `end()`: records `now` as the end and leaves the start alone. */
    method End(now: int64)
      modifies this
      ensures endTime == now && startTime == old(startTime)
      ensures old(State()) != Unstarted && now != 0 ==> State() == Stopped
      ensures old(State()) == Unstarted ==> State() == Unstarted
    {
      endTime := now;
    }

    /** `reset()`: clears both timestamps, from any state. */
    method Reset()
      modifies this
      ensures startTime == 0 && endTime == 0
      ensures State() == Unstarted
    {
      startTime, endTime := 0, 0;
    }

    method GetStartTime() returns (t: int64)
      ensures t == startTime
    {
      t := startTime;
    }

    method GetEndTime() returns (t: int64)
      ensures t == endTime
    {
      t := endTime;
    }

    /** `getElapsedTimeMillis()`: zero when unstarted, the `long` difference from the start
        to `now` while running, and to the end once stopped. */
    function GetElapsedTimeMillis(now: int64): int64
      reads this
    {
      if startTime == 0 then 0
      else if endTime == 0 then Wrap64(now as int - startTime as int)
      else Wrap64(endTime as int - startTime as int)
    }

    /** `getDuration()` */
    function GetDuration(now: int64): (d: Duration)
      reads this
      ensures d.millis == GetElapsedTimeMillis(now)
    {
      Duration(GetElapsedTimeMillis(now))
    }

    /** `getETA(processed, total)` */
    function GetETA(processed: int32, total: int32, now: int64): Duration
      reads this
    {
      Duration(EstimateMillis(processed, total, GetElapsedTimeMillis(now)))
    }

    /** `getETATime(processed, total)`: the clock reading plus the ETA. */
    function GetETATime(processed: int32, total: int32, now: int64): (t: int)
      reads this
      ensures processed == 0 || GetElapsedTimeMillis(now) == 0 ==> t == now as int
    {
      now as int + GetETA(processed, total, now).millis as int
    }

    /** `getThroughput(num)` */
    function GetThroughput(num: int32, now: int64): real
      reads this
    {
      Throughput(num, GetElapsedTimeMillis(now))
    }

    /** `getMeanLatencyInMillis(num)` */
    function GetMeanLatencyInMillis(num: int32, now: int64): real
      reads this
    {
      MeanLatency(num, GetElapsedTimeMillis(now))
    }
  }

  /** The body of `getETA` over the elapsed time: the remaining items (an `int`
      difference) divided by the throughput so far, cast to `long`. With nothing processed
      it is zero. With no time elapsed the throughput is an infinite double and the
      quotient is zero. */
  function EstimateMillis(processed: int32, total: int32, elapsed: int64): (millis: int64)
    ensures processed == 0 ==> millis == 0
    ensures elapsed == 0 ==> millis == 0
  {
    if processed == 0 then 0
    else if elapsed == 0 then 0
    else
      var throughput := processed as real / elapsed as real;
      var remaining := Wrap32(total as int - processed as int);
      DoubleToLong(remaining as real / throughput)
  }

  /** The body of `getThroughput`: items per second, zero when no time has elapsed. */
  function Throughput(num: int32, elapsed: int64): (r: real)
    ensures elapsed == 0 ==> r == 0.0
    ensures elapsed != 0 ==> r * elapsed as real == num as real * 1000.0
  {
    if elapsed == 0 then 0.0
    else num as real / (elapsed as real / 1000.0)
  }

  /** The body of `getMeanLatencyInMillis`: milliseconds per item, zero for zero items. */
  function MeanLatency(num: int32, elapsed: int64): (r: real)
    ensures num == 0 ==> r == 0.0
    ensures num != 0 ==> r * num as real == elapsed as real
  {
    if num == 0 then 0.0
    else elapsed as real / num as real
  }

  /** Elapsed time is zero for an unstarted timer whatever its end time, runs from the start
      to `now` while running and from the start to the end once stopped; with ordered,
      non-negative timestamps no wrap-around occurs. */
  lemma ElapsedTimeCases(t: SimpleTimer, now: int64)
    ensures t.State() == Unstarted ==> t.GetElapsedTimeMillis(now) == 0
    ensures t.State() == Running && 0 <= t.startTime <= now ==>
              t.GetElapsedTimeMillis(now) as int == now as int - t.startTime as int
    ensures t.State() == Stopped && 0 <= t.startTime <= t.endTime ==>
              t.GetElapsedTimeMillis(now) as int == t.endTime as int - t.startTime as int
  {
  }

  /** Once stopped, the elapsed time no longer depends on the clock: reads replay. */
  lemma StoppedElapsedIsFixed(t: SimpleTimer, now1: int64, now2: int64)
    requires t.State() == Stopped
    ensures t.GetElapsedTimeMillis(now1) == t.GetElapsedTimeMillis(now2)
    ensures t.GetDuration(now1) == t.GetDuration(now2)
  {
  }

  /** While running, the elapsed time grows with the clock. */
  lemma RunningElapsedMonotone(t: SimpleTimer, now1: int64, now2: int64)
    requires t.State() == Running
    requires 0 <= t.startTime <= now1 <= now2
    ensures 0 <= t.GetElapsedTimeMillis(now1) <= t.GetElapsedTimeMillis(now2)
  {
    ElapsedTimeCases(t, now1);
    ElapsedTimeCases(t, now2);
  }

  /** Throughput (items per second) and mean latency (milliseconds per item) are
      reciprocal up to the factor 1000 whenever both are defined. */
  lemma ThroughputTimesLatency(num: int32, elapsed: int64)
    requires num != 0 && elapsed != 0
    ensures Throughput(num, elapsed) * MeanLatency(num, elapsed) == 1000.0
  {
    var e := elapsed as real;
    var n := num as real;
    var th := Throughput(num, elapsed);
    var lat := MeanLatency(num, elapsed);
    assert (th * lat) * n == th * (lat * n) == th * e;
    CancelFactor(th * lat, 1000.0, n);
  }

  lemma CancelFactor(x: real, y: real, n: real)
    requires n != 0.0 && x * n == y * n
    ensures x == y
  {
    assert (x - y) * n == 0.0;
  }

  /** The linear projection: the elapsed time scaled by remaining over processed items. */
  function Projection(elapsed: int, processed: int, remaining: int): real
    requires processed != 0
  {
    elapsed as real * remaining as real / processed as real
  }

  /** Dividing by a quotient `p / e` multiplies by its reciprocal. */
  lemma DivideByRate(rem: real, p: real, e: real)
    requires p != 0.0 && e != 0.0
    ensures rem / (p / e) == e * rem / p
    ensures e * rem / p == rem * (e / p)
  {
    var q := p / e;
    var x := e * rem / p;
    assert q * e == p;
    assert x * p == e * rem;
    assert (x * q) * e == e * rem;
    assert x * q == rem;
  }

  /** Dividing the remaining items by the throughput is the linear projection. */
  lemma ETAIsLinearProjection(processed: int32, total: int32, elapsed: int64)
    requires processed != 0 && elapsed != 0
    ensures var remaining := Wrap32(total as int - processed as int);
            EstimateMillis(processed, total, elapsed) ==
              DoubleToLong(Projection(elapsed as int, processed as int, remaining as int))
  {
    var remaining := Wrap32(total as int - processed as int);
    var e, p, rem := elapsed as real, processed as real, remaining as real;
    assert EstimateMillis(processed, total, elapsed) == DoubleToLong(rem / (p / e));
    assert Projection(elapsed as int, processed as int, remaining as int) == e * rem / p by {
      assert remaining as int as real == rem;
    }
    DivideByRate(rem, p, e);
  }

  /** The projection is also the remaining items times the mean latency so far. */
  lemma ProjectionIsRemainingTimesLatency(processed: int32, remaining: int, elapsed: int64)
    requires processed != 0
    ensures Projection(elapsed as int, processed as int, remaining) == remaining as real * MeanLatency(processed, elapsed)
  {
    var e, p, rem := elapsed as real, processed as real, remaining as real;
    assert MeanLatency(processed, elapsed) == e / p;
    if e == 0.0 {
      assert Projection(elapsed as int, processed as int, remaining) == 0.0 / p;
    } else {
      DivideByRate(rem, p, e);
    }
  }

  /** The ETA is not clamped: with positive progress past the total it is never positive,
      and with the total still ahead it is never negative. */
  lemma ETASign(processed: int32, total: int32, elapsed: int64)
    requires 0 < processed && 0 <= total && 0 <= elapsed
    ensures total < processed ==> EstimateMillis(processed, total, elapsed) <= 0
    ensures processed <= total ==> 0 <= EstimateMillis(processed, total, elapsed)
  {
    if elapsed != 0 {
      ETAIsLinearProjection(processed, total, elapsed);
      var rem := total as int - processed as int;
      var product := elapsed as real * rem as real;
      if total < processed {
        assert product <= 0.0;
        QuotientBounded(product, processed as real);
      } else {
        assert product >= 0.0;
        QuotientBounded(product, processed as real);
      }
    }
  }

  /** Dividing by a count of at least one keeps the sign and does not increase the
      magnitude. */
  lemma QuotientBounded(a: real, p: real)
    requires 1.0 <= p
    ensures 0.0 <= a ==> 0.0 <= a / p <= a
    ensures a < 0.0 ==> a <= a / p < 0.0
  {
    var q := a / p;
    assert q * p == a;
    if a >= 0.0 {
      assert q >= 0.0;
      assert q * 1.0 <= q * p;
    } else {
      assert q < 0.0;
      assert q * p <= q * 1.0;
    }
  }

  /** Below saturation the ETA is the projection truncated toward zero: within a millisecond
      of the exact estimate, on the side of zero. */
  lemma ETAWithinAMillisecond(processed: int32, total: int32, elapsed: int64)
    requires 0 < processed && 0 <= total && elapsed != 0
    requires -(MAX_LONG as int) < elapsed as int * (total as int - processed as int) < MAX_LONG as int
    ensures var exact := Projection(elapsed as int, processed as int, total as int - processed as int);
            var eta := EstimateMillis(processed, total, elapsed) as real;
            (0.0 <= exact && eta <= exact < eta + 1.0) || (exact < 0.0 && eta - 1.0 < exact <= eta)
  {
    var rem := total as int - processed as int;
    assert Wrap32(rem) as int == rem;
    ETAIsLinearProjection(processed, total, elapsed);
    var product := elapsed as real * rem as real;
    assert (elapsed as int * rem) as real == product;
    var exact := Projection(elapsed as int, processed as int, rem);
    assert exact == product / processed as real;
    QuotientBounded(product, processed as real);
    assert MIN_LONG as real < exact < MAX_LONG as real;
    assert EstimateMillis(processed, total, elapsed) as int == Truncate(exact);
  }

  /** A new timer reads zero everywhere, whatever the clock says. */
  method UnstartedTimer(now: int64) returns (start: int64, end: int64, elapsed: int64, duration: Duration,
                                             latency: real, throughput: real)
    ensures start == 0 && end == 0 && elapsed == 0 && duration.millis == 0
    ensures latency == 0.0 && throughput == 0.0
  {
    var timer := new SimpleTimer();
    start := timer.GetStartTime();
    end := timer.GetEndTime();
    elapsed := timer.GetElapsedTimeMillis(now);
    duration := timer.GetDuration(now);
    latency := timer.GetMeanLatencyInMillis(0, now);
    throughput := timer.GetThroughput(0, now);
  }

  /** Started at a positive clock reading, a timer is running and reports that start. */
  method StartedTimer(now: int64) returns (start: int64, state: TimerState)
    requires 0 < now
    ensures start == now && 0 < start && state == Running
  {
    var timer := new SimpleTimer();
    timer.Start(now);
    start := timer.GetStartTime();
    state := timer.State();
  }

  /** Started at `t0` and ended at `t1`, a timer reports `t1 - t0` at any later reading. */
  method EndedTimer(t0: int64, t1: int64, later1: int64, later2: int64) returns (elapsed1: int64, elapsed2: int64, duration: Duration)
    requires 0 < t0 <= t1
    ensures elapsed1 as int == t1 as int - t0 as int
    ensures elapsed2 == elapsed1 && duration.millis == elapsed1
  {
    var timer := new SimpleTimer();
    timer.Start(t0);
    timer.End(t1);
    elapsed1 := timer.GetElapsedTimeMillis(later1);
    elapsed2 := timer.GetElapsedTimeMillis(later2);
    duration := timer.GetDuration(later2);
  }

  /** Reset returns a stopped timer to the unstarted state. */
  method ResetTimer(t0: int64, t1: int64, later: int64) returns (elapsed: int64, state: TimerState)
    requires 0 < t0 <= t1
    ensures elapsed == 0 && state == Unstarted
  {
    var timer := new SimpleTimer();
    timer.Start(t0);
    timer.End(t1);
    timer.Reset();
    elapsed := timer.GetElapsedTimeMillis(later);
    state := timer.State();
  }

  /** 50 of 500 items done in the first 1000 ms of a running timer (20 ms per item): the
      ETA is 450 items at 20 ms, and the ETA time is that far past the clock; throughput is
      50 items per second. */
  method ETAAfterSteadyWork(t0: int64) returns (eta: Duration, etaTime: int, throughput: real, latency: real)
    requires 0 < t0 && t0 as int + 1000 <= MAX_LONG as int
    ensures eta.millis == 9000 && etaTime == t0 as int + 1000 + 9000
    ensures throughput == 50.0 && latency == 20.0
  {
    var timer := new SimpleTimer();
    timer.Start(t0);
    var now := t0 + 1000;
    assert timer.State() == Running && timer.GetElapsedTimeMillis(now) == 1000;
    eta := timer.GetETA(50, 500, now);
    etaTime := timer.GetETATime(50, 500, now);
    throughput := timer.GetThroughput(50, now);
    latency := timer.GetMeanLatencyInMillis(50, now);
  }
}
