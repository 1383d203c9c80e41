/** The forecast-reference-time window of HypotheticSource.generate_frts.
    Times are integer seconds on a local, calendar-free clock: a day number
    and the time of day. Formatting with strftime is left to the caller. */
module ReferenceTimes {
  import opened Common

  const SecondsInHour: int := 3600
  const SecondsInDay: int := 86400

  /** The frt_description mapping: forecast_reference_time_interval and
      retention are seconds, model_start_time is an hour of the day (it is
      added to hours). */
  datatype Schedule = Schedule(interval: int, modelStartTime: int, retention: int)

  /** datetime.now(), to the second. */
  datatype Clock = Clock(day: int, hour: int, minute: int, second: int)

  predicate ValidClock(now: Clock) {
    0 <= now.hour < 24 && 0 <= now.minute < 60 && 0 <= now.second < 60
  }

  /** int(a / b) in Python for integers: true division, then truncation
      toward zero (exact while the operands stay below 2^52). */
  function TruncDiv(a: int, b: int): (q: int)
    requires b != 0
    ensures a >= 0 && b > 0 ==> q == a / b
    ensures (a < 0) != (b < 0) ==> q <= 0
  {
    if a >= 0 && b > 0 then a / b
    else if a < 0 && b < 0 then (-a) / (-b)
    else if a >= 0 then -(a / (-b))
    else -((-a) / b)
  }

  /** int(x) for a float: truncation toward zero. */
  function Truncate(x: real): (n: int)
    ensures x >= 0.0 ==> n as real <= x < n as real + 1.0
    ensures x < 0.0 ==> n as real - 1.0 < x <= n as real
  {
    if x >= 0.0 then x.Floor else -((-x).Floor)
  }

  function RunsPerDay(s: Schedule): int
    requires s.interval != 0
  {
    TruncDiv(SecondsInDay, s.interval)
  }

  /** The i-th run hour: model_start_time + interval * i / SECONDS_IN_HOUR. */
  function RunHour(s: Schedule, i: int): real {
    s.modelStartTime as real + (s.interval * i) as real / 3600.0
  }

  /** run_hours: one entry per i in range(0, runs_per_day). */
  function RunHours(s: Schedule): (hs: seq<real>)
    requires s.interval != 0
    ensures |hs| == if RunsPerDay(s) < 0 then 0 else RunsPerDay(s)
    ensures forall i :: 0 <= i < |hs| ==> hs[i] == RunHour(s, i)
  {
    var n := RunsPerDay(s);
    seq(if n < 0 then 0 else n, i => RunHour(s, i))
  }

  /** [x for x in hs if x <= hour], in order. */
  function Eligible(hs: seq<real>, hour: int): (r: seq<real>)
    ensures forall x :: x in r <==> x in hs && x <= hour as real
  {
    if hs == [] then []
    else if hs[0] <= hour as real then [hs[0]] + Eligible(hs[1..], hour)
    else Eligible(hs[1..], hour)
  }

  /** max() of a non-empty list. */
  function Max(xs: seq<real>): (m: real)
    requires xs != []
    ensures m in xs && forall x :: x in xs ==> x <= m
  {
    if |xs| == 1 then xs[0]
    else
      var rest := Max(xs[1..]);
      assert forall x :: x in xs ==> x == xs[0] || x in xs[1..];
      if xs[0] < rest then rest else xs[0]
  }

  /** int(last_run_hour): int() of the latest run hour not after the
      current hour; max() of no hours raises, and replace() rejects an hour
      outside 0..23. */
  function AnchorHour(s: Schedule, now: Clock): Result<int>
    requires ValidClock(now)
  {
    if s.interval == 0 then Err(ZeroInterval)
    else
      var eligible := Eligible(RunHours(s), now.hour);
      if eligible == [] then Err(NoRunHourYet)
      else
        var hour := Truncate(Max(eligible));
        if !(0 <= hour < 24) then Err(RunHourOutOfRange(hour))
        else Ok(hour)
  }

  /** count times walking back from start in steps of interval. */
  function Window(start: int, interval: int, count: int): seq<int>
    decreases count
  {
    if count <= 0 then [] else [start] + Window(start - interval, interval, count - 1)
  }

  /** The times, newest first, that generate_frts yields before formatting. */
  function GenerateFrts(s: Schedule, now: Clock): Result<seq<int>>
    requires ValidClock(now)
  {
    match AnchorHour(s, now)
    case Err(e) => Err(e)
    case Ok(hour) =>
      Ok(Window(now.day * SecondsInDay + hour * SecondsInHour, s.interval, TruncDiv(s.retention, s.interval)))
  }

  /** The i-th time of the window is start - i * interval, the
      timedelta(seconds=i*interval) the source subtracts. */
  lemma {:induction false} WindowAt(start: int, interval: int, count: int, i: nat)
    requires i < count
    ensures |Window(start, interval, count)| == count
    ensures Window(start, interval, count)[i] == start - i * interval
    decreases count
  {
    if count > 1 {
      WindowAt(start - interval, interval, count - 1, if i == 0 then 0 else i - 1);
      if i > 0 {
        MulStep(i, interval);
      }
    }
  }

  /** A window walking back in steps of a positive interval: it starts at
      start, no time is later than start, each time is the previous one
      minus interval, and so the times strictly decrease. */
  lemma {:induction false} WindowSteps(start: int, interval: int, count: int)
    requires interval > 0
    ensures var ts := Window(start, interval, count);
      && |ts| == (if count < 0 then 0 else count)
      && (ts != [] ==> ts[0] == start)
      && (forall k :: 0 <= k < |ts| ==> ts[k] <= start)
      && (forall i :: 0 < i < |ts| ==> ts[i] == ts[i - 1] - interval)
      && (forall i, j :: 0 <= i < j < |ts| ==> ts[j] < ts[i])
    decreases count
  {
    if count > 0 {
      var ts := Window(start, interval, count);
      var rest := Window(start - interval, interval, count - 1);
      WindowSteps(start - interval, interval, count - 1);
      assert forall k :: 0 < k < |ts| ==> ts[k] == rest[k - 1];
    }
  }

  /** A negative interval leaves no run hours, so only a positive one
      reaches an anchor. */
  lemma AnchorNeedsPositiveInterval(s: Schedule, now: Clock)
    requires ValidClock(now) && AnchorHour(s, now).Ok?
    ensures s.interval > 0
  {
  }

  /** Exactly int(retention / interval) times (none when that is negative),
      the first at the anchor, each the previous one minus interval, so the
      window is strictly decreasing. */
  lemma FrtsWindow(s: Schedule, now: Clock, ts: seq<int>)
    requires ValidClock(now) && GenerateFrts(s, now) == Ok(ts)
    ensures s.interval > 0
    ensures |ts| == (if s.retention < 0 then 0 else s.retention / s.interval)
    ensures forall i :: 0 < i < |ts| ==> ts[i] == ts[i - 1] - s.interval
    ensures forall i, j :: 0 <= i < j < |ts| ==> ts[j] < ts[i]
  {
    AnchorNeedsPositiveInterval(s, now);
    var start := now.day * SecondsInDay + AnchorHour(s, now).value * SecondsInHour;
    var count := TruncDiv(s.retention, s.interval);
    assert ts == Window(start, s.interval, count);
    WindowSteps(start, s.interval, count);
    RetainedCount(s.retention, s.interval);
  }

  /** The i-th time is the anchor minus i * interval seconds. */
  lemma FrtsOffsets(s: Schedule, now: Clock, ts: seq<int>, i: nat)
    requires ValidClock(now) && GenerateFrts(s, now) == Ok(ts) && i < |ts|
    ensures ts[i] == ts[0] - i * s.interval
  {
    AnchorNeedsPositiveInterval(s, now);
    var start := now.day * SecondsInDay + AnchorHour(s, now).value * SecondsInHour;
    var count := TruncDiv(s.retention, s.interval);
    assert ts == Window(start, s.interval, count);
    WindowSteps(start, s.interval, count);
    WindowAt(start, s.interval, count, i);
  }

  /** int(retention / interval) runs of range(): none when it is negative. */
  lemma RetainedCount(retention: int, interval: int)
    requires interval > 0
    ensures (if TruncDiv(retention, interval) < 0 then 0 else TruncDiv(retention, interval))
         == (if retention < 0 then 0 else retention / interval)
  {
    if retention >= 0 {
      DivNonNegative(retention, interval);
    }
  }

  lemma MulStep(i: int, x: int)
    ensures (i - 1) * x + x == i * x
  {
  }

  lemma DivNonNegative(x: int, y: int)
    requires x >= 0 && y > 0
    ensures x / y >= 0
  {
  }

  /** The anchor hour is int() of the latest run hour not after the
      current hour, and lies between 0 and the current hour. */
  lemma AnchorIsLatestRun(s: Schedule, now: Clock)
    requires ValidClock(now) && AnchorHour(s, now).Ok?
    ensures var hour := AnchorHour(s, now).value;
      && 0 <= hour <= now.hour
      && exists k :: 0 <= k < RunsPerDay(s) && RunHour(s, k) <= now.hour as real
           && hour == Truncate(RunHour(s, k))
           && forall j :: 0 <= j < RunsPerDay(s) && RunHour(s, j) <= now.hour as real ==> RunHour(s, j) <= RunHour(s, k)
  {
    var hs := RunHours(s);
    var eligible := Eligible(hs, now.hour);
    var m := Max(eligible);
    assert m in hs;
    var k :| 0 <= k < |hs| && hs[k] == m;
    forall j | 0 <= j < RunsPerDay(s) && RunHour(s, j) <= now.hour as real
      ensures RunHour(s, j) <= RunHour(s, k)
    {
      assert hs[j] in eligible;
    }
  }

  /** The anchor is a whole hour of the current day, not after the current
      hour, and that hour is int() of the latest run hour not after the
      current hour. */
  lemma FrtsAnchor(s: Schedule, now: Clock)
    requires ValidClock(now) && GenerateFrts(s, now).Ok?
    requires GenerateFrts(s, now).value != []
    ensures var a := GenerateFrts(s, now).value[0];
      && exists k :: 0 <= k < RunsPerDay(s) && RunHour(s, k) <= now.hour as real
           && 0 <= Truncate(RunHour(s, k)) <= now.hour
           && a == now.day * SecondsInDay + Truncate(RunHour(s, k)) * SecondsInHour
           && forall j :: 0 <= j < RunsPerDay(s) && RunHour(s, j) <= now.hour as real ==> RunHour(s, j) <= RunHour(s, k)
  {
    AnchorIsLatestRun(s, now);
    var hour := AnchorHour(s, now).value;
    assert GenerateFrts(s, now).value[0] == now.day * SecondsInDay + hour * SecondsInHour;
  }

  /** max() raises exactly when every run hour is after the current hour. */
  lemma FrtsNoRunYet(s: Schedule, now: Clock)
    requires ValidClock(now) && s.interval != 0
    ensures GenerateFrts(s, now) == Err(NoRunHourYet)
        <==> forall k :: 0 <= k < RunsPerDay(s) ==> RunHour(s, k) > now.hour as real
  {
    var hs := RunHours(s);
    if forall k :: 0 <= k < RunsPerDay(s) ==> RunHour(s, k) > now.hour as real {
      if Eligible(hs, now.hour) != [] {
        var x := Eligible(hs, now.hour)[0];
        assert x in hs;
      }
    } else {
      var k :| 0 <= k < RunsPerDay(s) && RunHour(s, k) <= now.hour as real;
      assert hs[k] in Eligible(hs, now.hour);
    }
  }

  /** Six-hourly runs from midnight with six hours of retention: exactly
      one time, the latest of 00, 06, 12 and 18 not after the current hour. */
  lemma SixHourlyExample(now: Clock)
    requires ValidClock(now)
    ensures GenerateFrts(Schedule(21600, 0, 21600), now)
         == Ok([now.day * SecondsInDay + (now.hour / 6) * 6 * SecondsInHour])
  {
    var s := Schedule(21600, 0, 21600);
    assert RunsPerDay(s) == 4;
    var hs := RunHours(s);
    assert hs == [0.0, 6.0, 12.0, 18.0];
    var eligible := Eligible(hs, now.hour);
    var last := ((now.hour / 6) * 6) as real;
    assert last in eligible;
    assert forall x :: x in eligible ==> x <= last;
    assert Max(eligible) == last;
    assert Truncate(last) == (now.hour / 6) * 6;
    assert TruncDiv(s.retention, s.interval) == 1;
    var start := now.day * SecondsInDay + (now.hour / 6) * 6 * SecondsInHour;
    assert AnchorHour(s, now) == Ok((now.hour / 6) * 6);
    assert Window(start, s.interval, 1) == [start] + Window(start - s.interval, s.interval, 0) == [start];
    assert GenerateFrts(s, now) == Ok(Window(start, s.interval, 1));
  }
}

