/** One job of the scheduler: when it starts, how often it fires, and what a restart does to it.

    Times and intervals are whole numbers of one unit. Cron-style jobs are not modelled. */
module JobTiming {
  import opened Commons
  import C = Clock

  datatype JobType = OneTime | IntervalBased

  /** What get_start_time arrives at: a start, or the instant at which the repeats ran out. */
  datatype Timing = StartAt(time: int) | Exhausted(at: int)

  // ---------------------------------------------------------------- the grid of runs

  /** The k-th run of a job, counting from 0. */
  function GridPoint(start: int, interval: nat, k: nat): int { start + k * interval }

  predicate IsPoint(start: int, interval: nat, count: Option<nat>, t: int, k: nat) {
    t == GridPoint(start, interval, k) && (count.Some? ==> k < count.value)
  }

  lemma PointsRise(start: int, interval: nat, j: nat, k: nat)
    requires j <= k
    ensures GridPoint(start, interval, j) <= GridPoint(start, interval, k)
    ensures k > j && interval > 0 ==> GridPoint(start, interval, k) >= GridPoint(start, interval, j) + interval
  {
    assert k * interval == j * interval + (k - j) * interval;
    if k > j && interval > 0 {
      assert (k - j) * interval == interval + (k - j - 1) * interval;
    }
  }

  /** The index of rrule(...).before(now): the last of the first `count` points strictly before now. */
  function LastIndexBefore(start: int, interval: nat, count: Option<nat>, now: int): (k: nat)
    requires start < now && count != Some(0)
    ensures IsPoint(start, interval, count, GridPoint(start, interval, k), k)
    ensures GridPoint(start, interval, k) < now
    ensures interval > 0 ==>
      forall j: nat :: j > k && IsPoint(start, interval, count, GridPoint(start, interval, j), j) ==>
        GridPoint(start, interval, j) >= now
  {
    if interval == 0 then 0
    else
      var steps := (now - start - 1) / interval;
      var k := if count.Some? && count.value - 1 < steps then count.value - 1 else steps;
      assert GridPoint(start, interval, steps) < now <= GridPoint(start, interval, steps + 1);
      PointsRise(start, interval, k, steps);
      assert forall j: nat :: j > k && IsPoint(start, interval, count, GridPoint(start, interval, j), j) ==>
        GridPoint(start, interval, j) >= now by {
        forall j: nat | j > k && IsPoint(start, interval, count, GridPoint(start, interval, j), j)
          ensures GridPoint(start, interval, j) >= now
        {
          PointsRise(start, interval, steps + 1, j);
        }
      }
      k
  }

  function RruleBefore(start: int, interval: nat, count: Option<nat>, now: int): Option<int> {
    if start >= now || count == Some(0) then None
    else Some(GridPoint(start, interval, LastIndexBefore(start, interval, count, now)))
  }

  /** get_start_time as a function of the clock. Without a last run there is nothing to add the interval to; only inputs
      that are left to the recurrence library can get there. */
  function StartTime(start: int, interval: nat, maxRepeats: Option<nat>, jobType: JobType, isActive: bool, now: int)
    : Result<Timing>
  {
    if start > now then Ok(StartAt(start))
    else if start + interval > now then Ok(StartAt(start + interval))
    else
      match RruleBefore(start, interval, maxRepeats, now)
      case None => Raised("TypeError")
      case Some(last) =>
        if last + interval >= now then Ok(StartAt(last + interval))
        else if jobType.OneTime? && isActive then Ok(StartAt(now + 10))
        else Ok(Exhausted(last + interval))
  }

  // ---------------------------------------------------------------- properties of the start time

  ghost predicate OnGrid(start: int, interval: nat, t: int) {
    exists k: nat :: t == GridPoint(start, interval, k)
  }

  /** With unlimited repeats a job that began in the past next runs within one interval from now, at or after now,
      and on the original grid; a job of the future waits for its start. */
  lemma NextRunOfUnlimitedJob(start: int, interval: nat, jobType: JobType, isActive: bool, now: int)
    requires interval > 0
    ensures var r := StartTime(start, interval, None, jobType, isActive, now);
      && r.Ok? && r.value.StartAt?
      && (start > now ==> r.value.time == start)
      && (start <= now ==> now <= r.value.time <= now + interval)
      && OnGrid(start, interval, r.value.time)
  {
    if start > now {
      assert start == GridPoint(start, interval, 0);
    } else if start + interval > now {
      assert start + interval == GridPoint(start, interval, 1);
    } else {
      var k := LastIndexBefore(start, interval, None, now);
      assert IsPoint(start, interval, None, GridPoint(start, interval, k + 1), k + 1);
      PointsApart(start, interval, k);
    }
  }

  lemma PointsApart(start: int, interval: nat, k: nat)
    ensures GridPoint(start, interval, k + 1) == GridPoint(start, interval, k) + interval
  {
    assert (k + 1) * interval == k * interval + interval;
  }

  /** The next run of a job with unlimited repeats. */
  function NextRun(start: int, interval: nat, now: int): (t: int)
    requires interval > 0
    ensures OnGrid(start, interval, t)
    ensures if start > now then t == start else now <= t <= now + interval
  {
    NextRunOfUnlimitedJob(start, interval, IntervalBased, true, now);
    StartTime(start, interval, None, IntervalBased, true, now).value.time
  }

  /** The next run is the first grid point not before now, except that a start at or before now is itself over. */
  lemma NextRunIsFirst(start: int, interval: nat, now: int, k: nat)
    requires interval > 0
    requires GridPoint(start, interval, k) >= now && (k > 0 || start > now)
    ensures NextRun(start, interval, now) <= GridPoint(start, interval, k)
  {
    if start > now {
      PointsRise(start, interval, 0, k);
    } else if start + interval > now {
      PointsRise(start, interval, 1, k);
    } else {
      var last := LastIndexBefore(start, interval, None, now);
      if k <= last {
        PointsRise(start, interval, k, last);
        assert false;
      }
      PointsApart(start, interval, last);
      PointsRise(start, interval, last + 1, k);
    }
  }

  /** What is computed from now on a past start lies one interval after the last point before now. */
  lemma PromiseIsNextPoint(start: int, interval: nat, maxRepeats: Option<nat>, isActive: bool, now: int, k: nat)
    requires interval > 0 && (maxRepeats.Some? ==> k <= maxRepeats.value && 0 < maxRepeats.value) && k > 0
    requires GridPoint(start, interval, k - 1) < now <= GridPoint(start, interval, k) || (k == 1 && now == start)
    ensures StartTime(start, interval, maxRepeats, IntervalBased, isActive, now)
      == Ok(StartAt(GridPoint(start, interval, k)))
  {
    PointsApart(start, interval, k - 1);
    PointsRise(start, interval, 0, k - 1);
    assert k > 1 ==> GridPoint(start, interval, 1) <= GridPoint(start, interval, k - 1) by {
      if k > 1 { PointsRise(start, interval, 1, k - 1); }
    }
    if start + interval <= now {
      var j := LastIndexBefore(start, interval, maxRepeats, now);
      assert IsPoint(start, interval, maxRepeats, GridPoint(start, interval, k - 1), k - 1);
      if j > k - 1 { PointsRise(start, interval, k, j); }
    }
  }

  /** Restarting the scheduler computes the start time anew from the stored start date. Up to the instant at which a job
      is due, that instant included, a restart keeps the run the job had been promised, with one exception: a restart at
      the very start date loses the first run, and the job waits for another interval. */
  lemma RestartKeepsRunExactlyWhen(start: int, interval: nat, maxRepeats: Option<nat>, isActive: bool,
                                   first: int, second: int, due: int)
    requires interval > 0 && maxRepeats != Some(0)
    requires StartTime(start, interval, maxRepeats, IntervalBased, isActive, first) == Ok(StartAt(due))
    requires first <= second <= due
    ensures var again := StartTime(start, interval, maxRepeats, IntervalBased, isActive, second);
      && (again == Ok(StartAt(due)) <==> !(first < start && second == start))
      && (first < start && second == start ==> due == start && again == Ok(StartAt(start + interval)))
  {
    if start <= first {
      var k := DueIndex(start, interval, maxRepeats, isActive, first, due);
      PromiseIsNextPoint(start, interval, maxRepeats, isActive, second, k);
    }
  }

  /** The promised run of a job that has begun is a grid point that the repeats allow, and the one before it has
      passed. */
  lemma DueIndex(start: int, interval: nat, maxRepeats: Option<nat>, isActive: bool, now: int, due: int)
    returns (k: nat)
    requires interval > 0 && maxRepeats != Some(0) && start <= now
    requires StartTime(start, interval, maxRepeats, IntervalBased, isActive, now) == Ok(StartAt(due))
    ensures k > 0 && due == GridPoint(start, interval, k) && (maxRepeats.Some? ==> k <= maxRepeats.value)
    ensures GridPoint(start, interval, k - 1) < now || (k == 1 && now == start)
  {
    if start + interval > now {
      k := 1;
      assert GridPoint(start, interval, 0) == start && GridPoint(start, interval, 1) == start + interval;
    } else {
      k := LastIndexBefore(start, interval, maxRepeats, now) + 1;
      PointsApart(start, interval, k - 1);
    }
  }

  predicate InOrder(instants: seq<int>) { forall j, k :: 0 <= j < k < |instants| ==> instants[j] <= instants[k] }

  /** However often the scheduler is restarted, a job with unlimited repeats stays on its original grid, never moves
      back, and keeps each promised run until it is due, but for the restart at the start date. */
  lemma RestartsStayOnGrid(start: int, interval: nat, restarts: seq<int>)
    requires interval > 0 && InOrder(restarts)
    ensures forall k :: 0 <= k < |restarts| ==> OnGrid(start, interval, NextRun(start, interval, restarts[k]))
    ensures InOrder(seq(|restarts|, k requires 0 <= k < |restarts| => NextRun(start, interval, restarts[k])))
    ensures forall j, k :: 0 <= j < k < |restarts| && restarts[k] <= NextRun(start, interval, restarts[j]) ==>
      (NextRun(start, interval, restarts[k]) == NextRun(start, interval, restarts[j])
       <==> !(restarts[j] < start && restarts[k] == start))
  {
    forall j, k | 0 <= j < k < |restarts|
      ensures NextRun(start, interval, restarts[j]) <= NextRun(start, interval, restarts[k])
      ensures restarts[k] <= NextRun(start, interval, restarts[j]) ==>
        (NextRun(start, interval, restarts[k]) == NextRun(start, interval, restarts[j])
         <==> !(restarts[j] < start && restarts[k] == start))
    {
      LaterIsNoEarlier(start, interval, restarts[j], restarts[k]);
    }
  }

  lemma LaterIsNoEarlier(start: int, interval: nat, first: int, second: int)
    requires interval > 0 && first <= second
    ensures NextRun(start, interval, first) <= NextRun(start, interval, second)
    ensures second <= NextRun(start, interval, first) ==>
      (NextRun(start, interval, second) == NextRun(start, interval, first) <==> !(first < start && second == start))
  {
    NextRunOfUnlimitedJob(start, interval, IntervalBased, true, first);
    NextRunOfUnlimitedJob(start, interval, IntervalBased, true, second);
    var due := NextRun(start, interval, first);
    if second <= due {
      RestartKeepsRunExactlyWhen(start, interval, None, true, first, second, due);
    }
  }

  /** A job that repeats m times has run out exactly when the instant start + m * interval lies in the past,
      and that is the instant it reports. */
  lemma ExhaustedExactlyWhen(start: int, interval: nat, m: nat, isActive: bool, now: int)
    requires interval > 0 && m > 0
    ensures var r := StartTime(start, interval, Some(m), IntervalBased, isActive, now);
      && r.Ok?
      && (r.value.Exhausted? <==> GridPoint(start, interval, m) < now)
      && (r.value.Exhausted? ==> r.value.at == GridPoint(start, interval, m))
      && (r.value.StartAt? ==> r.value.time >= now && OnGrid(start, interval, r.value.time))
  {
    PointsRise(start, interval, 1, m);
    PointsRise(start, interval, 0, m);
    if start > now {
      assert start == GridPoint(start, interval, 0);
    } else if start + interval > now {
      assert start + interval == GridPoint(start, interval, 1);
    } else {
      var k := LastIndexBefore(start, interval, Some(m), now);
      PointsApart(start, interval, k);
      if k + 1 < m {
        assert IsPoint(start, interval, Some(m), GridPoint(start, interval, k + 1), k + 1);
        PointsRise(start, interval, k + 1, m);
      }
    }
  }

  /** A one-time job, which has no interval, keeps a start in the future; missed while active it runs ten seconds from
      now. */
  lemma OneTimeStart(start: int, isActive: bool, now: int)
    requires start != now
    ensures StartTime(start, 0, Some(1), OneTime, isActive, now) ==
      Ok(if start > now then StartAt(start) else if isActive then StartAt(now + 10) else Exhausted(start))
  {
  }

  // ---------------------------------------------------------------- the loop

  /** What decides whether the loop goes on. */
  datatype Loop = Loop(currentRun: nat, maxRepeats: Option<nat>, keepRunning: bool)

  function AfterFiring(l: Loop): Loop {
    var run := l.currentRun + 1;
    l.(currentRun := run, keepRunning := l.keepRunning && l.maxRepeats != Some(run))
  }

  /** The first sleep during which somebody unschedules the job; the length of the list if nobody does. */
  function FirstStop(stops: seq<bool>): (i: nat)
    ensures i <= |stops|
    ensures forall j :: 0 <= j < i ==> !stops[j]
    ensures i < |stops| ==> stops[i]
  {
    if stops == [] then 0 else if stops[0] then 0 else 1 + FirstStop(stops[1..])
  }

  function Min(a: nat, b: nat): nat { if a < b then a else b }

  function Max(a: int, b: int): int { if a < b then b else a }

  /** How many times a running job fires, seen over as many sleeps as `stops` has entries. */
  function Firings(jobType: JobType, l: Loop, stops: seq<bool>): nat {
    if !l.keepRunning || stops == [] then 0
    else if jobType.OneTime? then 1
    else
      var untilStopped := Min(|stops|, FirstStop(stops) + 1);
      if l.maxRepeats.Some? && l.currentRun < l.maxRepeats.value
      then Min(untilStopped, l.maxRepeats.value - l.currentRun) else untilStopped
  }

  lemma FirstStopStep(stops: seq<bool>, i: nat)
    requires i < |stops| && (forall j :: 0 <= j < i ==> !stops[j])
    ensures stops[i] ==> FirstStop(stops) == i
    ensures !stops[i] ==> FirstStop(stops) > i
  {
  }

  /** After i firings: going on means that nobody stopped the job and repeats are left; otherwise i is the final
      count. */
  ghost predicate StillLooping(l: Loop, stops: seq<bool>, i: nat, keepRunning: bool)
    requires i <= |stops|
  {
    && (i > 0 ==> l.keepRunning)
    && if keepRunning then
         && l.keepRunning && FirstStop(stops) >= i
         && (l.maxRepeats.Some? && l.currentRun < l.maxRepeats.value ==> l.currentRun + i < l.maxRepeats.value)
       else
         i == Firings(IntervalBased, l, stops)
  }

  lemma LoopStep(l: Loop, stops: seq<bool>, i: nat)
    requires i < |stops| && StillLooping(l, stops, i, true)
    ensures StillLooping(l, stops, i + 1, l.maxRepeats != Some(l.currentRun + i + 1) && !stops[i])
  {
    FirstStopStep(stops, i);
  }

  lemma LoopEnd(jobType: JobType, l: Loop, stops: seq<bool>, i: nat, keepRunning: bool)
    requires i <= |stops| && StillLooping(l, stops, i, keepRunning) && (!keepRunning || i == |stops|)
    requires i > 0 ==> jobType.IntervalBased?
    ensures i == Firings(jobType, l, stops)
  {
  }

  ghost predicate SpacedFrom(fired: seq<int>, start: int, interval: nat) {
    && (forall k :: 0 <= k < |fired| ==> fired[k] >= GridPoint(start, interval, k))
    && (forall k :: 0 < k < |fired| ==> fired[k] >= fired[k - 1] + interval)
  }

  /** What had been asked of the clock at each firing: one interval more than at the one before. */
  ghost predicate AskedFrom(askedAt: seq<nat>, begin: nat, interval: nat) {
    forall k :: 0 <= k < |askedAt| ==> askedAt[k] == GridPoint(begin, interval, k)
  }

  /** The loop before its next firing: it has asked to sleep, and slept, one interval for each one so far. */
  ghost predicate Timed(fired: seq<int>, askedAt: seq<nat>, begin: int, beginAsked: nat, interval: nat,
                        now: int, asked: nat) {
    && SpacedFrom(fired, begin, interval) && now >= GridPoint(begin, interval, |fired|)
    && (fired != [] ==> now >= fired[|fired| - 1] + interval)
    && |askedAt| == |fired| && AskedFrom(askedAt, beginAsked, interval)
    && asked == GridPoint(beginAsked, interval, |askedAt|)
  }

  lemma TimedFiring(fired: seq<int>, askedAt: seq<nat>, begin: int, beginAsked: nat, interval: nat,
                    now: int, asked: nat)
    requires Timed(fired, askedAt, begin, beginAsked, interval, now, asked)
    ensures SpacedFrom(fired + [now], begin, interval) && AskedFrom(askedAt + [asked], beginAsked, interval)
  {
  }

  lemma TimedSleep(fired: seq<int>, askedAt: seq<nat>, begin: int, beginAsked: nat, interval: nat,
                   now: int, asked: nat, later: int)
    requires Timed(fired, askedAt, begin, beginAsked, interval, now, asked) && later >= now + interval
    ensures Timed(fired + [now], askedAt + [asked], begin, beginAsked, interval, later, asked + interval)
  {
    TimedFiring(fired, askedAt, begin, beginAsked, interval, now, asked);
    PointsApart(begin, interval, |fired|);
    PointsApart(beginAsked, interval, |fired|);
  }

  /** Unscheduled during its j-th sleep, a job has fired for the last time. */
  ghost predicate StopsHeeded(stops: seq<bool>, firings: nat) {
    forall j :: 0 <= j < |stops| && stops[j] ==> firings <= j + 1
  }

  lemma NoneAfterStop(jobType: JobType, l: Loop, stops: seq<bool>)
    ensures StopsHeeded(stops, Firings(jobType, l, stops))
  {
    assert forall j :: 0 <= j < |stops| && stops[j] ==> FirstStop(stops) <= j;
  }

  /** A running job that has not fired yet and has a limit. */
  predicate Limited(l: Loop) { l.currentRun == 0 && l.maxRepeats.Some? && l.maxRepeats.value > 0 && l.keepRunning }

  /** Watched for at least m sleeps, and not unscheduled before its m-th firing. */
  predicate LeftAlone(stops: seq<bool>, m: nat) { |stops| >= m && forall i :: 0 <= i < m - 1 ==> !stops[i] }

  lemma LeftAloneFires(l: Loop, stops: seq<bool>)
    requires Limited(l) && LeftAlone(stops, l.maxRepeats.value)
    ensures Firings(IntervalBased, l, stops) == l.maxRepeats.value
  {
    var m, f := l.maxRepeats.value, FirstStop(stops);
    assert f >= m - 1;
  }

  class Job {
    const name: string
    const jobType: JobType
    const interval: nat
    const maxRepeats: Option<nat>
    const service: string             // cb_kwargs
    const extra: string
    var isActive: bool
    var currentRun: nat
    var maxRepeatsReached: bool
    var maxRepeatsReachedAt: Option<int>
    var keepRunning: bool
    var startTime: Option<int>

    ghost function LoopState(): Loop
      reads this
    {
      Loop(currentRun, maxRepeats, keepRunning)
    }

    /** A new job, whose start time is computed from the stored start. */
    constructor (name: string, jobType: JobType, interval: nat, start: int, service: string, extra: string,
                 maxRepeats: Option<nat>, now: int)
      ensures this.name == name && this.jobType == jobType && this.interval == interval && this.maxRepeats == maxRepeats
      ensures this.service == service && this.extra == extra
      ensures isActive && currentRun == 0
      ensures var r := StartTime(start, interval, maxRepeats, jobType, true, now);
        && startTime == (if r.Ok? && r.value.StartAt? then Some(r.value.time) else None)
        && maxRepeatsReached == (r.Ok? && r.value.Exhausted?)
        && keepRunning == !maxRepeatsReached
        && maxRepeatsReachedAt == (if r.Ok? && r.value.Exhausted? then Some(r.value.at) else None)
    {
      this.name, this.jobType, this.interval, this.maxRepeats := name, jobType, interval, maxRepeats;
      this.service, this.extra := service, extra;
      isActive, currentRun, maxRepeatsReached, maxRepeatsReachedAt, keepRunning := true, 0, false, None, true;
      startTime := None;
      new;
      var r := GetStartTime(start, now);
      startTime := if r.Ok? then r.value else None;
    }

    /** clone keeps the start time as it is and begins afresh otherwise. */
    constructor Clone(of: Job)
      ensures name == of.name && jobType == of.jobType && interval == of.interval && maxRepeats == of.maxRepeats
      ensures service == of.service && extra == of.extra
      ensures isActive == of.isActive && startTime == of.startTime
      ensures currentRun == 0 && keepRunning && !maxRepeatsReached && maxRepeatsReachedAt == None
    {
      name, jobType, interval, maxRepeats := of.name, of.jobType, of.interval, of.maxRepeats;
      service, extra := of.service, of.extra;
      isActive, startTime := of.isActive, of.startTime;
      currentRun, keepRunning, maxRepeatsReached, maxRepeatsReachedAt := 0, true, false, None;
    }

    method GetStartTime(start: int, now: int) returns (r: Result<Option<int>>)
      modifies `maxRepeatsReached, `maxRepeatsReachedAt, `keepRunning
      ensures var t := StartTime(start, interval, maxRepeats, jobType, isActive, now);
        if t.Ok? && t.value.Exhausted? then
          r == Ok(None) && maxRepeatsReached && maxRepeatsReachedAt == Some(t.value.at) && !keepRunning
        else
          && (if t.Ok? then r == Ok(Some(t.value.time)) else r.Raised?)
          && unchanged(this)
    {
      if start > now {
        return Ok(Some(start));
      }
      var firstRun := start + interval;
      if firstRun > now {
        return Ok(Some(firstRun));
      }
      var lastRun := RruleBefore(start, interval, maxRepeats, now);
      if lastRun.None? {
        return Raised("TypeError");
      }
      var nextRun := lastRun.value + interval;
      if nextRun >= now {
        return Ok(Some(nextRun));
      } else if jobType.OneTime? && isActive {
        return Ok(Some(now + 10));
      }
      maxRepeatsReached, maxRepeatsReachedAt, keepRunning := true, Some(nextRun), false;
      return Ok(None);
    }

    /** One pass of the loop up to the spawned callback. */
    method FireOnce(clock: C.Clock)
      modifies `currentRun, `keepRunning, `maxRepeatsReached, `maxRepeatsReachedAt, `isActive
      ensures LoopState() == AfterFiring(old(LoopState()))
      ensures maxRepeats == Some(currentRun) ==>
        maxRepeatsReached && maxRepeatsReachedAt == Some(clock.now) && !isActive
      ensures maxRepeats != Some(currentRun) ==>
        maxRepeatsReached == old(maxRepeatsReached) && maxRepeatsReachedAt == old(maxRepeatsReachedAt)
          && isActive == old(isActive)
    {
      currentRun := currentRun + 1;
      if maxRepeats.Some? && maxRepeats.value > 0 && currentRun == maxRepeats.value {
        keepRunning := false;
        maxRepeatsReached := true;
        maxRepeatsReachedAt := Some(clock.now);
        isActive := false;  // on_max_repeats_reached_cb
      }
    }

    /** main_loop, observed over |stops| sleeps; stops[i] tells whether the job is unscheduled during the i-th sleep.
        `fired` are the times at which the callback was spawned, `askedAt` how long the loop had asked to sleep by
        then. */
    method MainLoop(clock: C.Clock, stops: seq<bool>) returns (fired: seq<int>, ghost askedAt: seq<nat>)
      modifies this, clock
      ensures |askedAt| == |fired| && AskedFrom(askedAt, old(clock.asked), interval)
      ensures |fired| == Firings(jobType, old(LoopState()), stops)
      ensures SpacedFrom(fired, old(clock.now), interval)
      ensures currentRun == old(currentRun) + |fired|
      ensures fired != [] && maxRepeats == Some(currentRun) ==> !keepRunning && maxRepeatsReached
      ensures Limited(old(LoopState())) ==> |fired| <= maxRepeats.value
      ensures Limited(old(LoopState())) && jobType.IntervalBased? && LeftAlone(stops, maxRepeats.value) ==>
        |fired| == maxRepeats.value && !keepRunning && maxRepeatsReached
      ensures jobType.OneTime? && old(keepRunning) && stops != [] ==> |fired| == 1
      ensures StopsHeeded(stops, |fired|)
      ensures startTime == old(startTime) && clock.now >= old(clock.now)
    {
      fired, askedAt := [], [];
      var i := 0;
      ghost var begin, beginAsked := clock.now, clock.asked;
      ghost var l := LoopState();
      NoneAfterStop(jobType, l, stops);
      while keepRunning && i < |stops|
        invariant i == |fired| <= |stops| && currentRun == l.currentRun + i
        invariant clock.now >= begin && Timed(fired, askedAt, begin, beginAsked, interval, clock.now, clock.asked)
        invariant startTime == old(startTime)
        invariant i > 0 ==> jobType.IntervalBased?
        invariant StillLooping(l, stops, i, keepRunning)
        invariant i > 0 && maxRepeats == Some(currentRun) ==> !keepRunning && maxRepeatsReached
      {
        FireOnce(clock);
        ghost var before, asked, now := fired, askedAt, clock.now;
        TimedFiring(before, asked, begin, beginAsked, interval, now, clock.asked);
        fired, askedAt := fired + [clock.now], askedAt + [clock.asked];
        if jobType.OneTime? {
          return;
        }
        clock.Sleep(interval);
        TimedSleep(before, asked, begin, beginAsked, interval, now, clock.asked - interval, clock.now);
        LoopStep(l, stops, i);
        if stops[i] {
          keepRunning := false;
        }
        i := i + 1;
      }
      LoopEnd(jobType, l, stops, i, keepRunning);
      if Limited(l) && LeftAlone(stops, l.maxRepeats.value) && jobType.IntervalBased? { LeftAloneFires(l, stops); }
    }

    /** run: wait for the start time, then loop. A job without a start time never fires. */
    method Run(clock: C.Clock, stoppedWaiting: bool, stops: seq<bool>)
      returns (fired: seq<int>, ghost askedAt: seq<nat>)
      modifies this, clock
      ensures |askedAt| == |fired|
      ensures old(startTime).Some? && fired != [] ==>
        AskedFrom(askedAt, askedAt[0], interval)
        && askedAt[0] <= old(clock.asked) + Max(0, old(startTime).value - old(clock.now))
      ensures old(startTime) == None ==> fired == [] && unchanged(this) && unchanged(clock)
      ensures old(startTime).Some? ==>
        && SpacedFrom(fired, old(startTime).value, interval)
        && (fired != [] ==> fired[0] >= old(clock.now))
        && |fired| == Firings(jobType,
             if stoppedWaiting && old(startTime).value > old(clock.now) then old(LoopState()).(keepRunning := false)
             else old(LoopState()), stops)
      ensures Limited(old(LoopState())) ==> |fired| <= maxRepeats.value
      ensures old(startTime).Some? && !stoppedWaiting && Limited(old(LoopState())) && jobType.IntervalBased? ==>
        LeftAlone(stops, maxRepeats.value) ==> |fired| == maxRepeats.value && !keepRunning && maxRepeatsReached
      ensures old(startTime).Some? && !stoppedWaiting && jobType.OneTime? && old(keepRunning) && stops != [] ==>
        |fired| == 1
    {
      if startTime.None? {
        return [], [];
      }
      var waited := false;
      while startTime.value > clock.now
        invariant clock.now >= old(clock.now)
        invariant unchanged(this)
        invariant clock.asked - old(clock.asked) <= clock.now - old(clock.now)
        invariant clock.asked <= old(clock.asked) + Max(0, startTime.value - old(clock.now))
        invariant waited <==> startTime.value > old(clock.now) && clock.now != old(clock.now)
        decreases startTime.value - clock.now
      {
        clock.Sleep(1);
        waited := true;
      }
      if waited && stoppedWaiting {
        keepRunning := false;
      }
      ghost var begin := clock.now;
      fired, askedAt := MainLoop(clock, stops);
      if fired != [] { assert fired[0] >= GridPoint(begin, interval, 0); }
    }
  }
}
