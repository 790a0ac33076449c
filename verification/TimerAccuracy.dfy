/** When the timer of the interceptor fires, against what there is to do. */
module TimerAccuracy {
  import opened Sequences
  import opened RoundRobin
  import opened TickPrediction
  import opened Throughput
  import opened Emulation

  /** At time `t` nobody has paid everything and nobody's latency is over. */
  predicate NothingToDo(s: State, t: int)
    requires WellTimed(s) && s.clock <= t
  {
    && AllPositive(ServeBoth(s, t).download)
    && AllPositive(ServeBoth(s, t).upload)
    && forall r :: r in s.suspended ==> r.sendEnd + s.latencyLength > t
  }

  /** The sums of tick counters stay within 64 bits. */
  predicate NoWrap(s: State) {
    && s.downloadLastTick + MinTicksLeft(s.download) < UINT64_LIMIT
    && s.uploadLastTick + MinTicksLeft(s.upload) < UINT64_LIMIT
  }

  /** What holds when the timer is armed after everything finished has been collected. */
  predicate Settled(s: State) {
    WellTimed(s) && NothingToDo(s, s.clock) && NoWrap(s)
  }

  lemma MinTicksPositive(q: seq<Record>)
    requires AllPositive(q)
    ensures MinTicksLeft(q) >= 1
  {
    if q != [] {
      PredictionIsFirstCompletion(q);
    }
  }

  /** Whole ticks up to `t` against a tick boundary. */
  lemma TickBoundary(t: int, offset: int, tickLength: nat, tick: nat)
    requires offset <= t && tickLength > 0
    ensures TickAt(t, offset, tickLength) >= tick <==> t >= offset + tickLength * tick
  {
    var elapsed := t - offset;
    var ticks := elapsed / tickLength;
    assert elapsed == ticks * tickLength + elapsed % tickLength;
    if ticks >= tick {
      MultiplyMonotone(tick, ticks, tickLength);
    } else {
      MultiplyMonotone(ticks + 1, tick, tickLength);
      assert (ticks + 1) * tickLength == ticks * tickLength + tickLength;
    }
  }

  lemma Unwrapped(q: seq<Record>, offset: int, lastTick: nat, tickLength: nat)
    requires 0 <= lastTick + MinTicksLeft(q) < UINT64_LIMIT
    ensures DesiredTime(q, offset, lastTick, tickLength) == offset + tickLength * (lastTick + MinTicksLeft(q))
  {
  }

  /** One queue: its desired time is the first moment at which a record has paid everything. */
  lemma DesiredTimeIsFirst(q: seq<Record>, offset: int, clock: int, tickLength: nat, t: int)
    requires offset <= clock <= t && tickLength > 0 && AllPositive(q)
    requires TickAt(clock, offset, tickLength) + MinTicksLeft(q) < UINT64_LIMIT
    ensures var last := TickAt(clock, offset, tickLength);
            && DesiredTime(q, offset, last, tickLength) > clock
            && last <= TickAt(t, offset, tickLength)
            && (t < DesiredTime(q, offset, last, tickLength) ==> AllPositive(CatchUp(q, t, offset, last, tickLength)))
            && (t >= DesiredTime(q, offset, last, tickLength) && q != []
                ==> !AllPositive(CatchUp(q, t, offset, last, tickLength)))
  {
    var last := TickAt(clock, offset, tickLength);
    var m := MinTicksLeft(q);
    assert CatchUp(q, t, offset, last, tickLength) == Serve(q, TickAt(t, offset, tickLength) - last) by {
      TicksAdvance(clock, t, offset, tickLength);
    }
    hide TickAt, CatchUp, DesiredTime, MinTicksLeft, Serve;
    MinTicksPositive(q);
    TicksAdvance(clock, t, offset, tickLength);
    TickBoundary(clock, offset, tickLength, last + m);
    TickBoundary(t, offset, tickLength, last + m);
    Unwrapped(q, offset, last, tickLength);
    var ticks := TickAt(t, offset, tickLength) - last;
    if q == [] {
      ServeEmpty(ticks);
    } else {
      PredictionIsFirstCompletion(q);
      assert AllPositive(Serve(q, ticks)) <==> ticks < m;
    }
  }

  /** The timer can be armed before everything finished is collected, and a balance of exactly zero is
      never collected.  The desired time of a queue lies ahead exactly if all its records have bytes
      left, or if one has so much credit that the tick sum goes below zero and wraps. */
  lemma LooksAheadExactly(q: seq<Record>, offset: int, clock: int, tickLength: nat)
    requires offset <= clock && tickLength > 0 && q != [] && -UINT64_LIMIT < MinTicksLeft(q)
    requires TickAt(clock, offset, tickLength) + MinTicksLeft(q) < UINT64_LIMIT
    ensures var last := TickAt(clock, offset, tickLength);
            DesiredTime(q, offset, last, tickLength) > clock <==> AllPositive(q) || last + MinTicksLeft(q) < 0
  {
    var last, m := TickAt(clock, offset, tickLength), MinTicksLeft(q);
    if AllPositive(q) {
      MinTicksPositive(q);
    } else {
      var i :| 0 <= i < |q| && q[i].bytes <= 0;
      PaidUpIsPast(q, i);
    }
    hide MinTicksLeft, TickAt;
    var tick := if last + m < 0 then last + m + UINT64_LIMIT else last + m;
    WrappedSum(last + m);
    TickBoundary(clock, offset, tickLength, tick);
  }

  lemma WrappedSum(x: int)
    requires -UINT64_LIMIT <= x < UINT64_LIMIT
    ensures x % UINT64_LIMIT == if x < 0 then x + UINT64_LIMIT else x
  {
    if x < 0 {
      assert x == -1 * UINT64_LIMIT + (x + UINT64_LIMIT);
    }
  }

  lemma QueueTimes(s: State, t: int)
    requires Settled(s) && s.clock <= t
    ensures s.downloadTickLength > 0 ==>
              && DownloadTime(s) > s.clock
              && (t < DownloadTime(s) ==> AllPositive(ServeBoth(s, t).download))
              && (t >= DownloadTime(s) && s.download != [] ==> !AllPositive(ServeBoth(s, t).download))
    ensures s.uploadTickLength > 0 ==>
              && UploadTime(s) > s.clock
              && (t < UploadTime(s) ==> AllPositive(ServeBoth(s, t).upload))
              && (t >= UploadTime(s) && s.upload != [] ==> !AllPositive(ServeBoth(s, t).upload))
    ensures s.uploadTickLength == 0 ==> UploadTime(s) == s.offset && AllPositive(ServeBoth(s, t).upload)
    ensures s.downloadTickLength == 0 ==> DownloadTime(s) == s.offset && AllPositive(ServeBoth(s, t).download)
  {
    SettledQueues(s);
    if s.downloadTickLength > 0 {
      DesiredTimeIsFirst(s.download, s.offset, s.clock, s.downloadTickLength, t);
    }
    if s.uploadTickLength > 0 {
      DesiredTimeIsFirst(s.upload, s.offset, s.clock, s.uploadTickLength, t);
    }
  }

  lemma SettledQueues(s: State)
    requires WellTimed(s) && NothingToDo(s, s.clock)
    ensures AllPositive(s.download) && AllPositive(s.upload)
  {
    assert ServeBoth(s, s.clock).download == s.download;
    assert ServeBoth(s, s.clock).upload == s.upload;
  }

  /** While downloads are throttled the timer is never late, and it fires for nothing only at the
      placeholder time of an empty queue. */
  lemma TimerNeitherLateNorIdle(s: State)
    requires Settled(s) && s.downloadTickLength > 0 && Queued(s) != []
    ensures var armed := ArmTimer(s, s.clock);
            && armed == s.(timer := Armed(WakeUpTime(s))) && WakeUpTime(s) > s.clock
            && (forall t :: s.clock <= t < WakeUpTime(s) ==> NothingToDo(s, t))
            && (NothingToDo(s, WakeUpTime(s)) ==>
                  || (s.download == [] && WakeUpTime(s) == DownloadTime(s))
                  || (s.upload == [] && WakeUpTime(s) == UploadTime(s)))
  {
    var at := WakeUpTime(s);
    QueueTimes(s, s.clock);
    hide DesiredTime, ServeBoth, AllPositive, MinTicksLeft;
    assert at > s.clock;
    forall t | s.clock <= t < at ensures NothingToDo(s, t) {
      QueueTimes(s, t);
    }
    QueueTimes(s, at);
  }
}
