/** Whether the timer is in time for what it has to do, in every state it can be armed in. */
module TimerInTime {
  import opened Sequences
  import opened RoundRobin
  import opened TickPrediction
  import opened Emulation
  import opened TimerAccuracy

  /** At time `t` the timer would find a record to collect or one whose latency is over. */
  predicate WorkToDo(s: State, t: int)
    requires WellTimed(s) && s.clock <= t
  {
    HasOverdrawn(ServeBoth(s, t).download) || HasOverdrawn(ServeBoth(s, t).upload) || HasDueAt(s, t)
  }

  predicate HasDueAt(s: State, t: int) {
    exists r :: r in s.suspended && r.sendEnd + s.latencyLength <= t
  }

  // ----- when there is something to do, in closed form -----

  datatype Moment = Never | At(time: int)

  predicate Reached(m: Moment, t: int) {
    m.At? && m.time <= t
  }

  function Earlier(a: Moment, b: Moment): (m: Moment)
    ensures forall t :: Reached(m, t) <==> Reached(a, t) || Reached(b, t)
  {
    if a.Never? || (b.At? && b.time < a.time) then b else a
  }

  /** The first moment from `clock` on at which a queue has a record to collect. */
  function QueueMoment(q: seq<Record>, offset: int, clock: int, tickLength: nat): Moment
    requires offset <= clock
  {
    if q == [] then Never
    else if FirstOverdrawn(q) == 0 then At(clock)
    else if tickLength == 0 then Never
    else At(offset + tickLength * (TickAt(clock, offset, tickLength) + FirstOverdrawn(q)))
  }

  function DueMoment(s: State): Moment {
    if s.suspended == [] then Never
    else
      var due := MinSendEnd(s.suspended) + s.latencyLength;
      At(if due < s.clock then s.clock else due)
  }

  function FirstWork(s: State): Moment
    requires s.offset <= s.clock
  {
    Earlier(DueMoment(s), Earlier(QueueMoment(s.download, s.offset, s.clock, s.downloadTickLength),
                                  QueueMoment(s.upload, s.offset, s.clock, s.uploadTickLength)))
  }

  lemma QueueMomentExactly(q: seq<Record>, offset: int, clock: int, tickLength: nat, t: int)
    requires offset <= clock <= t
    ensures TickAt(clock, offset, tickLength) <= TickAt(t, offset, tickLength)
    ensures HasOverdrawn(CatchUp(q, t, offset, TickAt(clock, offset, tickLength), tickLength))
            <==> Reached(QueueMoment(q, offset, clock, tickLength), t)
    ensures QueueMoment(q, offset, clock, tickLength).At? ==> QueueMoment(q, offset, clock, tickLength).time >= clock
  {
    TicksAdvance(clock, t, offset, tickLength);
    var last := TickAt(clock, offset, tickLength);
    var ticks := TickAt(t, offset, tickLength) - last;
    assert CatchUp(q, t, offset, last, tickLength) == Serve(q, ticks);
    hide CatchUp, TickAt, Serve;
    if q == [] {
      ServeEmpty(ticks);
    } else {
      CollectableExactly(q, ticks);
      hide HasOverdrawn, FirstOverdrawn;
      if tickLength > 0 {
        TickBoundary(t, offset, tickLength, last + FirstOverdrawn(q));
        TickBoundary(clock, offset, tickLength, last + FirstOverdrawn(q));
      } else {
        assert ticks == 0 by {
          NoTicks(t, offset);
        }
      }
    }
  }

  lemma NoTicks(t: int, offset: int)
    requires offset <= t
    ensures TickAt(t, offset, 0) == 0
  {
  }

  lemma DueMomentExactly(s: State, t: int)
    requires s.clock <= t
    ensures HasDueAt(s, t) <==> Reached(DueMoment(s), t)
  {
    if s.suspended != [] {
      var m := MinSendEnd(s.suspended);
      var r :| r in s.suspended && m == r.sendEnd;
      hide MinSendEnd;
    }
  }

  /** There is something to do exactly from the first moment in closed form on, whatever the balances. */
  lemma FirstWorkExactly(s: State, t: int)
    requires WellTimed(s) && s.clock <= t
    ensures WorkToDo(s, t) <==> Reached(FirstWork(s), t)
    ensures FirstWork(s).At? ==> FirstWork(s).time >= s.clock
  {
    QueueMomentExactly(s.download, s.offset, s.clock, s.downloadTickLength, t);
    QueueMomentExactly(s.upload, s.offset, s.clock, s.uploadTickLength, t);
    DueMomentExactly(s, t);
    hide QueueMoment, DueMoment, HasOverdrawn, HasDueAt, CatchUp, TickAt;
  }

  // ----- what the timer does then -----

  /** Something to do is exactly what makes the timer collect a record or activate one. */
  lemma WorkIsDone(s: State, t: int)
    requires WellTimed(s) && s.clock <= t
    ensures var u := UpdateThrottled(s.(timer := Stopped), t);
            WorkToDo(s, t) <==> u.suspended != s.suspended || Collect(u).log != s.log
  {
    var served, baseline := ServeBoth(s, t), t - s.latencyLength;
    var u := UpdateThrottled(s.(timer := Stopped), t);
    assert u.log == s.log && served.suspended == s.suspended && served.latencyLength == s.latencyLength;
    assert u.suspended == Filter(s.suspended, IsWaiting(baseline));
    assert u.download == served.download + Filter(s.suspended, IsDue(baseline, false));
    assert u.upload == served.upload + Filter(s.suspended, IsDue(baseline, true));
    FilterMembers(s.suspended, IsDue(baseline, false));
    FilterMembers(s.suspended, IsDue(baseline, true));
    FilterMembers(s.suspended, IsWaiting(baseline));
    FinishedExactly(u.download);
    FinishedExactly(u.upload);
    var finished := Filter(u.download, IsFinished()) + Filter(u.upload, IsFinished());
    assert Collect(u).log == s.log + CompleteAll(finished, false);
    assert Collect(u).log != s.log <==> finished != [];
    assert HasDueAt(s, t) ==> u.suspended != s.suspended;
    if !HasDueAt(s, t) {
      FilterAll(s.suspended, IsWaiting(baseline));
    }
    hide UpdateThrottled, ServeBoth, Filter, Collect, CompleteAll;
  }

  lemma FinishedExactly(q: seq<Record>)
    ensures Filter(q, IsFinished()) != [] <==> HasOverdrawn(q)
  {
    FilterMembers(q, IsFinished());
    if Filter(q, IsFinished()) != [] {
      assert Filter(q, IsFinished())[0] in q;
    }
  }

  // ----- the timer -----

  /** Nothing waits for the timer before it fires. */
  predicate InTime(s: State)
    requires WellTimed(s) && s.timer.Armed?
  {
    forall t :: s.clock <= t < s.timer.at ==> !WorkToDo(s, t)
  }

  /** In every state with an armed timer, whatever the balances: it is in time exactly if it is set for
      no later than the first moment in closed form, and fires for nothing exactly if for earlier. */
  lemma InTimeExactly(s: State)
    requires WellTimed(s) && s.timer.Armed? && s.clock <= s.timer.at
    ensures InTime(s) <==> FirstWork(s).Never? || s.timer.at <= FirstWork(s).time
    ensures WorkToDo(s, s.timer.at) <==> FirstWork(s).At? && FirstWork(s).time <= s.timer.at
  {
    assert s.offset <= s.clock;
    hide WorkToDo, FirstWork, WellTimed;
    FirstWorkExactly(s, s.timer.at);
    if FirstWork(s).At? && FirstWork(s).time < s.timer.at {
      FirstWorkExactly(s, FirstWork(s).time);
    }
    forall t | s.clock <= t < s.timer.at ensures WorkToDo(s, t) <==> Reached(FirstWork(s), t) {
      FirstWorkExactly(s, t);
    }
  }

  /** Whenever the timer is armed, in the moment it is armed: the distance to the wake-up time decides,
      whether that time lies ahead or behind. */
  lemma ArmedInTimeExactly(s: State)
    requires WellTimed(s) && Queued(s) != []
    ensures var a := ArmTimer(s, s.clock);
            && WellTimed(a) && a.clock == s.clock && a.timer.Armed?
            && (InTime(a) <==> FirstWork(a).Never? || s.clock + Magnitude(WakeUpTime(s) - s.clock) <= FirstWork(a).time)
  {
    var a := ArmTimer(s, s.clock);
    assert a.timer == Armed(s.clock + Magnitude(WakeUpTime(s) - s.clock)) && a.clock == s.clock;
    assert a == s.(timer := a.timer, download := a.download, log := a.log);
    hide WakeUpTime, ArmTimer;
    InTimeExactly(a);
  }

  /** The tick sum of a queue neither wraps nor goes below zero. */
  predicate Predictable(q: seq<Record>, lastTick: nat) {
    0 <= lastTick + MinTicksLeft(q) < UINT64_LIMIT
  }

  lemma QueuePredicted(q: seq<Record>, offset: int, clock: int, tickLength: nat)
    requires offset <= clock && tickLength > 0 && q != []
    requires Predictable(q, TickAt(clock, offset, tickLength))
    ensures var moment := QueueMoment(q, offset, clock, tickLength);
            moment.At? && DesiredTime(q, offset, TickAt(clock, offset, tickLength), tickLength) <= moment.time
  {
    var last, min, first := TickAt(clock, offset, tickLength), MinTicksLeft(q), FirstOverdrawn(q);
    var moment := QueueMoment(q, offset, clock, tickLength);
    assert moment == At(if first == 0 then clock else offset + tickLength * (last + first));
    Unwrapped(q, offset, last, tickLength);
    assert DesiredTime(q, offset, last, tickLength) == offset + tickLength * (last + min);
    PredictedBeforeCollection(q);
    TickBoundary(clock, offset, tickLength, last + min);
    hide *;
    Product(tickLength, last + min, last + first);
  }

  lemma Product(factor: nat, a: int, b: int)
    requires a <= b
    ensures factor * a <= factor * b
  {
    MultiplyMonotone(a, b, factor);
  }

  /** The timer is set for no later than the first work, unless it had to be set for a time behind. */
  lemma WakeUpBeforeWork(s: State)
    requires WellTimed(s) && Queued(s) != []
    requires s.downloadTickLength > 0 && Predictable(s.download, s.downloadLastTick)
    requires s.upload != [] ==>
               s.uploadTickLength > 0 && Predictable(s.upload, s.uploadLastTick) && UploadTime(s) != s.offset
    ensures var a := ArmTimer(s, s.clock);
            FirstWork(a).At? ==> WakeUpTime(s) <= FirstWork(a).time
  {
    var a := ArmTimer(s, s.clock);
    assert a == s.(timer := a.timer, download := a.download, log := a.log)
           && (a.download == s.download || a.download == []);
    assert s.suspended != [] ==> WakeUpTime(s) <= MinSendEnd(s.suspended) + s.latencyLength;
    assert WakeUpTime(s) <= DownloadTime(s) && (UploadTime(s) != s.offset ==> WakeUpTime(s) <= UploadTime(s));
    hide WakeUpTime, ArmTimer, MinTicksLeft;
    if s.download != [] {
      QueuePredicted(s.download, s.offset, s.clock, s.downloadTickLength);
    }
    if s.upload != [] {
      QueuePredicted(s.upload, s.offset, s.clock, s.uploadTickLength);
    }
  }

  /** While downloads are throttled: a wake-up time that lies ahead is in time.  One that lies behind,
      because a record without bytes left was not collected, is in time exactly if it lies no further
      behind than the first work lies ahead. */
  lemma InTimeUnlessBehind(s: State)
    requires WellTimed(s) && Queued(s) != []
    requires s.downloadTickLength > 0 && Predictable(s.download, s.downloadLastTick)
    requires s.upload != [] ==>
               s.uploadTickLength > 0 && Predictable(s.upload, s.uploadLastTick) && UploadTime(s) != s.offset
    ensures var a := ArmTimer(s, s.clock);
            InTime(a) <==> WakeUpTime(s) >= s.clock || FirstWork(a).Never?
                           || s.clock - WakeUpTime(s) <= FirstWork(a).time - s.clock
  {
    ArmedInTimeExactly(s);
    WakeUpBeforeWork(s);
    hide ArmTimer, WakeUpTime, FirstWork, InTime, MinTicksLeft, DesiredTime;
  }

  /** Without a download throughput the timer looks at nothing but the offset and suspended records: it
      is set to the distance from the offset, and in time exactly if the first work is no closer. */
  lemma UploadOnlyTimer(s: State)
    requires WellTimed(s) && s.downloadTickLength == 0 && Queued(s) != []
    ensures var a := ArmTimer(s, s.clock);
            var due := if s.suspended == [] then s.offset else MinSendEnd(s.suspended) + s.latencyLength;
            var behind := s.clock - if due < s.offset then due else s.offset;
            && a.download == [] && a.timer == Armed(s.clock + behind) && WellTimed(a)
            && (InTime(a) <==> FirstWork(a).Never? || behind <= FirstWork(a).time - s.clock)
  {
    assert DownloadTime(s) == s.offset;
    assert UploadTime(s) >= s.offset;
    ArmedInTimeExactly(s);
    hide InTime, FirstWork, DesiredTime, MinSendEnd;
  }

  // ----- how late it can be, and how often it fires for nothing -----

  /** One full round of the longer queue. */
  function Round(s: State): nat {
    var d, u := s.downloadTickLength * |s.download|, s.uploadTickLength * |s.upload|;
    if d < u then u else d
  }

  predicate NoneOverdrawn(q: seq<Record>) {
    forall i :: 0 <= i < |q| ==> q[i].bytes >= 0
  }

  /** Without credit a prediction is never further back than one round. */
  lemma PredictedWithinRound(q: seq<Record>)
    requires q != [] && NoneOverdrawn(q)
    ensures MinTicksLeft(q) >= 1 - |q|
  {
    forall i | 0 <= i < |q| ensures TicksLeft(q, i) >= 1 - |q| {
      var p := PacketsLeft(q[i].bytes);
      assert p >= 0;
      MultiplyMonotone(-1, p - 1, |q|);
    }
    hide TicksLeft;
  }

  lemma DesiredWithinRound(q: seq<Record>, offset: int, clock: int, tickLength: nat)
    requires offset <= clock && tickLength > 0 && q != [] && NoneOverdrawn(q)
    requires Predictable(q, TickAt(clock, offset, tickLength))
    ensures DesiredTime(q, offset, TickAt(clock, offset, tickLength), tickLength) > clock - tickLength * |q|
  {
    var last, min := TickAt(clock, offset, tickLength), MinTicksLeft(q);
    Unwrapped(q, offset, last, tickLength);
    PredictedWithinRound(q);
    TickBoundary(clock, offset, tickLength, last + 1);
    hide *;
    Product(tickLength, last + 1 - |q|, last + min);
    assert tickLength * (last + 1 - |q|) == tickLength * (last + 1) - tickLength * |q|;
  }

  /** Downloads are throttled, no tick sum wraps, and no upload is without ticks or predicted for tick zero. */
  predicate Foreseeable(s: State) {
    && s.downloadTickLength > 0 && Predictable(s.download, s.downloadLastTick)
    && (s.uploadTickLength > 0 ==> Predictable(s.upload, s.uploadLastTick))
    && (s.upload != [] ==> s.uploadTickLength > 0 && UploadTime(s) != s.offset)
  }

  lemma EmptyIsAhead(offset: int, clock: int, tickLength: nat)
    requires offset <= clock && tickLength > 0 && Predictable([], TickAt(clock, offset, tickLength))
    ensures DesiredTime([], offset, TickAt(clock, offset, tickLength), tickLength) > clock
  {
    var last := TickAt(clock, offset, tickLength);
    assert MinTicksLeft([]) == NO_RECORD_TICKS;
    Unwrapped([], offset, last, tickLength);
    TickBoundary(clock, offset, tickLength, last + NO_RECORD_TICKS);
  }

  lemma QueueWithinRound(q: seq<Record>, offset: int, clock: int, tickLength: nat, round: nat)
    requires offset <= clock && tickLength > 0 && NoneOverdrawn(q) && Predictable(q, TickAt(clock, offset, tickLength))
    requires tickLength * |q| <= round
    ensures var time := DesiredTime(q, offset, TickAt(clock, offset, tickLength), tickLength);
            time >= clock || time > clock - round
  {
    if q == [] {
      EmptyIsAhead(offset, clock, tickLength);
    } else {
      DesiredWithinRound(q, offset, clock, tickLength);
    }
  }

  lemma WakeUpWithinRound(s: State)
    requires WellTimed(s) && NoneOverdrawn(s.download) && NoneOverdrawn(s.upload) && !HasDueAt(s, s.clock)
             && Foreseeable(s)
    ensures WakeUpTime(s) >= s.clock || WakeUpTime(s) > s.clock - Round(s)
  {
    QueueWithinRound(s.download, s.offset, s.clock, s.downloadTickLength, Round(s));
    if s.uploadTickLength > 0 {
      QueueWithinRound(s.upload, s.offset, s.clock, s.uploadTickLength, Round(s));
    } else {
      assert UploadTime(s) == s.offset;
    }
    if s.suspended != [] {
      var m := MinSendEnd(s.suspended);
      var r :| r in s.suspended && m == r.sendEnd;
      assert m + s.latencyLength > s.clock;
    }
    hide DesiredTime, MinSendEnd, Round, MinTicksLeft, NoneOverdrawn, TickAt;
  }

  /** Once everything finished has been collected and everything due activated, the timer is in time or
      late by less than one round. */
  lemma LateByLessThanARound(s: State)
    requires WellTimed(s) && Queued(s) != [] && NoneOverdrawn(s.download) && NoneOverdrawn(s.upload)
    requires !HasDueAt(s, s.clock) && Foreseeable(s)
    ensures var a := ArmTimer(s, s.clock);
            a.timer.Armed? && (FirstWork(a).At? ==> a.timer.at <= FirstWork(a).time || a.timer.at < s.clock + Round(s))
  {
    WakeUpBeforeWork(s);
    WakeUpWithinRound(s);
    assert ArmTimer(s, s.clock).timer == Armed(s.clock + Magnitude(WakeUpTime(s) - s.clock));
    assert ArmTimer(s, s.clock).offset <= ArmTimer(s, s.clock).clock;
    hide ArmTimer, WakeUpTime, FirstWork, Round;
  }

  /** So whenever the timer has fired, whatever credit or delay there was before. */
  lemma FiringLateByLessThanARound(s: State, now: int)
    requires WellTimed(s) && s.clock <= now
    requires var v := Collect(UpdateThrottled(s.(timer := Stopped), now)); Queued(v) != [] && Foreseeable(v)
    ensures var v := Collect(UpdateThrottled(s.(timer := Stopped), now));
            var a := OnTimer(s, now);
            && WellTimed(a) && a.clock == now && a.timer.Armed?
            && (FirstWork(a).At? ==> a.timer.at <= FirstWork(a).time || a.timer.at < FirstWork(a).time + Round(v))
  {
    var u := UpdateThrottled(s.(timer := Stopped), now);
    var v := Collect(u);
    CollectedAndActivated(s, now);
    LateByLessThanARound(v);
    ArmedInTimeExactly(v);
    InTimeStartsNow(OnTimer(s, now));
    assert OnTimer(s, now) == ArmTimer(v, now) && v.clock == now;
    hide UpdateThrottled, Collect, ArmTimer, FirstWork, Round, OnTimer;
  }

  lemma InTimeStartsNow(a: State)
    requires WellTimed(a)
    ensures FirstWork(a).At? ==> FirstWork(a).time >= a.clock
  {
    FirstWorkExactly(a, a.clock);
  }

  lemma CollectedAndActivated(s: State, now: int)
    requires WellTimed(s) && s.clock <= now
    ensures var v := Collect(UpdateThrottled(s.(timer := Stopped), now));
            && WellTimed(v) && v.clock == now
            && NoneOverdrawn(v.download) && NoneOverdrawn(v.upload) && !HasDueAt(v, now)
  {
    var stopped := s.(timer := Stopped);
    var u := UpdateThrottled(stopped, now);
    NobodyDue(ServeBoth(stopped, now), now);
    hide Filter, UpdateThrottled, ServeBoth, TickAt, CompleteAll;
    NoneLeftOverdrawn(u.download);
    NoneLeftOverdrawn(u.upload);
    SameSuspended(u, Collect(u), now);
  }

  lemma NoneLeftOverdrawn(q: seq<Record>)
    ensures NoneOverdrawn(Filter(q, IsActive()))
  {
    FilterMembers(q, IsActive());
    hide Filter;
    assert forall i :: 0 <= i < |Filter(q, IsActive())| ==> Filter(q, IsActive())[i] in Filter(q, IsActive());
  }

  lemma NobodyDue(s: State, now: int)
    ensures !HasDueAt(Activate(s, now), now)
  {
    FilterMembers(s.suspended, IsWaiting(now - s.latencyLength));
    hide Filter;
  }

  lemma SameSuspended(a: State, b: State, now: int)
    requires !HasDueAt(a, now) && a.suspended == b.suspended && a.latencyLength == b.latencyLength
    ensures !HasDueAt(b, now)
  {
  }

  // ----- firings for nothing -----

  /** The timer, set for the distance to a time behind, fires when it was set for and within the same
      ticks, and finds nothing to do. */
  predicate FiresForNothing(a: State) {
    && WellTimed(a) && a.timer.Armed? && Queued(a) != [] && DownloadTime(a) != a.offset
    && WakeUpTime(a) <= a.clock && a.timer.at == a.clock + (a.clock - WakeUpTime(a))
    && !WorkToDo(a, a.timer.at)
    && TickAt(a.timer.at, a.offset, a.downloadTickLength) == a.downloadLastTick
    && TickAt(a.timer.at, a.offset, a.uploadTickLength) == a.uploadLastTick
  }

  /** It only doubles the distance. */
  lemma WaitDoubles(a: State)
    requires FiresForNothing(a)
    ensures var at := a.timer.at;
            var b := OnTimer(a, at);
            && b == a.(clock := at, timer := Armed(at + (at - WakeUpTime(a))))
            && WakeUpTime(b) == WakeUpTime(a) && at - WakeUpTime(b) == 2 * (a.clock - WakeUpTime(a))
  {
    var at := a.timer.at;
    var u := a.(timer := Stopped, clock := at);
    assert !WorkToDo(a, at) && WellTimed(a) && a.clock <= at && Queued(u) == Queued(a);
    NothingChanges(a, at);
    SameWakeUp(a, u);
    ArmedAgain(u, at);
    assert OnTimer(a, at) == ArmTimer(Collect(UpdateThrottled(a.(timer := Stopped), at)), at);
    SameWakeUp(u, ArmTimer(u, at));
    assert FiresForNothing(a);
    hide UpdateThrottled, Collect, ArmTimer, OnTimer, DesiredTime, MinSendEnd, WakeUpTime, WorkToDo, Queued, TickAt;
  }

  /** The wake-up time does not depend on the clock. */
  lemma SameWakeUp(a: State, b: State)
    requires b == a.(timer := b.timer, clock := b.clock)
    ensures WakeUpTime(b) == WakeUpTime(a) && DownloadTime(b) == DownloadTime(a)
  {
    hide DesiredTime, MinSendEnd;
  }

  lemma ArmedAgain(u: State, now: int)
    requires Queued(u) != [] && DownloadTime(u) != u.offset
    ensures ArmTimer(u, now) == u.(timer := Armed(now + Magnitude(WakeUpTime(u) - now)))
  {
    hide DesiredTime, MinSendEnd, WakeUpTime, Magnitude;
  }

  lemma NothingChanges(a: State, at: int)
    requires WellTimed(a) && a.clock <= at && !WorkToDo(a, at)
    requires TickAt(at, a.offset, a.downloadTickLength) == a.downloadLastTick
    requires TickAt(at, a.offset, a.uploadTickLength) == a.uploadLastTick
    ensures var u := a.(timer := Stopped, clock := at);
            UpdateThrottled(a.(timer := Stopped), at) == u && Collect(u) == u
  {
    var s, u := a.(timer := Stopped), a.(timer := Stopped, clock := at);
    WithinTheTick(a, at);
    WithinTheTick(s, at);
    assert !HasOverdrawn(a.download) && !HasOverdrawn(a.upload) && !HasDueAt(a, at);
    NobodyActivated(u, at);
    NobodyCollected(u);
    assert UpdateThrottled(s, at) == Activate(ServeBoth(s, at), at);
    hide *;
  }

  lemma WithinTheTick(s: State, at: int)
    requires WellTimed(s) && s.clock <= at
    requires TickAt(at, s.offset, s.downloadTickLength) == s.downloadLastTick
    requires TickAt(at, s.offset, s.uploadTickLength) == s.uploadLastTick
    ensures ServeBoth(s, at) == s.(clock := at)
  {
    hide TickAt;
  }

  lemma NobodyActivated(u: State, at: int)
    requires !HasDueAt(u, at)
    ensures Activate(u, at) == u
  {
    hide Filter;
    var baseline := at - u.latencyLength;
    forall r | r in u.suspended ensures r.sendEnd > baseline {
      assert r.sendEnd + u.latencyLength > at;
    }
    FilterNone(u.suspended, IsDue(baseline, false));
    FilterNone(u.suspended, IsDue(baseline, true));
    FilterAll(u.suspended, IsWaiting(baseline));
    assert u.download + [] == u.download && u.upload + [] == u.upload;
  }

  lemma NobodyCollected(u: State)
    requires !HasOverdrawn(u.download) && !HasOverdrawn(u.upload)
    ensures Collect(u) == u
  {
    NobodyFinished(u.download);
    NobodyFinished(u.upload);
    var nobody: seq<Record> := [];
    assert nobody + nobody == nobody && CompleteAll(nobody, false) == [] && u.log + [] == u.log;
    hide Filter, CompleteAll;
  }

  lemma NobodyFinished(q: seq<Record>)
    requires !HasOverdrawn(q)
    ensures Filter(q, IsFinished()) == [] && Filter(q, IsActive()) == q
  {
    assert forall r :: r in q ==> r.bytes >= 0;
    FilterNone(q, IsFinished());
    FilterAll(q, IsActive());
  }

  /** `k` such firings in a row. */
  predicate IdleFirings(a: State, k: nat)
    decreases k
  {
    k == 0 || (FiresForNothing(a) && IdleFirings(OnTimer(a, a.timer.at), k - 1))
  }

  /** A distance that doubles `k` times. */
  function Doubled(distance: int, k: nat): int
    decreases k
  {
    if k == 0 then distance else Doubled(2 * distance, k - 1)
  }

  function Power(k: nat): nat {
    if k == 0 then 1 else 2 * Power(k - 1)
  }

  lemma {:induction false} DoubledIsPower(distance: int, k: nat)
    ensures Doubled(distance, k) == Power(k) * distance
    decreases k
  {
    if k > 0 {
      DoubledIsPower(2 * distance, k - 1);
      assert Power(k - 1) * (2 * distance) == 2 * Power(k - 1) * distance;
    }
  }

  /** Time until the next tick, from the time looked back to. */
  function ToNextTick(a: State): int {
    a.offset + a.downloadTickLength * (a.downloadLastTick + 1) - WakeUpTime(a)
  }

  lemma FiresBeforeNextTick(a: State)
    requires FiresForNothing(a) && a.downloadTickLength > 0
    ensures 2 * (a.clock - WakeUpTime(a)) < ToNextTick(a)
  {
    TickBoundary(a.timer.at, a.offset, a.downloadTickLength, a.downloadLastTick + 1);
    assert a.timer.at - WakeUpTime(a) == 2 * (a.clock - WakeUpTime(a));
    hide WakeUpTime, WellTimed, WorkToDo, TickAt, Queued, DesiredTime;
  }

  lemma {:induction false} FiringsDouble(a: State, k: nat)
    requires k > 0 && IdleFirings(a, k) && a.downloadTickLength > 0
    ensures Doubled(a.clock - WakeUpTime(a), k) < ToNextTick(a)
    decreases k
  {
    hide *;
    FirstIdle(a, k);
    if k == 1 {
      FiresBeforeNextTick(a);
      DoubledStep(a.clock - WakeUpTime(a), 1);
      DoubledStep(2 * (a.clock - WakeUpTime(a)), 0);
    } else {
      NextIdle(a);
      FiringsDouble(OnTimer(a, a.timer.at), k - 1);
      DoubledStep(a.clock - WakeUpTime(a), k);
    }
  }

  lemma DoubledStep(distance: int, k: nat)
    ensures Doubled(distance, k) == if k == 0 then distance else Doubled(2 * distance, k - 1)
  {
  }

  lemma FirstIdle(a: State, k: nat)
    requires k > 0 && IdleFirings(a, k)
    ensures FiresForNothing(a) && a.timer.Armed? && WellTimed(a) && a.clock <= a.timer.at
    ensures IdleFirings(OnTimer(a, a.timer.at), k - 1)
  {
    hide OnTimer, WorkToDo, WakeUpTime, TickAt, DesiredTime;
  }

  lemma NextIdle(a: State)
    requires FiresForNothing(a) && a.timer.Armed? && WellTimed(a) && a.clock <= a.timer.at
    ensures var b := OnTimer(a, a.timer.at);
            && ToNextTick(b) == ToNextTick(a) && b.downloadTickLength == a.downloadTickLength
            && b.clock - WakeUpTime(b) == 2 * (a.clock - WakeUpTime(a))
  {
    hide *;
    WaitDoubles(a);
    SameNextTick(a, OnTimer(a, a.timer.at));
  }

  lemma SameNextTick(a: State, b: State)
    requires b == a.(clock := b.clock, timer := b.timer) && WakeUpTime(b) == WakeUpTime(a)
    ensures ToNextTick(b) == ToNextTick(a)
  {
    hide WakeUpTime;
  }

  /** The distance doubles with each of `k` firings for nothing in a row, and all of them lie before the
      next tick: there are only logarithmically many, unless the timer is armed exactly at the time it
      looks back to. */
  lemma FiringsForNothing(a: State, k: nat)
    requires k > 0 && IdleFirings(a, k) && a.downloadTickLength > 0
    ensures Power(k) * (a.clock - WakeUpTime(a)) < ToNextTick(a)
  {
    hide *;
    FiringsDouble(a, k);
    DoubledIsPower(a.clock - WakeUpTime(a), k);
  }
}
