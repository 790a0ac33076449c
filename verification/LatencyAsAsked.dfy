/** The latency that was asked for is the latency that is waited for. */
module LatencyAsAsked {
  import opened Sequences
  import opened RoundRobin
  import opened Emulation
  import opened Runs
  import opened Accounts
  import opened ThrottleLife
  import opened Bandwidth
  import opened ThrottleAnswers
  import T = TransactionSteps
  import S = Sessions
  import U = UploadSessions

  /** More microseconds than these have not passed; the latency asked for is in milliseconds. */
  predicate IsOver(latency: real, elapsed: int) {
    1000.0 * latency < (elapsed + 1) as real
  }

  /** The latency in microseconds is what was asked for, rounded down. */
  lemma LatencyInMicroseconds(s: State)
    requires Valid(s) && s.conditions.IsThrottling()
    ensures 1000.0 * s.conditions.latency - 1.0 < s.latencyLength as real <= 1000.0 * s.conditions.latency
    ensures s.latencyLength > 0 <==> 1000.0 * s.conditions.latency >= 1.0
    ensures forall r: Record, now :: StillWaits(s, now, r) <==> !IsOver(s.conditions.latency, now - r.sendEnd)
  {
    assert s.latencyLength == s.conditions.LatencyLength();
    hide Valid;
    Rounded(s.conditions.latency, s.latencyLength);
  }

  lemma Rounded(latency: real, length: nat)
    requires latency >= 0.0 && length == if latency > 0.0 then (latency * 1000.0).Floor else 0
    ensures 1000.0 * latency - 1.0 < length as real <= 1000.0 * latency
    ensures forall elapsed: int :: elapsed < length <==> !IsOver(latency, elapsed)
  {
  }

  /** In every throttling state that a run leads to. */
  lemma LatencyOfRuns(run: seq<Event>)
    requires Valid(INITIAL) && Possible(INITIAL, run) && After(INITIAL, run).conditions.IsThrottling()
    ensures var s := After(INITIAL, run);
            1000.0 * s.conditions.latency - 1.0 < s.latencyLength as real <= 1000.0 * s.conditions.latency
  {
    hide Valid, Possible, After;
    LatencyInMicroseconds(After(INITIAL, run));
  }

  // ----- where a new record goes -----

  predicate InSuspended(s: State, callback: nat) {
    exists q :: q in s.suspended && q.callback == callback
  }

  lemma AbsentNowhere(s: State, callback: nat)
    requires Outstanding(s, callback) == 0
    ensures forall q :: q in s.download + s.upload + s.suspended ==> q.callback != callback
  {
    hide Count;
    forall q | q in s.download + s.upload + s.suspended ensures q.callback != callback {
      if q.callback == callback {
        OutstandingMember(s, q);
      }
    }
  }

  /** A new record is suspended exactly if it starts something, the latency is a microsecond at least, and it
      is not over. */
  lemma PlacedExactly(s: State, now: int, r: Record, start: bool)
    requires Valid(s) && s.clock <= now && Outstanding(s, r.callback) == 0
    requires IsTaken(s.conditions, r.result, r.isUpload)
    ensures var t := StartThrottle(s, now, r, start);
            var latency := s.conditions.latency;
            && (InSuspended(t, r.callback) <==> start && 1000.0 * latency >= 1.0 && !IsOver(latency, now - r.sendEnd))
            && (InSuspended(t, r.callback) ==> r in t.suspended)
  {
    QueuedExactly(s, r.result, r.isUpload);
    LatencyInMicroseconds(s);
    AbsentNowhere(s, r.callback);
    assert WellTimed(s);
    hide Valid, WellTimed, UpdateThrottled, Join, ArmTimer, StillWaits, Outstanding, IsOver, IsTaken, Queues;
    var u := UpdateThrottled(s, now);
    forall q | q in u.suspended ensures q in s.suspended {
      LatencyRespected(s, now, q);
    }
    NewRecordPlaced(s, now, r, start);
    ArmTimerFrame(Join(u, now, r, start), now);
    assert forall q :: q in s.suspended ==> q in s.download + s.upload + s.suspended;
  }

  /** Reads of an upload stream never wait for a latency. */
  lemma ReadNeverSuspended(s: U.Session, now: int, result: int)
    requires U.Consistent(s) && U.Possible(s, U.Read(now, result))
    ensures !InSuspended(U.ThrottleRead(s.upload, s.net, now, result).net, s.upload.callback)
  {
    var r := U.RecordOf(s.upload, result);
    QueuedExactly(s.net, result, true);
    AbsentNowhere(s.net, s.upload.callback);
    assert forall q :: q in s.net.suspended ==> q in s.net.download + s.net.upload + s.net.suspended;
    hide Valid, Outstanding, IsTaken, Enqueue, U.Deliver, IsOver;
    if IsTaken(s.net.conditions, result, true) {
      PlacedExactly(s.net, now, r, false);
    }
  }

  /** A call of a transaction, or its end, waits for the latency exactly if it is a Start or a Restart call that
      the interceptor takes in. */
  lemma ThrottlePlaced(t: T.Transaction, net: State, now: int, start: bool, result: int, received: nat, sendEnd: int,
                       callback: nat)
    requires T.Sound(t) && Valid(net) && net.clock <= now && Outstanding(net, callback) == 0
    ensures Ready(net)
    ensures var o := T.Throttle(t, net, now, start, result, received, sendEnd, callback);
            var latency := net.conditions.latency;
            InSuspended(o.net, callback)
            <==> && !t.failed && t.attached && IsTaken(net.conditions, result, false)
                 && start && 1000.0 * latency >= 1.0 && !IsOver(latency, now - sendEnd)
  {
    assert Ready(net);
    var r := Record(result, t.balance + T.ChargeFor(t, start, result, received), sendEnd, false, callback);
    hide Valid, Ready, Outstanding, IsTaken, StartThrottle, T.Throttle, T.ChargeFor, IsOver;
    AskedInterceptor(t, net, now, start, result, received, sendEnd, callback);
    AbsentNowhere(net, callback);
    assert forall q :: q in net.suspended ==> q in net.download + net.upload + net.suspended;
    TakenOnce(net, now, r, start);
    if IsTaken(net.conditions, result, false) {
      PlacedExactly(net, now, r, start);
    }
    NegativeIsNotTaken(net.conditions, result);
  }

  lemma NegativeIsNotTaken(c: Conditions, result: int)
    ensures result < 0 ==> !IsTaken(c, result, false)
  {
  }

  lemma CallPlaced(s: S.Session, e: S.SessionEvent)
    requires S.Consistent(s) && S.Possible(s, e) && (e.Caller? || e.IoDone?)
    ensures var attached := s.txn.attached || (e.Caller? && e.call == S.StartCall(true));
            var start := if e.Caller? then e.call != S.ReadCall else s.io == S.ThrottledIo(true);
            var latency := s.net.conditions.latency;
            InSuspended(S.OutcomeOf(s, e).net, s.nextCallback)
            <==> && !s.txn.failed && attached && IsTaken(s.net.conditions, e.result, false)
                 && start && 1000.0 * latency >= 1.0 && !IsOver(latency, e.now - e.sendEnd)
  {
    assert Ready(s.net) && Outstanding(s.net, s.nextCallback) == 0;
    AbsentNowhere(s.net, s.nextCallback);
    assert forall q :: q in s.net.suspended ==> q in s.net.download + s.net.upload + s.net.suspended;
    hide Valid, Ready, Outstanding, T.Throttle, S.CallbacksKnown, S.BalanceKnown, IsOver;
    if e.Caller? {
      var checked := T.CheckFailed(S.Located(s.txn, e.call), s.net);
      ThrottlePlaced(checked, s.net, e.now, !e.call.ReadCall?, e.result, e.received, e.sendEnd, s.nextCallback);
    } else {
      ThrottlePlaced(s.txn, s.net, e.now, s.io.start, e.result, e.received, e.sendEnd, s.nextCallback);
    }
  }

  // ----- how long it stays there -----

  /** An event that does not add or stop a record leaves it suspended exactly until it is served later than its
      latency. */
  lemma SuspendedNext(s: State, e: Event, r: Record)
    requires Valid(s) && s.conditions.IsThrottling() && Enabled(s, e) && !e.SetConditions?
    requires e != Stop(r.callback) && (e.Start? ==> e.record.callback != r.callback)
    ensures r in Step(s, e).suspended <==> r in s.suspended && (Serves(s, e) ==> StillWaits(s, e.now, r))
    ensures Step(s, e).latencyLength == s.latencyLength
  {
    assert WellTimed(s);
    hide Valid, WellTimed, UpdateThrottled, Join, ArmTimer, StillWaits, Filter, CompleteAll;
    match e
    case Start(now, o, start) =>
      if Queues(s, o.result, o.isUpload) {
        var u := UpdateThrottled(s, now);
        LatencyRespected(s, now, r);
        UpdateThrottledFrame(s, now);
        NewRecordPlaced(s, now, o, start);
        ArmTimerFrame(Join(u, now, o, start), now);
      }
    case Stop(callback) =>
      FilterMembers(s.suspended, IsOther(callback));
    case TimerFires(now) =>
      var stopped := s.(timer := Stopped);
      LatencyRespected(stopped, now, r);
      UpdateThrottledFrame(stopped, now);
      ArmTimerFrame(Collect(UpdateThrottled(stopped, now)), now);
  }

  /** The run neither stops this callback nor starts with it again. */
  predicate LeavesAlone(run: seq<Event>, callback: nat) {
    && Stop(callback) !in run
    && forall i :: 0 <= i < |run| && run[i].Start? ==> run[i].record.callback != callback
  }

  lemma {:induction false} SuspendedOverRun(s: State, run: seq<Event>, r: Record)
    requires Valid(s) && s.conditions.IsThrottling() && Possible(s, run) && Quiet(run) && LeavesAlone(run, r.callback)
    requires r in s.suspended <==> StillWaits(s, s.clock, r)
    requires Outstanding(s, r.callback) <= 1
    ensures var t := After(s, run);
            && (r in t.suspended <==> StillWaits(t, t.clock, r)) && Outstanding(t, r.callback) <= 1
            && t.conditions == s.conditions && t.clock >= s.clock
    decreases |run|
  {
    if run != [] {
      var e := run[0];
      assert e in run && !e.SetConditions? && Enabled(s, e);
      StepKeepsValid(s, e);
      SuspendedNext(s, e, r);
      ClockFollows(s, e);
      assert Added(s, e, r.callback) == 0 && Dropped(s, e, r.callback) == 0;
      S.OthersUnmoved(s, e, r.callback);
      assert forall o :: o in run[1..] ==> o in run;
      hide Valid, Step, Enabled, Outstanding, Possible, Serves;
      SuspendedOverRun(Step(s, e), run[1..], r);
    }
  }

  /** Under unchanged conditions, whatever else happens: as long as the latency that was asked for is not over,
      a record that started is suspended, so neither served nor in another queue; once it is over and the
      interceptor has looked at the clock, it is suspended no longer. */
  lemma LatencyKept(s: State, now: int, r: Record, started: State, run: seq<Event>)
    requires Valid(s) && s.clock <= now && Outstanding(s, r.callback) == 0
    requires IsTaken(s.conditions, r.result, r.isUpload) && 1000.0 * s.conditions.latency >= 1.0
    requires started == Step(s, Start(now, r, true))
    requires Valid(started) && Possible(started, run) && Quiet(run) && LeavesAlone(run, r.callback)
    ensures var t := After(started, run);
            && (r in t.suspended <==> !IsOver(s.conditions.latency, t.clock - r.sendEnd))
            && (r in t.suspended ==> forall q :: q in t.download + t.upload ==> q.callback != r.callback)
  {
    hide *;
    StartsWaiting(s, now, r);
    SuspendedOverRun(started, run, r);
    WaitsUntilOver(After(started, run), r);
  }

  lemma WaitsUntilOver(t: State, r: Record)
    requires Valid(t) && t.conditions.IsThrottling() && Outstanding(t, r.callback) <= 1
    requires r in t.suspended <==> StillWaits(t, t.clock, r)
    ensures r in t.suspended <==> !IsOver(t.conditions.latency, t.clock - r.sendEnd)
    ensures r in t.suspended ==> forall q :: q in t.download + t.upload ==> q.callback != r.callback
  {
    hide Valid, Outstanding, IsOver, StillWaits;
    LatencyInMicroseconds(t);
    if r in t.suspended {
      OnlySuspended(t, r);
    }
  }

  lemma StartsWaiting(s: State, now: int, r: Record)
    requires Valid(s) && s.clock <= now && Outstanding(s, r.callback) == 0
    requires IsTaken(s.conditions, r.result, r.isUpload) && 1000.0 * s.conditions.latency >= 1.0
    ensures var t := Step(s, Start(now, r, true));
            && t.conditions == s.conditions && t.conditions.IsThrottling() && Valid(t)
            && (r in t.suspended <==> StillWaits(t, t.clock, r)) && Outstanding(t, r.callback) <= 1
  {
    var e := Start(now, r, true);
    assert s.conditions.IsThrottling() && Enabled(s, e) && Serves(s, e) by {
      QueuedExactly(s, r.result, r.isUpload);
    }
    StepKeepsValid(s, e);
    ClockFollows(s, e);
    hide Valid, Outstanding, IsOver, StillWaits, IsTaken, Serves, Enqueue, StartThrottle;
    LatencyInMicroseconds(Step(s, e));
    PlacedExactly(s, now, r, true);
    TakenOnce(s, now, r, true);
    hide CountRan;
    assert r in Step(s, e).suspended ==> InSuspended(Step(s, e), r.callback);
  }

  lemma OnlySuspended(t: State, r: Record)
    requires r in t.suspended && Outstanding(t, r.callback) <= 1
    ensures forall q :: q in t.download + t.upload ==> q.callback != r.callback
  {
    hide Count;
    CountMember(t.suspended, r);
    forall q | q in t.download + t.upload ensures q.callback != r.callback {
      if q.callback == r.callback {
        if q in t.download {
          CountMember(t.download, q);
        } else {
          CountMember(t.upload, q);
        }
      }
    }
  }
}
