/** What makes a transaction fail: exactly being offline when it matters. */
module TransactionFailures {
  import opened Wrappers
  import opened Sequences
  import opened RoundRobin
  import opened Emulation
  import opened Runs
  import opened Accounts
  import opened ThrottleLife
  import opened ThrottleAnswers
  import T = TransactionSteps
  import S = Sessions

  /** No queued record has an error for its result. */
  predicate NoErrors(q: seq<Record>) {
    forall r :: r in q ==> r.result >= 0
  }

  predicate NoErrorsQueued(s: State) {
    NoErrors(s.download) && NoErrors(s.upload) && NoErrors(s.suspended)
  }

  /** The new completions have no errors, unless all was answered offline. */
  predicate NoErrorsRun(ran: seq<Completion>) {
    forall c :: c in ran ==> c.result >= 0
  }

  // ----- the results of records -----

  lemma ServeKeepsResults(q: seq<Record>, ticks: nat)
    requires NoErrors(q)
    ensures NoErrors(Serve(q, ticks))
  {
    var served := Serve(q, ticks);
    hide Serve;
    forall r | r in served ensures r.result >= 0 {
      var j :| 0 <= j < |served| && served[j] == r;
      var i := ServeOnlyTracked(q, ticks, j);
      assert q[i] in q;
    }
  }

  lemma FilterKeepsResults(q: seq<Record>, p: Record -> bool)
    requires NoErrors(q)
    ensures NoErrors(Filter(q, p))
  {
    FilterMembers(q, p);
    hide Filter;
  }

  lemma NoErrorsConcat(a: seq<Record>, b: seq<Record>)
    requires NoErrors(a) && NoErrors(b)
    ensures NoErrors(a + b)
  {
  }

  lemma ServeBothKeepsResults(s: State, now: int)
    requires WellTimed(s) && s.clock <= now && NoErrorsQueued(s)
    ensures NoErrorsQueued(ServeBoth(s, now))
  {
    hide Serve, TickAt, NoErrors;
    TicksAdvance(s.clock, now, s.offset, s.downloadTickLength);
    TicksAdvance(s.clock, now, s.offset, s.uploadTickLength);
    ServeKeepsResults(s.download, TickAt(now, s.offset, s.downloadTickLength) - s.downloadLastTick);
    ServeKeepsResults(s.upload, TickAt(now, s.offset, s.uploadTickLength) - s.uploadLastTick);
  }

  lemma ActivateKeepsResults(s: State, now: int)
    requires NoErrorsQueued(s)
    ensures NoErrorsQueued(Activate(s, now))
  {
    hide Filter, NoErrors;
    var baseline := now - s.latencyLength;
    FilterKeepsResults(s.suspended, IsDue(baseline, false));
    FilterKeepsResults(s.suspended, IsDue(baseline, true));
    FilterKeepsResults(s.suspended, IsWaiting(baseline));
    NoErrorsConcat(s.download, Filter(s.suspended, IsDue(baseline, false)));
    NoErrorsConcat(s.upload, Filter(s.suspended, IsDue(baseline, true)));
  }

  lemma UpdateKeepsResults(s: State, now: int)
    requires WellTimed(s) && s.clock <= now && NoErrorsQueued(s)
    ensures NoErrorsQueued(UpdateThrottled(s, now))
  {
    hide NoErrorsQueued, ServeBoth, Activate;
    ServeBothKeepsResults(s, now);
    ActivateKeepsResults(ServeBoth(s, now), now);
  }

  lemma CompletedWithoutErrors(q: seq<Record>)
    requires NoErrors(q)
    ensures NoErrorsRun(CompleteAll(q, false))
  {
    forall c | c in CompleteAll(q, false) ensures c.result >= 0 {
      var i :| 0 <= i < |q| && CompleteAll(q, false)[i] == c;
      assert q[i] in q;
    }
  }

  lemma ArmTimerKeepsResults(s: State, now: int)
    requires NoErrorsQueued(s)
    ensures NoErrorsQueued(ArmTimer(s, now)) && NoErrorsRun(NewCompletions(s, ArmTimer(s, now)))
  {
    hide CompleteAll, WakeUpTime, DownloadTime;
    CompletedWithoutErrors(s.download);
    var t := ArmTimer(s, now);
    assert NewCompletions(s, t) == [] || NewCompletions(s, t) == CompleteAll(s.download, false);
  }

  lemma JoinKeepsResults(s: State, now: int, r: Record, start: bool)
    requires NoErrorsQueued(s) && r.result >= 0
    ensures NoErrorsQueued(Join(s, now, r, start))
  {
    hide Activate;
    ActivateKeepsResults(s.(suspended := s.suspended + [r]), now);
  }

  // ----- one event of an interceptor -----

  lemma SameNews(s: State, u: State, t: State)
    requires s.log == u.log
    ensures NewCompletions(s, t) == NewCompletions(u, t)
  {
  }

  lemma ConditionsKeepResults(s: State, now: int, conditions: Conditions)
    requires Valid(s) && s.clock <= now && NoErrorsQueued(s)
    ensures var t := UpdateConditions(s, now, conditions);
            NoErrorsQueued(t) && (!conditions.offline ==> NoErrorsRun(NewCompletions(s, t)))
  {
    assert Ready(s);
    hide NoErrors, UpdateThrottled, ArmTimer, CompleteAll, Valid, NewCompletions, NoErrorsRun, WellTimed;
    var u := if s.conditions.IsThrottling() then UpdateThrottled(s, now) else s;
    if s.conditions.IsThrottling() {
      UpdateKeepsResults(s, now);
      UpdateThrottledFrame(s, now);
    }
    var t := UpdateConditions(s, now, conditions);
    if conditions.IsThrottling() {
      ArmTimerKeepsResults(Retimed(u, now, conditions), now);
      SameNews(s, Retimed(u, now, conditions), t);
    } else {
      UnthrottlingOrder(s, now, conditions);
      NothingQueued();
      AllOfThem(u);
      if !conditions.offline {
        CompletedWithoutErrors(Queued(u));
      }
    }
  }

  lemma NothingQueued()
    ensures NoErrors([])
  {
  }

  lemma AllOfThem(s: State)
    requires NoErrorsQueued(s)
    ensures NoErrors(Queued(s))
  {
  }

  lemma EnqueueKeepsResults(s: State, now: int, r: Record, start: bool)
    requires WellTimed(s) && s.clock <= now && NoErrorsQueued(s) && r.result >= 0
    ensures var t := Enqueue(s, now, r, start); NoErrorsQueued(t) && NoErrorsRun(NewCompletions(s, t))
  {
    hide NoErrorsQueued, UpdateThrottled, ArmTimer, NewCompletions, NoErrorsRun, WellTimed, Filter;
    var u := UpdateThrottled(s, now);
    UpdateKeepsResults(s, now);
    UpdateThrottledFrame(s, now);
    JoinKeepsResults(u, now, r, start);
    ArmTimerKeepsResults(Join(u, now, r, start), now);
    SameNews(s, Join(u, now, r, start), Enqueue(s, now, r, start));
  }

  lemma OnTimerKeepsResults(s: State, now: int)
    requires WellTimed(s) && s.clock <= now && NoErrorsQueued(s)
    ensures var t := OnTimer(s, now); NoErrorsQueued(t) && NoErrorsRun(NewCompletions(s, t))
  {
    var stopped := s.(timer := Stopped);
    assert WellTimed(stopped);
    hide UpdateThrottled, ArmTimer, NewCompletions, WellTimed, Filter, OnTimer, Collect, DownloadTime, CompleteAll;
    UpdateKeepsResults(stopped, now);
    var u := UpdateThrottled(stopped, now);
    FilterKeepsResults(u.download, IsActive());
    FilterKeepsResults(u.upload, IsActive());
    CollectedQueues(u);
    NewsOfTimer(s, now);
    ArmTimerKeepsResults(Collect(u), now);
    TimerAnswers(s, now);
    assert forall r :: r in u.download + u.upload ==> r in u.download || r in u.upload;
  }

  lemma CollectedQueues(u: State)
    ensures Collect(u).download == Filter(u.download, IsActive()) && Collect(u).upload == Filter(u.upload, IsActive())
    ensures Collect(u).suspended == u.suspended
  {
    hide Filter, CompleteAll;
  }

  /** No event queues an error, and only going offline answers one. */
  lemma StepKeepsResults(s: State, e: Event)
    requires Valid(s) && Enabled(s, e) && NoErrorsQueued(s)
    ensures NoErrorsQueued(Step(s, e))
    ensures !(e.SetConditions? && e.conditions.offline) ==> NoErrorsRun(NewCompletions(s, Step(s, e)))
  {
    assert NewCompletions(s, s) == [];
    hide NoErrors, NewCompletions, Enqueue, OnTimer, UpdateConditions, WellTimed;
    match e
    case SetConditions(now, conditions) => ConditionsKeepResults(s, now, conditions);
    case Start(now, r, start) =>
      if Queues(s, r.result, r.isUpload) {
        EnqueueKeepsResults(s, now, r, start);
      }
    case Stop(callback) =>
      FilterKeepsResults(s.download, IsOther(callback));
      FilterKeepsResults(s.upload, IsOther(callback));
      FilterKeepsResults(s.suspended, IsOther(callback));
      NothingNewStopped(s, callback);
    case TimerFires(now) => OnTimerKeepsResults(s, now);
  }

  lemma NothingNewStopped(s: State, callback: nat)
    ensures NewCompletions(s, StopThrottle(s, callback)) == []
  {
    hide Filter;
  }

  // ----- one event of a transaction -----

  /** An event of others fails a transaction exactly if it takes the interceptor offline while the
      transaction has a throttle outstanding. */
  lemma OthersFailExactly(s: S.Session, event: Event)
    requires S.Consistent(s) && S.Possible(s, S.Other(event)) && NoErrorsQueued(s.net)
    ensures S.Next(s, S.Other(event)).txn.failed
            <==> s.txn.failed || (s.txn.throttleCallback.Some? && event.SetConditions? && event.conditions.offline)
  {
    var t := Step(s.net, event);
    assert S.Next(s, S.Other(event)).txn == T.Deliver(s.txn, NewCompletions(s.net, t));
    if s.txn.throttleCallback.None? || s.txn.failed {
      if s.txn.failed {
        NotWaiting(s);
      }
      S.DeliverOthers(s.txn, NewCompletions(s.net, t));
    } else if event.SetConditions? && event.conditions.offline {
      OfflineFails(s, event);
    } else {
      hide Step, NewCompletions, NoErrorsQueued, S.Consistent, S.Next, T.Deliver, S.Possible;
      StepKeepsResults(s.net, event);
      S.DeliverWithoutFailure(s.txn, NewCompletions(s.net, t));
    }
  }

  lemma NotWaiting(s: S.Session)
    requires T.Sound(s.txn) && s.txn.failed
    ensures s.txn.throttleCallback.None?
  {
  }

  /** The record that waits is answered "disconnected". */
  lemma OfflineFails(s: S.Session, event: Event)
    requires S.Consistent(s) && S.Possible(s, S.Other(event)) && s.txn.throttleCallback.Some?
    requires event.SetConditions? && event.conditions.offline
    ensures T.Deliver(s.txn, NewCompletions(s.net, Step(s.net, event))).failed
  {
    assert Enabled(s.net, event);
    hide *;
    var r := WaitingRecord(s);
    var i := AnsweredOffline(s.net, event, r);
    S.DeliverOne(s.txn, NewCompletions(s.net, Step(s.net, event)), i);
    FailedByCallback(s.txn, NewCompletions(s.net, Step(s.net, event))[i]);
  }

  lemma FailedByCallback(t: T.Transaction, c: Completion)
    requires T.Sound(t) && t.throttleCallback.Some? && c.result == ERR_INTERNET_DISCONNECTED
    ensures T.ThrottleCallback(t, c.result, c.bytes).failed
  {
  }

  lemma WaitingRecord(s: S.Session) returns (r: Record)
    requires S.Consistent(s) && s.txn.throttleCallback.Some?
    ensures r in Queued(s.net) && s.txn.throttleCallback == Some(r.callback) && !r.isUpload
    ensures Outstanding(s.net, r.callback) == 1 && T.Sound(s.txn) && Valid(s.net)
  {
    hide Valid, Outstanding, Queued, T.Sound;
    var callback := s.txn.throttleCallback.value;
    r :| r in Queued(s.net) && r.callback == callback && !r.isUpload;
  }

  lemma AnsweredOffline(net: State, event: Event, r: Record) returns (i: nat)
    requires Valid(net) && Enabled(net, event) && event.SetConditions? && event.conditions.offline
    requires r in Queued(net) && !r.isUpload && Outstanding(net, r.callback) == 1
    ensures var ran := NewCompletions(net, Step(net, event));
            && i < |ran| && ran[i].callback == r.callback && ran[i].result == ERR_INTERNET_DISCONNECTED
            && CountRan(ran, r.callback) == 1
  {
    hide Valid, Outstanding, Queued, CountRan, NewCompletions, UpdateConditions;
    UnthrottlingAnswers(net, event.now, event.conditions, r);
    var ran := NewCompletions(net, Step(net, event));
    var c := Completion(r.callback, ERR_INTERNET_DISCONNECTED,
                        r.bytes - PACKET_SIZE * PacketsUntil(net, event.now, r.callback));
    assert c in ran;
    i :| 0 <= i < |ran| && ran[i] == c;
  }

  /** What fails a transaction that has not failed yet. */
  predicate FailedBy(s: S.Session, e: S.SessionEvent) {
    match e
    case Other(event) => s.txn.throttleCallback.Some? && event.SetConditions? && event.conditions.offline
    case Caller(call, _, _, _, _) => (s.txn.attached || call == S.StartCall(true)) && s.net.conditions.offline
    case ResumeNetworkStart(_) => s.txn.attached && s.net.conditions.offline
    case IoDone(_, result, _, _) => s.txn.attached && s.net.conditions.offline && result >= 0
    case RawIoDone => false
    case InterceptorGone => false
  }

  lemma FailsExactly(s: S.Session, e: S.SessionEvent)
    requires S.Consistent(s) && S.Possible(s, e) && NoErrorsQueued(s.net)
    ensures S.Next(s, e).txn.failed <==> s.txn.failed || FailedBy(s, e)
  {
    match e
    case Other(event) => OthersFailExactly(s, event);
    case Caller(_, _, _, _, _) => S.CallFailsExactly(s, e);
    case ResumeNetworkStart(_) =>
      S.IdleUnlessThrottling(s);
      hide Valid, Outstanding;
    case IoDone(_, _, _, _) => EndFailsExactly(s, e);
    case RawIoDone =>
    case InterceptorGone =>
  }

  /** A transaction that fails lets go of its interceptor. */
  lemma {:induction false} DeliveryDetaches(t: T.Transaction, completions: seq<Completion>)
    requires T.Sound(t) && !t.failed && T.Deliver(t, completions).failed
    ensures !T.Deliver(t, completions).attached
    decreases |completions|
  {
    if completions != [] {
      var c := completions[0];
      var next := if t.throttleCallback == Some(c.callback) then T.ThrottleCallback(t, c.result, c.bytes) else t;
      if next.failed {
        S.DeliverOthers(next, completions[1..]);
      } else {
        DeliveryDetaches(next, completions[1..]);
      }
    }
  }

  lemma FailingDetaches(s: S.Session, e: S.SessionEvent)
    requires S.Consistent(s) && S.Possible(s, e) && !s.txn.failed && S.Next(s, e).txn.failed
    ensures !S.Next(s, e).txn.attached
  {
    match e
    case Other(event) =>
      DeliveryDetaches(s.txn, NewCompletions(s.net, Step(s.net, event)));
    case Caller(call, now, result, received, sendEnd) =>
      var checked := T.CheckFailed(S.Located(s.txn, call), s.net);
      if !checked.failed {
        ThrottleDetaches(checked, s.net, now, !call.ReadCall?, result, received, sendEnd, s.nextCallback);
      }
      hide T.Throttle, Valid, Outstanding;
    case ResumeNetworkStart(_) => hide Valid, Outstanding;
    case IoDone(now, result, received, sendEnd) =>
      ThrottleDetaches(s.txn, s.net, now, s.io.start, result, received, sendEnd, s.nextCallback);
      hide T.Throttle, Valid, Outstanding;
    case _ =>
  }

  lemma ThrottleDetaches(t: T.Transaction, net: State, now: int, start: bool, result: int, received: nat,
                         sendEnd: int, callback: nat)
    requires T.Sound(t) && Ready(net) && net.clock <= now && !t.failed
    ensures var after := T.Throttle(t, net, now, start, result, received, sendEnd, callback).transaction;
            after.failed ==> !after.attached
  {
    if t.attached && result >= 0 {
      var bytes := t.balance + T.ChargeFor(t, start, result, received);
      var after := StartThrottle(net, now, Record(result, bytes, sendEnd, false, callback), start);
      var bound := t.(balance := bytes, throttleCallback := Some(callback));
      ThrottleDelivers(t, net, now, start, result, received, sendEnd, callback, bound, after);
      hide *;
      if T.Deliver(bound, NewCompletions(net, after)).failed {
        DeliveryDetaches(bound, NewCompletions(net, after));
      }
    } else {
      hide *;
      NobodyAsked(t, net, now, start, result, received, sendEnd, callback);
    }
  }

  lemma NobodyAsked(t: T.Transaction, net: State, now: int, start: bool, result: int, received: nat, sendEnd: int,
                    callback: nat)
    requires T.Sound(t) && Ready(net) && net.clock <= now && !t.failed && !(t.attached && result >= 0)
    ensures T.Throttle(t, net, now, start, result, received, sendEnd, callback).transaction == t
  {
    hide StartThrottle, Ready, NewCompletions, ImmediateAnswer, T.Deliver, T.ChargeFor;
  }

  lemma ThrottleDelivers(t: T.Transaction, net: State, now: int, start: bool, result: int, received: nat, sendEnd: int,
                         callback: nat, bound: T.Transaction, after: State)
    requires T.Sound(t) && Ready(net) && net.clock <= now && !t.failed && t.attached && result >= 0
    requires var bytes := t.balance + T.ChargeFor(t, start, result, received);
             && bound == t.(balance := bytes, throttleCallback := Some(callback))
             && after == StartThrottle(net, now, Record(result, bytes, sendEnd, false, callback), start)
    ensures T.Sound(bound) && !bound.failed
    ensures var o := T.Throttle(t, net, now, start, result, received, sendEnd, callback).transaction;
            var t1 := T.Deliver(bound, NewCompletions(net, after));
            o.failed && o.attached ==> t1.failed && t1.attached
  {
    hide StartThrottle, Ready, NewCompletions, ImmediateAnswer, T.Deliver, T.ChargeFor;
  }

  lemma EndFailsExactly(s: S.Session, e: S.SessionEvent)
    requires S.Consistent(s) && S.Possible(s, e) && e.IoDone?
    ensures S.Next(s, e).txn.failed <==>
              s.txn.failed || (s.txn.attached && s.net.conditions.offline && e.result >= 0)
  {
    hide Valid, Outstanding, T.Deliver, Enqueue;
    if !s.txn.failed && !(s.txn.attached && s.net.conditions.offline) {
      S.ThrottleFailsOnlyOffline(s, e.now, s.io.start, e.result, e.received, e.sendEnd);
    } else if s.txn.attached && e.result >= 0 && !s.txn.failed {
      NothingDelivered(s, e);
    }
  }

  /** Offline nothing is run, and the answer alone fails the transaction. */
  lemma NothingDelivered(s: S.Session, e: S.SessionEvent)
    requires S.Consistent(s) && S.Possible(s, e) && e.IoDone? && s.net.conditions.offline
    requires s.txn.attached && e.result >= 0 && !s.txn.failed
    ensures S.Next(s, e).txn.failed
  {
    assert NewCompletions(s.net, s.net) == [];
    hide Valid, Outstanding, Enqueue;
  }

  // ----- whole runs -----

  lemma NextKeepsResults(s: S.Session, e: S.SessionEvent)
    requires S.Consistent(s) && S.Possible(s, e) && NoErrorsQueued(s.net)
    ensures NoErrorsQueued(S.Next(s, e).net)
  {
    match e
    case Other(event) =>
      hide NoErrorsQueued, Step, T.Deliver, Valid, Outstanding;
      StepKeepsResults(s.net, event);
    case Caller(call, now, result, received, sendEnd) =>
      var checked := T.CheckFailed(S.Located(s.txn, call), s.net);
      ThrottleKeepsResults(checked, s.net, now, !call.ReadCall?, result, received, sendEnd, s.nextCallback);
      hide NoErrorsQueued, T.Throttle, Valid, Outstanding;
    case IoDone(now, result, received, sendEnd) =>
      ThrottleKeepsResults(s.txn, s.net, now, s.io.start, result, received, sendEnd, s.nextCallback);
      hide NoErrorsQueued, T.Throttle, Valid, Outstanding;
    case _ =>
  }

  lemma ThrottleKeepsResults(t: T.Transaction, net: State, now: int, start: bool, result: int, received: nat,
                             sendEnd: int, callback: nat)
    requires T.Sound(t) && Valid(net) && Ready(net) && net.clock <= now && NoErrorsQueued(net)
    ensures NoErrorsQueued(T.Throttle(t, net, now, start, result, received, sendEnd, callback).net)
  {
    hide NoErrorsQueued, T.Throttle, Valid, Enqueue;
    AskedInterceptor(t, net, now, start, result, received, sendEnd, callback);
    var r := Record(result, t.balance + T.ChargeFor(t, start, result, received), sendEnd, false, callback);
    StepKeepsResults(net, Start(now, r, start));
  }

  /** So over every run the causes of failure are exact: at any moment of it, a transaction has failed if and
      only if one of the events so far was a cause. */
  lemma {:induction false} FailedOverRun(s: S.Session, run: seq<S.SessionEvent>)
    requires S.Consistent(s) && S.AllPossible(s, run) && NoErrorsQueued(s.net)
    ensures NoErrorsQueued(S.AfterAll(s, run).net)
    ensures S.AfterAll(s, run).txn.failed <==> s.txn.failed || FailedIn(s, run)
    decreases |run|
  {
    hide S.Consistent, S.Possible, S.Next, NoErrorsQueued, FailedBy;
    if run != [] {
      S.NextKeepsConsistent(s, run[0]);
      NextKeepsResults(s, run[0]);
      FailsExactly(s, run[0]);
      FailedOverRun(S.Next(s, run[0]), run[1..]);
    }
  }

  /** One of the events of the run is a cause. */
  ghost predicate FailedIn(s: S.Session, run: seq<S.SessionEvent>)
    requires S.Consistent(s) && S.AllPossible(s, run)
    decreases |run|
  {
    run != [] && (S.NextKeepsConsistent(s, run[0]); FailedBy(s, run[0]) || FailedIn(S.Next(s, run[0]), run[1..]))
  }
}
