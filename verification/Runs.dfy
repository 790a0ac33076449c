/** Whole runs of one interceptor: every callback exactly once, every byte accounted for. */
module Runs {
  import opened Sequences
  import opened RoundRobin
  import opened Emulation

  datatype Event =
    | SetConditions(now: int, conditions: Conditions)
    | Start(now: int, record: Record, start: bool)
    | Stop(callback: nat)
    | TimerFires(now: int)

  predicate Enabled(s: State, e: Event) {
    match e
    case SetConditions(now, conditions) => s.clock <= now && conditions.Acceptable()
    case Start(now, _, _) => s.clock <= now
    case Stop(_) => true
    case TimerFires(now) => s.timer.Armed? && s.clock <= now
  }

  function Step(s: State, e: Event): State
    requires Valid(s) && Enabled(s, e)
  {
    match e
    case SetConditions(now, conditions) => UpdateConditions(s, now, conditions)
    case Start(now, r, start) => StartThrottle(s, now, r, start)
    case Stop(callback) => StopThrottle(s, callback)
    case TimerFires(now) => OnTimer(s, now)
  }

  lemma StepKeepsValid(s: State, e: Event)
    requires Valid(s) && Enabled(s, e)
    ensures Valid(Step(s, e))
  {
    match e
    case SetConditions(now, conditions) => UpdateConditionsKeepsValid(s, now, conditions);
    case Start(now, r, start) => StartThrottleKeepsValid(s, now, r, start);
    case Stop(callback) => StopThrottleKeepsValid(s, callback);
    case TimerFires(now) => OnTimerKeepsValid(s, now);
  }

  /** Only UpdateConditions decides whether an interceptor is offline. */
  lemma OthersKeepConditions(s: State, e: Event)
    requires Valid(s) && Enabled(s, e) && !e.SetConditions?
    ensures Step(s, e).conditions == s.conditions
  {
    match e
    case Start(now, r, start) =>
      if Queues(s, r.result, r.isUpload) {
        UpdateThrottledFrame(s, now);
        ArmTimerFrame(Join(UpdateThrottled(s, now), now, r, start), now);
      }
    case Stop(callback) =>
    case TimerFires(now) =>
      UpdateThrottledFrame(s.(timer := Stopped), now);
      ArmTimerFrame(Collect(UpdateThrottled(s.(timer := Stopped), now)), now);
  }

  /** The events of `run` can happen one after the other from `s`. */
  predicate Possible(s: State, run: seq<Event>)
    requires Valid(s)
    decreases |run|
  {
    run == [] ||
    (Enabled(s, run[0]) && (StepKeepsValid(s, run[0]); Possible(Step(s, run[0]), run[1..])))
  }

  function After(s: State, run: seq<Event>): (r: State)
    requires Valid(s) && Possible(s, run)
    ensures Valid(r)
    decreases |run|
  {
    if run == [] then s
    else
      StepKeepsValid(s, run[0]);
      After(Step(s, run[0]), run[1..])
  }

  /** The conditions stay as they are. */
  predicate Quiet(run: seq<Event>) {
    forall i :: 0 <= i < |run| ==> !run[i].SetConditions?
  }

  /** A step at the end of a run. */
  lemma {:induction false} OneMore(s: State, run: seq<Event>, e: Event)
    requires Valid(s) && Possible(s, run) && Enabled(After(s, run), e)
    ensures Possible(s, run + [e]) && After(s, run + [e]) == Step(After(s, run), e) && Valid(After(s, run + [e]))
    decreases |run|
  {
    hide Enabled, Step, Valid;
    if run == [] {
      assert [] + [e] == [e] && [e][1..] == [];
      StepKeepsValid(s, e);
    } else {
      StepKeepsValid(s, run[0]);
      assert (run + [e])[0] == run[0] && (run + [e])[1..] == run[1..] + [e];
      OneMore(Step(s, run[0]), run[1..], e);
    }
  }

  /** A run of one event. */
  lemma OneEventRun(s: State, e: Event)
    requires Valid(s) && Enabled(s, e)
    ensures Possible(s, [e]) && After(s, [e]) == Step(s, e)
  {
    assert [] + [e] == [e];
    hide Enabled, Step, Valid;
    OneMore(s, [], e);
  }

  /** The conditions of a fresh interceptor are set, and one throttle starts. */
  lemma SetAndStart(conditions: Conditions, e: Event, t: State)
    requires conditions.Acceptable() && Valid(INITIAL) && e.Start?
    requires UpdateConditions(INITIAL, 0, conditions) == t && Enabled(t, e)
    ensures Possible(INITIAL, [SetConditions(0, conditions), e])
            && After(INITIAL, [SetConditions(0, conditions), e]) == Step(t, e)
  {
    var change := SetConditions(0, conditions);
    assert Enabled(INITIAL, change) && Step(INITIAL, change) == t;
    assert Possible(INITIAL, []) && After(INITIAL, []) == INITIAL;
    assert [] + [change] == [change] && [change] + [e] == [change, e];
    hide *;
    OneMore(INITIAL, [], change);
    OneMore(INITIAL, [change], e);
  }

  // ----- exactly one outcome for every throttle -----

  /** How many records with this callback are in a queue. */
  function Count(q: seq<Record>, callback: nat): nat {
    if q == [] then 0 else Count(q[..|q| - 1], callback) + if q[|q| - 1].callback == callback then 1 else 0
  }

  /** How often this callback has been run. */
  function CountRan(log: seq<Completion>, callback: nat): nat {
    if log == [] then 0 else CountRan(log[..|log| - 1], callback) + if log[|log| - 1].callback == callback then 1 else 0
  }

  function Outstanding(s: State, callback: nat): nat {
    Count(s.download, callback) + Count(s.upload, callback) + Count(s.suspended, callback)
  }

  /** How often an event puts the callback in a queue, and how often it takes it out without running it. */
  function Added(s: State, e: Event, callback: nat): nat {
    if e.Start? && e.record.callback == callback && Queues(s, e.record.result, e.record.isUpload) then 1 else 0
  }

  function Dropped(s: State, e: Event, callback: nat): nat {
    if e == Stop(callback) then Outstanding(s, callback) else 0
  }

  function AddedBy(s: State, run: seq<Event>, callback: nat): nat
    requires Valid(s) && Possible(s, run)
    decreases |run|
  {
    if run == [] then 0
    else
      StepKeepsValid(s, run[0]);
      Added(s, run[0], callback) + AddedBy(Step(s, run[0]), run[1..], callback)
  }

  function DroppedBy(s: State, run: seq<Event>, callback: nat): nat
    requires Valid(s) && Possible(s, run)
    decreases |run|
  {
    if run == [] then 0
    else
      StepKeepsValid(s, run[0]);
      Dropped(s, run[0], callback) + DroppedBy(Step(s, run[0]), run[1..], callback)
  }

  lemma {:induction false} CountConcat(a: seq<Record>, b: seq<Record>, callback: nat)
    ensures Count(a + b, callback) == Count(a, callback) + Count(b, callback)
  {
    if b == [] {
      assert a + b == a;
    } else {
      assert (a + b)[..|a + b| - 1] == a + b[..|b| - 1];
      CountConcat(a, b[..|b| - 1], callback);
    }
  }

  lemma CountOne(r: Record, callback: nat)
    ensures Count([r], callback) == if r.callback == callback then 1 else 0
  {
    assert [r][..0] == [];
  }

  lemma {:induction false} CountRanConcat(a: seq<Completion>, b: seq<Completion>, callback: nat)
    ensures CountRan(a + b, callback) == CountRan(a, callback) + CountRan(b, callback)
  {
    if b == [] {
      assert a + b == a;
    } else {
      assert (a + b)[..|a + b| - 1] == a + b[..|b| - 1];
      CountRanConcat(a, b[..|b| - 1], callback);
    }
  }

  lemma {:induction false} CompleteAllRuns(q: seq<Record>, offline: bool, callback: nat)
    ensures CountRan(CompleteAll(q, offline), callback) == Count(q, callback)
  {
    if q != [] {
      assert CompleteAll(q, offline)[..|q| - 1] == CompleteAll(q[..|q| - 1], offline);
      CompleteAllRuns(q[..|q| - 1], offline, callback);
    }
  }

  lemma {:induction false} ServeKeepsCount(q: seq<Record>, ticks: nat, callback: nat)
    ensures Count(Serve(q, ticks), callback) == Count(q, callback)
    decreases ticks
  {
    if ticks != 0 && q != [] {
      ServeKeepsCount(ServeHead(q), ticks - 1, callback);
      CountConcat(q[1..], [Charge(q[0], 1)], callback);
      CountConcat([q[0]], q[1..], callback);
      assert q == [q[0]] + q[1..];
      CountOne(q[0], callback);
      CountOne(Charge(q[0], 1), callback);
    } else if ticks != 0 {
      ServeEmpty(ticks);
    }
  }

  /** A filter keeps the last element or not, and treats the rest as before. */
  lemma CountFilterStep(q: seq<Record>, p: Record -> bool, callback: nat)
    requires q != []
    ensures Count(Filter(q, p), callback)
         == Count(Filter(q[..|q| - 1], p), callback) + if p(q[|q| - 1]) && q[|q| - 1].callback == callback then 1 else 0
  {
    var last := q[|q| - 1];
    CountConcat(Filter(q[..|q| - 1], p), if p(last) then [last] else [], callback);
    CountOne(last, callback);
  }

  lemma {:induction false} CountSplit(q: seq<Record>, callback: nat)
    ensures Count(Filter(q, IsActive()), callback) + Count(Filter(q, IsFinished()), callback) == Count(q, callback)
  {
    if q != [] {
      CountFilterStep(q, IsActive(), callback);
      CountFilterStep(q, IsFinished(), callback);
      CountSplit(q[..|q| - 1], callback);
    }
  }

  lemma {:induction false} CountSplitThree(q: seq<Record>, baseline: int, callback: nat)
    ensures Count(Filter(q, IsDue(baseline, false)), callback) + Count(Filter(q, IsDue(baseline, true)), callback)
            + Count(Filter(q, IsWaiting(baseline)), callback) == Count(q, callback)
  {
    if q != [] {
      CountFilterStep(q, IsDue(baseline, false), callback);
      CountFilterStep(q, IsDue(baseline, true), callback);
      CountFilterStep(q, IsWaiting(baseline), callback);
      CountSplitThree(q[..|q| - 1], baseline, callback);
    }
  }

  lemma {:induction false} CountWithout(q: seq<Record>, stopped: nat, callback: nat)
    ensures Count(Filter(q, IsOther(stopped)), callback) == if callback == stopped then 0 else Count(q, callback)
  {
    if q != [] {
      CountFilterStep(q, IsOther(stopped), callback);
      CountWithout(q[..|q| - 1], stopped, callback);
    }
  }

  /** Queued plus already run. */
  function Ledger(s: State, callback: nat): nat {
    Outstanding(s, callback) + CountRan(s.log, callback)
  }

  lemma MoveLedger(d: seq<Record>, u: seq<Record>, waiting: seq<Record>, baseline: int, callback: nat)
    ensures Count(d + Filter(waiting, IsDue(baseline, false)), callback)
            + Count(u + Filter(waiting, IsDue(baseline, true)), callback)
            + Count(Filter(waiting, IsWaiting(baseline)), callback)
         == Count(d, callback) + Count(u, callback) + Count(waiting, callback)
  {
    CountSplitThree(waiting, baseline, callback);
    CountConcat(d, Filter(waiting, IsDue(baseline, false)), callback);
    CountConcat(u, Filter(waiting, IsDue(baseline, true)), callback);
  }

  lemma ActivateLedger(s: State, now: int, callback: nat)
    ensures Ledger(Activate(s, now), callback) == Ledger(s, callback)
  {
    hide Count, CountRan, Filter;
    MoveLedger(s.download, s.upload, s.suspended, now - s.latencyLength, callback);
  }

  lemma UpdateThrottledLedger(s: State, now: int, callback: nat)
    requires WellTimed(s) && s.clock <= now
    ensures Ledger(UpdateThrottled(s, now), callback) == Ledger(s, callback)
  {
    TicksAdvance(s.clock, now, s.offset, s.downloadTickLength);
    TicksAdvance(s.clock, now, s.offset, s.uploadTickLength);
    hide Count, CountRan, TickAt, Serve;
    ServeKeepsCount(s.download, TickAt(now, s.offset, s.downloadTickLength) - s.downloadLastTick, callback);
    ServeKeepsCount(s.upload, TickAt(now, s.offset, s.uploadTickLength) - s.uploadLastTick, callback);
    assert Ledger(ServeBoth(s, now), callback) == Ledger(s, callback);
    ActivateLedger(ServeBoth(s, now), now, callback);
  }

  lemma ArmTimerLedger(s: State, now: int, callback: nat)
    ensures Ledger(ArmTimer(s, now), callback) == Ledger(s, callback)
  {
    hide CountRan, DesiredTime, MinSendEnd, CompleteAll;
    CountRanConcat(s.log, CompleteAll(s.download, false), callback);
    CompleteAllRuns(s.download, false, callback);
  }

  lemma CollectLedger(s: State, callback: nat)
    ensures Ledger(Collect(s), callback) == Ledger(s, callback)
  {
    hide Count, CountRan, Filter, CompleteAll;
    CountSplit(s.download, callback);
    CountSplit(s.upload, callback);
    var finished := Filter(s.download, IsFinished()) + Filter(s.upload, IsFinished());
    CountConcat(Filter(s.download, IsFinished()), Filter(s.upload, IsFinished()), callback);
    CompleteAllRuns(finished, false, callback);
    CountRanConcat(s.log, CompleteAll(finished, false), callback);
  }

  lemma FinishEverythingLedger(s: State, offline: bool, callback: nat)
    ensures CountRan(s.log + CompleteAll(s.download, offline) + CompleteAll(s.upload, offline)
                     + CompleteAll(s.suspended, offline), callback) == Ledger(s, callback)
  {
    var d, u, l := CompleteAll(s.download, offline), CompleteAll(s.upload, offline), CompleteAll(s.suspended, offline);
    CompleteAllRuns(s.download, offline, callback);
    CompleteAllRuns(s.upload, offline, callback);
    CompleteAllRuns(s.suspended, offline, callback);
    CountRanConcat(s.log, d, callback);
    CountRanConcat(s.log + d, u, callback);
    CountRanConcat(s.log + d + u, l, callback);
  }

  lemma UpdateConditionsLedger(s: State, now: int, conditions: Conditions, callback: nat)
    requires Ready(s) && s.clock <= now
    ensures Ledger(UpdateConditions(s, now, conditions), callback) == Ledger(s, callback)
  {
    var s1 := s;
    if s.conditions.IsThrottling() {
      UpdateThrottledLedger(s, now, callback);
      s1 := UpdateThrottled(s, now);
    }
    FinishEverythingLedger(s1, conditions.offline, callback);
    ArmTimerLedger(Retimed(s1, now, conditions), now, callback);
  }

  lemma JoinLedger(s: State, now: int, r: Record, start: bool, callback: nat)
    ensures Ledger(Join(s, now, r, start), callback) == Ledger(s, callback) + if r.callback == callback then 1 else 0
  {
    CountConcat(s.suspended, [r], callback);
    CountConcat(s.upload, [r], callback);
    CountConcat(s.download, [r], callback);
    CountOne(r, callback);
    ActivateLedger(s.(suspended := s.suspended + [r]), now, callback);
  }

  lemma EnqueueLedger(s: State, now: int, r: Record, start: bool, callback: nat)
    requires WellTimed(s) && s.clock <= now
    ensures Ledger(Enqueue(s, now, r, start), callback) == Ledger(s, callback) + if r.callback == callback then 1 else 0
  {
    UpdateThrottledLedger(s, now, callback);
    var s1 := UpdateThrottled(s, now);
    JoinLedger(s1, now, r, start, callback);
    ArmTimerLedger(Join(s1, now, r, start), now, callback);
  }

  lemma OnTimerLedger(s: State, now: int, callback: nat)
    requires WellTimed(s) && s.clock <= now
    ensures Ledger(OnTimer(s, now), callback) == Ledger(s, callback)
  {
    var s0 := s.(timer := Stopped);
    UpdateThrottledLedger(s0, now, callback);
    var s1 := UpdateThrottled(s0, now);
    CollectLedger(s1, callback);
    ArmTimerLedger(Collect(s1), now, callback);
  }

  lemma StepLedger(s: State, e: Event, callback: nat)
    requires Valid(s) && Enabled(s, e)
    ensures Ledger(Step(s, e), callback) + Dropped(s, e, callback) == Ledger(s, callback) + Added(s, e, callback)
  {
    hide Count, CountRan, UpdateConditions, OnTimer, Enqueue;
    match e
    case SetConditions(now, conditions) => UpdateConditionsLedger(s, now, conditions, callback);
    case Start(now, r, start) =>
      if Queues(s, r.result, r.isUpload) {
        EnqueueLedger(s, now, r, start, callback);
      }
    case Stop(stopped) =>
      CountWithout(s.download, stopped, callback);
      CountWithout(s.upload, stopped, callback);
      CountWithout(s.suspended, stopped, callback);
    case TimerFires(now) => OnTimerLedger(s, now, callback);
  }

  /** Over every run and for every callback: the throttles that answered "pending" are
      exactly those still queued, those called back and those stopped. */
  lemma {:induction false} RunLedger(s: State, run: seq<Event>, callback: nat)
    requires Valid(s) && Possible(s, run)
    ensures Ledger(After(s, run), callback) + DroppedBy(s, run, callback)
         == Ledger(s, callback) + AddedBy(s, run, callback)
    decreases |run|
  {
    if run != [] {
      StepKeepsValid(s, run[0]);
      StepLedger(s, run[0], callback);
      RunLedger(Step(s, run[0]), run[1..], callback);
    }
  }

  /** A callback that was put in a queue once is in exactly one place, once: queued, run or stopped. */
  lemma ExactlyOnce(run: seq<Event>, callback: nat)
    requires Possible(INITIAL, run)
    requires AddedBy(INITIAL, run, callback) == 1
    ensures var s := After(INITIAL, run);
            Outstanding(s, callback) + CountRan(s.log, callback) + DroppedBy(INITIAL, run, callback) == 1
  {
    RunLedger(INITIAL, run, callback);
  }
}
