/** Byte accounts over whole runs: what a record was charged with is what it was served plus its balance. */
module Accounts {
  import opened Sequences
  import opened RoundRobin
  import opened Emulation
  import opened Runs

  /** In how many of the next `ticks` ticks the naive round robin serves this callback. */
  function PacketsTo(q: seq<Record>, ticks: nat, callback: nat): nat
    decreases ticks
  {
    if ticks == 0 || q == [] then 0
    else (if q[0].callback == callback then 1 else 0) + PacketsTo(ServeHead(q), ticks - 1, callback)
  }

  function TicksUntil(now: int, offset: int, lastTick: nat, tickLength: nat): nat
    requires offset <= now && lastTick <= TickAt(now, offset, tickLength)
  {
    TickAt(now, offset, tickLength) - lastTick
  }

  /** Packets served to the callback when the queues catch up with `now`. */
  function PacketsUntil(s: State, now: int, callback: nat): nat
    requires WellTimed(s) && s.clock <= now
  {
    TicksAdvance(s.clock, now, s.offset, s.downloadTickLength);
    TicksAdvance(s.clock, now, s.offset, s.uploadTickLength);
    PacketsTo(s.download, TicksUntil(now, s.offset, s.downloadLastTick, s.downloadTickLength), callback)
    + PacketsTo(s.upload, TicksUntil(now, s.offset, s.uploadLastTick, s.uploadTickLength), callback)
  }

  function StepPackets(s: State, e: Event, callback: nat): nat
    requires Valid(s) && Enabled(s, e)
  {
    match e
    case SetConditions(now, _) => if s.conditions.IsThrottling() then PacketsUntil(s, now, callback) else 0
    case Start(now, r, _) => if Queues(s, r.result, r.isUpload) then PacketsUntil(s, now, callback) else 0
    case Stop(_) => 0
    case TimerFires(now) => PacketsUntil(s, now, callback)
  }

  function RunPackets(s: State, run: seq<Event>, callback: nat): nat
    requires Valid(s) && Possible(s, run)
    decreases |run|
  {
    if run == [] then 0
    else
      StepKeepsValid(s, run[0]);
      StepPackets(s, run[0], callback) + RunPackets(Step(s, run[0]), run[1..], callback)
  }

  // ----- one queue -----

  lemma {:induction false} CountMember(q: seq<Record>, r: Record)
    requires r in q
    ensures Count(q, r.callback) >= 1
  {
    if q[|q| - 1] != r {
      assert q == q[..|q| - 1] + [q[|q| - 1]];
      CountMember(q[..|q| - 1], r);
    }
  }

  lemma {:induction false} CountTwo(q: seq<Record>, r: Record, o: Record)
    requires r in q && o in q && r != o && r.callback == o.callback
    ensures Count(q, r.callback) >= 2
  {
    var front := q[..|q| - 1];
    assert q == front + [q[|q| - 1]];
    if q[|q| - 1] == r {
      CountMember(front, o);
    } else if q[|q| - 1] == o {
      CountMember(front, r);
    } else {
      CountTwo(front, r, o);
    }
  }

  lemma {:induction false} AbsentIsNotServed(q: seq<Record>, ticks: nat, callback: nat)
    requires Count(q, callback) == 0
    ensures PacketsTo(q, ticks, callback) == 0
    decreases ticks
  {
    if ticks != 0 && q != [] {
      if q[0].callback == callback {
        CountMember(q, q[0]);
      }
      ServeKeepsCount(q, 1, callback);
      assert Serve(q, 1) == ServeHead(q);
      AbsentIsNotServed(ServeHead(q), ticks - 1, callback);
    }
  }

  /** A record with a callback of its own pays exactly for the packets served to that callback. */
  lemma {:induction false} ServedIsCharged(q: seq<Record>, ticks: nat, r: Record)
    requires r in q && Count(q, r.callback) == 1
    ensures Charge(r, PacketsTo(q, ticks, r.callback)) in Serve(q, ticks)
    decreases ticks
  {
    if ticks == 0 {
      assert Charge(r, 0) == r;
    } else {
      var now := if q[0].callback == r.callback then 1 else 0;
      if now == 1 && q[0] != r {
        CountTwo(q, q[0], r);
      }
      var next := Charge(r, now);
      assert q == [q[0]] + q[1..];
      assert next in ServeHead(q) by {
        assert now == 1 ==> ServeHead(q)[|q| - 1] == next;
        assert next == r || now == 1;
      }
      ServeKeepsCount(q, 1, r.callback);
      assert Serve(q, 1) == ServeHead(q);
      ServedIsCharged(ServeHead(q), ticks - 1, next);
      var later := PacketsTo(ServeHead(q), ticks - 1, r.callback);
      assert Charge(next, later) == Charge(r, now + later);
    }
  }

  // ----- one operation -----

  /** The log has only grown. */
  predicate Grew(s: State, t: State) {
    |s.log| <= |t.log| && t.log[..|s.log|] == s.log
  }

  /** `c` is how the callback of `r` is run: uploads keep their result, downloads lose it only offline. */
  predicate IsCompletionOf(c: Completion, r: Record) {
    c == Complete(r, false) || c == Complete(r, true)
  }

  predicate Done(s: State, t: State, r: Record) {
    exists i :: |s.log| <= i < |t.log| && IsCompletionOf(t.log[i], r)
  }

  /** Between `s` and `t`, `r` stayed queued or its callback was run with the balance of `r`. */
  predicate Kept(s: State, t: State, r: Record) {
    Grew(s, t) && (r in Queued(t) || Done(s, t, r))
  }

  lemma DoneLater(s: State, t: State, u: State, r: Record)
    requires Grew(s, t) && Grew(t, u) && (Done(s, t, r) || Done(t, u, r))
    ensures Grew(s, u) && Done(s, u, r)
  {
    if Done(t, u, r) {
      var i :| |t.log| <= i < |u.log| && IsCompletionOf(u.log[i], r);
      assert |s.log| <= i;
    } else {
      var i :| |s.log| <= i < |t.log| && IsCompletionOf(t.log[i], r);
      assert u.log[i] == u.log[..|t.log|][i];
    }
    assert u.log[..|s.log|] == u.log[..|t.log|][..|s.log|];
  }

  lemma KeptLater(s: State, t: State, u: State, r: Record)
    requires Kept(s, t, r) && Grew(t, u)
    requires r in Queued(t) ==> Kept(t, u, r)
    ensures Kept(s, u, r)
  {
    if Done(s, t, r) || Done(t, u, r) {
      DoneLater(s, t, u, r);
    }
    assert u.log[..|s.log|] == u.log[..|t.log|][..|s.log|];
  }

  lemma InQueues(s: State, r: Record)
    ensures r in Queued(s) <==> r in s.download || r in s.upload || r in s.suspended
  {
  }

  lemma OutstandingMember(s: State, r: Record)
    requires r in Queued(s)
    ensures Outstanding(s, r.callback) >= 1
  {
    InQueues(s, r);
    if r in s.download {
      CountMember(s.download, r);
    } else if r in s.upload {
      CountMember(s.upload, r);
    } else {
      CountMember(s.suspended, r);
    }
  }

  /** The two queues that are served and the one that is not. */
  lemma QueuesCharge(d: seq<Record>, u: seq<Record>, waiting: seq<Record>, dTicks: nat, uTicks: nat, r: Record)
    requires r in d || r in u || r in waiting
    requires Count(d, r.callback) + Count(u, r.callback) + Count(waiting, r.callback) == 1
    ensures var charged := Charge(r, PacketsTo(d, dTicks, r.callback) + PacketsTo(u, uTicks, r.callback));
            charged in Serve(d, dTicks) || charged in Serve(u, uTicks) || charged in waiting
  {
    hide Count, Serve, PacketsTo;
    if r in d {
      CountMember(d, r);
      ServedIsCharged(d, dTicks, r);
      AbsentIsNotServed(u, uTicks, r.callback);
    } else if r in u {
      CountMember(u, r);
      ServedIsCharged(u, uTicks, r);
      AbsentIsNotServed(d, dTicks, r.callback);
    } else {
      CountMember(waiting, r);
      AbsentIsNotServed(d, dTicks, r.callback);
      AbsentIsNotServed(u, uTicks, r.callback);
      assert Charge(r, 0) == r;
    }
  }

  lemma ServeBothCharges(s: State, now: int, r: Record)
    requires WellTimed(s) && s.clock <= now
    requires r in Queued(s) && Outstanding(s, r.callback) == 1
    ensures Charge(r, PacketsUntil(s, now, r.callback)) in Queued(ServeBoth(s, now))
  {
    hide PacketsTo, Count;
    TicksAdvance(s.clock, now, s.offset, s.downloadTickLength);
    TicksAdvance(s.clock, now, s.offset, s.uploadTickLength);
    var d := TicksUntil(now, s.offset, s.downloadLastTick, s.downloadTickLength);
    var u := TicksUntil(now, s.offset, s.uploadLastTick, s.uploadTickLength);
    var t := ServeBoth(s, now);
    assert t.download == Serve(s.download, d) && t.upload == Serve(s.upload, u) && t.suspended == s.suspended;
    InQueues(s, r);
    QueuesCharge(s.download, s.upload, s.suspended, d, u, r);
    InQueues(t, Charge(r, PacketsUntil(s, now, r.callback)));
  }

  lemma ActivateKeeps(s: State, now: int, r: Record)
    requires r in Queued(s)
    ensures r in Queued(Activate(s, now))
  {
    var baseline := now - s.latencyLength;
    FilterMembers(s.suspended, IsDue(baseline, false));
    FilterMembers(s.suspended, IsDue(baseline, true));
    FilterMembers(s.suspended, IsWaiting(baseline));
    InQueues(s, r);
    InQueues(Activate(s, now), r);
  }

  lemma UpdateThrottledCharges(s: State, now: int, r: Record)
    requires WellTimed(s) && s.clock <= now
    requires r in Queued(s) && Outstanding(s, r.callback) == 1
    ensures Charge(r, PacketsUntil(s, now, r.callback)) in Queued(UpdateThrottled(s, now))
  {
    ServeBothCharges(s, now, r);
    ActivateKeeps(ServeBoth(s, now), now, Charge(r, PacketsUntil(s, now, r.callback)));
  }

  lemma CompletedBy(q: seq<Record>, offline: bool, r: Record)
    requires r in q
    ensures exists i :: 0 <= i < |q| && CompleteAll(q, offline)[i] == Complete(r, offline)
  {
    var i :| 0 <= i < |q| && q[i] == r;
    assert CompleteAll(q, offline)[i] == Complete(r, offline);
  }

  /** Completing a queue somewhere in the new part of the log is enough. */
  lemma DoneInside(s: State, t: State, before: seq<Completion>, q: seq<Record>, after: seq<Completion>,
                   offline: bool, r: Record)
    requires t.log == s.log + before + CompleteAll(q, offline) + after && r in q
    ensures Kept(s, t, r)
  {
    CompletedBy(q, offline, r);
    var i :| 0 <= i < |q| && CompleteAll(q, offline)[i] == Complete(r, offline);
    var place := |s.log| + |before| + i;
    assert t.log[place] == Complete(r, offline);
    assert IsCompletionOf(t.log[place], r);
    assert t.log[..|s.log|] == s.log;
  }

  lemma ArmTimerKeeps(s: State, now: int, r: Record)
    requires r in Queued(s)
    ensures Kept(s, ArmTimer(s, now), r)
  {
    var t := ArmTimer(s, now);
    InQueues(s, r);
    InQueues(t, r);
    if r in s.download && DownloadTime(s) == s.offset {
      assert t.log == s.log + [] + CompleteAll(s.download, false) + [];
      DoneInside(s, t, [], s.download, [], false, r);
    }
  }

  lemma ArmTimerGrows(s: State, now: int)
    ensures Grew(s, ArmTimer(s, now))
  {
  }

  lemma StillKept(s: State, t: State, r: Record)
    requires Grew(s, t) && r in Queued(t)
    ensures Kept(s, t, r)
  {
    hide Queued;
  }

  lemma CollectKeeps(s: State, r: Record)
    requires r in Queued(s)
    ensures Kept(s, Collect(s), r)
  {
    hide Filter, CompleteAll, Kept;
    var t := Collect(s);
    FilterMembers(s.download, IsActive());
    FilterMembers(s.upload, IsActive());
    FilterMembers(s.download, IsFinished());
    FilterMembers(s.upload, IsFinished());
    InQueues(s, r);
    InQueues(t, r);
    var finished := Filter(s.download, IsFinished()) + Filter(s.upload, IsFinished());
    assert t.log == s.log + [] + CompleteAll(finished, false) + [];
    if r in finished {
      DoneInside(s, t, [], finished, [], false, r);
    } else {
      StillKept(s, t, r);
    }
  }

  lemma FinishEverythingKeeps(s: State, t: State, offline: bool, r: Record)
    requires r in Queued(s)
    requires t.log == s.log + CompleteAll(s.download, offline) + CompleteAll(s.upload, offline)
                            + CompleteAll(s.suspended, offline)
    ensures Kept(s, t, r)
  {
    var d, u, l := CompleteAll(s.download, offline), CompleteAll(s.upload, offline), CompleteAll(s.suspended, offline);
    InQueues(s, r);
    if r in s.download {
      assert t.log == s.log + [] + d + (u + l);
      DoneInside(s, t, [], s.download, u + l, offline, r);
    } else if r in s.upload {
      DoneInside(s, t, d, s.upload, l, offline, r);
    } else {
      assert t.log == s.log + (d + u) + l + [];
      DoneInside(s, t, d + u, s.suspended, [], offline, r);
    }
  }

  lemma UpdateConditionsKeeps(s: State, now: int, conditions: Conditions, r: Record)
    requires r in Queued(s) && s.conditions.IsThrottling() && WellTimed(s) && s.clock <= now
    requires Outstanding(s, r.callback) == 1
    ensures Kept(s, UpdateConditions(s, now, conditions), Charge(r, PacketsUntil(s, now, r.callback)))
  {
    var charged := Charge(r, PacketsUntil(s, now, r.callback));
    UpdateThrottledCharges(s, now, r);
    var s1 := UpdateThrottled(s, now);
    assert s1.log == s.log;
    var t := UpdateConditions(s, now, conditions);
    if conditions.offline || !conditions.IsThrottling() {
      FinishEverythingKeeps(s1, t, conditions.offline, charged);
    } else {
      ArmTimerKeeps(Retimed(s1, now, conditions), now, charged);
    }
  }

  /** The record that joins is not charged for anything that happened before. */
  lemma JoinKeeps(s: State, now: int, r: Record, start: bool, o: Record)
    requires o == r || o in Queued(s)
    ensures o in Queued(Join(s, now, r, start)) && Join(s, now, r, start).log == s.log
  {
    InQueues(s, o);
    var waiting := s.(suspended := s.suspended + [r]);
    InQueues(waiting, o);
    ActivateKeeps(waiting, now, o);
    InQueues(Join(s, now, r, start), o);
  }

  lemma EnqueueKeeps(s: State, now: int, r: Record, start: bool, o: Record)
    requires WellTimed(s) && s.clock <= now
    requires o in Queued(s) && Outstanding(s, o.callback) == 1
    ensures Kept(s, Enqueue(s, now, r, start), Charge(o, PacketsUntil(s, now, o.callback)))
  {
    var charged := Charge(o, PacketsUntil(s, now, o.callback));
    UpdateThrottledCharges(s, now, o);
    var s1 := UpdateThrottled(s, now);
    JoinKeeps(s1, now, r, start, charged);
    ArmTimerKeeps(Join(s1, now, r, start), now, charged);
    assert s1.log == s.log;
  }

  lemma EnqueueTakesIn(s: State, now: int, r: Record, start: bool)
    requires WellTimed(s) && s.clock <= now
    ensures Kept(s, Enqueue(s, now, r, start), r)
  {
    var s1 := UpdateThrottled(s, now);
    JoinKeeps(s1, now, r, start, r);
    ArmTimerKeeps(Join(s1, now, r, start), now, r);
    assert s1.log == s.log;
  }

  lemma CollectGrows(s: State)
    ensures Grew(s, Collect(s))
  {
    hide Filter, CompleteAll;
  }

  /** Stopping the timer changes nothing for a record. */
  lemma StoppedCharges(s: State, now: int, r: Record)
    requires WellTimed(s) && s.clock <= now
    requires r in Queued(s) && Outstanding(s, r.callback) == 1
    ensures var stopped := s.(timer := Stopped);
            WellTimed(stopped) && Charge(r, PacketsUntil(s, now, r.callback)) in Queued(UpdateThrottled(stopped, now))
  {
    hide Count, PacketsTo, UpdateThrottled, CatchUp;
    var stopped := s.(timer := Stopped);
    assert Queued(stopped) == Queued(s);
    UpdateThrottledCharges(stopped, now, r);
  }

  lemma OnTimerKeeps(s: State, now: int, r: Record)
    requires WellTimed(s) && s.clock <= now
    requires r in Queued(s) && Outstanding(s, r.callback) == 1
    ensures Kept(s, OnTimer(s, now), Charge(r, PacketsUntil(s, now, r.callback)))
  {
    var charged := Charge(r, PacketsUntil(s, now, r.callback));
    var s0 := s.(timer := Stopped);
    StoppedCharges(s, now, r);
    hide UpdateThrottled, Collect, ArmTimer, Queued, Kept, PacketsUntil, WellTimed;
    UpdateThrottledFrame(s0, now);
    var s1 := UpdateThrottled(s0, now);
    CollectKeeps(s1, charged);
    var s2 := Collect(s1);
    if charged in Queued(s2) {
      ArmTimerKeeps(s2, now, charged);
    }
    ArmTimerGrows(s2, now);
    CollectGrows(s1);
    KeptLater(s1, s2, ArmTimer(s2, now), charged);
    SameLog(s1, s, ArmTimer(s2, now), charged);
  }

  lemma SameLog(s: State, t: State, u: State, r: Record)
    requires s.log == t.log && Kept(s, u, r)
    ensures Kept(t, u, r)
  {
    hide Queued;
  }

  /** One event: a queued record pays for the packets of its callback and stays, or is called back. */
  lemma StepConserves(s: State, e: Event, r: Record)
    requires Valid(s) && Enabled(s, e)
    requires r in Queued(s) && Outstanding(s, r.callback) == 1 && e != Stop(r.callback)
    ensures Kept(s, Step(s, e), Charge(r, StepPackets(s, e, r.callback)))
  {
    assert Charge(r, 0) == r;
    match e
    case SetConditions(now, conditions) => UpdateConditionsKeeps(s, now, conditions, r);
    case Start(now, o, start) =>
      if Queues(s, o.result, o.isUpload) {
        EnqueueKeeps(s, now, o, start, r);
      }
    case Stop(callback) =>
      FilterMembers(s.download, IsOther(callback));
      FilterMembers(s.upload, IsOther(callback));
      FilterMembers(s.suspended, IsOther(callback));
      InQueues(s, r);
      InQueues(StopThrottle(s, callback), r);
    case TimerFires(now) => OnTimerKeeps(s, now, r);
  }

  lemma GrewFurther(s: State, t: State, u: State)
    requires Grew(s, t) && Grew(t, u)
    ensures Grew(s, u)
  {
    assert u.log[..|s.log|] == u.log[..|t.log|][..|s.log|];
  }

  lemma UpdateConditionsGrows(s: State, now: int, conditions: Conditions)
    requires Ready(s) && s.clock <= now
    ensures Grew(s, UpdateConditions(s, now, conditions))
  {
    var s1 := if s.conditions.IsThrottling() then UpdateThrottled(s, now) else s;
    assert s1.log == s.log;
    hide UpdateThrottled, ArmTimer;
    ArmTimerGrows(Retimed(s1, now, conditions), now);
  }

  lemma OnTimerGrows(s: State, now: int)
    requires WellTimed(s) && s.clock <= now
    ensures Grew(s, OnTimer(s, now))
  {
    var s1 := UpdateThrottled(s.(timer := Stopped), now);
    assert s1.log == s.log;
    assert Grew(s, Collect(s1));
    ArmTimerGrows(Collect(s1), now);
    GrewFurther(s, Collect(s1), OnTimer(s, now));
  }

  lemma StepGrows(s: State, e: Event)
    requires Valid(s) && Enabled(s, e)
    ensures Grew(s, Step(s, e))
  {
    match e
    case SetConditions(now, conditions) => UpdateConditionsGrows(s, now, conditions);
    case Start(now, r, start) =>
      if Queues(s, r.result, r.isUpload) {
        var s1 := UpdateThrottled(s, now);
        assert Join(s1, now, r, start).log == s.log;
        ArmTimerGrows(Join(s1, now, r, start), now);
      }
    case Stop(_) =>
    case TimerFires(now) => OnTimerGrows(s, now);
  }

  lemma AbsentGetsNothing(s: State, e: Event, callback: nat)
    requires Valid(s) && Enabled(s, e) && Outstanding(s, callback) == 0
    ensures StepPackets(s, e, callback) == 0
  {
    if s.conditions.IsThrottling() && !e.Stop? {
      var now := e.now;
      TicksAdvance(s.clock, now, s.offset, s.downloadTickLength);
      TicksAdvance(s.clock, now, s.offset, s.uploadTickLength);
      AbsentIsNotServed(s.download, TicksUntil(now, s.offset, s.downloadLastTick, s.downloadTickLength), callback);
      AbsentIsNotServed(s.upload, TicksUntil(now, s.offset, s.uploadLastTick, s.uploadTickLength), callback);
    }
  }

  // ----- whole runs -----

  lemma {:induction false} CountRanGrows(a: seq<Completion>, b: seq<Completion>, callback: nat)
    requires |a| <= |b| && b[..|a|] == a
    ensures CountRan(a, callback) <= CountRan(b, callback)
  {
    assert b == a + b[|a|..];
    CountRanConcat(a, b[|a|..], callback);
  }

  lemma {:induction false} CountRanMember(log: seq<Completion>, i: nat)
    requires i < |log|
    ensures CountRan(log, log[i].callback) >= 1
  {
    if i < |log| - 1 {
      CountRanMember(log[..|log| - 1], i);
    }
  }

  lemma DoneIsRan(s: State, t: State, r: Record)
    requires Grew(s, t) && Done(s, t, r)
    ensures CountRan(t.log, r.callback) >= CountRan(s.log, r.callback) + 1
  {
    var i :| |s.log| <= i < |t.log| && IsCompletionOf(t.log[i], r);
    var tail := t.log[|s.log|..];
    assert t.log == s.log + tail && tail[i - |s.log|] == t.log[i];
    CountRanConcat(s.log, tail, r.callback);
    CountRanMember(tail, i - |s.log|);
  }

  /** A record that was kept and whose callback is accounted for once is queued, or its callback ran at
      one place of what is new in the log. */
  lemma QueuedOrRan(s: State, t: State, r: Record) returns (place: nat)
    requires Kept(s, t, r) && Ledger(t, r.callback) == CountRan(s.log, r.callback) + 1
    ensures var ran := NewCompletions(s, t);
            || (Outstanding(t, r.callback) == 1 && r in Queued(t) && CountRan(ran, r.callback) == 0)
            || (&& Outstanding(t, r.callback) == 0 && CountRan(ran, r.callback) == 1
                && place < |ran| && IsCompletionOf(ran[place], r))
  {
    hide Outstanding, CountRan, Queued;
    var ran := NewCompletions(s, t);
    assert t.log == s.log + ran;
    CountRanConcat(s.log, ran, r.callback);
    place := 0;
    if Done(s, t, r) {
      var i :| |s.log| <= i < |t.log| && IsCompletionOf(t.log[i], r);
      place := i - |s.log|;
      assert ran[place] == t.log[i];
      CountRanMember(ran, place);
    } else {
      OutstandingMember(t, r);
    }
  }

  lemma {:induction false} AbsentStaysAbsent(s: State, run: seq<Event>, callback: nat)
    requires Valid(s) && Possible(s, run)
    requires Outstanding(s, callback) == 0 && AddedBy(s, run, callback) == 0
    ensures RunPackets(s, run, callback) == 0 && Grew(s, After(s, run))
    decreases |run|
  {
    if run != [] {
      StepKeepsValid(s, run[0]);
      var t := Step(s, run[0]);
      AbsentGetsNothing(s, run[0], callback);
      StepGrows(s, run[0]);
      CountRanGrows(s.log, t.log, callback);
      StepLedger(s, run[0], callback);
      AbsentStaysAbsent(t, run[1..], callback);
      var end := After(t, run[1..]);
      assert end.log[..|s.log|] == end.log[..|t.log|][..|s.log|];
    }
  }

  lemma ChargeTwice(r: Record, a: int, b: int)
    ensures Charge(Charge(r, a), b) == Charge(r, a + b)
  {
  }

  /** From the first step to the whole run: either the record is still queued and the rest of the
      run keeps it, or it is out of the queues for good. */
  lemma TailConserves(s: State, t: State, run: seq<Event>, r: Record)
    requires Valid(t) && Possible(t, run) && Kept(s, t, r)
    requires Outstanding(t, r.callback) <= 1 && AddedBy(t, run, r.callback) == 0
    requires Done(s, t, r) ==> Outstanding(t, r.callback) == 0
    requires r in Queued(t) ==> Kept(t, After(t, run), Charge(r, RunPackets(t, run, r.callback)))
    ensures Kept(s, After(t, run), Charge(r, RunPackets(t, run, r.callback)))
  {
    var end := After(t, run);
    var last := Charge(r, RunPackets(t, run, r.callback));
    if r in Queued(t) {
      GrewFurther(s, t, end);
      if Done(t, end, last) {
        DoneLater(s, t, end, last);
      }
    } else {
      AbsentStaysAbsent(t, run, r.callback);
      ChargeTwice(r, 0, 0);
      assert Charge(r, 0) == r;
      DoneLater(s, t, end, r);
    }
  }

  /** A callback that was run once more than before is outstanding once less. */
  lemma DoneIsGone(s: State, t: State, r: Record)
    requires Kept(s, t, r) && Ledger(t, r.callback) <= CountRan(s.log, r.callback) + 1
    ensures Outstanding(t, r.callback) <= 1
    ensures Done(s, t, r) ==> Outstanding(t, r.callback) == 0
  {
    CountRanGrows(s.log, t.log, r.callback);
    if Done(s, t, r) {
      DoneIsRan(s, t, r);
    }
  }

  /** Conservation over whole runs: whatever happens to the other records, a queued record has at
      every later moment paid for exactly the packets served to its callback, and its remaining
      balance is in its queue or was handed to its callback; negative credit included. */
  lemma {:induction false} RunConserves(s: State, run: seq<Event>, r: Record)
    requires Valid(s) && Possible(s, run)
    requires r in Queued(s) && Outstanding(s, r.callback) == 1
    requires AddedBy(s, run, r.callback) == 0 && Stop(r.callback) !in run
    ensures Kept(s, After(s, run), Charge(r, RunPackets(s, run, r.callback)))
    decreases |run|
  {
    hide Step, Valid, Enabled, StepPackets;
    if run == [] {
      assert Charge(r, 0) == r;
    } else {
      StepKeepsValid(s, run[0]);
      var t := Step(s, run[0]);
      var k := StepPackets(s, run[0], r.callback);
      var next := Charge(r, k);
      StepConserves(s, run[0], r);
      StepLedger(s, run[0], r.callback);
      DoneIsGone(s, t, next);
      if next in Queued(t) {
        OutstandingMember(t, next);
        RunConserves(t, run[1..], next);
        ChargeTwice(r, k, RunPackets(t, run[1..], r.callback));
      }
      TailConserves(s, t, run[1..], next);
      ChargeTwice(r, k, RunPackets(t, run[1..], r.callback));
    }
  }

  /** A run that starts with an event is that event and the rest. */
  lemma FirstEvent(s: State, e: Event, run: seq<Event>, callback: nat)
    requires Valid(s) && Possible(s, [e] + run)
    ensures Enabled(s, e) && Valid(Step(s, e)) && Possible(Step(s, e), run)
    ensures After(s, [e] + run) == After(Step(s, e), run)
    ensures RunPackets(s, [e] + run, callback) == StepPackets(s, e, callback) + RunPackets(Step(s, e), run, callback)
    ensures AddedBy(s, [e] + run, callback) == Added(s, e, callback) + AddedBy(Step(s, e), run, callback)
  {
    hide Valid, Enabled, Step, StepPackets, Added;
    assert ([e] + run)[0] == e && ([e] + run)[1..] == run;
    StepKeepsValid(s, e);
  }

  /** A record that joins is charged for nothing that happened before. */
  lemma StartStep(s: State, now: int, r: Record, start: bool)
    requires Valid(s) && s.clock <= now && Queues(s, r.result, r.isUpload)
    requires Outstanding(s, r.callback) == 0
    ensures var t := Step(s, Start(now, r, start));
            && StepPackets(s, Start(now, r, start), r.callback) == 0
            && Added(s, Start(now, r, start), r.callback) == 1
            && Kept(s, t, r) && Ledger(t, r.callback) == CountRan(s.log, r.callback) + 1
            && Outstanding(t, r.callback) <= 1 && (Done(s, t, r) ==> Outstanding(t, r.callback) == 0)
  {
    var e := Start(now, r, start);
    AbsentGetsNothing(s, e, r.callback);
    EnqueueTakesIn(s, now, r, start);
    StepLedger(s, e, r.callback);
    hide Enqueue, Kept, StepPackets;
    DoneIsGone(s, Step(s, e), r);
  }

  /** The same from the moment a throttle starts. */
  lemma StartConserves(s: State, now: int, r: Record, start: bool, run: seq<Event>)
    requires Valid(s) && s.clock <= now && Queues(s, r.result, r.isUpload)
    requires Outstanding(s, r.callback) == 0
    requires Possible(s, [Start(now, r, start)] + run)
    requires AddedBy(s, [Start(now, r, start)] + run, r.callback) == 1 && Stop(r.callback) !in run
    ensures var all := [Start(now, r, start)] + run;
            Kept(s, After(s, all), Charge(r, RunPackets(s, all, r.callback)))
  {
    hide *;
    var e := Start(now, r, start);
    FirstEvent(s, e, run, r.callback);
    var t := Step(s, e);
    StartStep(s, now, r, start);
    if r in Queued(t) {
      OutstandingMember(t, r);
      RunConserves(t, run, r);
    }
    TailConserves(s, t, run, r);
  }
}
