/** Uploads in a queue without ticks, which the program expects to be empty. */
module StrandedUploads {
  import opened Sequences
  import opened RoundRobin
  import opened Throughput
  import opened Emulation
  import opened Runs
  import opened ThrottleLife

  predicate HasUpload(s: State) {
    exists r :: r in s.upload + s.suspended && r.isUpload
  }

  /** Uploads are queued although they have no ticks. */
  predicate Stranded(s: State) {
    s.conditions.IsThrottling() && s.uploadTickLength == 0 && s.upload != []
  }

  predicate Unlimited(s: State) {
    s.conditions.IsThrottling() && s.conditions.upload == 0.0
  }

  // ----- one event -----

  lemma QuietKeepsRates(s: State, e: Event)
    requires Valid(s) && Enabled(s, e) && !e.SetConditions?
    ensures Valid(Step(s, e)) && Step(s, e).conditions == s.conditions
    ensures s.conditions.IsThrottling() ==>
              (Step(s, e).uploadTickLength == 0 <==> s.conditions.upload == 0.0)
  {
    StepKeepsValid(s, e);
    OthersKeepConditions(s, e);
    hide Step;
  }

  lemma UploadsServed(s: State, now: int)
    requires WellTimed(s) && s.clock <= now && s.uploadTickLength == 0
    ensures UpdateThrottled(s, now).upload == s.upload + Filter(s.suspended, IsDue(now - s.latencyLength, true))
    ensures UpdateThrottled(s, now).suspended == Filter(s.suspended, IsWaiting(now - s.latencyLength))
    ensures UpdateThrottled(s, now).latencyLength == s.latencyLength
  {
  }

  predicate NoUploads(s: State) {
    s.upload == [] && forall r :: r in s.suspended ==> !r.isUpload
  }

  lemma NoUploadsExactly(s: State)
    requires KindsSeparated(s)
    ensures NoUploads(s) <==> !HasUpload(s)
  {
    assert forall r :: r in s.suspended ==> r in s.upload + s.suspended;
    assert s.upload != [] ==> s.upload[0] in s.upload + s.suspended;
  }

  lemma NoneServed(s: State, now: int)
    requires WellTimed(s) && s.clock <= now && NoUploads(s)
    ensures NoUploads(UpdateThrottled(s, now))
  {
    hide Serve, Filter, TickAt;
    var baseline := now - s.latencyLength;
    var served := ServeBoth(s, now);
    assert |served.upload| == 0 && served.suspended == s.suspended && served.latencyLength == s.latencyLength;
    hide ServeBoth;
    FilterNone(s.suspended, IsDue(baseline, true));
    FilterMembers(s.suspended, IsWaiting(baseline));
  }

  lemma NoneJoins(s: State, now: int, r: Record, start: bool)
    requires WellTimed(s) && s.clock <= now && NoUploads(s) && !r.isUpload
    ensures NoUploads(Enqueue(s, now, r, start))
  {
    hide UpdateThrottled, Join, ArmTimer, StillWaits, NoUploads;
    var u := UpdateThrottled(s, now);
    NoneServed(s, now);
    NewRecordPlaced(s, now, r, start);
    DownloadJoins(u, r);
    ArmTimerFrame(Join(u, now, r, start), now);
    SameUploads(Join(u, now, r, start), Enqueue(s, now, r, start));
  }

  lemma DownloadJoins(u: State, r: Record)
    requires NoUploads(u) && !r.isUpload
    ensures NoUploads(u.(download := u.download + [r])) && NoUploads(u.(suspended := u.suspended + [r]))
  {
  }

  lemma SameUploads(a: State, b: State)
    requires NoUploads(a) && a.upload == b.upload && a.suspended == b.suspended
    ensures NoUploads(b)
  {
  }

  lemma NoneCollected(s: State, now: int)
    requires WellTimed(s) && s.clock <= now && NoUploads(s)
    ensures NoUploads(OnTimer(s, now))
  {
    NoneServed(s.(timer := Stopped), now);
    var u := UpdateThrottled(s.(timer := Stopped), now);
    FilterMembers(u.upload, IsActive());
    hide UpdateThrottled, DesiredTime, MinSendEnd;
    assert NoUploads(Collect(u));
  }

  /** No throttle of an upload starts, and there is none to become due. */
  lemma NoneToStrand(s: State, e: Event)
    requires Valid(s) && Enabled(s, e) && !e.SetConditions? && s.conditions.upload == 0.0 && !HasUpload(s)
    ensures !HasUpload(Step(s, e))
  {
    NoUploadsExactly(s);
    StepKeepsValid(s, e);
    NoUploadsExactly(Step(s, e));
    hide HasUpload, Enqueue, OnTimer;
    match e
    case Start(now, r, start) =>
      if Queues(s, r.result, r.isUpload) {
        NoneJoins(s, now, r, start);
      }
    case Stop(callback) =>
      FilterMembers(s.suspended, IsOther(callback));
    case TimerFires(now) =>
      NoneCollected(s, now);
  }

  /** A stranded upload moves only by being stopped, or by the timer if it has paid more than it owed. */
  lemma StrandedKept(s: State, e: Event, r: Record)
    requires Valid(s) && Enabled(s, e) && Unlimited(s) && r in s.upload
    requires !e.SetConditions? && e != Stop(r.callback) && (r.bytes >= 0 || !e.TimerFires?)
    ensures r in Step(s, e).upload
  {
    match e
    case Start(now, o, start) =>
      if Queues(s, o.result, o.isUpload) {
        UploadsServed(s, now);
        NewRecordPlaced(s, now, o, start);
        hide UpdateThrottled, DesiredTime, MinSendEnd, Valid, Join, Filter;
        var u := UpdateThrottled(s, now);
        assert r in u.upload;
        assert Step(s, e).upload == Join(u, now, o, start).upload;
      }
    case Stop(callback) =>
      FilterMembers(s.upload, IsOther(callback));
    case TimerFires(now) =>
      var s0 := s.(timer := Stopped);
      UploadsServed(s0, now);
      var u := UpdateThrottled(s0, now);
      FilterMembers(u.upload, IsActive());
      hide UpdateThrottled, DesiredTime, MinSendEnd, Valid;
      assert Step(s, e).upload == Filter(u.upload, IsActive());
      hide Filter;
  }

  // ----- whole runs -----

  lemma {:induction false} QuietRun(s: State, run: seq<Event>)
    requires Valid(s) && Possible(s, run) && Quiet(run)
    ensures After(s, run).conditions == s.conditions
    ensures s.conditions.upload == 0.0 && !HasUpload(s) ==> !HasUpload(After(s, run))
    decreases |run|
  {
    if run != [] {
      hide HasUpload, Step, Enabled, Valid;
      QuietKeepsRates(s, run[0]);
      if s.conditions.upload == 0.0 && !HasUpload(s) {
        NoneToStrand(s, run[0]);
      }
      QuietRun(Step(s, run[0]), run[1..]);
    }
  }

  /** A stranded upload that still owes bytes is never answered: it stays until it is stopped or the
      conditions change. */
  lemma {:induction false} StrandedStays(s: State, run: seq<Event>, r: Record)
    requires Valid(s) && Possible(s, run) && Quiet(run) && Unlimited(s)
    requires r in s.upload && r.bytes >= 0 && Stop(r.callback) !in run
    ensures r in After(s, run).upload
    decreases |run|
  {
    if run != [] {
      hide Step, Enabled, Valid;
      QuietKeepsRates(s, run[0]);
      StrandedKept(s, run[0], r);
      StrandedStays(Step(s, run[0]), run[1..], r);
    }
  }

  lemma {:induction false} StrandedUntilTimer(s: State, run: seq<Event>, r: Record)
    requires Valid(s) && Possible(s, run) && Quiet(run) && Unlimited(s)
    requires r in s.upload && Stop(r.callback) !in run
    requires forall i :: 0 <= i < |run| ==> !run[i].TimerFires?
    ensures r in After(s, run).upload && Unlimited(After(s, run))
    decreases |run|
  {
    if run != [] {
      hide Step, Enabled, Valid;
      QuietKeepsRates(s, run[0]);
      StrandedKept(s, run[0], r);
      StrandedUntilTimer(Step(s, run[0]), run[1..], r);
    }
  }

  /** One that has paid more than it owed is answered when the timer fires next. */
  lemma OverdrawnAnsweredNext(s: State, run: seq<Event>, now: int, r: Record)
    requires Valid(s) && Possible(s, run) && Quiet(run) && Unlimited(s)
    requires r in s.upload && r.bytes < 0 && Stop(r.callback) !in run
    requires forall i :: 0 <= i < |run| ==> !run[i].TimerFires?
    requires Enabled(After(s, run), TimerFires(now))
    ensures var before := After(s, run);
            var after := Step(before, TimerFires(now));
            Complete(r, false) in NewCompletions(before, after) && r !in after.upload
  {
    StrandedUntilTimer(s, run, r);
    var before := After(s, run);
    TimerAnswers(before, now);
    UploadsServed(before.(timer := Stopped), now);
    hide UpdateThrottled, OnTimer, NewCompletions, Filter, After, Possible;
    assert r in UpdateThrottled(before.(timer := Stopped), now).upload;
  }

  // ----- what new conditions lead to -----

  /** Uploads that are queued or due are queued under the new conditions, the others stay suspended. */
  lemma UploadsCarriedOver(s: State, now: int, conditions: Conditions, r: Record)
    requires Valid(s) && s.clock <= now && conditions.Acceptable() && conditions.IsThrottling()
    requires r in s.upload + s.suspended && r.isUpload
    ensures var t := UpdateConditions(s, now, conditions); t.upload != [] || r in t.suspended
  {
    LatencyRespected(s, now, r);
    var u := UpdateThrottled(s, now);
    assert |u.upload| >= |s.upload|;
    hide UpdateThrottled, DesiredTime, MinSendEnd, TickLength, Valid;
    var t := UpdateConditions(s, now, conditions);
    assert t.upload == u.upload && t.suspended == u.suspended;
  }

  lemma NothingCarriedOver(s: State, now: int, conditions: Conditions)
    requires Valid(s) && s.clock <= now && conditions.Acceptable() && conditions.IsThrottling()
    requires !HasUpload(s)
    ensures !HasUpload(UpdateConditions(s, now, conditions))
  {
    NoUploadsExactly(s);
    var u := if s.conditions.IsThrottling() then UpdateThrottled(s, now) else s;
    if s.conditions.IsThrottling() {
      NoneServed(s, now);
    }
    UpdateConditionsKeepsValid(s, now, conditions);
    var t := UpdateConditions(s, now, conditions);
    NoUploadsExactly(t);
    hide UpdateThrottled, DesiredTime, MinSendEnd, TickLength, HasUpload;
    assert t.upload == u.upload && t.suspended == u.suspended;
  }

  /** Once its latency is over, a suspended upload is stranded by the next download that starts. */
  lemma SuspendedGetsStranded(t: State, r: Record) returns (run: seq<Event>)
    requires Valid(t) && Unlimited(t) && r in t.suspended && r.isUpload
    ensures Possible(t, run) && Quiet(run) && Stranded(After(t, run))
  {
    var due := r.sendEnd + t.latencyLength;
    var now := if due < t.clock then t.clock else due;
    var e := Start(now, Record(0, 1, 0, false, 0), false);
    run := [e];
    DownloadStrands(t, e, r);
    QuietKeepsRates(t, e);
    assert Enabled(t, e);
    hide Valid, Step, Possible, After, Enabled;
    OneEventRun(t, e);
  }

  lemma DownloadStrands(t: State, e: Event, r: Record)
    requires Valid(t) && Unlimited(t) && r in t.suspended && r.isUpload
    requires e.Start? && e.now >= t.clock && r.sendEnd + t.latencyLength <= e.now
    requires e.record.result >= 0 && !e.record.isUpload && !e.start
    ensures Stranded(Step(t, e))
  {
    assert Queues(t, e.record.result, false) && t.uploadTickLength == 0 && WellTimed(t) && t.clock <= e.now;
    hide UpdateThrottled, Join, ArmTimer, StillWaits, Valid, WellTimed, Queues;
    UploadDue(t, e.now, r);
    UpdateThrottledFrame(t, e.now);
    NewRecordPlaced(t, e.now, e.record, false);
    ArmTimerFrame(Join(UpdateThrottled(t, e.now), e.now, e.record, false), e.now);
  }

  lemma UploadDue(t: State, now: int, r: Record)
    requires WellTimed(t) && t.clock <= now && r in t.suspended && r.isUpload && r.sendEnd + t.latencyLength <= now
    ensures UpdateThrottled(t, now).upload != []
  {
    hide UpdateThrottled;
    LatencyRespected(t, now, r);
  }

  /** Conditions that still throttle lead to stranded uploads, at once or in some run that leaves them
      as they are, exactly if they do not throttle uploads and an upload is queued or suspended. */
  lemma StrandsExactly(s: State, now: int, conditions: Conditions)
    requires Valid(s) && s.clock <= now && conditions.Acceptable() && conditions.IsThrottling()
    ensures var t := UpdateConditions(s, now, conditions);
            && Valid(t)
            && ((exists run :: Possible(t, run) && Quiet(run) && Stranded(After(t, run)))
                <==> conditions.upload == 0.0 && HasUpload(s))
  {
    UpdateConditionsKeepsValid(s, now, conditions);
    var t := UpdateConditions(s, now, conditions);
    assert t.conditions == conditions && RatesMatch(t);
    if conditions.upload == 0.0 && HasUpload(s) {
      var r :| r in s.upload + s.suspended && r.isUpload;
      UploadsCarriedOver(s, now, conditions, r);
      if t.upload != [] {
        assert After(t, []) == t && Possible(t, []) && Quiet([]);
      } else {
        var run := SuspendedGetsStranded(t, r);
      }
    }
    if !HasUpload(s) {
      NothingCarriedOver(s, now, conditions);
    }
    hide UpdateConditions;
    forall run | Possible(t, run) && Quiet(run)
      ensures Stranded(After(t, run)) ==> conditions.upload == 0.0 && HasUpload(s)
    {
      NeverStranded(t, run);
    }
  }

  lemma NeverStranded(t: State, run: seq<Event>)
    requires Valid(t) && Possible(t, run) && Quiet(run) && t.conditions.IsThrottling()
    ensures Stranded(After(t, run)) ==> t.conditions.upload == 0.0 && HasUpload(t)
  {
    QuietRun(t, run);
    var u := After(t, run);
    hide After, Possible;
    if u.upload != [] {
      assert u.upload[0] in u.upload + u.suspended;
    }
  }
}
