/** Where a throttle waits, and what its callback is given in the end. */
module ThrottleLife {
  import opened Sequences
  import opened RoundRobin
  import opened Emulation
  import opened Runs
  import opened Accounts

  /** An interceptor without records only looks at the clock. */
  lemma NobodyServed(s: State, now: int)
    requires WellTimed(s) && s.clock <= now && s.download == s.upload == s.suspended == []
    ensures UpdateThrottled(s, now)
            == s.(clock := now, downloadLastTick := TickAt(now, s.offset, s.downloadTickLength),
                  uploadLastTick := TickAt(now, s.offset, s.uploadTickLength))
  {
    var served := ServeBoth(s, now);
    assert |served.download| == 0 && |served.upload| == 0;
    assert served.download == [] && served.upload == [] && served.suspended == [];
    hide ServeBoth;
    assert Filter(served.suspended, IsWaiting(now - s.latencyLength)) == [];
  }

  predicate StillWaits(s: State, now: int, r: Record) {
    r.sendEnd + s.latencyLength > now
  }

  /** A suspended record waits exactly until its latency is over; then it joins the end of the queue
      of its kind without having paid for anything. */
  lemma LatencyRespected(s: State, now: int, r: Record)
    requires WellTimed(s) && s.clock <= now
    ensures var t := UpdateThrottled(s, now);
            && (r in t.suspended <==> r in s.suspended && StillWaits(s, now, r))
            && (r in s.suspended && !StillWaits(s, now, r) ==> r in QueueOf(t, r.isUpload)[|QueueOf(s, r.isUpload)|..])
  {
    var served, baseline := ServeBoth(s, now), now - s.latencyLength;
    assert served.suspended == s.suspended && served.latencyLength == s.latencyLength;
    assert |served.download| == |s.download| && |served.upload| == |s.upload|;
    FilterMembers(s.suspended, IsWaiting(baseline));
    FilterMembers(s.suspended, IsDue(baseline, r.isUpload));
    hide ServeBoth, Filter;
    var t := UpdateThrottled(s, now);
    assert QueueOf(t, r.isUpload) == QueueOf(served, r.isUpload) + Filter(s.suspended, IsDue(baseline, r.isUpload));
  }

  /** A new record moves nobody else: it is suspended exactly if it starts something whose latency is
      not over, and goes to the tail of the queue of its kind otherwise. */
  lemma NewRecordPlaced(s: State, now: int, r: Record, start: bool)
    requires WellTimed(s) && s.clock <= now
    ensures var u := UpdateThrottled(s, now);
            Join(u, now, r, start)
            == if start && s.latencyLength > 0 && StillWaits(s, now, r) then u.(suspended := u.suspended + [r])
               else if r.isUpload then u.(upload := u.upload + [r])
               else u.(download := u.download + [r])
  {
    assert UpdateThrottled(s, now).latencyLength == s.latencyLength;
    assert UpdateThrottled(s, now).suspended == Filter(s.suspended, IsWaiting(now - s.latencyLength));
    FilterMembers(s.suspended, IsWaiting(now - s.latencyLength));
    hide UpdateThrottled, Filter, Activate;
    if start && s.latencyLength > 0 {
      ActivateNewOne(UpdateThrottled(s, now), now, r);
    }
  }

  lemma ActivateNewOne(u: State, now: int, r: Record)
    requires forall x :: x in u.suspended ==> StillWaits(u, now, x)
    ensures Activate(u.(suspended := u.suspended + [r]), now)
            == if StillWaits(u, now, r) then u.(suspended := u.suspended + [r])
               else if r.isUpload then u.(upload := u.upload + [r])
               else u.(download := u.download + [r])
  {
    hide Filter;
    var baseline := now - u.latencyLength;
    OnlyTheNewOne(u.suspended, r, IsDue(baseline, false));
    OnlyTheNewOne(u.suspended, r, IsDue(baseline, true));
    FilterAll(u.suspended, IsWaiting(baseline));
    FilterConcat(u.suspended, [r], IsWaiting(baseline));
    FilterOne(r, IsWaiting(baseline));
    assert Filter(u.suspended + [r], IsWaiting(baseline)) == u.suspended + if StillWaits(u, now, r) then [r] else [];
    assert u.download + [] == u.download && u.upload + [] == u.upload && u.suspended + [] == u.suspended;
  }

  lemma OnlyTheNewOne(s: seq<Record>, r: Record, p: Record -> bool)
    requires forall x :: x in s ==> !p(x)
    ensures Filter(s + [r], p) == if p(r) then [r] else []
  {
    FilterConcat(s, [r], p);
    FilterNone(s, p);
    FilterOne(r, p);
  }

  /** Conditions that stop throttling answer downloads before uploads before suspended records. */
  lemma UnthrottlingOrder(s: State, now: int, conditions: Conditions)
    requires Valid(s) && s.clock <= now && !conditions.IsThrottling()
    ensures var u := if s.conditions.IsThrottling() then UpdateThrottled(s, now) else s;
            var t := UpdateConditions(s, now, conditions);
            && Queued(t) == [] && t.log == s.log + NewCompletions(s, t)
            && NewCompletions(s, t) == CompleteAll(Queued(u), conditions.offline)
  {
    var u := if s.conditions.IsThrottling() then UpdateThrottled(s, now) else s;
    var offline := conditions.offline;
    assert u.log == s.log;
    hide UpdateThrottled, CompleteAll, Valid;
    CompletedInOrder(u.download, u.upload, u.suspended, offline);
    AppendedThree(s.log, CompleteAll(u.download, offline), CompleteAll(u.upload, offline),
                  CompleteAll(u.suspended, offline));
  }

  lemma AppendedThree(log: seq<Completion>, a: seq<Completion>, b: seq<Completion>, c: seq<Completion>)
    ensures log + a + b + c == log + (a + b + c) && (log + (a + b + c))[|log|..] == a + b + c
  {
  }

  lemma CompletedInOrder(a: seq<Record>, b: seq<Record>, c: seq<Record>, offline: bool)
    ensures CompleteAll(a, offline) + CompleteAll(b, offline) + CompleteAll(c, offline)
         == CompleteAll(a + b + c, offline)
  {
  }

  /** A queued record is called back exactly once, with what it owed less the packets it was served.
      Only downloads fail, and only offline. */
  lemma UnthrottlingAnswers(s: State, now: int, conditions: Conditions, r: Record)
    requires Valid(s) && s.clock <= now && !conditions.IsThrottling()
    requires r in Queued(s) && Outstanding(s, r.callback) == 1
    ensures WellTimed(s)
    ensures var ran := NewCompletions(s, UpdateConditions(s, now, conditions));
            && CountRan(ran, r.callback) == 1
            && Completion(r.callback, if conditions.offline && !r.isUpload then ERR_INTERNET_DISCONNECTED else r.result,
                          r.bytes - PACKET_SIZE * PacketsUntil(s, now, r.callback)) in ran
  {
    assert s.conditions.IsThrottling() && WellTimed(s);
    var charged := Charge(r, PacketsUntil(s, now, r.callback));
    assert Complete(charged, conditions.offline)
           == Completion(r.callback, if conditions.offline && !r.isUpload then ERR_INTERNET_DISCONNECTED else r.result,
                         r.bytes - PACKET_SIZE * PacketsUntil(s, now, r.callback));
    hide *;
    UnthrottlingOrder(s, now, conditions);
    UpdateThrottledCharges(s, now, r);
    CompletedIn(Queued(UpdateThrottled(s, now)), conditions.offline, charged);
    UpdateConditionsLedger(s, now, conditions, r.callback);
    var t := UpdateConditions(s, now, conditions);
    RanTheRest(s, t, NewCompletions(s, t), r.callback);
  }

  lemma CompletedIn(q: seq<Record>, offline: bool, r: Record)
    requires r in q
    ensures Complete(r, offline) in CompleteAll(q, offline)
  {
    CompletedBy(q, offline, r);
  }

  /** With all queues emptied, everything outstanding has run. */
  lemma RanTheRest(s: State, t: State, ran: seq<Completion>, callback: nat)
    requires Queued(t) == [] && t.log == s.log + ran && Ledger(t, callback) == Ledger(s, callback)
    ensures CountRan(ran, callback) == Outstanding(s, callback)
  {
    CountRanConcat(s.log, ran, callback);
    assert t.download == [] && t.upload == [] && t.suspended == [];
    hide CountRan;
  }

  /** `t` is `u` after all records that paid more than they owed, and the downloads if there is no
      time to wait for, were answered. */
  lemma CollectAndArm(u: State, now: int)
    ensures var v := Collect(u);
            var t := ArmTimer(v, now);
            && v.download == Filter(u.download, IsActive()) && v.upload == Filter(u.upload, IsActive())
            && t.upload == v.upload && (t.download == v.download || t.download == [])
            && NewCompletions(u, t)
               == CompleteAll(Filter(u.download, IsFinished()) + Filter(u.upload, IsFinished()), false)
                  + CompleteAll(if Queued(v) != [] && DownloadTime(v) == u.offset then v.download else [], false)
  {
    assert CompleteAll([], false) == [];
    hide Filter, DesiredTime, MinSendEnd, CompleteAll;
    var v := Collect(u);
    var t := ArmTimer(v, now);
    var first := CompleteAll(Filter(u.download, IsFinished()) + Filter(u.upload, IsFinished()), false);
    var others := if Queued(v) != [] && DownloadTime(v) == u.offset then v.download else [];
    assert v.log == u.log + first && v.offset == u.offset;
    assert t.log == u.log + (first + CompleteAll(others, false));
  }

  lemma FinishedOrActive(q: seq<Record>)
    ensures forall r :: r in Filter(q, IsFinished()) <==> r in q && r.bytes < 0
    ensures forall r :: r in Filter(q, IsActive()) <==> r in q && r.bytes >= 0
  {
    FilterMembers(q, IsFinished());
    FilterMembers(q, IsActive());
    hide Filter;
  }

  /** Who is answered when the downloads `d` and the uploads `u` are collected, and whoever is left of
      the downloads is answered too if `drained`. */
  lemma AnswersOf(d: seq<Record>, u: seq<Record>, drained: bool)
    ensures var ran := CompleteAll(Filter(d, IsFinished()) + Filter(u, IsFinished()), false)
                       + CompleteAll(if drained then Filter(d, IsActive()) else [], false);
            && (forall r :: r in d + u && r.bytes < 0 ==> Complete(r, false) in ran)
            && (forall c :: c in ran ==>
                  exists r :: r in d + u && c == Complete(r, false) && (r.bytes < 0 || (r in d && drained)))
  {
    FinishedOrActive(d);
    FinishedOrActive(u);
    hide Filter, IsFinished, IsActive;
    var finished := Filter(d, IsFinished()) + Filter(u, IsFinished());
    var others := if drained then Filter(d, IsActive()) else [];
    var ran := CompleteAll(finished, false) + CompleteAll(others, false);
    forall r | r in d + u && r.bytes < 0 ensures Complete(r, false) in ran {
      assert r in finished;
      CompletedIn(finished, false, r);
    }
    forall c | c in ran
      ensures exists r :: r in d + u && c == Complete(r, false) && (r.bytes < 0 || (r in d && drained))
    {
      var i :| 0 <= i < |ran| && ran[i] == c;
      var r := if i < |finished| then finished[i] else others[i - |finished|];
      assert if i < |finished| then r in finished else r in others;
      assert r in d + u && c == Complete(r, false);
    }
  }

  lemma NewsOfTimer(s: State, now: int)
    requires WellTimed(s) && s.clock <= now
    ensures var u := UpdateThrottled(s.(timer := Stopped), now);
            && OnTimer(s, now) == ArmTimer(Collect(u), now)
            && NewCompletions(s, OnTimer(s, now)) == NewCompletions(u, ArmTimer(Collect(u), now))
  {
    hide UpdateThrottled, Collect, ArmTimer;
    UpdateThrottledFrame(s.(timer := Stopped), now);
  }

  /** The timer answers every record that has paid more than it owed, with its own result.  It answers
      another record only if it is a download and the download queue has no time to wait for. */
  lemma TimerAnswers(s: State, now: int)
    requires WellTimed(s) && s.clock <= now
    ensures var u := UpdateThrottled(s.(timer := Stopped), now);
            var t := OnTimer(s, now);
            && (forall r :: r in u.download + u.upload && r.bytes < 0 ==>
                  Complete(r, false) in NewCompletions(s, t) && r !in t.download && r !in t.upload)
            && (forall c :: c in NewCompletions(s, t) ==>
                  exists r :: r in u.download + u.upload && c == Complete(r, false)
                              && (r.bytes < 0 || (r in u.download && DownloadTime(Collect(u)) == u.offset)))
  {
    hide UpdateThrottled, OnTimer, Collect, ArmTimer, CompleteAll, Complete, NewCompletions, DownloadTime, Filter,
         TickAt;
    var u := UpdateThrottled(s.(timer := Stopped), now);
    var v := Collect(u);
    NewsOfTimer(s, now);
    CollectAndArm(u, now);
    FinishedOrActive(u.download);
    FinishedOrActive(u.upload);
    AnswersOf(u.download, u.upload, Queued(v) != [] && DownloadTime(v) == u.offset);
  }
}
