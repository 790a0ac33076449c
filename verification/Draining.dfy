/** When a download is answered although it has bytes left to pay. */
module Draining {
  import opened Sequences
  import opened RoundRobin
  import opened TickPrediction
  import opened Throughput
  import opened Emulation
  import opened Runs

  /** The events that end with arming the timer while throttling goes on. */
  predicate Arms(s: State, e: Event) {
    match e
    case SetConditions(_, conditions) => conditions.IsThrottling()
    case Start(_, r, _) => Queues(s, r.result, r.isUpload)
    case Stop(_) => false
    case TimerFires(_) => true
  }

  /** The state such an event arms the timer in. */
  function BeforeArming(s: State, e: Event): State
    requires Valid(s) && Enabled(s, e) && Arms(s, e)
  {
    match e
    case SetConditions(now, conditions) =>
      Retimed(if s.conditions.IsThrottling() then UpdateThrottled(s, now) else s, now, conditions)
    case Start(now, r, start) => Join(UpdateThrottled(s, now), now, r, start)
    case TimerFires(now) => Collect(UpdateThrottled(s.(timer := Stopped), now))
  }

  /** There are no ticks to wait for: none at all, or the next completion is predicted for tick zero. */
  predicate Drains(v: State) {
    v.downloadTickLength == 0 || (v.downloadLastTick + MinTicksLeft(v.download)) % UINT64_LIMIT == 0
  }

  function Drained(v: State): seq<Record> {
    if Drains(v) then v.download else []
  }

  lemma DownloadTimeIsOffset(v: State)
    ensures DownloadTime(v) == v.offset <==> Drains(v)
  {
    var x := (v.downloadLastTick + MinTicksLeft(v.download)) % UINT64_LIMIT;
    hide MinTicksLeft;
    assert DownloadTime(v) == v.offset + v.downloadTickLength * x;
    if v.downloadTickLength != 0 && x != 0 {
      MultiplyMonotone(1, x, v.downloadTickLength);
    }
  }

  lemma ArmTimerDrains(v: State, now: int)
    ensures var t := ArmTimer(v, now);
            && t.download == (if Drains(v) then [] else v.download)
            && t.log == v.log + CompleteAll(Drained(v), false)
  {
    DownloadTimeIsOffset(v);
    assert CompleteAll([], false) == [];
    hide Drains, DesiredTime, MinSendEnd, CompleteAll;
    assert v.log + [] == v.log;
  }

  lemma StepArms(s: State, e: Event)
    requires Valid(s) && Enabled(s, e) && Arms(s, e)
    ensures Step(s, e) == ArmTimer(BeforeArming(s, e), e.now)
  {
    hide UpdateThrottled, ArmTimer, Collect, TickLength;
  }

  /** What is collected before the timer is armed has paid more than it owed. */
  lemma LogBeforeArming(s: State, e: Event) returns (ran: seq<Completion>)
    requires Valid(s) && Enabled(s, e) && Arms(s, e)
    ensures BeforeArming(s, e).log == s.log + ran
    ensures forall c :: c in ran ==> c.bytes < 0
  {
    ran := [];
    if e.TimerFires? {
      var u := UpdateThrottled(s.(timer := Stopped), e.now);
      assert u.log == s.log;
      FilterMembers(u.download, IsFinished());
      FilterMembers(u.upload, IsFinished());
      var finished := Filter(u.download, IsFinished()) + Filter(u.upload, IsFinished());
      ran := CompleteAll(finished, false);
      assert forall r :: r in finished ==> r.bytes < 0;
      hide UpdateThrottled, Filter;
      forall c | c in ran ensures c.bytes < 0 {
        var i :| 0 <= i < |ran| && ran[i] == c;
        assert finished[i] in finished;
      }
    } else {
      assert s.log + [] == s.log;
    }
  }

  lemma StepDrains(s: State, e: Event) returns (ran: seq<Completion>)
    requires Valid(s) && Enabled(s, e) && Arms(s, e)
    ensures var v, t := BeforeArming(s, e), Step(s, e);
            && t.download == (if Drains(v) then [] else v.download)
            && NewCompletions(s, t) == ran + CompleteAll(Drained(v), false)
    ensures forall c :: c in ran ==> c.bytes < 0
  {
    assert !e.Stop?;
    hide *;
    ran := LogBeforeArming(s, e);
    StepArms(s, e);
    ArmTimerDrains(BeforeArming(s, e), e.now);
    Appended(s, Step(s, e), ran, CompleteAll(Drained(BeforeArming(s, e)), false));
  }

  lemma Appended(s: State, t: State, first: seq<Completion>, second: seq<Completion>)
    requires t.log == s.log + first + second
    ensures NewCompletions(s, t) == first + second
  {
  }

  lemma AnswersAfter(ran: seq<Completion>, q: seq<Record>)
    requires forall c :: c in ran ==> c.bytes < 0
    ensures forall r :: r in q ==> Complete(r, false) in ran + CompleteAll(q, false)
    ensures (exists c :: c in ran + CompleteAll(q, false) && c.bytes >= 0) <==> exists r :: r in q && r.bytes >= 0
  {
    AnswersOfDrained(q);
    hide CompleteAll, Complete;
    var answers := CompleteAll(q, false);
    assert forall c :: c in ran + answers <==> c in ran || c in answers;
  }

  lemma AnswersOfDrained(q: seq<Record>)
    ensures forall r :: r in q ==> Complete(r, false) in CompleteAll(q, false)
    ensures (exists c :: c in CompleteAll(q, false) && c.bytes >= 0) <==> exists r :: r in q && r.bytes >= 0
  {
    var answers := CompleteAll(q, false);
    forall r | r in q ensures Complete(r, false) in answers {
      var i :| 0 <= i < |q| && q[i] == r;
      assert answers[i] == Complete(r, false);
    }
    if c: Completion :| c in answers && c.bytes >= 0 {
      var i :| 0 <= i < |answers| && answers[i] == c;
      assert q[i] in q && q[i].bytes >= 0;
    }
    if r: Record :| r in q && r.bytes >= 0 {
      assert Complete(r, false) in answers && Complete(r, false).bytes >= 0;
    }
  }

  /** While throttling goes on, somebody with bytes left is answered exactly if the download queue is
      drained and holds such a record; then the whole queue is answered, otherwise nobody leaves it. */
  lemma DrainsExactly(s: State, e: Event)
    requires Valid(s) && Enabled(s, e) && Arms(s, e)
    ensures var v, t := BeforeArming(s, e), Step(s, e);
            && t.download == (if Drains(v) then [] else v.download)
            && (Drains(v) ==> forall r :: r in v.download ==> Complete(r, false) in NewCompletions(s, t))
            && ((exists c :: c in NewCompletions(s, t) && c.bytes >= 0)
                <==> Drains(v) && exists r :: r in v.download && r.bytes >= 0)
  {
    var v := BeforeArming(s, e);
    var ran := StepDrains(s, e);
    AnswersAfter(ran, Drained(v));
    assert Drained(v) == if Drains(v) then v.download else [];
    hide *;
  }

  /** It does not happen while every download has bytes left and the download queue has ticks. */
  lemma NoDrainWhileBytesLeft(v: State)
    requires v.downloadTickLength > 0 && v.download != [] && AllPositive(v.download)
    requires v.downloadLastTick + MinTicksLeft(v.download) < UINT64_LIMIT
    ensures !Drains(v)
  {
    PredictionIsFirstCompletion(v.download);
  }
}
