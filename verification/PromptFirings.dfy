/** How late a queued download is answered while the timer fires promptly. */
module PromptFirings {
  import opened Sequences
  import opened RoundRobin
  import opened TickPrediction
  import opened Emulation
  import opened Runs
  import opened ThrottleLife
  import opened TimerAccuracy
  import opened TimerInTime

  /** The moment at which download `i` will have paid more than it owes, if nobody joins or leaves. */
  function PaidMoment(s: State, i: nat): int
    requires i < |s.download|
  {
    s.offset + s.downloadTickLength * (s.downloadLastTick + OverdrawnTicks(s.download, i))
  }

  /** The state a firing timer collects in, with the finished records gone. */
  function Collected(s: State, now: int): State
    requires WellTimed(s) && s.clock <= now
  {
    Collect(UpdateThrottled(s.(timer := Stopped), now))
  }

  predicate CallsBack(s: State, t: State, callback: nat) {
    exists c :: c in NewCompletions(s, t) && c.callback == callback
  }

  /** The download with this callback is queued and will have paid by `deadline`. */
  predicate PaidBy(s: State, callback: nat, deadline: int) {
    exists i :: 0 <= i < |s.download| && s.download[i].callback == callback && PaidMoment(s, i) <= deadline
  }

  // ----- serving and collecting bring a record forward -----

  /** With each tick a record comes one tick closer to having paid. */
  lemma TicksPass(i: nat, count: nat, ticks: nat, whole: nat)
    requires i < count
    ensures PlaceAfter(i, count, ticks) + 1 + count * (whole - Packets(i, count, ticks))
         == i + 1 + count * whole - ticks
  {
    var rounds, shift := ticks / count, ticks % count;
    assert ticks == rounds * count + shift;
    var served := Packets(i, count, ticks);
    assert count * (whole - served) == count * whole - count * served;
    assert count * served == count * rounds + if i < shift then count else 0;
  }

  lemma OverdrawnSooner(q: seq<Record>, ticks: nat, i: nat)
    requires i < |q| && ticks < OverdrawnTicks(q, i)
    ensures var served, place := Serve(q, ticks), PlaceAfter(i, |q|, ticks);
            && served[place].callback == q[i].callback && served[place].bytes >= 0
            && OverdrawnTicks(served, place) == OverdrawnTicks(q, i) - ticks
  {
    OverdrawnExact(q, i, ticks);
    ServeTracks(q, ticks, i);
    var packets, bytes := Packets(i, |q|, ticks), q[i].bytes;
    hide Serve, Packets, PlaceAfter;
    assert (bytes - packets * PACKET_SIZE) / PACKET_SIZE == bytes / PACKET_SIZE - packets;
    TicksPass(i, |q|, ticks, bytes / PACKET_SIZE);
  }

  /** Where a record is once others have been filtered out. */
  lemma PlaceInFilter(q: seq<Record>, p: Record -> bool, i: nat)
    requires i < |q| && p(q[i])
    ensures var place := |Filter(q[..i], p)|;
            place <= i && place < |Filter(q, p)| <= |q| && Filter(q, p)[place] == q[i]
  {
    FilterMembers(q, p);
    FilterMembers(q[..i], p);
    FilterNext(q, i, p);
    assert q == q[..i + 1] + q[i + 1..];
    FilterConcat(q[..i + 1], q[i + 1..], p);
  }

  lemma CollectedSooner(q: seq<Record>, i: nat)
    requires i < |q| && q[i].bytes >= 0
    ensures var left := Filter(q, IsActive());
            exists j :: 0 <= j < |left| && left[j] == q[i] && OverdrawnTicks(left, j) <= OverdrawnTicks(q, i)
  {
    PlaceInFilter(q, IsActive(), i);
    var left, j := Filter(q, IsActive()), |Filter(q[..i], IsActive())|;
    hide Filter;
    MultiplyMonotone(|left|, |q|, q[i].bytes / PACKET_SIZE);
    assert left[j] == q[i] && OverdrawnTicks(left, j) <= OverdrawnTicks(q, i);
  }

  // ----- one firing -----

  /** What a firing finds in the download queue when nobody waits for a latency. */
  lemma QueueServed(s: State, now: int)
    requires WellTimed(s) && s.clock <= now && s.suspended == [] && s.downloadTickLength > 0
    ensures var u := UpdateThrottled(s.(timer := Stopped), now);
            && TickAt(now, s.offset, s.downloadTickLength) >= s.downloadLastTick
            && u.download == Serve(s.download, TickAt(now, s.offset, s.downloadTickLength) - s.downloadLastTick)
            && |u.upload| == |s.upload| && u.suspended == []
            && u.downloadLastTick == TickAt(now, s.offset, s.downloadTickLength)
  {
    TicksAdvance(s.clock, now, s.offset, s.downloadTickLength);
    var served := ServeBoth(s.(timer := Stopped), now);
    assert served.suspended == [] && |served.upload| == |s.upload|;
    var nobody := Filter(served.suspended, IsDue(now - s.latencyLength, false));
    assert nobody == [] && served.download + nobody == served.download;
    hide Serve, TickAt;
  }

  lemma QueuesShrink(s: State, now: int)
    requires WellTimed(s) && s.clock <= now && s.suspended == [] && s.downloadTickLength > 0
    ensures var v := Collected(s, now);
            && |v.download| <= |s.download| && |v.upload| <= |s.upload| && v.suspended == []
            && v.offset == s.offset && v.downloadTickLength == s.downloadTickLength
            && v.uploadTickLength == s.uploadTickLength
  {
    hide UpdateThrottled, Filter, Serve, TickAt, CompleteAll;
    var u := UpdateThrottled(s.(timer := Stopped), now);
    QueueServed(s, now);
    UpdateThrottledFrame(s.(timer := Stopped), now);
    FilterMembers(u.download, IsActive());
    FilterMembers(u.upload, IsActive());
  }

  lemma RoundShrinks(s: State, t: State)
    requires |t.download| <= |s.download| && |t.upload| <= |s.upload|
    requires t.downloadTickLength == s.downloadTickLength && t.uploadTickLength == s.uploadTickLength
    ensures Round(t) <= Round(s)
  {
    Product(s.downloadTickLength, |t.download|, |s.download|);
    Product(s.uploadTickLength, |t.upload|, |s.upload|);
  }

  /** Before a download has paid, a firing leaves it queued, no further from having paid. */
  lemma StillToPay(s: State, now: int, i: nat)
    requires WellTimed(s) && s.clock <= now && s.suspended == [] && s.downloadTickLength > 0
    requires i < |s.download| && now < PaidMoment(s, i)
    ensures PaidBy(Collected(s, now), s.download[i].callback, PaidMoment(s, i))
  {
    var u, v := UpdateThrottled(s.(timer := Stopped), now), Collected(s, now);
    hide UpdateThrottled, OverdrawnTicks;
    var place := ServedSooner(s, now, i);
    UpdateThrottledFrame(s.(timer := Stopped), now);
    CollectedSooner(u.download, place);
    assert v.download == Filter(u.download, IsActive()) && v.downloadLastTick == u.downloadLastTick;
    hide Filter, Collected, TickAt;
    var j :| 0 <= j < |v.download| && v.download[j] == u.download[place]
             && OverdrawnTicks(v.download, j) <= OverdrawnTicks(u.download, place);
    PaysNoLater(s, i, v, j);
  }

  lemma PaysNoLater(s: State, i: nat, v: State, j: nat)
    requires i < |s.download| && j < |v.download|
    requires v.offset == s.offset && v.downloadTickLength == s.downloadTickLength
    requires v.downloadLastTick + OverdrawnTicks(v.download, j) <= s.downloadLastTick + OverdrawnTicks(s.download, i)
    ensures PaidMoment(v, j) <= PaidMoment(s, i)
  {
    Product(s.downloadTickLength, v.downloadLastTick + OverdrawnTicks(v.download, j),
            s.downloadLastTick + OverdrawnTicks(s.download, i));
  }

  lemma ServedSooner(s: State, now: int, i: nat) returns (place: nat)
    requires WellTimed(s) && s.clock <= now && s.suspended == [] && s.downloadTickLength > 0
    requires i < |s.download| && now < PaidMoment(s, i)
    ensures var u := UpdateThrottled(s.(timer := Stopped), now);
            && place < |u.download| && u.download[place].callback == s.download[i].callback
            && u.download[place].bytes >= 0
            && u.downloadLastTick + OverdrawnTicks(u.download, place)
               == s.downloadLastTick + OverdrawnTicks(s.download, i)
  {
    var ticks := TickAt(now, s.offset, s.downloadTickLength) - s.downloadLastTick;
    hide UpdateThrottled, Serve, TickAt, OverdrawnTicks, PlaceAfter;
    QueueServed(s, now);
    place := PlaceAfter(i, |s.download|, ticks);
    assert s.offset <= s.clock;
    TickBoundary(now, s.offset, s.downloadTickLength, s.downloadLastTick + OverdrawnTicks(s.download, i));
    OverdrawnSooner(s.download, ticks, i);
  }

  /** Once it has paid, a firing finds it overdrawn. */
  lemma FoundOverdrawn(s: State, now: int, i: nat) returns (r: Record)
    requires WellTimed(s) && s.clock <= now && s.suspended == [] && s.downloadTickLength > 0
    requires i < |s.download| && now >= PaidMoment(s, i)
    ensures r in UpdateThrottled(s.(timer := Stopped), now).download
    ensures r.bytes < 0 && r.callback == s.download[i].callback
  {
    var ticks := TickAt(now, s.offset, s.downloadTickLength) - s.downloadLastTick;
    hide UpdateThrottled, Serve, TickAt, OverdrawnTicks, PlaceAfter, Packets;
    QueueServed(s, now);
    TickBoundary(now, s.offset, s.downloadTickLength, s.downloadLastTick + OverdrawnTicks(s.download, i));
    OverdrawnExact(s.download, i, ticks);
    ServeTracks(s.download, ticks, i);
    r := Charge(s.download[i], Packets(i, |s.download|, ticks));
    assert Serve(s.download, ticks)[PlaceAfter(i, |s.download|, ticks)] == r;
  }

  /** It is called back then. */
  lemma PaidIsAnswered(s: State, now: int, i: nat)
    requires WellTimed(s) && s.clock <= now && s.suspended == [] && s.downloadTickLength > 0
    requires i < |s.download| && now >= PaidMoment(s, i)
    ensures CallsBack(s, OnTimer(s, now), s.download[i].callback)
  {
    var u := UpdateThrottled(s.(timer := Stopped), now);
    var r := FoundOverdrawn(s, now, i);
    hide UpdateThrottled, OnTimer, NewCompletions, DownloadTime, PaidMoment, TickAt, Collect;
    TimerAnswers(s, now);
    assert r in u.download + u.upload;
    assert Complete(r, false) in NewCompletions(s, OnTimer(s, now));
  }

  /** Arming answers the whole queue, or leaves it as it is. */
  lemma DrainedOrKept(s: State, now: int, i: nat)
    requires WellTimed(s) && s.clock <= now && i < |Collected(s, now).download|
    ensures || CallsBack(s, OnTimer(s, now), Collected(s, now).download[i].callback)
            || OnTimer(s, now).download == Collected(s, now).download
  {
    var u, v := UpdateThrottled(s.(timer := Stopped), now), Collected(s, now);
    hide UpdateThrottled, OnTimer, Collect, ArmTimer, NewCompletions, CompleteAll, DownloadTime, Filter, TickAt;
    NewsOfTimer(s, now);
    CollectAndArm(u, now);
    ArmTimerFrame(v, now);
    assert v.offset == u.offset by {
      SameOffset(u);
    }
    if Queued(v) != [] && DownloadTime(v) == v.offset {
      CompletedIn(v.download, false, v.download[i]);
      assert Complete(v.download[i], false) in NewCompletions(s, OnTimer(s, now));
    }
  }

  lemma SameOffset(u: State)
    ensures Collect(u).offset == u.offset
  {
    hide Filter, CompleteAll;
  }

  /** After a firing the timer is set for less than a round behind the moment any download has paid. */
  lemma NextFiring(s: State, now: int, callback: nat, deadline: int)
    requires WellTimed(s) && s.clock <= now && Foreseeable(Collected(s, now))
    requires PaidBy(OnTimer(s, now), callback, deadline)
    ensures OnTimer(s, now).timer.Armed?
    ensures OnTimer(s, now).timer.at < now + Round(Collected(s, now)) || OnTimer(s, now).timer.at <= deadline
  {
    var v, a := Collected(s, now), OnTimer(s, now);
    hide Collected, OnTimer, ArmTimer, Round, PaidMoment, TickAt, FirstWork, Foreseeable, NoneOverdrawn, HasDueAt;
    var i :| 0 <= i < |a.download| && a.download[i].callback == callback && PaidMoment(a, i) <= deadline;
    FiredAndArmed(s, now);
    assert a.download != [] && Queued(v) != [] && WellTimed(a);
    LateByLessThanARound(v);
    WorkWhenPaid(a, i);
    PaysAhead(a, i);
  }

  lemma WorkWhenPaid(a: State, i: nat)
    requires WellTimed(a) && i < |a.download| && a.downloadTickLength > 0
    ensures FirstWork(a).At? && (FirstWork(a).time <= PaidMoment(a, i) || FirstWork(a).time <= a.clock)
  {
    var q, first := a.download, FirstOverdrawn(a.download);
    assert first <= OverdrawnTicks(q, i);
    Product(a.downloadTickLength, a.downloadLastTick + first, a.downloadLastTick + OverdrawnTicks(q, i));
    var moment := QueueMoment(q, a.offset, a.clock, a.downloadTickLength);
    assert moment == At(if first == 0 then a.clock else a.offset + a.downloadTickLength * (a.downloadLastTick + first));
    hide QueueMoment, FirstOverdrawn, OverdrawnTicks, DueMoment;
    assert Reached(moment, moment.time);
    assert Reached(FirstWork(a), moment.time);
  }

  // ----- runs in which the timer fires promptly -----

  /** Nothing happens but the timer firing, at most `delay` later than it is set for, into foreseeable states. */
  predicate Prompt(s: State, run: seq<Event>, delay: nat)
    requires Valid(s) && Possible(s, run)
    decreases |run|
  {
    run == [] ||
    (&& run[0].TimerFires? && s.timer.at <= run[0].now <= s.timer.at + delay && Foreseeable(Collected(s, run[0].now))
     && (StepKeepsValid(s, run[0]); Prompt(Step(s, run[0]), run[1..], delay)))
  }

  /** One of the firings before `limit` calls back. */
  predicate AnsweredBefore(s: State, run: seq<Event>, callback: nat, limit: int)
    requires Valid(s) && Possible(s, run)
    decreases |run|
  {
    run != [] && (StepKeepsValid(s, run[0]);
      var t := Step(s, run[0]);
      (t.clock < limit && CallsBack(s, t, callback)) || AnsweredBefore(t, run[1..], callback, limit))
  }

  lemma OneFiring(s: State, now: int, callback: nat, deadline: int)
    requires WellTimed(s) && s.clock <= now && s.suspended == [] && s.downloadTickLength > 0
    requires PaidBy(s, callback, deadline) && Foreseeable(Collected(s, now))
    ensures var t := OnTimer(s, now);
            || CallsBack(s, t, callback)
            || (&& now < deadline && PaidBy(t, callback, deadline) && t.suspended == []
                && t.downloadTickLength == s.downloadTickLength && Round(t) <= Round(s)
                && t.timer.Armed? && (t.timer.at < now + Round(s) || t.timer.at <= deadline))
  {
    var i :| 0 <= i < |s.download| && s.download[i].callback == callback && PaidMoment(s, i) <= deadline;
    if now >= PaidMoment(s, i) {
      PaidIsAnswered(s, now, i);
    } else {
      StillToPay(s, now, i);
      NotYetPaid(s, now, callback, PaidMoment(s, i), deadline);
    }
  }

  lemma NotYetPaid(s: State, now: int, callback: nat, paid: int, deadline: int)
    requires WellTimed(s) && s.clock <= now && s.suspended == [] && s.downloadTickLength > 0
    requires PaidBy(Collected(s, now), callback, paid) && paid <= deadline && Foreseeable(Collected(s, now))
    ensures var t := OnTimer(s, now);
            || CallsBack(s, t, callback)
            || (&& PaidBy(t, callback, deadline) && t.suspended == []
                && t.downloadTickLength == s.downloadTickLength && Round(t) <= Round(s)
                && t.timer.Armed? && (t.timer.at < now + Round(s) || t.timer.at <= deadline))
  {
    var v, t := Collected(s, now), OnTimer(s, now);
    hide Collected, OnTimer, Round, CallsBack, PaidBy, TickAt, Foreseeable;
    QueuesShrink(s, now);
    KeptPaysOnTime(s, now, callback, paid, deadline);
    if !CallsBack(s, t, callback) {
      RoundShrinks(s, v);
      RoundShrinks(s, t);
      NextFiring(s, now, callback, deadline);
    }
  }

  lemma KeptPaysOnTime(s: State, now: int, callback: nat, paid: int, deadline: int)
    requires WellTimed(s) && s.clock <= now && PaidBy(Collected(s, now), callback, paid) && paid <= deadline
    ensures var v, t := Collected(s, now), OnTimer(s, now);
            || CallsBack(s, t, callback)
            || (&& PaidBy(t, callback, deadline) && t.suspended == v.suspended
                && t.download == v.download && t.upload == v.upload
                && t.downloadTickLength == v.downloadTickLength && t.uploadTickLength == v.uploadTickLength)
  {
    var v, t := Collected(s, now), OnTimer(s, now);
    hide Collected, OnTimer, CallsBack, PaidMoment, TickAt;
    var j :| 0 <= j < |v.download| && v.download[j].callback == callback && PaidMoment(v, j) <= paid;
    KeptWhole(s, now, j);
    if !CallsBack(s, t, callback) {
      SamePaid(v, t, j);
    }
  }

  lemma SamePaid(v: State, t: State, j: nat)
    requires t.offset == v.offset && t.downloadLastTick == v.downloadLastTick
    requires t.downloadTickLength == v.downloadTickLength && t.download == v.download && j < |v.download|
    ensures PaidMoment(t, j) == PaidMoment(v, j)
  {
    hide OverdrawnTicks;
  }

  lemma KeptWhole(s: State, now: int, j: nat)
    requires WellTimed(s) && s.clock <= now && j < |Collected(s, now).download|
    ensures var v, t := Collected(s, now), OnTimer(s, now);
            CallsBack(s, t, v.download[j].callback) || t == v.(timer := t.timer, log := t.log)
  {
    var v := Collected(s, now);
    assert OnTimer(s, now) == ArmTimer(v, now);
    hide Collected, OnTimer, ArmTimer, CallsBack, TickAt;
    DrainedOrKept(s, now, j);
    ArmTimerFrame(v, now);
  }

  lemma {:induction false} AnsweredInRun(s: State, run: seq<Event>, delay: nat, callback: nat, deadline: int,
                                         limit: int)
    requires Valid(s) && Possible(s, run) && Prompt(s, run, delay) && s.suspended == [] && s.downloadTickLength > 0
    requires PaidBy(s, callback, deadline) && deadline + delay + Round(s) <= limit && deadline + delay < limit
    requires s.timer.Armed? && s.timer.at + delay < limit
    ensures || AnsweredBefore(s, run, callback, limit)
            || (PaidBy(After(s, run), callback, deadline) && (run != [] ==> After(s, run).clock < deadline))
    decreases |run|
  {
    if run != [] {
      var now, t := run[0].now, Step(s, run[0]);
      StepKeepsValid(s, run[0]);
      assert WellTimed(s) && s.clock <= now && t == OnTimer(s, now);
      hide Valid, OnTimer, Step, PaidBy, Round, Foreseeable, Collected, CallsBack, Enabled;
      ClockIsNow(s, now);
      OneFiring(s, now, callback, deadline);
      if !CallsBack(s, t, callback) {
        AnsweredInRun(t, run[1..], delay, callback, deadline, limit);
      }
    }
  }

  lemma ClockIsNow(s: State, now: int)
    requires WellTimed(s) && s.clock <= now
    ensures OnTimer(s, now).clock == now
  {
    hide UpdateThrottled, ArmTimer, Filter, CompleteAll;
    UpdateThrottledFrame(s.(timer := Stopped), now);
    ArmTimerFrame(Collect(UpdateThrottled(s.(timer := Stopped), now)), now);
  }

  /** Whatever state `s` the timer fires in: if it then keeps firing, each time at most `delay` late, a
      download that is queued in the new state `t` is answered less than a round and the delay after the
      moment it has paid, as soon as time has come that far. */
  lemma AnsweredWithinARound(s: State, now: int, t: State, run: seq<Event>, delay: nat, i: nat)
    requires Valid(s) && Enabled(s, TimerFires(now)) && WellTimed(s) && Foreseeable(Collected(s, now))
    requires t == Step(s, TimerFires(now)) && t.suspended == [] && i < |t.download|
    requires Valid(t) && Possible(t, run) && Prompt(t, run, delay)
    ensures now < PaidMoment(t, i)
    ensures || AnsweredBefore(t, run, t.download[i].callback, PaidMoment(t, i) + delay + Round(t))
            || (&& PaidBy(After(t, run), t.download[i].callback, PaidMoment(t, i))
                && (run != [] ==> After(t, run).clock < PaidMoment(t, i)))
  {
    hide *;
    AfterAFiring(s, now, i);
    AnsweredInRun(t, run, delay, t.download[i].callback, PaidMoment(t, i), PaidMoment(t, i) + delay + Round(t));
  }

  lemma AfterAFiring(s: State, now: int, i: nat)
    requires Valid(s) && Enabled(s, TimerFires(now)) && WellTimed(s) && Foreseeable(Collected(s, now))
    requires i < |Step(s, TimerFires(now)).download|
    ensures var t := Step(s, TimerFires(now));
            var deadline := PaidMoment(t, i);
            && t.downloadTickLength > 0 && PaidBy(t, t.download[i].callback, deadline)
            && now < deadline && Round(t) > 0 && t.timer.Armed? && t.timer.at < deadline + Round(t)
  {
    var t := Step(s, TimerFires(now));
    hide Valid, OnTimer, Collected, PaidMoment, Foreseeable, Round, TickAt;
    assert PaidBy(t, t.download[i].callback, PaidMoment(t, i));
    PaysLater(s, now, i);
    NextFiring(s, now, t.download[i].callback, PaidMoment(t, i));
  }

  /** What a firing leaves in the download queue has not paid yet. */
  lemma PaysLater(s: State, now: int, i: nat)
    requires WellTimed(s) && s.clock <= now && Foreseeable(Collected(s, now))
    requires i < |OnTimer(s, now).download|
    ensures now < PaidMoment(OnTimer(s, now), i) && OnTimer(s, now).downloadTickLength > 0
    ensures Round(OnTimer(s, now)) == Round(Collected(s, now)) > 0
  {
    hide OnTimer, Collected, PaidMoment, Round, TickAt, NoneOverdrawn;
    FiredAndArmed(s, now);
    PaysAhead(OnTimer(s, now), i);
    SameRound(OnTimer(s, now), Collected(s, now));
  }

  /** A firing arms the timer with nobody overdrawn. */
  lemma FiredAndArmed(s: State, now: int)
    requires WellTimed(s) && s.clock <= now && Foreseeable(Collected(s, now))
    ensures var v, t := Collected(s, now), OnTimer(s, now);
            && v.clock == now && WellTimed(v) && NoneOverdrawn(v.download) && NoneOverdrawn(v.upload)
            && !HasDueAt(v, now) && t == ArmTimer(v, now) && v.downloadTickLength > 0
            && (t.download != [] ==> t == v.(timer := t.timer, log := t.log))
  {
    var v := Collected(s, now);
    CollectedAndActivated(s, now);
    assert OnTimer(s, now) == ArmTimer(v, now);
    hide Collected, OnTimer, ArmTimer, TickAt, NoneOverdrawn, HasDueAt;
    ArmTimerFrame(v, now);
  }

  lemma PaysAhead(t: State, i: nat)
    requires WellTimed(t) && t.downloadTickLength > 0 && i < |t.download| && NoneOverdrawn(t.download)
    ensures t.clock < PaidMoment(t, i)
  {
    Product(|t.download|, 0, t.download[i].bytes / PACKET_SIZE);
    assert OverdrawnTicks(t.download, i) >= 1 && t.offset <= t.clock;
    hide OverdrawnTicks;
    TickBoundary(t.clock, t.offset, t.downloadTickLength, t.downloadLastTick + OverdrawnTicks(t.download, i));
    hide TickAt;
  }

  lemma SameRound(t: State, v: State)
    requires t == v.(timer := t.timer, log := t.log) && t.downloadTickLength > 0 && t.download != []
    ensures Round(t) == Round(v) > 0
  {
    Product(t.downloadTickLength, 1, |t.download|);
  }
}
