/** Concrete runs of an interceptor: one that meets the hypotheses of the general theorems, and those
    that lead to what the program does not expect. */
module ThrottleWitnesses {
  import opened Sequences
  import opened RoundRobin
  import opened Throughput
  import opened TickPrediction
  import opened Emulation
  import opened Runs
  import opened TimerAccuracy
  import opened TimerInTime
  import opened StrandedUploads
  import opened Draining
  import opened ThrottleLife
  import opened PromptFirings

  /** 1.5e6 bytes per second are one packet per millisecond. */
  const SLOW_DOWNLOAD := Conditions(false, 0.0, 1500000.0, 0.0)
  const SLOW_UPLOAD := Conditions(false, 0.0, 0.0, 1500000.0)
  const SLOW_BOTH := Conditions(false, 0.0, 1500000.0, 1500000.0)

  const DOWNLOADING := State(SLOW_DOWNLOAD, [], [], [], Stopped, 0, 1000, 0, 0, 0, 0, 0, [])
  const UPLOADING := State(SLOW_UPLOAD, [], [], [], Stopped, 0, 0, 1000, 0, 0, 0, 0, [])
  const LOADING := State(SLOW_BOTH, [], [], [], Stopped, 0, 1000, 1000, 0, 0, 0, 0, [])

  lemma MillisecondTicks()
    ensures TickLength(1500000.0) == 1000 && TickLength(0.0) == 0
  {
    assert FASTEST / 1500000.0 == 1000.0;
  }

  lemma ConditionsSet()
    ensures UpdateConditions(INITIAL, 0, SLOW_DOWNLOAD) == DOWNLOADING && Valid(DOWNLOADING)
    ensures UpdateConditions(INITIAL, 0, SLOW_UPLOAD) == UPLOADING && Valid(UPLOADING)
    ensures UpdateConditions(INITIAL, 0, SLOW_BOTH) == LOADING && Valid(LOADING)
  {
    MillisecondTicks();
    hide TickLength;
  }

  // ----- putting runs together -----

  lemma OneEvent(s: State, e: Event, run: seq<Event>)
    requires Valid(s) && Enabled(s, e) && Valid(Step(s, e)) && Possible(Step(s, e), run)
    ensures Possible(s, [e] + run) && After(s, [e] + run) == After(Step(s, e), run)
    ensures forall callback ::
              AddedBy(s, [e] + run, callback) == Added(s, e, callback) + AddedBy(Step(s, e), run, callback)
  {
    hide Valid, Enabled, Step, Added;
    assert ([e] + run)[0] == e && ([e] + run)[1..] == run;
  }

  /** The first work on a single record. */
  lemma SingleWork(s: State, r: Record, tickLength: nat, lastTick: nat)
    requires WellTimed(s) && s.suspended == [] && tickLength > 0
    requires || (s.download == [r] && s.upload == [] && s.downloadTickLength == tickLength
                 && s.downloadLastTick == lastTick)
             || (s.upload == [r] && s.download == [] && s.uploadTickLength == tickLength
                 && s.uploadLastTick == lastTick)
    ensures FirstWork(s)
            == At(if r.bytes < 0 then s.clock else s.offset + tickLength * (lastTick + (1 + r.bytes / PACKET_SIZE)))
  {
    OneLeft(r);
    hide FirstOverdrawn, TickAt;
    assert QueueMoment([], s.offset, s.clock, s.downloadTickLength) == Never;
    assert QueueMoment([], s.offset, s.clock, s.uploadTickLength) == Never;
  }

  /** The timer for a single download on a link that does not throttle uploads. */
  lemma SingleDownloadTimer(u: State, now: int, r: Record)
    requires u.download == [r] && u.upload == u.suspended == [] && u.uploadTickLength == 0
    requires DownloadTime(u) > u.offset
    ensures ArmTimer(u, now) == u.(timer := Armed(now + Magnitude(DownloadTime(u) - now)))
  {
    assert UploadTime(u) == u.offset;
    hide DesiredTime;
  }

  // ----- a throttled download -----

  const TWO_PACKETS := Record(1, 3000, 0, false, 7)
  const WAITING := DOWNLOADING.(download := [TWO_PACKETS], timer := Armed(2000))
  const WAITING_RUN := [SetConditions(0, SLOW_DOWNLOAD), Start(0, TWO_PACKETS, true)]

  /** A download joins the empty queue at `now`. */
  function Alone(now: nat, r: Record): State {
    DOWNLOADING.(clock := now, downloadLastTick := now / 1000, download := [r])
  }

  /** It is predicted to be through at the tick `tick`, modulo 2^64. */
  lemma AloneTime(now: nat, r: Record, tick: int)
    requires tick == now / 1000 + PacketsLeft(r.bytes) && -UINT64_LIMIT <= tick < UINT64_LIMIT
    ensures DownloadTime(Alone(now, r)) == 1000 * if tick < 0 then tick + UINT64_LIMIT else tick
  {
    OneLeft(r);
    hide MinTicksLeft, PacketsLeft;
    WrappedSum(tick);
  }

  lemma JoinsAlone(now: nat, r: Record, start: bool)
    requires r.result >= 0 && !r.isUpload
    ensures Valid(DOWNLOADING) && StartThrottle(DOWNLOADING, now, r, start) == ArmTimer(Alone(now, r), now)
  {
    ConditionsSet();
    NobodyServed(DOWNLOADING, now);
    var u := UpdateThrottled(DOWNLOADING, now);
    assert u == DOWNLOADING.(clock := now, downloadLastTick := now / 1000);
    hide UpdateThrottled, ArmTimer, TickAt;
    assert Join(u, now, r, start) == u.(download := [] + [r]);
    assert [] + [r] == [r];
  }

  /** A possible run: the conditions are set at time 0, and a download starts alone. */
  lemma StartsAlone(now: nat, r: Record, start: bool)
    requires r.result >= 0 && !r.isUpload && DownloadTime(Alone(now, r)) > 0
    ensures var run := [SetConditions(0, SLOW_DOWNLOAD), Start(now, r, start)];
            var s := Alone(now, r).(timer := Armed(now + Magnitude(DownloadTime(Alone(now, r)) - now)));
            Valid(INITIAL) && Possible(INITIAL, run) && After(INITIAL, run) == s && Valid(s)
  {
    var u, e := Alone(now, r), Start(now, r, start);
    assert Valid(INITIAL);
    hide StartThrottle, UpdateConditions, ArmTimer, Possible, After, Valid, DownloadTime;
    ConditionsSet();
    JoinsAlone(now, r, start);
    SingleDownloadTimer(u, now, r);
    StepKeepsValid(DOWNLOADING, e);
    SetAndStart(SLOW_DOWNLOAD, e, DOWNLOADING);
  }

  lemma WaitingIsReached()
    ensures Valid(INITIAL) && Possible(INITIAL, WAITING_RUN) && After(INITIAL, WAITING_RUN) == WAITING && Valid(WAITING)
  {
    AloneTime(0, TWO_PACKETS, 2);
    StartsAlone(0, TWO_PACKETS, true);
    hide Valid, Possible, After, DownloadTime;
  }

  /** Its end meets what the theorems about runs and conservation ask for. */
  lemma WaitingGoesOn()
    ensures Valid(WAITING) && TWO_PACKETS in Queued(WAITING) && Outstanding(WAITING, 7) == 1
    ensures Possible(WAITING, [TimerFires(2000)]) && AddedBy(WAITING, [TimerFires(2000)], 7) == 0
  {
    WaitingIsReached();
    CountOne(TWO_PACKETS, 7);
    var fires := TimerFires(2000);
    assert Outstanding(WAITING, 7) == 1 && TWO_PACKETS in Queued(WAITING);
    assert Enabled(WAITING, fires) && Added(WAITING, fires, 7) == 0;
    StepKeepsValid(WAITING, fires);
    assert Possible(Step(WAITING, fires), []) && AddedBy(Step(WAITING, fires), [], 7) == 0;
    assert [fires] + [] == [fires];
    hide *;
    OneEvent(WAITING, fires, []);
  }

  lemma WaitingIsSettled()
    ensures Settled(WAITING)
  {
    OneLeft(TWO_PACKETS);
    hide MinTicksLeft;
    assert ServeBoth(WAITING, 0) == WAITING;
  }

  // ----- timers that are late or fire for nothing -----

  const ONE_PACKET := Record(1, 1500, 0, false, 7)
  const PAID_UP := Record(1, 0, 0, false, 7)

  /** The record has paid exactly what it owed, `now` is in the millisecond after that. */
  function PaidUpAt(now: nat): State {
    DOWNLOADING.(clock := now, downloadLastTick := 1, download := [PAID_UP], timer := Armed(now + now - 1000))
  }

  lemma PaidUpReached(now: nat) returns (run: seq<Event>)
    requires 1000 <= now < 2000
    ensures Valid(INITIAL) && Possible(INITIAL, run) && After(INITIAL, run) == PaidUpAt(now) && Valid(PaidUpAt(now))
  {
    var start, fires := [SetConditions(0, SLOW_DOWNLOAD), Start(0, ONE_PACKET, false)], TimerFires(now);
    run := start + [fires];
    hide Valid, Possible, After, DownloadTime, OnTimer, PaidUpAt;
    AloneTime(0, ONE_PACKET, 1);
    StartsAlone(0, ONE_PACKET, false);
    assert After(INITIAL, start) == DOWNLOADING.(download := [ONE_PACKET], timer := Armed(1000));
    PaidUpNext(now);
    OneMore(INITIAL, start, fires);
  }

  lemma PaidUpNext(now: nat)
    requires 1000 <= now < 2000
    ensures OnTimer(DOWNLOADING.(download := [ONE_PACKET], timer := Armed(1000)), now) == PaidUpAt(now)
  {
    var s := DOWNLOADING.(download := [ONE_PACKET]);
    assert now / 1000 == 1;
    assert ServeHead([ONE_PACKET]) == [Charge(ONE_PACKET, 1)] == [PAID_UP];
    assert Serve([ONE_PACKET], 1) == Serve([PAID_UP], 0);
    assert CatchUp([ONE_PACKET], now, 0, 0, 1000) == [PAID_UP];
    assert CatchUp([], now, 0, 0, 0) == [];
    var served := DOWNLOADING.(clock := now, downloadLastTick := 1, download := [PAID_UP]);
    assert ServeBoth(s, now) == served;
    assert Filter(served.suspended, IsDue(now, false)) == [] && served.download + [] == served.download;
    assert UpdateThrottled(s, now) == served;
    FilterOne(PAID_UP, IsActive());
    FilterOne(PAID_UP, IsFinished());
    hide ServeBoth, UpdateThrottled, CatchUp;
    assert Collect(served) == served;
    OneLeft(PAID_UP);
    hide MinTicksLeft;
    assert DownloadTime(served) == 1000;
  }

  /** A balance of exactly zero cannot be collected before the next tick.  Until then the timer is set
      to the distance from the last tick: for nothing right after it, too late right before the next. */
  lemma ZeroBalanceTimer(now: nat)
    requires 1000 <= now < 2000
    ensures WellTimed(PaidUpAt(now)) && FirstWork(PaidUpAt(now)) == At(2000)
    ensures InTime(PaidUpAt(now)) <==> now <= 1500
    ensures WorkToDo(PaidUpAt(now), PaidUpAt(now).timer.at) <==> now >= 1500
    ensures PaidUpAt(1000).timer == Armed(1000) && PaidUpAt(1999).timer == Armed(2998)
  {
    var s := PaidUpAt(now);
    assert now / 1000 == 1;
    OneLeft(PAID_UP);
    hide FirstOverdrawn;
    assert FirstWork(s) == At(2000);
    InTimeExactly(s);
  }

  /** A firing in the middle of the tick sets the timer for the next tick, and the prompt firing then
      answers: a run that meets what the theorem about prompt firings asks for. */
  lemma PromptRun()
    ensures Valid(PaidUpAt(1500)) && Possible(PaidUpAt(1500), [TimerFires(2000)])
    ensures Prompt(PaidUpAt(1500), [TimerFires(2000)], 0) && PaidMoment(PaidUpAt(1500), 0) == 2000
  {
    var s, fires := PaidUpAt(1500), TimerFires(2000);
    var run := PaidUpReached(1500);
    PaidUpFires();
    hide Valid, Collected, Foreseeable, Step;
    OneEventRun(s, fires);
    StepKeepsValid(s, fires);
    assert [fires][1..] == [];
    hide After, Possible;
    assert Prompt(Step(s, fires), [], 0);
  }

  lemma PaidUpFires()
    ensures WellTimed(PaidUpAt(1500)) && Foreseeable(Collected(PaidUpAt(1500), 2000))
  {
    var s := PaidUpAt(1500);
    var u, v := UpdateThrottled(s.(timer := Stopped), 2000), Collected(s, 2000);
    assert WellTimed(s);
    QueueServed(s, 2000);
    assert ServeHead([PAID_UP]) == [Charge(PAID_UP, 1)];
    assert Serve([PAID_UP], 1) == Serve([Charge(PAID_UP, 1)], 0);
    assert u.download == [Charge(PAID_UP, 1)];
    hide UpdateThrottled;
    QueuesShrink(s, 2000);
    FilterOne(Charge(PAID_UP, 1), IsActive());
    assert v.download == [] && v.downloadLastTick == 2 && |v.upload| <= |s.upload| == 0;
    OneLeft(PAID_UP);
    hide Collected, MinTicksLeft;
  }

  /** The credit of a hundred packets. */
  const CREDIT := Record(1, -148600, 0, false, 7)
  const CREDIT_RUN := [SetConditions(0, SLOW_DOWNLOAD), Start(1000000, CREDIT, false)]

  /** A record that starts with credit can be collected at once, but has to wait for its distance. */
  lemma CreditWaits()
    ensures Valid(INITIAL) && Possible(INITIAL, CREDIT_RUN)
    ensures var s := After(INITIAL, CREDIT_RUN);
            && s.timer == Armed(1098000) && s.clock == 1000000 && s.download == [CREDIT]
            && WellTimed(s) && FirstWork(s) == At(1000000) && !InTime(s)
  {
    AloneTime(1000000, CREDIT, 1000 - 98);
    StartsAlone(1000000, CREDIT, false);
    CreditIsDue(1000000, 1098000);
    hide Valid, Possible, After, DownloadTime, WellTimed, FirstWork, InTime;
  }

  /** It can be collected at once. */
  lemma CreditIsDue(now: nat, at: int)
    requires now < at
    ensures var s := Alone(now, CREDIT).(timer := Armed(at));
            WellTimed(s) && FirstWork(s) == At(now) && !InTime(s)
  {
    var s := Alone(now, CREDIT).(timer := Armed(at));
    assert WellTimed(s);
    SingleWork(s, CREDIT, 1000, now / 1000);
    hide FirstWork, InTime, WellTimed;
    InTimeExactly(s);
  }

  const STALL_RUN := [SetConditions(0, SLOW_DOWNLOAD), Start(0, CREDIT, false)]

  /** The same record in the first tick: 98 ticks before tick zero are as good as never. */
  lemma CreditStalls()
    ensures Valid(INITIAL) && Possible(INITIAL, STALL_RUN)
    ensures var s := After(INITIAL, STALL_RUN);
            && s.timer == Armed(1000 * (UINT64_LIMIT - 98)) && s.clock == 0 && s.download == [CREDIT]
            && WellTimed(s) && FirstWork(s) == At(0) && !InTime(s)
  {
    AloneTime(0, CREDIT, -98);
    StartsAlone(0, CREDIT, false);
    CreditIsDue(0, 1000 * (UINT64_LIMIT - 98));
    hide Valid, Possible, After, DownloadTime, WellTimed, FirstWork, InTime;
  }

  const UPLOAD := Record(1, 1500, 0, true, 0)
  const UPLOAD_RUN := [SetConditions(0, SLOW_UPLOAD), Start(1000000, UPLOAD, false)]

  /** One packet on a link that only throttles uploads is through after two milliseconds, but the timer
      is set for a whole second later. */
  lemma UploadOnlyTimerIsLate()
    ensures Valid(INITIAL) && Possible(INITIAL, UPLOAD_RUN)
    ensures var s := After(INITIAL, UPLOAD_RUN);
            && s.timer == Armed(2000000) && s.clock == 1000000 && s.upload == [UPLOAD]
            && WellTimed(s) && FirstWork(s) == At(1002000) && !InTime(s)
  {
    var s := UPLOADING.(clock := 1000000, uploadLastTick := 1000, upload := [UPLOAD], timer := Armed(2000000));
    hide StartThrottle, UpdateConditions, Valid, Possible, After, WellTimed, FirstWork, InTime;
    ConditionsSet();
    LateUploadStarts(s);
    UploadIsDue(s);
    SetAndStart(SLOW_UPLOAD, UPLOAD_RUN[1], UPLOADING);
  }

  lemma UploadIsDue(s: State)
    requires s == UPLOADING.(clock := 1000000, uploadLastTick := 1000, upload := [UPLOAD], timer := Armed(2000000))
    ensures WellTimed(s) && FirstWork(s) == At(1002000) && !InTime(s)
  {
    assert WellTimed(s) && UPLOAD.bytes == 1500;
    SingleWork(s, UPLOAD, 1000, 1000);
    hide FirstWork, InTime, WellTimed;
    InTimeExactly(s);
  }

  lemma LateUploadStarts(s: State)
    requires s == UPLOADING.(clock := 1000000, uploadLastTick := 1000, upload := [UPLOAD], timer := Armed(2000000))
    ensures StartThrottle(UPLOADING, 1000000, UPLOAD, false) == s
  {
    NobodyServed(UPLOADING, 1000000);
    var u := s.(timer := Stopped);
    assert WellTimed(u);
    hide UpdateThrottled, ArmTimer, WellTimed, InTime, FirstWork, TickAt;
    assert Join(UpdateThrottled(UPLOADING, 1000000), 1000000, UPLOAD, false) == u.(upload := [] + [UPLOAD]);
    assert [] + [UPLOAD] == [UPLOAD];
    UploadOnlyTimer(u);
    ArmTimerDrains(u, 1000000);
    ArmTimerFrame(u, 1000000);
  }

  // ----- a download answered although almost all of it is still to come -----

  const WHOLE := Record(1, 1500000, 0, false, 7)
  const EMPTY := Record(0, 0, 0, false, 8)
  const WHOLE_RUN := [SetConditions(0, SLOW_DOWNLOAD), Start(0, WHOLE, false)]
  const WHOLE_QUEUED := DOWNLOADING.(download := [WHOLE], timer := Armed(1000000))
  const EMPTY_STARTS := Start(0, EMPTY, true)
  const DRAIN_RUN := WHOLE_RUN + [EMPTY_STARTS]

  lemma WholeIsQueued()
    ensures Valid(INITIAL) && Possible(INITIAL, WHOLE_RUN) && After(INITIAL, WHOLE_RUN) == WHOLE_QUEUED
  {
    AloneTime(0, WHOLE, 1000);
    StartsAlone(0, WHOLE, false);
    hide Valid, Possible, After, DownloadTime;
  }

  /** A response without bytes, started in the first tick, answers everybody. */
  lemma EmptyResponseDrains()
    ensures Valid(INITIAL) && Possible(INITIAL, DRAIN_RUN)
    ensures var s := After(INITIAL, DRAIN_RUN);
            s.conditions.IsThrottling() && s.download == [] && s.log == [Completion(7, 1, 1500000), Completion(8, 0, 0)]
  {
    hide Valid, Possible, After, Enabled, Step;
    WholeIsQueued();
    SecondDrains();
    OneMore(INITIAL, WHOLE_RUN, EMPTY_STARTS);
  }

  lemma NoTimeNoChange(s: State)
    requires WellTimed(s) && s.suspended == []
    ensures UpdateThrottled(s, s.clock) == s
  {
    assert ServeBoth(s, s.clock) == s;
  }

  lemma EmptyIsPredictedNow()
    ensures MinTicksLeft([WHOLE, EMPTY]) == 0
  {
    assert TicksLeft([WHOLE, EMPTY], 0) == 1999 && TicksLeft([WHOLE, EMPTY], 1) == 0;
  }

  lemma SecondJoins()
    ensures Valid(WHOLE_QUEUED) && Enabled(WHOLE_QUEUED, EMPTY_STARTS)
    ensures Step(WHOLE_QUEUED, EMPTY_STARTS) == ArmTimer(WHOLE_QUEUED.(download := [WHOLE, EMPTY]), 0)
  {
    var first := WHOLE_QUEUED;
    ConditionsSet();
    assert Valid(first);
    hide UpdateThrottled, ArmTimer, Valid, TickAt;
    NoTimeNoChange(first);
    assert [WHOLE] + [EMPTY] == [WHOLE, EMPTY];
    assert Join(first, 0, EMPTY, true) == first.(download := [WHOLE, EMPTY]);
  }

  lemma SecondDrains()
    ensures Valid(WHOLE_QUEUED) && Enabled(WHOLE_QUEUED, EMPTY_STARTS)
    ensures var s := Step(WHOLE_QUEUED, EMPTY_STARTS);
            s.conditions.IsThrottling() && s.download == [] && s.log == [Completion(7, 1, 1500000), Completion(8, 0, 0)]
  {
    var joined := WHOLE_QUEUED.(download := [WHOLE, EMPTY]);
    EmptyIsPredictedNow();
    assert Drains(joined) && Drained(joined) == [WHOLE, EMPTY];
    assert CompleteAll([WHOLE, EMPTY], false) == [Completion(7, 1, 1500000), Completion(8, 0, 0)];
    hide ArmTimer, CompleteAll, Drains, Drained, Step, Valid;
    SecondJoins();
    ArmTimerDrains(joined, 0);
    ArmTimerFrame(joined, 0);
  }

  // ----- stranded uploads -----

  function Uploading(bytes: int): Record {
    Record(1, bytes, 0, true, 7)
  }

  /** Switching off upload throttling after a millisecond leaves an upload of `bytes` in a queue without
      ticks, with bytes to pay if it started with more than a packet, overdrawn if it started with less. */
  lemma UploadGetsStranded(bytes: int) returns (run: seq<Event>)
    ensures Valid(INITIAL) && Possible(INITIAL, run)
    ensures Stranded(After(INITIAL, run)) && After(INITIAL, run).upload == [Uploading(bytes - 1500)]
  {
    ConditionsSet();
    var r := Uploading(bytes);
    var start, change := Start(0, r, false), SetConditions(1000, SLOW_DOWNLOAD);
    SetAndStart(SLOW_BOTH, start, LOADING);
    UploadStarts(r);
    StartThrottleKeepsValid(LOADING, 0, r, false);
    var s := Step(LOADING, start);
    SwitchedOff(s, r);
    assert Enabled(s, change) && Step(s, change) == UpdateConditions(s, 1000, SLOW_DOWNLOAD);
    run := [SetConditions(0, SLOW_BOTH), start] + [change];
    assert Charge(r, 1) == Uploading(bytes - 1500);
    hide *;
    OneMore(INITIAL, [SetConditions(0, SLOW_BOTH), start], change);
  }

  lemma UploadStarts(r: Record)
    requires r.result >= 0 && r.isUpload
    ensures var s := Step(LOADING, Start(0, r, false));
            s == LOADING.(upload := [r], timer := s.timer)
  {
    NobodyServed(LOADING, 0);
    hide UpdateThrottled, MinTicksLeft;
    assert Join(LOADING, 0, r, false) == LOADING.(upload := [] + [r]);
    assert CompleteAll([], false) == [];
  }

  lemma SwitchedOff(s: State, r: Record)
    requires s == LOADING.(upload := [r], timer := s.timer) && r.isUpload
    ensures var t := UpdateConditions(s, 1000, SLOW_DOWNLOAD);
            t.upload == [Charge(r, 1)] && t.uploadTickLength == 0 && t.conditions == SLOW_DOWNLOAD
  {
    MillisecondTicks();
    assert ServeHead([r]) == [Charge(r, 1)];
    assert Serve([r], 1) == Serve([Charge(r, 1)], 0);
    assert CatchUp([r], 1000, 0, 0, 1000) == [Charge(r, 1)];
    var served := ServeBoth(s, 1000);
    assert served.upload == [Charge(r, 1)] && served.suspended == [];
    hide ServeBoth, TickLength, CatchUp;
    assert Filter(served.suspended, IsDue(1000, true)) == [];
    assert UpdateThrottled(s, 1000).upload == served.upload + [];
    hide UpdateThrottled, MinTicksLeft;
  }
}
