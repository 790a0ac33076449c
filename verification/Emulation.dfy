/**
  The state machine of one network interceptor, on values.

  Bandwidth is described with the naive round robin `Serve`; class NetworkInterceptor
  (module Interceptor) is proved to implement these functions with the closed forms.
 */
module Emulation {
  import opened Sequences
  import opened RoundRobin
  import opened TickPrediction
  import opened Throughput

  const ERR_IO_PENDING: int := -1
  const ERR_INTERNET_DISCONNECTED: int := -106
  const UINT64_LIMIT: int := 0x1_0000_0000_0000_0000

  type Rate = r: real | r >= 0.0

  datatype Conditions = Conditions(offline: bool, latency: Rate, download: Rate, upload: Rate) {
    predicate IsThrottling() {
      !offline && (latency != 0.0 || download != 0.0 || upload != 0.0)
    }

    /** The emulator refuses conditions that only add latency. */
    predicate Acceptable() {
      IsThrottling() ==> download != 0.0 || upload != 0.0
    }

    /** In microseconds; the latency itself is in milliseconds. */
    function LatencyLength(): nat {
      if latency > 0.0 then (latency * 1000.0).Floor else 0
    }
  }

  /** A callback that has been run, with what it was given. */
  datatype Completion = Completion(callback: nat, result: int, bytes: int)

  datatype Timer = Stopped | Armed(at: int)

  /** `clock` is the time of the last look at the clock; `log` lists the callbacks run so far. */
  datatype State = State(
    conditions: Conditions,
    suspended: seq<Record>,
    download: seq<Record>,
    upload: seq<Record>,
    timer: Timer,
    offset: int,
    downloadTickLength: nat,
    uploadTickLength: nat,
    latencyLength: nat,
    downloadLastTick: nat,
    uploadLastTick: nat,
    clock: int,
    log: seq<Completion>)

  const ONLINE := Conditions(false, 0.0, 0.0, 0.0)
  const INITIAL := State(ONLINE, [], [], [], Stopped, 0, 0, 0, 0, 0, 0, 0, [])

  function Queued(s: State): seq<Record> {
    s.download + s.upload + s.suspended
  }

  function QueueOf(s: State, isUpload: bool): seq<Record> {
    if isUpload then s.upload else s.download
  }

  /** The callbacks run between two states. */
  function NewCompletions(before: State, after: State): seq<Completion> {
    if |before.log| <= |after.log| then after.log[|before.log|..] else []
  }

  // ----- invariant -----

  /** The number of whole ticks between the offset and `now`. */
  function TickAt(now: int, offset: int, tickLength: nat): (tick: nat)
    requires offset <= now
  {
    if tickLength == 0 then 0 else (now - offset) / tickLength
  }

  /** The tick lengths and the latency follow from the conditions. */
  predicate RatesMatch(s: State) {
    && s.downloadTickLength == TickLength(s.conditions.download)
    && s.uploadTickLength == TickLength(s.conditions.upload)
    && s.latencyLength == s.conditions.LatencyLength()
  }

  /** The tick counters follow from the clock. */
  predicate WellTimed(s: State) {
    && s.offset <= s.clock
    && s.downloadLastTick == TickAt(s.clock, s.offset, s.downloadTickLength)
    && s.uploadLastTick == TickAt(s.clock, s.offset, s.uploadTickLength)
  }

  /** What the operations that look at the clock rely on. */
  predicate Ready(s: State) {
    s.conditions.IsThrottling() ==> WellTimed(s)
  }

  predicate KindsSeparated(s: State) {
    && (forall r :: r in s.download ==> !r.isUpload)
    && (forall r :: r in s.upload ==> r.isUpload)
  }

  predicate Valid(s: State) {
    && s.conditions.Acceptable()
    && KindsSeparated(s)
    && (if s.conditions.IsThrottling()
        then
          && RatesMatch(s) && WellTimed(s)
          && (Queued(s) != [] ==> s.timer.Armed?)
          && (s.downloadTickLength == 0 ==> s.download == [])
        else Queued(s) == [] && s.timer == Stopped)
  }

  // ----- operations -----

  function Complete(r: Record, offline: bool): (c: Completion)
  {
    Completion(r.callback, if offline && !r.isUpload then ERR_INTERNET_DISCONNECTED else r.result, r.bytes)
  }

  /** FinishRecords: the callbacks of a whole queue. */
  function CompleteAll(q: seq<Record>, offline: bool): seq<Completion>
  {
    seq(|q|, i requires 0 <= i < |q| => Complete(q[i], offline))
  }

  function IsDue(baseline: int, upload: bool): Record -> bool {
    (r: Record) => r.sendEnd <= baseline && r.isUpload == upload
  }

  function IsWaiting(baseline: int): Record -> bool {
    (r: Record) => r.sendEnd > baseline
  }

  function IsFinished(): Record -> bool {
    (r: Record) => r.bytes < 0
  }

  function IsActive(): Record -> bool {
    (r: Record) => r.bytes >= 0
  }

  function IsOther(callback: nat): Record -> bool {
    (r: Record) => r.callback != callback
  }

  /** A queue after the ticks that passed up to `now`; without ticks it stays as it is. */
  function CatchUp(q: seq<Record>, now: int, offset: int, lastTick: nat, tickLength: nat): (r: seq<Record>)
    requires offset <= now && lastTick <= TickAt(now, offset, tickLength)
    ensures |r| == |q|
  {
    if tickLength == 0 then q else Serve(q, TickAt(now, offset, tickLength) - lastTick)
  }

  /** Suspended records whose latency is over join the end of their queue. */
  function Activate(s: State, now: int): State {
    var baseline := now - s.latencyLength;
    s.(download := s.download + Filter(s.suspended, IsDue(baseline, false)),
       upload := s.upload + Filter(s.suspended, IsDue(baseline, true)),
       suspended := Filter(s.suspended, IsWaiting(baseline)))
  }

  lemma TicksAdvance(before: int, now: int, offset: int, tickLength: nat)
    requires offset <= before <= now
    ensures TickAt(before, offset, tickLength) <= TickAt(now, offset, tickLength)
  {
    if tickLength != 0 {
      DivisionMonotone(before - offset, now - offset, tickLength);
    }
  }

  function ServeBoth(s: State, now: int): State
    requires WellTimed(s) && s.clock <= now
  {
    TicksAdvance(s.clock, now, s.offset, s.downloadTickLength);
    TicksAdvance(s.clock, now, s.offset, s.uploadTickLength);
    s.(download := CatchUp(s.download, now, s.offset, s.downloadLastTick, s.downloadTickLength),
       upload := CatchUp(s.upload, now, s.offset, s.uploadLastTick, s.uploadTickLength),
       downloadLastTick := TickAt(now, s.offset, s.downloadTickLength),
       uploadLastTick := TickAt(now, s.offset, s.uploadTickLength),
       clock := now)
  }

  function UpdateThrottled(s: State, now: int): (r: State)
    requires WellTimed(s) && s.clock <= now
    ensures WellTimed(r) && r.clock == now
  {
    Activate(ServeBoth(s, now), now)
  }

  function DesiredTime(q: seq<Record>, offset: int, lastTick: nat, tickLength: nat): int {
    offset + tickLength * ((lastTick + MinTicksLeft(q)) % UINT64_LIMIT)
  }

  function MinSendEnd(q: seq<Record>): (m: int)
    requires q != []
    ensures forall r :: r in q ==> m <= r.sendEnd
    ensures exists r :: r in q && m == r.sendEnd
  {
    var last := q[|q| - 1];
    assert q == q[..|q| - 1] + [last];
    if |q| == 1 then last.sendEnd
    else
      var m := MinSendEnd(q[..|q| - 1]);
      if last.sendEnd < m then last.sendEnd else m
  }

  function Magnitude(d: int): nat {
    if d < 0 then -d else d
  }

  function DownloadTime(s: State): int {
    DesiredTime(s.download, s.offset, s.downloadLastTick, s.downloadTickLength)
  }

  function UploadTime(s: State): int {
    DesiredTime(s.upload, s.offset, s.uploadLastTick, s.uploadTickLength)
  }

  /** The moment the timer is set for, before the distance to `now` is taken. */
  function WakeUpTime(s: State): int {
    var time := if UploadTime(s) != s.offset && UploadTime(s) < DownloadTime(s) then UploadTime(s) else DownloadTime(s);
    if s.suspended != [] && MinSendEnd(s.suspended) + s.latencyLength < time
    then MinSendEnd(s.suspended) + s.latencyLength
    else time
  }

  function ArmTimer(s: State, now: int): State {
    if Queued(s) == [] then s.(timer := Stopped)
    else
      var armed := s.(timer := Armed(now + Magnitude(WakeUpTime(s) - now)));
      if DownloadTime(s) == s.offset
      then armed.(download := [], log := s.log + CompleteAll(s.download, false))
      else armed
  }

  /** The state UpdateConditions arms the timer from when the new conditions throttle. */
  function Retimed(s: State, now: int, conditions: Conditions): State {
    s.(conditions := conditions, clock := now, offset := now,
       downloadLastTick := 0, downloadTickLength := TickLength(conditions.download),
       uploadLastTick := 0, uploadTickLength := TickLength(conditions.upload),
       latencyLength := conditions.LatencyLength())
  }

  function UpdateConditions(s: State, now: int, conditions: Conditions): State
    requires Ready(s) && s.clock <= now
  {
    var s1 := if s.conditions.IsThrottling() then UpdateThrottled(s, now) else s;
    if conditions.offline || !conditions.IsThrottling() then
      s1.(conditions := conditions, clock := now, timer := Stopped, download := [], upload := [], suspended := [],
          log := s1.log + CompleteAll(s1.download, conditions.offline) + CompleteAll(s1.upload, conditions.offline)
                        + CompleteAll(s1.suspended, conditions.offline))
    else
      ArmTimer(Retimed(s1, now, conditions), now)
  }

  /** What StartThrottle answers without queueing anything, if it does. */
  function ImmediateAnswer(conditions: Conditions, result: int, isUpload: bool): (answer: int)
    ensures answer == ERR_IO_PENDING && result >= 0 ==> conditions.IsThrottling()
  {
    if result < 0 then result
    else if conditions.offline then (if isUpload then result else ERR_INTERNET_DISCONNECTED)
    else if (if isUpload then conditions.upload else conditions.download) == 0.0 then result
    else ERR_IO_PENDING
  }

  predicate Queues(s: State, result: int, isUpload: bool) {
    result >= 0 && ImmediateAnswer(s.conditions, result, isUpload) == ERR_IO_PENDING
  }

  /** A new record waits for its latency first, if there is one to wait for. */
  function Join(s: State, now: int, r: Record, start: bool): State
  {
    if start && s.latencyLength != 0 then Activate(s.(suspended := s.suspended + [r]), now)
    else if r.isUpload then s.(upload := s.upload + [r])
    else s.(download := s.download + [r])
  }

  /** The queueing part of StartThrottle; `r.sendEnd` matters only if `start`. */
  function Enqueue(s: State, now: int, r: Record, start: bool): State
    requires WellTimed(s) && s.clock <= now
  {
    ArmTimer(Join(UpdateThrottled(s, now), now, r, start), now)
  }

  function StartThrottle(s: State, now: int, r: Record, start: bool): State
    requires Ready(s) && s.clock <= now
  {
    if Queues(s, r.result, r.isUpload) then Enqueue(s, now, r, start) else s
  }

  function StopThrottle(s: State, callback: nat): State {
    s.(download := Filter(s.download, IsOther(callback)),
       upload := Filter(s.upload, IsOther(callback)),
       suspended := Filter(s.suspended, IsOther(callback)))
  }

  function Collect(s: State): State {
    s.(download := Filter(s.download, IsActive()),
       upload := Filter(s.upload, IsActive()),
       log := s.log + CompleteAll(Filter(s.download, IsFinished()) + Filter(s.upload, IsFinished()), false))
  }

  function OnTimer(s: State, now: int): State
    requires WellTimed(s) && s.clock <= now
  {
    ArmTimer(Collect(UpdateThrottled(s.(timer := Stopped), now)), now)
  }

  // ----- the invariant is kept by every operation -----

  lemma {:induction false} ServeKeepsKind(q: seq<Record>, ticks: nat, isUpload: bool)
    requires forall r :: r in q ==> r.isUpload == isUpload
    ensures forall r :: r in Serve(q, ticks) ==> r.isUpload == isUpload
    decreases ticks
  {
    if ticks != 0 {
      ServeKeepsKind(ServeHead(q), ticks - 1, isUpload);
    }
  }

  lemma ServeBothKeepsKinds(s: State, now: int)
    requires WellTimed(s) && s.clock <= now && KindsSeparated(s)
    ensures KindsSeparated(ServeBoth(s, now))
  {
    TicksAdvance(s.clock, now, s.offset, s.downloadTickLength);
    TicksAdvance(s.clock, now, s.offset, s.uploadTickLength);
    ServeKeepsKind(s.download, TickAt(now, s.offset, s.downloadTickLength) - s.downloadLastTick, false);
    ServeKeepsKind(s.upload, TickAt(now, s.offset, s.uploadTickLength) - s.uploadLastTick, true);
  }

  /** Arming establishes the timer and empties a download queue that has no ticks. */
  lemma ArmTimerEstablishes(s: State, now: int)
    requires s.conditions.Acceptable() && s.conditions.IsThrottling()
    requires RatesMatch(s) && WellTimed(s) && KindsSeparated(s)
    ensures Valid(ArmTimer(s, now))
  {
  }

  /** Arming touches the timer, the download queue and the log only. */
  lemma ArmTimerFrame(s: State, now: int)
    ensures var t := ArmTimer(s, now); t == s.(timer := t.timer, download := t.download, log := t.log)
    ensures ArmTimer(s, now).download
         == if Queued(s) != [] && DownloadTime(s) == s.offset then [] else s.download
  {
    hide WakeUpTime, DownloadTime, CompleteAll;
  }

  /** Catching up touches the queues, the ticks and the clock only. */
  lemma UpdateThrottledFrame(s: State, now: int)
    requires WellTimed(s) && s.clock <= now
    ensures var t := UpdateThrottled(s, now);
            t == s.(download := t.download, upload := t.upload, suspended := t.suspended,
                    downloadLastTick := t.downloadLastTick, uploadLastTick := t.uploadLastTick, clock := now)
  {
    hide TickAt, Serve, Filter;
  }

  lemma ActivateKeepsKinds(s: State, now: int)
    requires KindsSeparated(s)
    ensures KindsSeparated(Activate(s, now))
  {
    var baseline := now - s.latencyLength;
    FilterMembers(s.suspended, IsDue(baseline, false));
    FilterMembers(s.suspended, IsDue(baseline, true));
  }

  lemma UpdateThrottledKeepsKinds(s: State, now: int)
    requires WellTimed(s) && s.clock <= now && KindsSeparated(s)
    ensures KindsSeparated(UpdateThrottled(s, now))
  {
    ServeBothKeepsKinds(s, now);
    ActivateKeepsKinds(ServeBoth(s, now), now);
  }

  lemma JoinKeepsKinds(s: State, now: int, r: Record, start: bool)
    requires KindsSeparated(s)
    ensures KindsSeparated(Join(s, now, r, start))
  {
    if start && s.latencyLength != 0 {
      ActivateKeepsKinds(s.(suspended := s.suspended + [r]), now);
    }
  }

  lemma UpdateConditionsKeepsValid(s: State, now: int, conditions: Conditions)
    requires Valid(s) && s.clock <= now && conditions.Acceptable()
    ensures Valid(UpdateConditions(s, now, conditions))
    ensures conditions.offline || !conditions.IsThrottling() ==> Queued(UpdateConditions(s, now, conditions)) == []
  {
    if conditions.IsThrottling() {
      if s.conditions.IsThrottling() {
        UpdateThrottledKeepsKinds(s, now);
        ArmTimerEstablishes(Retimed(UpdateThrottled(s, now), now, conditions), now);
      } else {
        ArmTimerEstablishes(Retimed(s, now, conditions), now);
      }
    }
  }

  lemma EnqueueKeepsValid(s: State, now: int, r: Record, start: bool)
    requires Valid(s) && s.conditions.IsThrottling() && s.clock <= now
    ensures Valid(Enqueue(s, now, r, start))
  {
    UpdateThrottledKeepsKinds(s, now);
    var s1 := UpdateThrottled(s, now);
    JoinKeepsKinds(s1, now, r, start);
    ArmTimerEstablishes(Join(s1, now, r, start), now);
  }

  lemma StartThrottleKeepsValid(s: State, now: int, r: Record, start: bool)
    requires Valid(s) && s.clock <= now
    ensures Valid(StartThrottle(s, now, r, start))
  {
    if Queues(s, r.result, r.isUpload) {
      EnqueueKeepsValid(s, now, r, start);
    }
  }

  lemma StopThrottleKeepsValid(s: State, callback: nat)
    requires Valid(s)
    ensures Valid(StopThrottle(s, callback))
  {
    FilterMembers(s.download, IsOther(callback));
    FilterMembers(s.upload, IsOther(callback));
    FilterMembers(s.suspended, IsOther(callback));
  }

  lemma CollectKeepsKinds(s: State)
    requires KindsSeparated(s)
    ensures KindsSeparated(Collect(s))
  {
    FilterMembers(s.download, IsActive());
    FilterMembers(s.upload, IsActive());
  }

  lemma OnTimerKeepsValid(s: State, now: int)
    requires Valid(s) && s.timer.Armed? && s.clock <= now
    ensures Valid(OnTimer(s, now))
  {
    var s0 := s.(timer := Stopped);
    UpdateThrottledKeepsKinds(s0, now);
    var s1 := UpdateThrottled(s0, now);
    CollectKeepsKinds(s1);
    ArmTimerEstablishes(Collect(s1), now);
  }
}
