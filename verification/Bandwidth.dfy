/** The bandwidth that an interceptor really gives to a queue, over whole runs. */
module Bandwidth {
  import opened Sequences
  import opened RoundRobin
  import opened TickPrediction
  import opened Throughput
  import opened Emulation
  import opened Runs
  import opened ThrottleLife

  function RateOf(c: Conditions, isUpload: bool): Rate {
    if isUpload then c.upload else c.download
  }

  function LastTickOf(s: State, isUpload: bool): nat {
    if isUpload then s.uploadLastTick else s.downloadLastTick
  }

  // ----- what is charged -----

  /** The bytes the records of a queue are charged when the queues catch up with `now`. */
  function DeductedUntil(s: State, now: int, isUpload: bool): int
    requires WellTimed(s) && s.clock <= now
  {
    TotalBytes(QueueOf(s, isUpload)) - TotalBytes(QueueOf(ServeBoth(s, now), isUpload))
  }

  /** The events that make the queues catch up with the clock. */
  predicate Serves(s: State, e: Event) {
    match e
    case SetConditions(_, _) => s.conditions.IsThrottling()
    case Start(_, r, _) => Queues(s, r.result, r.isUpload)
    case Stop(_) => false
    case TimerFires(_) => true
  }

  function Deducted(s: State, e: Event, isUpload: bool): int
    requires Valid(s) && Enabled(s, e)
  {
    if Serves(s, e) then DeductedUntil(s, e.now, isUpload) else 0
  }

  /** The sum over a run. */
  function RunDeducted(s: State, run: seq<Event>, isUpload: bool): int
    requires Valid(s) && Possible(s, run)
    decreases |run|
  {
    if run == [] then 0
    else
      StepKeepsValid(s, run[0]);
      Deducted(s, run[0], isUpload) + RunDeducted(Step(s, run[0]), run[1..], isUpload)
  }

  /** The queue is not empty at any event of the run. */
  predicate Busy(s: State, run: seq<Event>, isUpload: bool)
    requires Valid(s) && Possible(s, run)
    decreases |run|
  {
    run == [] ||
    (QueueOf(s, isUpload) != [] && (StepKeepsValid(s, run[0]); Busy(Step(s, run[0]), run[1..], isUpload)))
  }

  // ----- one event -----

  /** Catching up charges one packet for each tick that has passed. */
  lemma PacketPerTick(s: State, now: int, isUpload: bool)
    requires Valid(s) && s.conditions.IsThrottling() && s.clock <= now
    requires QueueOf(s, isUpload) != [] && RateOf(s.conditions, isUpload) > 0.0
    ensures WellTimed(s)
    ensures var length := TickLength(RateOf(s.conditions, isUpload));
            && LastTickOf(s, isUpload) == TickAt(s.clock, s.offset, length)
            && DeductedUntil(s, now, isUpload)
              == (TickAt(now, s.offset, length) - LastTickOf(s, isUpload)) * PACKET_SIZE
  {
    TicksAdvance(s.clock, now, s.offset, s.downloadTickLength);
    TicksAdvance(s.clock, now, s.offset, s.uploadTickLength);
    var q, last := QueueOf(s, isUpload), LastTickOf(s, isUpload);
    var length := TickLength(RateOf(s.conditions, isUpload));
    var ticks := TickAt(now, s.offset, length) - last;
    assert QueueOf(ServeBoth(s, now), isUpload) == Serve(q, ticks);
    ServeTotal(q, ticks);
  }

  /** An event that does not make the queues catch up leaves the clock alone; others set it to the
      moment up to which everybody was charged. */
  lemma ClockFollows(s: State, e: Event)
    requires Valid(s) && Enabled(s, e) && !e.SetConditions?
    ensures Step(s, e).offset == s.offset && Step(s, e).conditions == s.conditions
    ensures Step(s, e).clock == if Serves(s, e) then e.now else s.clock
    ensures Serves(s, e) ==> s.conditions.IsThrottling() && WellTimed(s) && s.clock <= e.now
  {
    match e
    case Start(now, r, start) =>
      if Queues(s, r.result, r.isUpload) {
        EnqueueFrame(s, now, r, start);
      }
    case Stop(callback) =>
    case TimerFires(now) =>
      OnTimerFrame(s, now);
  }

  lemma EnqueueFrame(s: State, now: int, r: Record, start: bool)
    requires WellTimed(s) && s.clock <= now
    ensures var t := Enqueue(s, now, r, start); t.offset == s.offset && t.conditions == s.conditions && t.clock == now
  {
    UpdateThrottledFrame(s, now);
    ArmTimerFrame(Join(UpdateThrottled(s, now), now, r, start), now);
    hide UpdateThrottled, ArmTimer, Filter, WellTimed;
  }

  lemma OnTimerFrame(s: State, now: int)
    requires WellTimed(s) && s.clock <= now
    ensures var t := OnTimer(s, now); t.offset == s.offset && t.conditions == s.conditions && t.clock == now
  {
    var stopped := s.(timer := Stopped);
    UpdateThrottledFrame(stopped, now);
    ArmTimerFrame(Collect(UpdateThrottled(stopped, now)), now);
    hide UpdateThrottled, ArmTimer, Filter, WellTimed, CompleteAll;
  }

  // ----- whole runs -----

  /** However the ticks are spread over the events of a run, and whoever joins or leaves: a queue that is
      never empty is charged one packet for every tick of the whole time. */
  lemma {:induction false} RunPacketPerTick(s: State, run: seq<Event>, isUpload: bool)
    requires Valid(s) && s.conditions.IsThrottling() && RateOf(s.conditions, isUpload) > 0.0
    requires Possible(s, run) && Quiet(run) && Busy(s, run, isUpload)
    ensures s.offset <= s.clock <= After(s, run).clock
    ensures var length := TickLength(RateOf(s.conditions, isUpload));
            RunDeducted(s, run, isUpload)
            == (TickAt(After(s, run).clock, s.offset, length) - TickAt(s.clock, s.offset, length)) * PACKET_SIZE
    decreases |run|
  {
    assert s.offset <= s.clock;
    if run != [] {
      var e := run[0];
      StepKeepsValid(s, e);
      ClockFollows(s, e);
      if Serves(s, e) {
        PacketPerTick(s, e.now, isUpload);
      }
      assert Enabled(s, e);
      hide Valid, Step, Enabled, TickAt, DeductedUntil, Serves, QueueOf, TickLength;
      RunPacketPerTick(Step(s, e), run[1..], isUpload);
    }
  }

  /** The queue starts in the first tick after its conditions were set, and is never empty. */
  predicate BusyFromOffset(s: State, run: seq<Event>, isUpload: bool) {
    && Valid(s) && s.conditions.IsThrottling() && LastTickOf(s, isUpload) == 0
    && Possible(s, run) && Quiet(run) && Busy(s, run, isUpload)
  }

  /** From the offset on, and from any moment of the first tick. */
  lemma BytesSinceOffset(s: State, run: seq<Event>, isUpload: bool)
    requires BusyFromOffset(s, run, isUpload) && RateOf(s.conditions, isUpload) > 0.0
    ensures After(s, run).clock >= s.offset
    ensures RunDeducted(s, run, isUpload)
         == BytesAfter(RateOf(s.conditions, isUpload), After(s, run).clock - s.offset)
  {
    hide Valid, Possible, After, Quiet, Busy, RunDeducted, RateOf, BytesAfter, LastTickOf, TickLength, TickAt;
    NoTicksYet(s, isUpload);
    RunPacketPerTick(s, run, isUpload);
    BytesAreTicks(RateOf(s.conditions, isUpload), s.offset, After(s, run).clock);
  }

  lemma NoTicksYet(s: State, isUpload: bool)
    requires Valid(s) && s.conditions.IsThrottling() && LastTickOf(s, isUpload) == 0
    ensures s.offset <= s.clock && TickAt(s.clock, s.offset, TickLength(RateOf(s.conditions, isUpload))) == 0
  {
    hide TickAt, TickLength;
  }

  lemma BytesAreTicks(throughput: Rate, offset: int, now: int)
    requires throughput > 0.0 && offset <= now
    ensures BytesAfter(throughput, now - offset) == TickAt(now, offset, TickLength(throughput)) * PACKET_SIZE
  {
    hide TickLength;
  }

  /** A busy queue is never more than a packet behind the requested throughput, up to 1.5e9 bytes per
      second. */
  lemma NeverTooSlow(s: State, run: seq<Event>, isUpload: bool)
    requires BusyFromOffset(s, run, isUpload) && 0.0 < RateOf(s.conditions, isUpload) <= FASTEST
    ensures var elapsed := After(s, run).clock - s.offset;
            && elapsed >= 0
            && WithinOnePacket(RateOf(s.conditions, isUpload), elapsed, RunDeducted(s, run, isUpload))
  {
    var elapsed := After(s, run).clock - s.offset;
    hide *;
    BytesSinceOffset(s, run, isUpload);
    TicksAreFastEnough(RateOf(s.conditions, isUpload), elapsed);
  }

  /** And never ahead of it by more than the rounding of one tick. */
  lemma NeverTooFast(s: State, run: seq<Event>, isUpload: bool)
    requires BusyFromOffset(s, run, isUpload) && RateOf(s.conditions, isUpload) > 0.0
    ensures var elapsed := After(s, run).clock - s.offset;
            && elapsed >= 0
            && WithinRoundingAbove(RateOf(s.conditions, isUpload), elapsed, RunDeducted(s, run, isUpload))
  {
    var elapsed := After(s, run).clock - s.offset;
    hide *;
    BytesSinceOffset(s, run, isUpload);
    TicksAreSlowEnough(RateOf(s.conditions, isUpload), elapsed);
  }

  /** All runs of busy queues with this throughput keep up with it. */
  ghost predicate KeepsUp(throughput: real, isUpload: bool) {
    forall s: State, run: seq<Event> ::
      BusyFromOffset(s, run, isUpload) && RateOf(s.conditions, isUpload) == throughput && throughput > 0.0
      && After(s, run).clock >= s.offset ==>
        WithinOnePacket(throughput, After(s, run).clock - s.offset, RunDeducted(s, run, isUpload))
  }

  /** A tick cannot be shorter than a microsecond, so busy queues keep up with a requested throughput in
      all runs exactly if it is at most 1.5e9 bytes per second. */
  lemma KeepsUpExactly(throughput: real, isUpload: bool)
    requires throughput > 0.0
    ensures KeepsUp(throughput, isUpload) <==> throughput <= FASTEST
  {
    hide Valid, Possible, After, RunDeducted, Quiet, Busy, LastTickOf, RateOf, WithinOnePacket;
    if throughput <= FASTEST {
      forall s: State, run: seq<Event> |
        BusyFromOffset(s, run, isUpload) && RateOf(s.conditions, isUpload) == throughput && throughput > 0.0
        && After(s, run).clock >= s.offset
        ensures WithinOnePacket(throughput, After(s, run).clock - s.offset, RunDeducted(s, run, isUpload))
      {
        NeverTooSlow(s, run, isUpload);
      }
    } else {
      var first, s, run := FallsBehindInRun(throughput, isUpload);
    }
  }

  // ----- a link that falls behind -----

  function Only(throughput: Rate, isUpload: bool): Conditions {
    Conditions(false, 0.0, if isUpload then 0.0 else throughput, if isUpload then throughput else 0.0)
  }

  /** Whole packets to last for longer than `elapsed` ticks, but not a multiple of 2^64. */
  function PacketsBeyond(elapsed: nat): (packets: nat)
    ensures packets > elapsed && packets % UINT64_LIMIT != 0
  {
    if (elapsed + 1) % UINT64_LIMIT == 0 then elapsed + 2 else elapsed + 1
  }

  function Long(elapsed: nat, isUpload: bool): Record {
    Record(1, PacketsBeyond(elapsed) * PACKET_SIZE, 0, isUpload, 0)
  }

  lemma OnlyThisRate(throughput: Rate, isUpload: bool)
    requires throughput > 0.0
    ensures var c := Only(throughput, isUpload); c.IsThrottling() && RateOf(c, isUpload) == throughput
  {
  }

  lemma ConditionsSet(throughput: Rate, isUpload: bool)
    requires throughput > 0.0
    ensures var t := UpdateConditions(INITIAL, 0, Only(throughput, isUpload));
            && Valid(t) && t.conditions == Only(throughput, isUpload) && t.clock == t.offset == 0
            && t.download == t.upload == t.suspended == []
  {
    UpdateConditionsKeepsValid(INITIAL, 0, Only(throughput, isUpload));
    hide TickLength;
  }

  /** A long record that starts alone with the conditions is not drained. */
  lemma LongStarts(t: State, elapsed: nat, isUpload: bool)
    requires Valid(t) && t.conditions.IsThrottling() && RateOf(t.conditions, isUpload) > 0.0
    requires t.clock == t.offset == 0 && t.download == t.upload == t.suspended == []
    ensures var s := Step(t, Start(0, Long(elapsed, isUpload), false));
            && QueueOf(s, isUpload) == [Long(elapsed, isUpload)] && LastTickOf(s, isUpload) == 0
            && s.conditions == t.conditions && s.clock == s.offset == 0
  {
    var r, e := Long(elapsed, isUpload), Start(0, Long(elapsed, isUpload), false);
    assert Queues(t, r.result, r.isUpload) && Enabled(t, e);
    ClockFollows(t, e);
    NobodyServed(t, 0);
    var u := UpdateThrottled(t, 0);
    var joined := Join(u, 0, r, false);
    assert QueueOf(joined, isUpload) == [] + [r] == [r] && LastTickOf(joined, isUpload) == 0;
    assert Step(t, e) == ArmTimer(joined, 0);
    if !isUpload {
      LongIsNotDrained(joined, elapsed);
    }
    ArmTimerFrame(joined, 0);
    hide Step, UpdateThrottled, Join, ArmTimer, DownloadTime, Valid, WellTimed;
  }

  lemma LongIsNotDrained(joined: State, elapsed: nat)
    requires joined.download == [Long(elapsed, false)] && joined.downloadLastTick == 0 && joined.downloadTickLength > 0
    ensures DownloadTime(joined) != joined.offset
  {
    var p := PacketsBeyond(elapsed);
    OneLeft(Long(elapsed, false));
    assert PacketsLeft(p * PACKET_SIZE) == p by {
      PacketsLeftCovers(p * PACKET_SIZE, p);
      PacketsLeftCovers(p * PACKET_SIZE, p - 1);
    }
    assert MinTicksLeft(joined.download) == p;
    hide MinTicksLeft;
    MultiplyMonotone(1, p % UINT64_LIMIT, joined.downloadTickLength);
  }

  /** Conditions with one throughput, and one long record that starts with them. */
  lemma LongQueued(throughput: Rate, elapsed: nat, isUpload: bool) returns (first: seq<Event>, s: State)
    requires throughput > 0.0
    ensures Valid(INITIAL) && Possible(INITIAL, first) && s == After(INITIAL, first)
    ensures QueueOf(s, isUpload) != [] && LastTickOf(s, isUpload) == 0 && s.clock == s.offset == 0
    ensures s.conditions == Only(throughput, isUpload)
  {
    var conditions, start := Only(throughput, isUpload), Start(0, Long(elapsed, isUpload), false);
    var t := UpdateConditions(INITIAL, 0, conditions);
    first := [SetConditions(0, conditions), start];
    ConditionsSet(throughput, isUpload);
    SetAndStart(conditions, start, t);
    LongStarts(t, elapsed, isUpload);
    s := Step(t, start);
    hide *;
  }

  lemma StartServes(s: State, e: Event)
    requires Valid(s) && s.conditions.IsThrottling()
    requires e.Start? && e.record.result >= 0 && e.now >= s.clock && RateOf(s.conditions, e.record.isUpload) > 0.0
    ensures Enabled(s, e) && Serves(s, e)
  {
    hide Valid;
  }

  /** Nothing happens for a while, until a last event has the queue served. */
  lemma ThenServed(s: State, elapsed: nat, isUpload: bool) returns (run: seq<Event>)
    requires Valid(s) && s.conditions.IsThrottling() && RateOf(s.conditions, isUpload) > 0.0
    requires QueueOf(s, isUpload) != [] && LastTickOf(s, isUpload) == 0 && s.clock == s.offset == 0
    ensures BusyFromOffset(s, run, isUpload) && After(s, run).clock == elapsed
  {
    var e := Start(elapsed, Record(1, 1, 0, isUpload, 1), false);
    run := [e];
    hide Valid, Possible, Enabled, Serves, Quiet, Busy, QueueOf, LastTickOf, RateOf, After, Step;
    StartServes(s, e);
    ClockFollows(s, e);
    OneEvent(s, e, isUpload);
  }

  /** Above the limit a run from the initial state falls behind with one long record in the queue. */
  lemma FallsBehindInRun(throughput: real, isUpload: bool) returns (first: seq<Event>, s: State, run: seq<Event>)
    requires throughput > FASTEST
    ensures Valid(INITIAL) && Possible(INITIAL, first) && s == After(INITIAL, first)
    ensures BusyFromOffset(s, run, isUpload) && RateOf(s.conditions, isUpload) == throughput
    ensures After(s, run).clock >= s.offset
    ensures !WithinOnePacket(throughput, After(s, run).clock - s.offset, RunDeducted(s, run, isUpload))
  {
    assert throughput > 0.0;
    hide *;
    var elapsed := FallsBehind(throughput);
    first, s := LongQueued(throughput, elapsed, isUpload);
    OnlyThisRate(throughput, isUpload);
    run := ThenServed(s, elapsed, isUpload);
    TooFewBytes(s, run, isUpload, throughput, elapsed);
  }

  lemma TooFewBytes(s: State, run: seq<Event>, isUpload: bool, throughput: real, elapsed: nat)
    requires BusyFromOffset(s, run, isUpload) && throughput > 0.0 && RateOf(s.conditions, isUpload) == throughput
    requires After(s, run).clock == elapsed && s.offset == 0
    requires !WithinOnePacket(throughput, elapsed, BytesAfter(throughput, elapsed))
    ensures After(s, run).clock >= s.offset
    ensures !WithinOnePacket(throughput, After(s, run).clock - s.offset, RunDeducted(s, run, isUpload))
  {
    hide Valid, Possible, After, Quiet, Busy, RunDeducted, RateOf, BytesAfter, WithinOnePacket, LastTickOf;
    BytesSinceOffset(s, run, isUpload);
  }

  /** A run of one event for a queue that is not empty. */
  lemma OneEvent(s: State, e: Event, isUpload: bool)
    requires Valid(s) && Enabled(s, e) && !e.SetConditions? && QueueOf(s, isUpload) != []
    ensures Possible(s, [e]) && Quiet([e]) && After(s, [e]) == Step(s, e) && Busy(s, [e], isUpload)
  {
    OneEventRun(s, e);
    StepKeepsValid(s, e);
    hide Step, Enabled, Valid, QueueOf, Possible, After;
  }
}
