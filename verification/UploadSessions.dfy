/**
  A throttled upload stream and its interceptor, over whole runs.  The stream has one callback for
  all its reads, and a reset forgives what is still owed.
 */
module UploadSessions {
  import opened Sequences
  import opened RoundRobin
  import opened Emulation
  import opened Runs
  import opened Accounts

  /** `attached`: the interceptor is set and still exists. */
  datatype Upload = Upload(attached: bool, callback: nat, balance: int)

  datatype ReadOutcome = ReadOutcome(upload: Upload, net: State, answer: int)

  /** The callback of the stream takes over the bytes it is handed. */
  function Deliver(u: Upload, completions: seq<Completion>): Upload
    decreases |completions|
  {
    if completions == [] then u
    else
      Deliver(if completions[0].callback == u.callback then u.(balance := completions[0].bytes) else u,
              completions[1..])
  }

  /** The results handed on to the reader of the stream, one for each callback of the stream. */
  function ReadResults(callback: nat, completions: seq<Completion>): seq<int>
    decreases |completions|
  {
    if completions == [] then []
    else (if completions[0].callback == callback then [completions[0].result] else [])
         + ReadResults(callback, completions[1..])
  }

  function RecordOf(u: Upload, result: int): Record {
    Record(result, u.balance + result, 0, true, u.callback)
  }

  /** `result` is what the wrapped stream read. */
  function ThrottleRead(u: Upload, net: State, now: int, result: int): ReadOutcome
    requires Ready(net) && net.clock <= now
  {
    if !u.attached || result < 0 then ReadOutcome(u, net, result)
    else
      var after := StartThrottle(net, now, RecordOf(u, result), false);
      ReadOutcome(Deliver(u.(balance := u.balance + result), NewCompletions(net, after)), after,
                  ImmediateAnswer(net.conditions, result, true))
  }

  function ResetNet(u: Upload, net: State): State {
    if u.attached then StopThrottle(net, u.callback) else net
  }

  // ----- sessions -----

  datatype Session = Session(net: State, upload: Upload, charged: int, packets: nat, forgiven: int)

  /** `Attach` gives the stream an interceptor in whatever state, which knows nothing of the stream;
      an interceptor goes away when it has been unthrottled. */
  datatype SessionEvent =
    | Other(event: Event)
    | Read(now: int, result: int)
    | Reset
    | Attach(net: State)
    | InterceptorGone

  predicate Owes(s: Session, bytes: int) {
    s.charged == s.packets * PACKET_SIZE + s.forgiven + bytes
  }

  predicate OwesQueued(s: Session) {
    exists r :: r in Queued(s.net) && r.callback == s.upload.callback && r.isUpload && Owes(s, r.bytes)
  }

  /** The bytes not yet served are in the queued record, or in the balance between reads. */
  predicate Consistent(s: Session) {
    && Valid(s.net)
    && Outstanding(s.net, s.upload.callback) <= 1
    && (if Outstanding(s.net, s.upload.callback) == 1 then s.upload.attached && OwesQueued(s)
        else Owes(s, s.upload.balance))
  }

  /** Others use callbacks of their own; a read starts when the last one has ended. */
  predicate Possible(s: Session, e: SessionEvent) {
    match e
    case Other(event) =>
      && Enabled(s.net, event)
      && (event.Start? ==> event.record.callback != s.upload.callback)
      && event != Stop(s.upload.callback)
    case Read(now, _) => Outstanding(s.net, s.upload.callback) == 0 && s.net.clock <= now
    case Reset => true
    case Attach(net) => !s.upload.attached && Valid(net) && Outstanding(net, s.upload.callback) == 0
    case InterceptorGone => !s.net.conditions.offline && !s.net.conditions.IsThrottling()
  }

  /** What a reset writes off. */
  ghost function Owed(s: Session): int {
    s.charged - s.packets * PACKET_SIZE - s.forgiven
  }

  ghost function Next(s: Session, e: SessionEvent): Session
    requires Consistent(s) && Possible(s, e)
  {
    match e
    case Other(event) =>
      var net := Step(s.net, event);
      s.(net := net, upload := Deliver(s.upload, NewCompletions(s.net, net)),
         packets := s.packets + StepPackets(s.net, event, s.upload.callback))
    case Read(now, result) =>
      var o := ThrottleRead(s.upload, s.net, now, result);
      s.(net := o.net, upload := o.upload, charged := s.charged + if s.upload.attached && result > 0 then result else 0)
    case Reset =>
      s.(net := ResetNet(s.upload, s.net), upload := s.upload.(balance := 0), forgiven := s.forgiven + Owed(s))
    case Attach(net) => s.(net := net, upload := s.upload.(attached := true))
    case InterceptorGone => s.(upload := s.upload.(attached := false))
  }

  lemma {:induction false} DeliverOthers(u: Upload, completions: seq<Completion>)
    requires CountRan(completions, u.callback) == 0
    ensures Deliver(u, completions) == u
    decreases |completions|
  {
    if completions != [] {
      assert completions == completions[..1] + completions[1..];
      CountRanConcat(completions[..1], completions[1..], u.callback);
      assert completions[..1][..0] == [];
      DeliverOthers(u, completions[1..]);
    }
  }

  lemma {:induction false} DeliverOne(u: Upload, completions: seq<Completion>, i: nat)
    requires i < |completions| && completions[i].callback == u.callback && CountRan(completions, u.callback) == 1
    ensures Deliver(u, completions) == u.(balance := completions[i].bytes)
    decreases |completions|
  {
    var rest := completions[1..];
    assert completions == completions[..1] + rest;
    CountRanConcat(completions[..1], rest, u.callback);
    assert completions[..1][..0] == [];
    if i == 0 {
      DeliverOthers(u.(balance := completions[0].bytes), rest);
    } else {
      assert rest[i - 1] == completions[i];
      CountRanMember(rest, i - 1);
      DeliverOne(u, rest, i - 1);
    }
  }

  /** A record that was kept is still queued, or its balance is the balance of the stream. */
  lemma Delivery(before: State, after: State, u: Upload, r: Record)
    requires r.callback == u.callback
    requires Kept(before, after, r) && Ledger(after, r.callback) == CountRan(before.log, r.callback) + 1
    ensures Outstanding(after, r.callback) <= 1
    ensures if Outstanding(after, r.callback) == 1
            then r in Queued(after) && Deliver(u, NewCompletions(before, after)) == u
            else Deliver(u, NewCompletions(before, after)) == u.(balance := r.bytes)
  {
    hide Outstanding, CountRan, Queued, Deliver, Kept, NewCompletions;
    var place := QueuedOrRan(before, after, r);
    if Outstanding(after, r.callback) == 1 {
      DeliverOthers(u, NewCompletions(before, after));
    } else {
      DeliverOne(u, NewCompletions(before, after), place);
    }
  }

  /** What others do does not reach an idle stream. */
  lemma NothingDelivered(net: State, event: Event, u: Upload)
    requires Valid(net) && Enabled(net, event) && Outstanding(net, u.callback) == 0
    requires (event.Start? ==> event.record.callback != u.callback) && event != Stop(u.callback)
    ensures Deliver(u, NewCompletions(net, Step(net, event))) == u && Outstanding(Step(net, event), u.callback) == 0
    ensures Valid(Step(net, event)) && StepPackets(net, event, u.callback) == 0
  {
    hide Step, Valid, Outstanding, Deliver, StepPackets, CountRan, Enabled;
    StepKeepsValid(net, event);
    StepLedger(net, event, u.callback);
    StepGrows(net, event);
    AbsentGetsNothing(net, event, u.callback);
    var ran := NewCompletions(net, Step(net, event));
    assert Step(net, event).log == net.log + ran;
    CountRanConcat(net.log, ran, u.callback);
    DeliverOthers(u, ran);
  }

  lemma OtherWhileIdle(s: Session, event: Event)
    requires Consistent(s) && Possible(s, Other(event)) && Outstanding(s.net, s.upload.callback) == 0
    ensures Consistent(Next(s, Other(event)))
  {
    hide Step, Valid, Outstanding, Deliver, StepPackets, Enabled, OwesQueued, NewCompletions;
    NothingDelivered(s.net, event, s.upload);
  }

  lemma OtherWhileQueued(s: Session, event: Event, r: Record)
    requires Consistent(s) && Possible(s, Other(event)) && Outstanding(s.net, s.upload.callback) == 1
    requires r in Queued(s.net) && r.callback == s.upload.callback && r.isUpload && Owes(s, r.bytes)
    ensures Consistent(Next(s, Other(event)))
  {
    var t := Next(s, Other(event));
    var packets := StepPackets(s.net, event, r.callback);
    assert t.packets == s.packets + packets;
    hide Step, Valid, Enabled, Outstanding, Deliver, StepPackets, Queued, NewCompletions, OwesQueued, CountRan;
    var charged := Charge(r, packets);
    StepKeepsValid(s.net, event);
    StepConserves(s.net, event, r);
    StepLedger(s.net, event, r.callback);
    Delivery(s.net, t.net, s.upload, charged);
    assert Owes(t, charged.bytes);
    if Outstanding(t.net, r.callback) == 1 {
      WitnessOwes(t, charged);
    }
  }

  lemma WitnessOwes(s: Session, r: Record)
    requires r in Queued(s.net) && r.callback == s.upload.callback && r.isUpload && Owes(s, r.bytes)
    ensures OwesQueued(s)
  {
  }

  lemma ReadKeepsConsistent(s: Session, now: int, result: int)
    requires Consistent(s) && Possible(s, Read(now, result))
    ensures Consistent(Next(s, Read(now, result)))
  {
    if s.upload.attached && Queues(s.net, result, true) {
      var t := Next(s, Read(now, result));
      var r := RecordOf(s.upload, result);
      ReadStarts(s, now, result, t, r);
      hide Step, Valid, Outstanding, Deliver, Queued, NewCompletions, OwesQueued, ThrottleRead;
      DeliveredOrQueued(s.net, now, r, s.upload.(balance := s.upload.balance + result));
      assert Owes(t, r.bytes);
      if Outstanding(t.net, r.callback) == 1 {
        WitnessOwes(t, r);
      }
    } else {
      hide Valid, Outstanding, Enqueue;
    }
  }

  lemma ReadStarts(s: Session, now: int, result: int, t: Session, r: Record)
    requires Consistent(s) && Possible(s, Read(now, result)) && s.upload.attached && Queues(s.net, result, true)
    requires t == Next(s, Read(now, result)) && r == RecordOf(s.upload, result)
    ensures r.callback == s.upload.callback && r.isUpload && r.bytes == s.upload.balance + result && r.result == result
    ensures t == s.(net := StartThrottle(s.net, now, r, false), charged := s.charged + result,
                    upload := Deliver(s.upload.(balance := s.upload.balance + result), NewCompletions(s.net, t.net)))
  {
    hide Valid, Outstanding, Deliver, StartThrottle, OwesQueued;
  }

  /** A record that has just started is queued, or its callback has been delivered with its balance. */
  lemma DeliveredOrQueued(net: State, now: int, r: Record, reading: Upload)
    requires Valid(net) && net.clock <= now && Outstanding(net, r.callback) == 0 && r.callback == reading.callback
    requires Queues(net, r.result, r.isUpload)
    ensures var t := StartThrottle(net, now, r, false);
            && Valid(t) && Outstanding(t, r.callback) <= 1
            && (if Outstanding(t, r.callback) == 1
                then r in Queued(t) && Deliver(reading, NewCompletions(net, t)) == reading
                else Deliver(reading, NewCompletions(net, t)) == reading.(balance := r.bytes))
  {
    assert Ready(net);
    hide Valid, Outstanding, Deliver, Queued, NewCompletions, StartThrottle, CountRan;
    StepKeepsValid(net, Start(now, r, false));
    StartStep(net, now, r, false);
    Delivery(net, StartThrottle(net, now, r, false), reading, r);
  }

  lemma ResetKeepsConsistent(s: Session)
    requires Consistent(s)
    ensures Consistent(Next(s, Reset)) && Outstanding(Next(s, Reset).net, s.upload.callback) == 0
  {
    StopThrottleKeepsValid(s.net, s.upload.callback);
    CountWithout(s.net.download, s.upload.callback, s.upload.callback);
    CountWithout(s.net.upload, s.upload.callback, s.upload.callback);
    CountWithout(s.net.suspended, s.upload.callback, s.upload.callback);
    hide Valid, Count, Filter;
  }

  lemma NextKeepsConsistent(s: Session, e: SessionEvent)
    requires Consistent(s) && Possible(s, e)
    ensures Consistent(Next(s, e))
  {
    match e
    case Other(event) =>
      if Outstanding(s.net, s.upload.callback) == 1 {
        var r :| r in Queued(s.net) && r.callback == s.upload.callback && r.isUpload && Owes(s, r.bytes);
        OtherWhileQueued(s, event, r);
      } else {
        OtherWhileIdle(s, event);
      }
    case Read(now, result) => ReadKeepsConsistent(s, now, result);
    case Reset => ResetKeepsConsistent(s);
    case Attach(net) => AttachKeepsConsistent(s, net);
    case InterceptorGone => GoneKeepsConsistent(s);
  }

  /** What was charged before stays charged. */
  lemma AttachKeepsConsistent(s: Session, net: State)
    requires Consistent(s) && Possible(s, Attach(net))
    ensures Consistent(Next(s, Attach(net)))
  {
    hide Valid, Outstanding, OwesQueued;
  }

  /** An interceptor that does not throttle has nothing of the stream queued. */
  lemma GoneKeepsConsistent(s: Session)
    requires Consistent(s) && Possible(s, InterceptorGone)
    ensures Consistent(Next(s, InterceptorGone))
  {
    assert Queued(s.net) == [];
    assert s.net.download == [] && s.net.upload == [] && s.net.suspended == [];
    assert Outstanding(s.net, s.upload.callback) == 0;
    hide Valid, Outstanding, OwesQueued, Queued;
  }

  ghost predicate AllPossible(s: Session, run: seq<SessionEvent>)
    requires Consistent(s)
    decreases |run|
  {
    run == [] || (Possible(s, run[0]) && (NextKeepsConsistent(s, run[0]); AllPossible(Next(s, run[0]), run[1..])))
  }

  ghost function AfterAll(s: Session, run: seq<SessionEvent>): (t: Session)
    requires Consistent(s) && AllPossible(s, run)
    ensures Consistent(t)
    decreases |run|
  {
    if run == [] then s
    else
      NextKeepsConsistent(s, run[0]);
      AfterAll(Next(s, run[0]), run[1..])
  }

  function Begin(callback: nat, attached: bool): (s: Session)
    ensures Consistent(s)
  {
    Session(INITIAL, Upload(attached, callback, 0), 0, 0, 0)
  }

  /** Over every run: what was charged was served in whole packets, forgiven by resets, or is still
      owed: in the queued record during a read, in the balance of the stream between reads. */
  lemma {:induction false} UploadBytesConserved(callback: nat, attached: bool, run: seq<SessionEvent>)
    requires AllPossible(Begin(callback, attached), run)
    ensures var s := AfterAll(Begin(callback, attached), run);
            && s.upload.callback == callback && Outstanding(s.net, callback) <= 1
            && (Outstanding(s.net, callback) == 0 ==>
                s.charged == s.packets * PACKET_SIZE + s.forgiven + s.upload.balance)
            && (Outstanding(s.net, callback) == 1 ==>
                  exists r :: r in Queued(s.net) && r.callback == callback
                              && s.charged == s.packets * PACKET_SIZE + s.forgiven + r.bytes)
  {
    CallbackStays(Begin(callback, attached), run);
    hide Valid, Outstanding, AfterAll, AllPossible;
  }

  lemma {:induction false} DeliverKeepsCallback(u: Upload, completions: seq<Completion>)
    ensures Deliver(u, completions).callback == u.callback
    decreases |completions|
  {
    if completions != [] {
      DeliverKeepsCallback(if completions[0].callback == u.callback then u.(balance := completions[0].bytes) else u,
                           completions[1..]);
    }
  }

  lemma NextKeepsCallback(s: Session, e: SessionEvent)
    requires Consistent(s) && Possible(s, e)
    ensures Next(s, e).upload.callback == s.upload.callback
  {
    hide Valid, Outstanding, Deliver, Step, StepPackets, StartThrottle, OwesQueued;
    var t := Next(s, e);
    if e.Other? {
      DeliverKeepsCallback(s.upload, NewCompletions(s.net, t.net));
    } else if e.Read? {
      DeliverKeepsCallback(s.upload.(balance := s.upload.balance + e.result), NewCompletions(s.net, t.net));
    }
  }

  lemma {:induction false} CallbackStays(s: Session, run: seq<SessionEvent>)
    requires Consistent(s) && AllPossible(s, run)
    ensures AfterAll(s, run).upload.callback == s.upload.callback
    decreases |run|
  {
    hide Consistent, Possible, Next;
    if run != [] {
      NextKeepsConsistent(s, run[0]);
      NextKeepsCallback(s, run[0]);
      CallbackStays(Next(s, run[0]), run[1..]);
    }
  }
}
