/**
  One transaction and its interceptor together, over whole runs.

  Other users of the interceptor and the clock act freely.  The callbacks an interceptor runs
  reach the transaction at once; what the caller does next is a later event.
 */
module Sessions {
  import opened Wrappers
  import opened Sequences
  import opened RoundRobin
  import opened Emulation
  import opened Runs
  import opened Accounts
  import opened TransactionSteps

  /** What the wrapped transaction is busy with: nothing, a call that will be throttled when it
      ends, or a call that never saw an interceptor. */
  datatype Io = NoIo | ThrottledIo(start: bool) | RawIo

  /** `mine` are the callbacks this transaction ever bound, `charged` the bytes its Throttle calls
      added to the balance, `packets` the packets the round robin served to its callbacks. */
  datatype Session = Session(net: State, txn: Transaction, nextCallback: nat, mine: set<nat>, io: Io, charged: int,
                             packets: nat)

  datatype Call = StartCall(found: bool) | RestartCall | ReadCall

  datatype SessionEvent =
    | Other(event: Event)
    | Caller(call: Call, now: int, result: int, received: nat, sendEnd: int)
    | ResumeNetworkStart(result: int)
    | IoDone(now: int, result: int, received: nat, sendEnd: int)
    | RawIoDone
    | InterceptorGone

  // ----- invariant -----

  /** The record of the outstanding callback holds what is not yet served. */
  predicate BalanceQueued(s: Session, callback: nat) {
    exists r :: r in Queued(s.net) && r.callback == callback && !r.isUpload
                && s.charged == s.packets * PACKET_SIZE + r.bytes
  }

  predicate BalanceKnown(s: Session) {
    match s.txn.throttleCallback
    case None => s.charged == s.packets * PACKET_SIZE + s.txn.balance
    case Some(callback) => callback in s.mine && s.txn.attached && s.io == NoIo && BalanceQueued(s, callback)
  }

  /** A callback of the transaction is queued, once, exactly while it is the current one. */
  ghost predicate CallbacksKnown(s: Session) {
    && (forall id: nat :: id >= s.nextCallback ==> Outstanding(s.net, id) == 0)
    && (forall id: nat :: id in s.mine ==>
          id < s.nextCallback && Outstanding(s.net, id) == if s.txn.throttleCallback == Some(id) then 1 else 0)
  }

  ghost predicate Consistent(s: Session) {
    Valid(s.net) && Sound(s.txn) && CallbacksKnown(s) && BalanceKnown(s)
  }

  function Begin(): (s: Session)
    ensures Consistent(s)
  {
    Session(INITIAL, NEW, 0, {}, NoIo, 0, 0)
  }

  // ----- steps -----

  /** Callbacks of others are new ones, and others stop only their own. */
  predicate Possible(s: Session, e: SessionEvent) {
    match e
    case Other(event) =>
      && Enabled(s.net, event)
      && (event.Start? ==> event.record.callback == s.nextCallback)
      && (event.Stop? ==> event.callback !in s.mine)
    case Caller(_, now, _, _, _) => s.io == NoIo && s.txn.throttleCallback == None && s.net.clock <= now
    case ResumeNetworkStart(_) => true
    case IoDone(now, result, _, _) =>
      s.io.ThrottledIo? && result != ERR_IO_PENDING && s.txn.throttleCallback == None && s.net.clock <= now
    case RawIoDone => s.io == RawIo
    case InterceptorGone => !s.net.conditions.offline && !s.net.conditions.IsThrottling()
  }

  /** The current callback was served these packets by an event of somebody else. */
  function PacketsFor(s: Session, e: Event): nat
    requires Valid(s.net) && Enabled(s.net, e)
  {
    match s.txn.throttleCallback
    case None => 0
    case Some(callback) => StepPackets(s.net, e, callback)
  }

  function Located(t: Transaction, call: Call): Transaction {
    if call.StartCall? then t.(hasRequest := true, attached := t.attached || call.found) else t
  }

  /** What a call leaves the wrapped transaction busy with, given its checked transaction. */
  function IoOf(checked: Transaction, start: bool, result: int): Io {
    if checked.failed || result != ERR_IO_PENDING then NoIo else if checked.attached then ThrottledIo(start) else RawIo
  }

  function OutcomeOf(s: Session, e: SessionEvent): Outcome
    requires Consistent(s) && Possible(s, e) && (e.Caller? || e.IoDone? || e.ResumeNetworkStart?)
  {
    match e
    case Caller(call, now, result, received, sendEnd) =>
      Operate(Located(s.txn, call), s.net, now, !call.ReadCall?, result, received, sendEnd, s.nextCallback)
    case IoDone(now, result, received, sendEnd) =>
      Throttle(s.txn, s.net, now, s.io.start, result, received, sendEnd, s.nextCallback)
    case ResumeNetworkStart(result) =>
      IdleUnlessThrottling(s);
      Resume(s.txn, s.net, result)
  }

  /** The bytes an event costs: what a call received before it, if it starts something, and its result.  A
      call that finds its interceptor offline costs nothing; one that ends there does. */
  function ChargedBy(s: Session, e: SessionEvent): nat {
    match e
    case Caller(call, _, result, received, _) =>
      if s.txn.failed || !(s.txn.attached || call == StartCall(true)) || s.net.conditions.offline || result < 0 then 0
      else (if call == ReadCall then 0 else received) + result
    case IoDone(_, result, received, _) =>
      if s.txn.failed || !s.txn.attached || result < 0 then 0
      else (if s.io == ThrottledIo(true) then received else 0) + result
    case _ => 0
  }

  function Next(s: Session, e: SessionEvent): Session
    requires Consistent(s) && Possible(s, e)
  {
    match e
    case Other(event) =>
      var net := Step(s.net, event);
      s.(net := net, txn := Deliver(s.txn, NewCompletions(s.net, net)), packets := s.packets + PacketsFor(s, event),
         nextCallback := if event.Start? then s.nextCallback + 1 else s.nextCallback)
    case Caller(call, _, result, _, _) =>
      var o := OutcomeOf(s, e);
      s.(net := o.net, txn := o.transaction, charged := s.charged + ChargedBy(s, e),
         nextCallback := s.nextCallback + 1, mine := s.mine + {s.nextCallback},
         io := IoOf(CheckFailed(Located(s.txn, call), s.net), !call.ReadCall?, result))
    case ResumeNetworkStart(_) => s.(txn := OutcomeOf(s, e).transaction)
    case IoDone(_, _, _, _) =>
      var o := OutcomeOf(s, e);
      s.(net := o.net, txn := o.transaction, charged := s.charged + ChargedBy(s, e),
         nextCallback := s.nextCallback + 1, mine := s.mine + {s.nextCallback}, io := NoIo)
    case RawIoDone => s.(io := NoIo)
    case InterceptorGone => s.(txn := s.txn.(attached := false))
  }

  // ----- the invariant is kept -----

  /** An interceptor that is offline or does not throttle has nobody's callback. */
  lemma IdleUnlessThrottling(s: Session)
    requires Consistent(s)
    ensures s.txn.throttleCallback.Some? ==> s.net.conditions.IsThrottling()
  {
    hide WellTimed, RatesMatch, KindsSeparated, Outstanding;
  }

  lemma {:induction false} DeliverOthers(t: Transaction, completions: seq<Completion>)
    requires Sound(t)
    requires t.throttleCallback.Some? ==> CountRan(completions, t.throttleCallback.value) == 0
    ensures Deliver(t, completions) == t
    decreases |completions|
  {
    if completions != [] {
      assert completions == completions[..1] + completions[1..];
      if t.throttleCallback.Some? {
        CountRanConcat(completions[..1], completions[1..], t.throttleCallback.value);
        assert completions[..1][..0] == [];
      }
      DeliverOthers(t, completions[1..]);
    }
  }

  lemma {:induction false} DeliverOne(t: Transaction, completions: seq<Completion>, i: nat)
    requires Sound(t) && i < |completions| && t.throttleCallback == Some(completions[i].callback)
    requires CountRan(completions, completions[i].callback) == 1
    ensures Deliver(t, completions) == ThrottleCallback(t, completions[i].result, completions[i].bytes)
    decreases |completions|
  {
    var callback := completions[i].callback;
    var rest := completions[1..];
    assert completions == completions[..1] + rest;
    CountRanConcat(completions[..1], rest, callback);
    assert completions[..1][..0] == [];
    if i == 0 {
      DeliverOthers(ThrottleCallback(t, completions[0].result, completions[0].bytes), rest);
    } else {
      assert rest[i - 1] == completions[i];
      CountRanMember(rest, i - 1);
      DeliverOne(t, rest, i - 1);
    }
  }

  /** A transaction whose record `r` was kept either still waits for it, or got its callback. */
  predicate Delivered(before: Transaction, after: Transaction, net: State, r: Record) {
    || (after == before && r in Queued(net) && Outstanding(net, r.callback) == 1)
    || (Outstanding(net, r.callback) == 0
        && ((Sound(before) && before.throttleCallback.Some?) ==>
              || after == ThrottleCallback(before, Complete(r, false).result, r.bytes)
              || after == ThrottleCallback(before, Complete(r, true).result, r.bytes)))
  }

  lemma Delivery(before: State, after: State, t: Transaction, r: Record)
    requires Sound(t) && t.throttleCallback == Some(r.callback)
    requires Kept(before, after, r) && Ledger(after, r.callback) == CountRan(before.log, r.callback) + 1
    ensures Delivered(t, Deliver(t, NewCompletions(before, after)), after, r)
  {
    hide Outstanding, CountRan, Queued, Deliver, Kept, NewCompletions;
    var place := QueuedOrRan(before, after, r);
    if Outstanding(after, r.callback) == 1 {
      DeliverOthers(t, NewCompletions(before, after));
    } else {
      DeliverOne(t, NewCompletions(before, after), place);
    }
  }

  /** Either way the balance of `r` is where it belongs. */
  lemma DeliveredKnown(s: Session, before: Transaction, r: Record)
    requires Sound(before) && before.attached && before.throttleCallback == Some(r.callback)
    requires Delivered(before, s.txn, s.net, r)
    requires s.charged == s.packets * PACKET_SIZE + r.bytes && !r.isUpload && r.callback in s.mine && s.io == NoIo
    ensures BalanceKnown(s) && Sound(s.txn)
    ensures s.txn.throttleCallback == None || s.txn.throttleCallback == Some(r.callback)
    ensures Outstanding(s.net, r.callback) == if s.txn.throttleCallback == Some(r.callback) then 1 else 0
  {
    hide Outstanding, Queued;
  }

  /** The ledger for a callback that an event neither adds nor drops. */
  lemma OthersUnmoved(before: State, e: Event, id: nat)
    requires Valid(before) && Enabled(before, e)
    requires Added(before, e, id) == 0 && Dropped(before, e, id) == 0
    ensures Outstanding(Step(before, e), id) <= Outstanding(before, id)
    ensures Ledger(Step(before, e), id) == Ledger(before, id)
  {
    StepLedger(before, e, id);
    StepGrows(before, e);
    CountRanGrows(before.log, Step(before, e).log, id);
  }

  lemma OtherKeepsCallbacks(s: Session, event: Event)
    requires Consistent(s) && Possible(s, Other(event))
    ensures forall id: nat :: id >= Next(s, Other(event)).nextCallback ==> Outstanding(Step(s.net, event), id) == 0
    ensures forall id: nat :: id in s.mine ==> Outstanding(Step(s.net, event), id) <= Outstanding(s.net, id)
  {
    hide Step, Outstanding, Valid, Sound, BalanceKnown, Deliver, StepPackets, NewCompletions;
    forall id: nat | id >= Next(s, Other(event)).nextCallback || id in s.mine
      ensures Outstanding(Step(s.net, event), id) <= Outstanding(s.net, id)
    {
      OthersUnmoved(s.net, event, id);
    }
  }

  /** With the current callback accounted for, the others have only to stay away. */
  lemma CallbacksStay(s: Session, t: Session, current: nat)
    requires forall id: nat :: id >= t.nextCallback ==> Outstanding(t.net, id) == 0
    requires current < t.nextCallback
    requires forall id: nat :: id in t.mine && id != current ==> id < t.nextCallback && Outstanding(t.net, id) == 0
    requires t.txn.throttleCallback == None || t.txn.throttleCallback == Some(current)
    requires Outstanding(t.net, current) == if t.txn.throttleCallback == Some(current) then 1 else 0
    ensures CallbacksKnown(t)
  {
    hide Outstanding;
  }

  lemma OtherWhileIdle(s: Session, event: Event)
    requires Consistent(s) && Possible(s, Other(event)) && s.txn.throttleCallback == None
    ensures Consistent(Next(s, Other(event)))
  {
    var t := Next(s, Other(event));
    StepKeepsValid(s.net, event);
    OtherKeepsCallbacks(s, event);
    DeliverOthers(s.txn, NewCompletions(s.net, t.net));
    assert t.txn == s.txn && t.net == Step(s.net, event) && t.packets == s.packets;
    hide Next, Step, Valid, Sound, Enabled, Outstanding, Deliver, StepPackets, NewCompletions, Possible;
  }

  lemma OtherWhileQueued(s: Session, event: Event, r: Record)
    requires Consistent(s) && Possible(s, Other(event)) && s.txn.throttleCallback == Some(r.callback)
    requires r in Queued(s.net) && !r.isUpload && s.charged == s.packets * PACKET_SIZE + r.bytes
    ensures Consistent(Next(s, Other(event)))
  {
    hide *;
    var t := Next(s, Other(event));
    OtherShape(s, event, r);
    var charged := Charge(r, StepPackets(s.net, event, r.callback));
    StepKeepsValid(s.net, event);
    OtherKeepsCallbacks(s, event);
    StepConserves(s.net, event, r);
    OthersUnmoved(s.net, event, r.callback);
    Delivery(s.net, t.net, s.txn, charged);
    DeliveredKnown(t, s.txn, charged);
    CallbacksStay(s, t, r.callback);
    Whole(t);
  }

  lemma OtherShape(s: Session, event: Event, r: Record)
    requires Consistent(s) && Possible(s, Other(event)) && s.txn.throttleCallback == Some(r.callback)
    requires r in Queued(s.net) && !r.isUpload && s.charged == s.packets * PACKET_SIZE + r.bytes
    ensures Valid(s.net) && Enabled(s.net, event) && Sound(s.txn) && s.txn.attached && s.io == NoIo
    ensures r.callback in s.mine && Outstanding(s.net, r.callback) == 1 && event != Stop(r.callback)
    ensures Added(s.net, event, r.callback) == 0 && Dropped(s.net, event, r.callback) == 0
    ensures Ledger(s.net, r.callback) == CountRan(s.net.log, r.callback) + 1
    ensures forall id: nat :: id in s.mine ==>
              id < s.nextCallback && (id != r.callback ==> Outstanding(s.net, id) == 0)
    ensures var t := Next(s, Other(event));
            var charged := Charge(r, StepPackets(s.net, event, r.callback));
            && t.net == Step(s.net, event) && t.txn == Deliver(s.txn, NewCompletions(s.net, t.net))
            && t.mine == s.mine && t.io == s.io && t.nextCallback >= s.nextCallback
            && t.charged == t.packets * PACKET_SIZE + charged.bytes
            && charged.callback == r.callback && charged.isUpload == r.isUpload
  {
    hide Step, Valid, Enabled, Outstanding, Deliver, StepPackets, Queued, NewCompletions, BalanceQueued, CountRan;
  }

  /** Events of the interceptor that this transaction did not cause. */
  lemma OtherKeepsConsistent(s: Session, event: Event)
    requires Consistent(s) && Possible(s, Other(event))
    ensures Consistent(Next(s, Other(event)))
  {
    hide Valid, Sound, CallbacksKnown, Possible, Next, Queued;
    match s.txn.throttleCallback
    case None => OtherWhileIdle(s, event);
    case Some(callback) =>
      var r :| r in Queued(s.net) && r.callback == callback && !r.isUpload
        && s.charged == s.packets * PACKET_SIZE + r.bytes;
      OtherWhileQueued(s, event, r);
  }

  /** The session after a Throttle call of the wrapped transaction. */
  function Throttled(s: Session, now: int, start: bool, result: int, received: nat, sendEnd: int): Session
    requires Sound(s.txn) && Ready(s.net) && s.net.clock <= now
  {
    var o := Throttle(s.txn, s.net, now, start, result, received, sendEnd, s.nextCallback);
    s.(net := o.net, txn := o.transaction, nextCallback := s.nextCallback + 1, mine := s.mine + {s.nextCallback},
       charged := s.charged + ChargeFor(s.txn, start, result, received))
  }

  /** The transaction while StartThrottle runs, and the record it hands over. */
  function Bound(s: Session, start: bool, result: int, received: nat): Transaction {
    s.txn.(balance := s.txn.balance + ChargeFor(s.txn, start, result, received),
           throttleCallback := Some(s.nextCallback))
  }

  function RecordOf(s: Session, start: bool, result: int, received: nat, sendEnd: int): Record {
    Record(result, Bound(s, start, result, received).balance, sendEnd, false, s.nextCallback)
  }

  lemma ThrottledShape(s: Session, now: int, start: bool, result: int, received: nat, sendEnd: int)
    requires Valid(s.net) && Sound(s.txn) && s.net.clock <= now
    requires s.txn.attached && !s.txn.failed && Queues(s.net, result, false)
    ensures var t := Throttled(s, now, start, result, received, sendEnd);
            && t == s.(net := t.net, txn := t.txn,
                       nextCallback := s.nextCallback + 1, mine := s.mine + {s.nextCallback},
                       charged := s.charged + ChargeFor(s.txn, start, result, received))
            && t.net == Step(s.net, Start(now, RecordOf(s, start, result, received, sendEnd), start))
            && t.txn == Deliver(Bound(s, start, result, received), NewCompletions(s.net, t.net))
            && Sound(Bound(s, start, result, received)) && Bound(s, start, result, received).attached
            && Bound(s, start, result, received).throttleCallback == Some(s.nextCallback)
            && RecordOf(s, start, result, received, sendEnd)
               == Record(result, s.txn.balance + ChargeFor(s.txn, start, result, received), sendEnd, false,
                         s.nextCallback)
            && Enabled(s.net, Start(now, RecordOf(s, start, result, received, sendEnd), start))
  {
    hide Enqueue, Deliver, NewCompletions, Valid;
  }

  lemma OthersWhileThrottled(s: Session, e: Event)
    requires Consistent(s) && s.txn.throttleCallback == None
    requires Enabled(s.net, e) && e.Start? && e.record.callback == s.nextCallback
    ensures forall id: nat :: id > s.nextCallback || id in s.mine ==> Outstanding(Step(s.net, e), id) == 0
    ensures Outstanding(s.net, s.nextCallback) == 0
  {
    hide Step, Outstanding, Valid, Sound, BalanceKnown, Enabled;
    forall id: nat | id > s.nextCallback || id in s.mine
      ensures Outstanding(Step(s.net, e), id) == 0
    {
      OthersUnmoved(s.net, e, id);
    }
  }

  lemma ThrottleQueues(s: Session, now: int, start: bool, result: int, received: nat, sendEnd: int)
    requires Consistent(s) && s.txn.throttleCallback == None && s.net.clock <= now && s.io == NoIo
    requires s.txn.attached && !s.txn.failed && Queues(s.net, result, false)
    ensures Consistent(Throttled(s, now, start, result, received, sendEnd))
  {
    hide *;
    Parts(s);
    var t := Throttled(s, now, start, result, received, sendEnd);
    var r := RecordOf(s, start, result, received, sendEnd);
    var e := Start(now, r, start);
    ThrottledShape(s, now, start, result, received, sendEnd);
    StepKeepsValid(s.net, e);
    OthersWhileThrottled(s, e);
    StartStep(s.net, now, r, start);
    Delivery(s.net, t.net, Bound(s, start, result, received), r);
    DeliveredKnown(t, Bound(s, start, result, received), r);
    CallbacksStay(s, t, s.nextCallback);
    Whole(t);
  }

  lemma Parts(s: Session)
    requires Consistent(s)
    ensures Valid(s.net) && Ready(s.net) && Sound(s.txn) && CallbacksKnown(s)
    ensures s.txn.throttleCallback == None ==> s.charged == s.packets * PACKET_SIZE + s.txn.balance
    ensures forall id: nat :: id in s.mine ==> id < s.nextCallback
  {
    hide Outstanding, RatesMatch;
  }

  lemma Whole(s: Session)
    requires Valid(s.net) && Sound(s.txn) && CallbacksKnown(s) && BalanceKnown(s)
    ensures Consistent(s)
  {
    hide Valid, Sound, CallbacksKnown, BalanceKnown;
  }

  lemma ThrottleKeepsConsistent(s: Session, now: int, start: bool, result: int, received: nat, sendEnd: int)
    requires Consistent(s) && s.txn.throttleCallback == None && s.net.clock <= now && s.io == NoIo
    ensures Consistent(Throttled(s, now, start, result, received, sendEnd))
  {
    if s.txn.attached && !s.txn.failed && Queues(s.net, result, false) {
      ThrottleQueues(s, now, start, result, received, sendEnd);
    } else {
      hide Valid, Outstanding, Enqueue;
    }
  }

  /** Binding no callback, or binding one that is never queued, changes nothing. */
  lemma UnusedCallback(s: Session, t: Session)
    requires Consistent(s) && s.txn.throttleCallback == None
    requires t == s.(nextCallback := s.nextCallback + 1, mine := s.mine + {s.nextCallback}, io := t.io)
    ensures Consistent(t)
  {
    hide Valid, Sound, Outstanding;
  }

  lemma CheckedKeepsConsistent(s: Session, call: Call)
    requires Consistent(s) && s.txn.throttleCallback == None
    ensures Consistent(s.(txn := CheckFailed(Located(s.txn, call), s.net)))
  {
    hide Valid, Outstanding;
  }

  lemma CallerKeepsConsistent(s: Session, e: SessionEvent)
    requires Consistent(s) && Possible(s, e) && e.Caller?
    ensures Consistent(Next(s, e))
  {
    assert Ready(s.net);
    hide Valid, CallbacksKnown, Throttle, BalanceKnown;
    var checked := s.(txn := CheckFailed(Located(s.txn, e.call), s.net));
    CheckedKeepsConsistent(s, e.call);
    var t := Next(s, e);
    if e.call.ReadCall? && e.result == 0 {
      UnusedCallback(checked, t);
    } else {
      var throttled := Throttled(checked, e.now, !e.call.ReadCall?, e.result, e.received, e.sendEnd);
      ThrottleKeepsConsistent(checked, e.now, !e.call.ReadCall?, e.result, e.received, e.sendEnd);
      PendingIoIsNotThrottled(checked, e.now, !e.call.ReadCall?, e.result, e.received, e.sendEnd);
      assert t == throttled.(io := t.io) by {
        if checked.txn.failed || !checked.txn.attached {
          UnattachedThrottle(checked, e.now, !e.call.ReadCall?, e.result, e.received, e.sendEnd);
        }
      }
      IoKeepsConsistent(throttled, t.io);
    }
  }

  /** A call whose transaction is not attached or has failed goes the same way through Throttle. */
  lemma UnattachedThrottle(s: Session, now: int, start: bool, result: int, received: nat, sendEnd: int)
    requires Sound(s.txn) && Ready(s.net) && s.net.clock <= now && (s.txn.failed || !s.txn.attached)
    ensures Throttle(s.txn, s.net, now, start, result, received, sendEnd, s.nextCallback)
         == Outcome(s.txn, s.net, if s.txn.failed then ERR_INTERNET_DISCONNECTED else result)
  {
  }

  lemma PendingIoIsNotThrottled(s: Session, now: int, start: bool, result: int, received: nat, sendEnd: int)
    requires Sound(s.txn) && Ready(s.net) && s.net.clock <= now && s.txn.throttleCallback == None
    ensures result == ERR_IO_PENDING ==>
              Throttled(s, now, start, result, received, sendEnd).txn.throttleCallback == None
  {
  }

  lemma IoKeepsConsistent(s: Session, io: Io)
    requires Consistent(s) && (io != NoIo ==> s.txn.throttleCallback == None)
    ensures Consistent(s.(io := io))
  {
    hide Valid, Sound, Outstanding;
  }

  lemma IoDoneKeepsConsistent(s: Session, e: SessionEvent)
    requires Consistent(s) && Possible(s, e) && e.IoDone?
    ensures Consistent(Next(s, e))
  {
    hide Valid, CallbacksKnown, Throttle;
    IoKeepsConsistent(s, NoIo);
    ThrottleKeepsConsistent(s.(io := NoIo), e.now, s.io.start, e.result, e.received, e.sendEnd);
  }

  /** Every step keeps the invariant: the balance is known to the byte, and a callback of the
      transaction is queued exactly while `throttleCallback` holds it. */
  lemma NextKeepsConsistent(s: Session, e: SessionEvent)
    requires Consistent(s) && Possible(s, e)
    ensures Consistent(Next(s, e))
  {
    match e
    case Other(event) => OtherKeepsConsistent(s, event);
    case Caller(_, _, _, _, _) => CallerKeepsConsistent(s, e);
    case ResumeNetworkStart(_) =>
      IdleUnlessThrottling(s);
      hide Valid, Outstanding;
    case IoDone(_, _, _, _) => IoDoneKeepsConsistent(s, e);
    case RawIoDone => IoKeepsConsistent(s, NoIo);
    case InterceptorGone =>
      IdleUnlessThrottling(s);
      hide Valid, Outstanding;
  }

  // ----- whole runs -----

  ghost predicate AllPossible(s: Session, run: seq<SessionEvent>)
    requires Consistent(s)
    decreases |run|
  {
    run == [] ||
    (Possible(s, run[0]) && (NextKeepsConsistent(s, run[0]); AllPossible(Next(s, run[0]), run[1..])))
  }

  ghost function AfterAll(s: Session, run: seq<SessionEvent>): (t: Session)
    requires Consistent(s) && AllPossible(s, run)
    ensures Consistent(t)
    decreases |run|
  {
    if run == [] then s
    else
      NextKeepsConsistent(s, run[0]);
      AfterAll(Next(s, run[0]), run[1..])
  }

  /** Two queued records with the same callback are outstanding twice. */
  lemma QueuedTwice(s: State, r: Record, o: Record)
    requires r in Queued(s) && o in Queued(s) && r != o && r.callback == o.callback
    ensures Outstanding(s, r.callback) >= 2
  {
    InQueues(s, r);
    InQueues(s, o);
    TwiceIn(s.download, r, o);
    TwiceIn(s.upload, r, o);
    TwiceIn(s.suspended, r, o);
    hide Count, Queued;
  }

  lemma TwiceIn(q: seq<Record>, r: Record, o: Record)
    requires r != o && r.callback == o.callback
    ensures Count(q, r.callback) >= (if r in q then 1 else 0) + (if o in q then 1 else 0)
  {
    if r in q && o in q {
      CountTwo(q, r, o);
    } else if r in q {
      CountMember(q, r);
    } else if o in q {
      CountMember(q, o);
    }
  }

  ghost predicate IsQueuedBalance(s: State, callback: nat, bytes: int) {
    exists r :: r in Queued(s) && r.callback == callback && r.bytes == bytes
  }

  /** The bytes still to be served: those of the record queued for the current callback, or the
      balance between throttles. */
  ghost function Unserved(s: Session): int
    requires Consistent(s)
  {
    match s.txn.throttleCallback
    case None => s.txn.balance
    case Some(callback) =>
      assert IsQueuedBalance(s.net, callback, s.charged - s.packets * PACKET_SIZE);
      var bytes :| IsQueuedBalance(s.net, callback, bytes);
      bytes
  }

  /** There is only one such record, and it has everything that was charged and not served yet. */
  lemma UnservedIsOwed(s: Session)
    requires Consistent(s)
    ensures Unserved(s) == s.charged - s.packets * PACKET_SIZE
  {
    if s.txn.throttleCallback.Some? {
      var callback := s.txn.throttleCallback.value;
      assert Outstanding(s.net, callback) == 1;
      hide Valid, Outstanding, Queued;
      var owed :| owed in Queued(s.net) && owed.callback == callback
        && s.charged == s.packets * PACKET_SIZE + owed.bytes;
      assert IsQueuedBalance(s.net, callback, Unserved(s)) by {
        assert IsQueuedBalance(s.net, callback, owed.bytes);
      }
      var queued :| queued in Queued(s.net) && queued.callback == callback && queued.bytes == Unserved(s);
      if queued != owed {
        QueuedTwice(s.net, queued, owed);
      }
    }
  }

  /** What the events of a run cost together. */
  ghost function RunCharge(s: Session, run: seq<SessionEvent>): nat
    requires Consistent(s) && AllPossible(s, run)
    decreases |run|
  {
    if run == [] then 0
    else
      NextKeepsConsistent(s, run[0]);
      ChargedBy(s, run[0]) + RunCharge(Next(s, run[0]), run[1..])
  }

  lemma ChargedNext(s: Session, e: SessionEvent)
    requires Consistent(s) && Possible(s, e)
    ensures Next(s, e).charged == s.charged + ChargedBy(s, e)
  {
    hide Valid, Outstanding, Step, StepPackets, Throttle, Deliver, Operate;
  }

  lemma {:induction false} ChargedOverRun(s: Session, run: seq<SessionEvent>)
    requires Consistent(s) && AllPossible(s, run)
    ensures AfterAll(s, run).charged == s.charged + RunCharge(s, run)
    decreases |run|
  {
    hide Consistent, Possible, Next, ChargedBy;
    if run != [] {
      NextKeepsConsistent(s, run[0]);
      ChargedNext(s, run[0]);
      ChargedOverRun(Next(s, run[0]), run[1..]);
    }
  }

  /** Over every run: everything its events cost was served in whole packets or is still owed. */
  lemma BytesConserved(run: seq<SessionEvent>)
    requires AllPossible(Begin(), run)
    ensures var s := AfterAll(Begin(), run);
            && RunCharge(Begin(), run) == s.charged == s.packets * PACKET_SIZE + Unserved(s)
            && (s.txn.throttleCallback.Some? <==> exists id: nat :: id in s.mine && Outstanding(s.net, id) != 0)
            && (forall id: nat :: id in s.mine ==> Outstanding(s.net, id) <= 1)
  {
    var s := AfterAll(Begin(), run);
    ChargedOverRun(Begin(), run);
    UnservedIsOwed(s);
    hide Valid, Outstanding, AfterAll, AllPossible, Unserved, RunCharge;
    if s.txn.throttleCallback.Some? {
      assert Outstanding(s.net, s.txn.throttleCallback.value) != 0;
    }
  }

  /** Once failed, always failed: every later call answers "disconnected", charges nothing, and the
      transaction has nothing in the queues of the interceptor. */
  lemma FailedForGood(s: Session, e: SessionEvent)
    requires Consistent(s) && Possible(s, e) && s.txn.failed
    ensures Next(s, e).txn.failed && Next(s, e).charged == s.charged
    ensures e.Caller? || e.IoDone? || e.ResumeNetworkStart? ==>
              OutcomeOf(s, e).answer == ERR_INTERNET_DISCONNECTED && Next(s, e).net == s.net
    ensures forall id: nat :: id in s.mine ==> Outstanding(s.net, id) == 0
  {
    hide Valid, Outstanding, Step, StepPackets;
    if e.Other? {
      DeliverOthers(s.txn, NewCompletions(s.net, Step(s.net, e.event)));
    }
  }

  lemma {:induction false} FailedForTheRun(s: Session, run: seq<SessionEvent>)
    requires Consistent(s) && AllPossible(s, run) && s.txn.failed
    ensures AfterAll(s, run).txn.failed && AfterAll(s, run).charged == s.charged
    decreases |run|
  {
    if run != [] {
      hide Consistent, Possible, Next;
      FailedForGood(s, run[0]);
      NextKeepsConsistent(s, run[0]);
      FailedForTheRun(Next(s, run[0]), run[1..]);
    }
  }

  lemma {:induction false} DeliverWithoutFailure(t: Transaction, completions: seq<Completion>)
    requires Sound(t)
    requires forall c :: c in completions && t.throttleCallback == Some(c.callback) ==>
               c.result != ERR_INTERNET_DISCONNECTED
    ensures Deliver(t, completions).failed == t.failed
    decreases |completions|
  {
    if completions != [] {
      var c := completions[0];
      assert c in completions;
      DeliverWithoutFailure(
        if t.throttleCallback == Some(c.callback) then ThrottleCallback(t, c.result, c.bytes) else t,
        completions[1..]);
    }
  }

  lemma MembersOf(q: seq<Record>, r: Record, o: Record)
    requires Count(q, r.callback) == 0 && o in q + [r] && o.callback == r.callback
    ensures o == r
  {
    if o in q {
      CountMember(q, o);
    }
  }

  /** The download queue a new record joins holds no other record with its callback. */
  lemma JoinedAlone(s: State, now: int, r: Record, start: bool, o: Record)
    requires Outstanding(s, r.callback) == 0
    requires o in Join(s, now, r, start).download && o.callback == r.callback
    ensures o == r
  {
    if start && s.latencyLength != 0 {
      var waiting := s.suspended + [r];
      FilterMembers(waiting, IsDue(now - s.latencyLength, false));
      if o in waiting {
        MembersOf(s.suspended, r, o);
      } else {
        assert o in s.download;
        MembersOf(s.download, r, o);
      }
    } else {
      MembersOf(s.download, r, o);
    }
  }

  lemma ArmTimerLog(s: State, now: int)
    ensures ArmTimer(s, now).log == s.log || ArmTimer(s, now).log == s.log + CompleteAll(s.download, false)
  {
    hide DesiredTime, WakeUpTime, CompleteAll;
  }

  /** A throttle that completes while it starts keeps its result. */
  lemma StartKeepsResult(s: State, now: int, r: Record, start: bool, c: Completion)
    requires WellTimed(s) && s.clock <= now && Outstanding(s, r.callback) == 0
    requires c in NewCompletions(s, Enqueue(s, now, r, start)) && c.callback == r.callback
    ensures c.result == r.result
  {
    UpdateThrottledLedger(s, now, r.callback);
    var s1 := UpdateThrottled(s, now);
    assert s1.log == s.log;
    var s2 := Join(s1, now, r, start);
    assert s2.log == s.log;
    var ran := NewCompletions(s, ArmTimer(s2, now));
    ArmTimerLog(s2, now);
    hide UpdateThrottled, Join, WellTimed, Activate, ArmTimer, CountRan, Count;
    assert ran == [] || ran == CompleteAll(s2.download, false);
    var i :| 0 <= i < |ran| && ran[i] == c;
    assert c == Complete(s2.download[i], false);
    JoinedAlone(s1, now, r, start, s2.download[i]);
  }

  lemma ThrottleFailsOnlyOffline(s: Session, now: int, start: bool, result: int, received: nat, sendEnd: int)
    requires Consistent(s) && s.txn.throttleCallback == None && s.net.clock <= now && !s.txn.failed
    requires s.txn.attached ==> !s.net.conditions.offline
    ensures !Throttled(s, now, start, result, received, sendEnd).txn.failed
  {
    if s.txn.attached && Queues(s.net, result, false) {
      var r := RecordOf(s, start, result, received, sendEnd);
      ThrottledShape(s, now, start, result, received, sendEnd);
      var ran := NewCompletions(s.net, Enqueue(s.net, now, r, start));
      forall c | c in ran && c.callback == r.callback ensures c.result != ERR_INTERNET_DISCONNECTED {
        StartKeepsResult(s.net, now, r, start, c);
      }
      DeliverWithoutFailure(Bound(s, start, result, received), ran);
    } else {
      hide Valid, Outstanding, Enqueue;
    }
  }

  /** A call fails the transaction exactly if it had failed before or its interceptor is offline. */
  lemma CallFailsExactly(s: Session, e: SessionEvent)
    requires Consistent(s) && Possible(s, e) && e.Caller?
    ensures Next(s, e).txn.failed <==>
              s.txn.failed || (s.net.conditions.offline && (s.txn.attached || e.call == StartCall(true)))
    ensures Next(s, e).txn.failed ==> OutcomeOf(s, e).answer == ERR_INTERNET_DISCONNECTED
  {
    assert Ready(s.net);
    hide Valid, Throttle, CallbacksKnown, BalanceKnown;
    var checked := s.(txn := CheckFailed(Located(s.txn, e.call), s.net));
    CheckedKeepsConsistent(s, e.call);
    if !checked.txn.failed {
      ThrottleFailsOnlyOffline(checked, e.now, !e.call.ReadCall?, e.result, e.received, e.sendEnd);
      UnlessAttached(checked, e.now, !e.call.ReadCall?, e.result, e.received, e.sendEnd);
    }
  }

  lemma UnlessAttached(s: Session, now: int, start: bool, result: int, received: nat, sendEnd: int)
    requires Sound(s.txn) && Ready(s.net) && s.net.clock <= now
    ensures s.txn.failed || !s.txn.attached ==> Throttled(s, now, start, result, received, sendEnd).txn == s.txn
  {
  }
}
