/** What the callers of StartThrottle are answered, in terms of the conditions and of what they call with. */
module ThrottleAnswers {
  import opened Sequences
  import opened RoundRobin
  import opened Emulation
  import opened Runs
  import opened Accounts
  import opened ThrottleLife
  import U = UploadSessions
  import T = TransactionSteps
  import S = Sessions

  /** The throughput asked for in one direction. */
  function Throughput(c: Conditions, isUpload: bool): real {
    if isUpload then c.upload else c.download
  }

  /** An interceptor takes in what did not fail while it is online and throttles that direction. */
  predicate IsTaken(c: Conditions, result: int, isUpload: bool) {
    result >= 0 && !c.offline && Throughput(c, isUpload) > 0.0
  }

  /** How often a callback is in a queue, or was run between two states. */
  function QueuedOrRunTimes(s: State, t: State, callback: nat): nat {
    Outstanding(t, callback) + CountRan(NewCompletions(s, t), callback)
  }

  lemma QueuedExactly(s: State, result: int, isUpload: bool)
    ensures Queues(s, result, isUpload) <==> IsTaken(s.conditions, result, isUpload)
    ensures ImmediateAnswer(s.conditions, result, isUpload)
         == if IsTaken(s.conditions, result, isUpload) then ERR_IO_PENDING
            else if s.conditions.offline && !isUpload && result >= 0 then ERR_INTERNET_DISCONNECTED
            else result
  {
  }

  /** The callback of a throttle with a callback of its own is queued or run exactly if the interceptor
      takes it in, and then exactly once. */
  lemma TakenOnce(s: State, now: int, r: Record, start: bool)
    requires Valid(s) && s.clock <= now && Outstanding(s, r.callback) == 0
    ensures var t := StartThrottle(s, now, r, start);
            && QueuedOrRunTimes(s, t, r.callback) == (if IsTaken(s.conditions, r.result, r.isUpload) then 1 else 0)
            && (!IsTaken(s.conditions, r.result, r.isUpload) ==> t == s)
  {
    assert Ready(s);
    QueuedExactly(s, r.result, r.isUpload);
    hide Valid, Ready, Outstanding, CountRan, Queues, IsTaken, ImmediateAnswer;
    if Queues(s, r.result, r.isUpload) {
      StartStep(s, now, r, start);
      OnceMore(s, StartThrottle(s, now, r, start), r.callback);
    } else {
      NothingNew(s, r.callback);
    }
  }

  lemma OnceMore(s: State, t: State, callback: nat)
    requires Grew(s, t) && Ledger(t, callback) == CountRan(s.log, callback) + 1
    ensures QueuedOrRunTimes(s, t, callback) == 1
  {
    hide Outstanding;
    assert t.log == s.log + NewCompletions(s, t);
    CountRanConcat(s.log, NewCompletions(s, t), callback);
    hide CountRan;
  }

  lemma NothingNew(s: State, callback: nat)
    requires Outstanding(s, callback) == 0
    ensures QueuedOrRunTimes(s, s, callback) == 0
  {
    hide Outstanding;
    assert NewCompletions(s, s) == [];
  }

  // ----- reads of an upload stream -----

  /** The results handed on for a callback that is run once at most. */
  lemma {:induction false} ResultHandedOn(callback: nat, ran: seq<Completion>, result: int)
    requires CountRan(ran, callback) <= 1
    requires forall c :: c in ran && c.callback == callback ==> c.result == result
    ensures U.ReadResults(callback, ran) == if CountRan(ran, callback) == 1 then [result] else []
    decreases |ran|
  {
    if ran != [] {
      var first, rest := ran[..1], ran[1..];
      assert ran == first + rest && first[..0] == [] && ran[0] in ran;
      assert forall c :: c in rest ==> c in ran;
      CountRanConcat(first, rest, callback);
      ResultHandedOn(callback, rest, result);
      if ran[0].callback == callback {
        assert CountRan(rest, callback) == 0;
      }
    }
  }

  /** A read is answered its own result if the stream has no interceptor, or the interceptor does not take
      the read in; otherwise it is pending, and its callback is queued, or run at once with that result. */
  lemma ReadAnswered(s: U.Session, now: int, result: int)
    requires U.Consistent(s) && U.Possible(s, U.Read(now, result))
    ensures var o := U.ThrottleRead(s.upload, s.net, now, result);
            var taken := s.upload.attached && IsTaken(s.net.conditions, result, true);
            var ran := NewCompletions(s.net, o.net);
            && o.answer == (if taken then ERR_IO_PENDING else result)
            && QueuedOrRunTimes(s.net, o.net, s.upload.callback) == (if taken then 1 else 0)
            && U.ReadResults(s.upload.callback, ran)
               == (if CountRan(ran, s.upload.callback) == 1 then [result] else [])
  {
    var o := U.ThrottleRead(s.upload, s.net, now, result);
    var r := U.RecordOf(s.upload, result);
    var callback, ran := s.upload.callback, NewCompletions(s.net, o.net);
    assert Ready(s.net) && r.callback == callback;
    QueuedExactly(s.net, result, true);
    TakenOnce(s.net, now, r, false);
    NothingNew(s.net, callback);
    assert o.net == if s.upload.attached && result >= 0 then StartThrottle(s.net, now, r, false) else s.net;
    hide Valid, Ready, Outstanding, CountRan, IsTaken, ImmediateAnswer, NewCompletions, Enqueue, U.ReadResults,
         U.Deliver;
    forall c | c in ran && c.callback == callback ensures c.result == result {
      RanAtOnce(s.net, now, r, false, c);
    }
    ResultHandedOn(callback, ran, result);
  }

  /** A callback that is run while its throttle starts gets the result it started with. */
  lemma RanAtOnce(s: State, now: int, r: Record, start: bool, c: Completion)
    requires Valid(s) && s.clock <= now && Outstanding(s, r.callback) == 0 && c.callback == r.callback
    requires c in NewCompletions(s, StartThrottle(s, now, r, start)) || c in NewCompletions(s, s)
    ensures c.result == r.result
  {
    assert NewCompletions(s, s) == [];
    if Queues(s, r.result, r.isUpload) {
      hide Outstanding, Enqueue, NewCompletions;
      S.StartKeepsResult(s, now, r, start, c);
    }
  }

  // ----- calls of a transaction -----

  /** Start, a Restart call or Read: disconnected exactly if the transaction fails; its own result if there is
      no interceptor, the result is an error, a read is at its end, or the interceptor does not take it in;
      otherwise pending, with the callback queued or run once. */
  lemma CallAnswered(s: S.Session, e: S.SessionEvent)
    requires S.Consistent(s) && S.Possible(s, e) && e.Caller?
    ensures var o := S.OutcomeOf(s, e);
            var attached := s.txn.attached || e.call == S.StartCall(true);
            var failed := s.txn.failed || (attached && s.net.conditions.offline);
            var taken := && !failed && attached && IsTaken(s.net.conditions, e.result, false)
                         && !(e.call == S.ReadCall && e.result == 0);
            && o.answer == (if failed then ERR_INTERNET_DISCONNECTED else if taken then ERR_IO_PENDING else e.result)
            && QueuedOrRunTimes(s.net, o.net, s.nextCallback) == (if taken then 1 else 0)
  {
    assert Ready(s.net) && Outstanding(s.net, s.nextCallback) == 0;
    var checked := T.CheckFailed(S.Located(s.txn, e.call), s.net);
    NothingNew(s.net, s.nextCallback);
    hide Valid, Ready, Outstanding, IsTaken, T.Throttle, S.CallbacksKnown, S.BalanceKnown, QueuedOrRunTimes;
    ThrottleAnswered(checked, s.net, e.now, !e.call.ReadCall?, e.result, e.received, e.sendEnd, s.nextCallback);
  }

  /** The part that all calls share. */
  lemma ThrottleAnswered(t: T.Transaction, net: State, now: int, start: bool, result: int, received: nat, sendEnd: int,
                         callback: nat)
    requires T.Sound(t) && Valid(net) && Ready(net) && net.clock <= now && Outstanding(net, callback) == 0
    ensures var o := T.Throttle(t, net, now, start, result, received, sendEnd, callback);
            var lost := t.attached && net.conditions.offline && result >= 0;
            var taken := !t.failed && t.attached && IsTaken(net.conditions, result, false);
            && o.answer == (if t.failed || lost then ERR_INTERNET_DISCONNECTED
                            else if taken then ERR_IO_PENDING else result)
            && QueuedOrRunTimes(net, o.net, callback) == (if taken then 1 else 0)
  {
    hide Valid, Ready, IsTaken, ImmediateAnswer, QueuedOrRunTimes, T.Throttle, T.ChargeFor, Outstanding, StartThrottle;
    var r := Record(result, t.balance + T.ChargeFor(t, start, result, received), sendEnd, false, callback);
    AskedInterceptor(t, net, now, start, result, received, sendEnd, callback);
    AnsweredAs(net, result);
    TakenOnce(net, now, r, start);
    NothingNew(net, callback);
  }

  /** Throttle asks the interceptor unless the transaction has failed, has none, or has an error to report. */
  lemma AskedInterceptor(t: T.Transaction, net: State, now: int, start: bool, result: int, received: nat, sendEnd: int,
                         callback: nat)
    requires T.Sound(t) && Ready(net) && net.clock <= now
    ensures var o := T.Throttle(t, net, now, start, result, received, sendEnd, callback);
            var r := Record(result, t.balance + T.ChargeFor(t, start, result, received), sendEnd, false, callback);
            if t.failed then o.net == net && o.answer == ERR_INTERNET_DISCONNECTED
            else if !t.attached || result < 0 then o.net == net && o.answer == result
            else
              && o.net == StartThrottle(net, now, r, start)
              && o.answer == ImmediateAnswer(net.conditions, result, false)
  {
    hide Ready, StartThrottle, ImmediateAnswer, T.Deliver, T.ChargeFor, T.Fail, NewCompletions;
  }

  lemma AnsweredAs(net: State, result: int)
    ensures result < 0 ==> !IsTaken(net.conditions, result, false)
    ensures result >= 0 ==>
              ImmediateAnswer(net.conditions, result, false)
              == if IsTaken(net.conditions, result, false) then ERR_IO_PENDING
                 else if net.conditions.offline then ERR_INTERNET_DISCONNECTED
                 else result
    ensures net.conditions.offline ==> !IsTaken(net.conditions, result, false)
  {
  }

  /** A call of the wrapped transaction that ends later: the same, and disconnected if it ends offline. */
  lemma EndAnswered(s: S.Session, e: S.SessionEvent)
    requires S.Consistent(s) && S.Possible(s, e) && e.IoDone?
    ensures var o := S.OutcomeOf(s, e);
            var lost := s.txn.attached && s.net.conditions.offline && e.result >= 0;
            var taken := !s.txn.failed && s.txn.attached && IsTaken(s.net.conditions, e.result, false);
            && o.answer == (if s.txn.failed || lost then ERR_INTERNET_DISCONNECTED
                            else if taken then ERR_IO_PENDING else e.result)
            && QueuedOrRunTimes(s.net, o.net, s.nextCallback) == (if taken then 1 else 0)
  {
    assert Ready(s.net) && Outstanding(s.net, s.nextCallback) == 0;
    hide Valid, Ready, Outstanding, IsTaken, T.Throttle, S.CallbacksKnown, S.BalanceKnown, QueuedOrRunTimes;
    ThrottleAnswered(s.txn, s.net, e.now, s.io.start, e.result, e.received, e.sendEnd, s.nextCallback);
  }

  lemma ResumeAnswered(s: S.Session, result: int)
    requires S.Consistent(s)
    ensures S.Possible(s, S.ResumeNetworkStart(result))
    ensures S.OutcomeOf(s, S.ResumeNetworkStart(result)).answer
         == if s.txn.failed || (s.txn.attached && s.net.conditions.offline) then ERR_INTERNET_DISCONNECTED else result
  {
    S.IdleUnlessThrottling(s);
    hide Valid, Outstanding;
  }

  /** What the transaction is busy with afterwards: a call that is still going on is throttled when it ends,
      as what it was called, if there was an interceptor. */
  lemma BusyWith(s: S.Session, e: S.SessionEvent)
    requires S.Consistent(s) && S.Possible(s, e)
    ensures S.Next(s, e).io
         == match e
            case Caller(call, _, result, _, _) =>
              var attached := s.txn.attached || call == S.StartCall(true);
              if s.txn.failed || (attached && s.net.conditions.offline) || result != ERR_IO_PENDING then S.NoIo
              else if attached then S.ThrottledIo(call != S.ReadCall)
              else S.RawIo
            case IoDone(_, _, _, _) => S.NoIo
            case RawIoDone => S.NoIo
            case _ => s.io
  {
    hide Valid, Outstanding, Step, StepPackets, T.Throttle, T.Deliver, T.Operate;
  }
}
