/** The results that throttled calls and reads are completed with later. */
module HandedOn {
  import opened Wrappers
  import opened Sequences
  import opened RoundRobin
  import opened Emulation
  import opened Runs
  import opened Accounts
  import opened TransactionFailures
  import T = TransactionSteps
  import S = Sessions
  import U = UploadSessions

  lemma {:induction false} NotAmongCalls(callback: nat, ran: seq<Completion>)
    requires CountRan(ran, callback) == 0
    ensures T.CallResults(Some(callback), ran) == [] && U.ReadResults(callback, ran) == []
    decreases |ran|
  {
    if ran != [] {
      assert ran == ran[..1] + ran[1..] && ran[..1][..0] == [];
      CountRanConcat(ran[..1], ran[1..], callback);
      NotAmongCalls(callback, ran[1..]);
    }
  }

  /** A callback that is run once hands on the result it is run with. */
  lemma {:induction false} OneHandedOn(callback: nat, ran: seq<Completion>, place: nat)
    requires place < |ran| && ran[place].callback == callback && CountRan(ran, callback) == 1
    ensures T.CallResults(Some(callback), ran) == U.ReadResults(callback, ran) == [ran[place].result]
    decreases |ran|
  {
    var rest := ran[1..];
    assert ran == ran[..1] + rest && ran[..1][..0] == [];
    CountRanConcat(ran[..1], rest, callback);
    if place == 0 {
      NotAmongCalls(callback, rest);
    } else {
      assert rest[place - 1] == ran[place];
      CountRanMember(rest, place - 1);
      OneHandedOn(callback, rest, place - 1);
    }
  }

  /** Through an event of others, a queued record stays queued and nothing is handed on, or its callback hands on
      one result, as a completion of the record. */
  lemma StillOrHandedOn(net: State, event: Event, r: Record) returns (c: Completion)
    requires Valid(net) && Enabled(net, event) && r in Queued(net) && Outstanding(net, r.callback) == 1
    requires event != Stop(r.callback) && (event.Start? ==> event.record.callback != r.callback)
    ensures var t := Step(net, event);
            var ran := NewCompletions(net, t);
            if Outstanding(t, r.callback) == 1
            then T.CallResults(Some(r.callback), ran) == U.ReadResults(r.callback, ran) == []
            else && T.CallResults(Some(r.callback), ran) == U.ReadResults(r.callback, ran) == [c.result]
                 && c in ran && (c.result == Complete(r, false).result || c.result == Complete(r, true).result)
  {
    var t := Step(net, event);
    var charged := Charge(r, StepPackets(net, event, r.callback));
    assert Added(net, event, r.callback) == 0 && Dropped(net, event, r.callback) == 0;
    hide Valid, Step, Enabled, Outstanding, CountRan, Queued, NewCompletions, StepPackets, T.CallResults, U.ReadResults;
    StepConserves(net, event, r);
    StepLedger(net, event, r.callback);
    var place := QueuedOrRan(net, t, charged);
    c := Completion(0, 0, 0);
    if Outstanding(t, r.callback) == 1 {
      NotAmongCalls(r.callback, NewCompletions(net, t));
    } else {
      c := NewCompletions(net, t)[place];
      OneHandedOn(r.callback, NewCompletions(net, t), place);
    }
  }

  /** A transaction whose throttle is over hands on the result of its call, or "disconnected" exactly if the
      interceptor was taken offline. */
  lemma CallHandedOn(s: S.Session, event: Event, r: Record)
    requires S.Consistent(s) && S.Possible(s, S.Other(event)) && NoErrorsQueued(s.net)
    requires s.txn.throttleCallback == Some(r.callback) && r in Queued(s.net) && !r.isUpload
    ensures var t := Step(s.net, event);
            T.CallResults(s.txn.throttleCallback, NewCompletions(s.net, t))
            == if Outstanding(t, r.callback) == 1 then []
               else if event.SetConditions? && event.conditions.offline then [ERR_INTERNET_DISCONNECTED]
               else [r.result]
  {
    var t := Step(s.net, event);
    assert Outstanding(s.net, r.callback) == 1 && Valid(s.net) && Enabled(s.net, event);
    hide Valid, Step, Enabled, Outstanding, CountRan, Queued, NewCompletions, T.CallResults, U.ReadResults,
         NoErrorsQueued;
    var c := StillOrHandedOn(s.net, event, r);
    if event.SetConditions? && event.conditions.offline {
      var i := AnsweredOffline(s.net, event, r);
      OneHandedOn(r.callback, NewCompletions(s.net, t), i);
    } else {
      StepKeepsResults(s.net, event);
    }
  }

  /** A read of an upload stream keeps its own result, offline too. */
  lemma ReadHandedOn(s: U.Session, event: Event, r: Record)
    requires U.Consistent(s) && U.Possible(s, U.Other(event)) && Outstanding(s.net, s.upload.callback) == 1
    requires r in Queued(s.net) && r.callback == s.upload.callback && r.isUpload
    ensures var t := Step(s.net, event);
            U.ReadResults(s.upload.callback, NewCompletions(s.net, t))
            == if Outstanding(t, s.upload.callback) == 1 then [] else [r.result]
  {
    hide Valid, Step, Enabled, Outstanding, CountRan, Queued, NewCompletions, T.CallResults, U.ReadResults;
    var c := StillOrHandedOn(s.net, event, r);
  }
}
