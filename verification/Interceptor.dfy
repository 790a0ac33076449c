/** The interceptor as the program runs it: fields, loops and closed forms. */
module Interceptor {
  import opened Sequences
  import opened RoundRobin
  import opened TickPrediction
  import opened Throughput
  import opened Emulation

  class NetworkInterceptor {
    var conditions: Conditions
    var suspended: seq<Record>
    var download: seq<Record>
    var upload: seq<Record>
    var timer: Timer
    var offset: int
    var downloadTickLength: nat
    var uploadTickLength: nat
    var latencyLength: nat
    var downloadLastTick: nat
    var uploadLastTick: nat
    /** The callbacks run so far. */
    var log: seq<Completion>
    /** The last time that was passed in. */
    ghost var clock: int

    ghost function S(): State
      reads this
    {
      State(conditions, suspended, download, upload, timer, offset, downloadTickLength, uploadTickLength,
            latencyLength, downloadLastTick, uploadLastTick, clock, log)
    }

    constructor ()
      ensures S() == INITIAL && Emulation.Valid(S()) && clock == 0
    {
      conditions := ONLINE;
      suspended, download, upload := [], [], [];
      timer, offset := Stopped, 0;
      downloadTickLength, uploadTickLength, latencyLength := 0, 0, 0;
      downloadLastTick, uploadLastTick := 0, 0;
      log, clock := [], 0;
    }

    method FinishRecords(records: seq<Record>, offline: bool)
      modifies this`log
      ensures log == old(log) + CompleteAll(records, offline)
    {
      for i := 0 to |records|
        invariant log == old(log) + CompleteAll(records[..i], offline)
      {
        var failed := offline && !records[i].isUpload;
        log := log + [Completion(records[i].callback, if failed then ERR_INTERNET_DISCONNECTED else records[i].result,
                                 records[i].bytes)];
        assert CompleteAll(records[..i + 1], offline)
            == CompleteAll(records[..i], offline) + [Complete(records[i], offline)];
      }
      assert records[..|records|] == records;
    }

    /** The three queues in the order they are finished when conditions stop throttling. */
    method FinishEverything(offline: bool)
      modifies this`log, this`download, this`upload, this`suspended
      ensures download == upload == suspended == []
      ensures log == old(log) + CompleteAll(old(download), offline) + CompleteAll(old(upload), offline)
                              + CompleteAll(old(suspended), offline)
    {
      var temp := download;
      download := [];
      FinishRecords(temp, offline);
      temp, upload := upload, [];
      FinishRecords(temp, offline);
      temp, suspended := suspended, [];
      FinishRecords(temp, offline);
    }

    /** Starts counting ticks afresh at the rates of the current conditions. */
    method Retime(now: int)
      modifies this`offset, this`downloadLastTick, this`downloadTickLength, this`uploadLastTick, this`uploadTickLength,
               this`latencyLength
      ensures offset == now && downloadLastTick == 0 && uploadLastTick == 0
      ensures downloadTickLength == TickLength(conditions.download)
      ensures uploadTickLength == TickLength(conditions.upload)
      ensures latencyLength == conditions.LatencyLength()
    {
      offset := now;
      downloadLastTick := 0;
      downloadTickLength := TickLength(conditions.download);
      uploadLastTick := 0;
      uploadTickLength := TickLength(conditions.upload);
      latencyLength := 0;
      if conditions.latency > 0.0 {
        latencyLength := (conditions.latency * 1000.0).Floor;
      }
    }

    method UpdateConditions(now: int, newConditions: Conditions)
      requires Ready(S()) && clock <= now && newConditions.Acceptable()
      modifies this
      ensures S() == Emulation.UpdateConditions(old(S()), now, newConditions)
    {
      hide TickLength, Emulation.UpdateThrottled, Emulation.ArmTimer, CompleteAll;
      if conditions.IsThrottling() {
        UpdateThrottled(now);
      }
      conditions, clock := newConditions, now;

      var offline := conditions.offline;
      if offline || !conditions.IsThrottling() {
        timer := Stopped;
        FinishEverything(offline);
        return;
      }

      Retime(now);
      ArmTimer(now);
    }

    /** The quotient, remainder and rotation form; it is the naive round robin. */
    method UpdateThrottledRecords(now: int, records: seq<Record>, lastTick: nat, tickLength: nat)
      returns (updated: seq<Record>, newTick: nat)
      requires offset <= now && lastTick <= TickAt(now, offset, tickLength)
      ensures updated == CatchUp(records, now, offset, lastTick, tickLength)
      ensures newTick == TickAt(now, offset, tickLength)
    {
      hide Serve;
      updated, newTick := records, lastTick;
      if tickLength == 0 {
        return;
      }
      newTick := (now - offset) / tickLength;
      var ticks := newTick - lastTick;
      var length := |records|;
      if length == 0 {
        ServeEmpty(ticks);
        return;
      }
      var shift := ticks % length;
      for i := 0 to length
        invariant |updated| == length
        invariant forall k :: i <= k < length ==> updated[k] == records[k]
        invariant forall k :: 0 <= k < i ==>
          updated[k] == Charge(Charge(records[k], ticks / length), if k < shift then 1 else 0)
      {
        var bytes := updated[i].bytes - ((ticks / length) * PACKET_SIZE + (if i < shift then PACKET_SIZE else 0));
        updated := updated[i := updated[i].(bytes := bytes)];
      }
      updated := updated[shift..] + updated[..shift];
      assert updated == ClosedForm(records, ticks);
      ClosedFormIsServe(records, ticks);
    }

    method UpdateThrottled(now: int)
      requires WellTimed(S()) && clock <= now
      modifies this
      ensures S() == Emulation.UpdateThrottled(old(S()), now)
    {
      hide CatchUp, TickAt, Activate;
      TicksAdvance(clock, now, offset, downloadTickLength);
      TicksAdvance(clock, now, offset, uploadTickLength);
      download, downloadLastTick := UpdateThrottledRecords(now, download, downloadLastTick, downloadTickLength);
      upload, uploadLastTick := UpdateThrottledRecords(now, upload, uploadLastTick, uploadTickLength);
      clock := now;
      UpdateSuspended(now);
    }

    method UpdateSuspended(now: int)
      modifies this`download, this`upload, this`suspended
      ensures S() == Activate(old(S()), now)
    {
      hide Filter;
      NoneSuspended(suspended, now - latencyLength);
      var activationBaseline := now - latencyLength;
      var records := suspended;
      var remaining: seq<Record> := [];
      for i := 0 to |records|
        invariant download == old(download) + Filter(records[..i], IsDue(activationBaseline, false))
        invariant upload == old(upload) + Filter(records[..i], IsDue(activationBaseline, true))
        invariant remaining == Filter(records[..i], IsWaiting(activationBaseline))
      {
        NextSuspended(records, i, activationBaseline);
        if records[i].sendEnd <= activationBaseline {
          if records[i].isUpload {
            upload := upload + [records[i]];
          } else {
            download := download + [records[i]];
          }
        } else {
          remaining := remaining + [records[i]];
        }
      }
      assert records[..|records|] == records;
      suspended := remaining;
    }

    static method CollectFinished(records: seq<Record>, finished: seq<Record>)
      returns (active: seq<Record>, collected: seq<Record>)
      ensures active == Filter(records, IsActive())
      ensures collected == finished + Filter(records, IsFinished())
    {
      active, collected := [], finished;
      for i := 0 to |records|
        invariant active == Filter(records[..i], IsActive())
        invariant collected == finished + Filter(records[..i], IsFinished())
      {
        FilterNext(records, i, IsActive());
        FilterNext(records, i, IsFinished());
        if records[i].bytes < 0 {
          collected := collected + [records[i]];
        } else {
          active := active + [records[i]];
        }
      }
      assert records[..|records|] == records;
    }

    /** Takes the records that have paid more than they owed out of both queues and runs their callbacks. */
    method RunFinished()
      modifies this`log, this`download, this`upload
      ensures download == Filter(old(download), IsActive()) && upload == Filter(old(upload), IsActive())
      ensures log == old(log)
                     + CompleteAll(Filter(old(download), IsFinished()) + Filter(old(upload), IsFinished()), false)
    {
      var finished: seq<Record> := [];
      download, finished := CollectFinished(download, finished);
      upload, finished := CollectFinished(upload, finished);
      FinishRecords(finished, false);
    }

    method OnTimer(now: int)
      requires WellTimed(S()) && clock <= now
      modifies this
      ensures S() == Emulation.OnTimer(old(S()), now)
    {
      timer := Stopped;
      UpdateThrottled(now);
      RunFinished();
      ArmTimer(now);
    }

    method CalculateDesiredTime(records: seq<Record>, lastTick: nat, tickLength: nat) returns (time: int)
      ensures time == DesiredTime(records, offset, lastTick, tickLength)
    {
      var minTicksLeft := NO_RECORD_TICKS;
      var count := |records|;
      for i := 0 to count
        invariant minTicksLeft == MinTicksLeftOfFirst(records, i)
      {
        var packetsLeft := TruncatingDivision(records[i].bytes + PACKET_SIZE - 1, PACKET_SIZE);
        var ticksLeft := (i + 1) + count * (packetsLeft - 1);
        if i == 0 || ticksLeft < minTicksLeft {
          minTicksLeft := ticksLeft;
        }
      }
      time := offset + tickLength * ((lastTick + minTicksLeft) % UINT64_LIMIT);
    }

    static method EarliestSendEnd(records: seq<Record>) returns (minBaseline: int)
      requires records != []
      ensures minBaseline == MinSendEnd(records)
    {
      assert MinSendEnd(records[..1]) == records[0].sendEnd;
      hide MinSendEnd;
      minBaseline := records[0].sendEnd;
      for i := 1 to |records|
        invariant minBaseline == MinSendEnd(records[..i])
      {
        NextSendEnd(records, i);
        if records[i].sendEnd < minBaseline {
          minBaseline := records[i].sendEnd;
        }
      }
      assert records[..|records|] == records;
    }

    method ArmTimer(now: int)
      modifies this`download, this`timer, this`log
      ensures S() == Emulation.ArmTimer(old(S()), now)
    {
      hide DesiredTime, MinSendEnd, CompleteAll, Magnitude;
      var suspendCount := |suspended|;
      if download == [] && upload == [] && suspendCount == 0 {
        timer := Stopped;
        return;
      }

      var desiredTime := CalculateDesiredTime(download, downloadLastTick, downloadTickLength);
      if desiredTime == offset {
        var temp := download;
        download := [];
        FinishRecords(temp, false);
      }

      var uploadTime := CalculateDesiredTime(upload, uploadLastTick, uploadTickLength);
      if uploadTime != offset && uploadTime < desiredTime {
        desiredTime := uploadTime;
      }

      if suspendCount != 0 {
        var minBaseline := EarliestSendEnd(suspended);
        var activationTime := minBaseline + latencyLength;
        if activationTime < desiredTime {
          desiredTime := activationTime;
        }
      }

      timer := Armed(now + Magnitude(desiredTime - now));
    }

    method StartThrottle(now: int, result: int, bytes: int, sendEnd: int, start: bool, isUpload: bool, callback: nat)
      returns (answer: int)
      requires Ready(S()) && clock <= now
      modifies this
      ensures S() == Emulation.StartThrottle(old(S()), now, Record(result, bytes, sendEnd, isUpload, callback), start)
      ensures answer == ImmediateAnswer(old(conditions), result, isUpload)
    {
      hide Emulation.UpdateThrottled, Emulation.ArmTimer, Activate;
      var record := Record(result, bytes, sendEnd, isUpload, callback);
      if result < 0 {
        return result;
      }
      if conditions.offline {
        return if isUpload then result else ERR_INTERNET_DISCONNECTED;
      }
      if (isUpload && conditions.upload == 0.0) || (!isUpload && conditions.download == 0.0) {
        return result;
      }

      UpdateThrottled(now);
      if start && latencyLength != 0 {
        suspended := suspended + [record];
        UpdateSuspended(now);
      } else if isUpload {
        upload := upload + [record];
      } else {
        download := download + [record];
      }
      ArmTimer(now);
      return ERR_IO_PENDING;
    }

    method StopThrottle(callback: nat)
      modifies this`download, this`upload, this`suspended
      ensures S() == Emulation.StopThrottle(old(S()), callback)
    {
      hide Filter;
      download := RemoveRecord(download, callback);
      upload := RemoveRecord(upload, callback);
      suspended := RemoveRecord(suspended, callback);
    }

    static method RemoveRecord(records: seq<Record>, callback: nat) returns (remaining: seq<Record>)
      ensures remaining == Filter(records, IsOther(callback))
    {
      remaining := [];
      for i := 0 to |records|
        invariant remaining == Filter(records[..i], IsOther(callback))
      {
        FilterNext(records, i, IsOther(callback));
        if records[i].callback != callback {
          remaining := remaining + [records[i]];
        }
      }
      assert records[..|records|] == records;
    }

    method IsOffline() returns (offline: bool)
      ensures offline == conditions.offline
    {
      offline := conditions.offline;
    }
  }

  /** Which suspended records have become due, one record at a time. */
  lemma NoneSuspended(records: seq<Record>, baseline: int)
    ensures Filter(records[..0], IsDue(baseline, false)) == Filter(records[..0], IsDue(baseline, true)) == []
    ensures Filter(records[..0], IsWaiting(baseline)) == []
  {
  }

  lemma NextSuspended(records: seq<Record>, i: nat, baseline: int)
    requires i < |records|
    ensures forall upload ::
              Filter(records[..i + 1], IsDue(baseline, upload))
              == Filter(records[..i], IsDue(baseline, upload))
                 + if records[i].sendEnd <= baseline && records[i].isUpload == upload then [records[i]] else []
    ensures Filter(records[..i + 1], IsWaiting(baseline))
         == Filter(records[..i], IsWaiting(baseline)) + if records[i].sendEnd > baseline then [records[i]] else []
  {
    hide Filter;
    FilterNext(records, i, IsDue(baseline, false));
    FilterNext(records, i, IsDue(baseline, true));
    FilterNext(records, i, IsWaiting(baseline));
  }

  lemma NextSendEnd(records: seq<Record>, i: nat)
    requires 0 < i < |records|
    ensures var m := MinSendEnd(records[..i]);
            MinSendEnd(records[..i + 1]) == if records[i].sendEnd < m then records[i].sendEnd else m
  {
    assert records[..i + 1][..i] == records[..i];
  }
}
