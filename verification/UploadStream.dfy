/** The throttled upload stream as the program runs it. */
module UploadStream {
  import opened RoundRobin
  import opened Emulation
  import opened Interceptor
  import opened UploadSessions

  class UploadDataStream {
    const callback: nat
    var interceptor: NetworkInterceptor?
    var throttledByteCount: int
    /** The results of the reads that were completed later than they were called. */
    var completedReads: seq<int>

    ghost function U(): Upload
      reads this
    {
      Upload(interceptor != null, callback, throttledByteCount)
    }

    constructor (throttleCallback: nat)
      ensures U() == Upload(false, throttleCallback, 0) && completedReads == []
    {
      callback, interceptor, throttledByteCount, completedReads := throttleCallback, null, 0, [];
    }

    method SetInterceptor(found: NetworkInterceptor?)
      requires interceptor == null
      modifies this`interceptor
      ensures interceptor == found
    {
      if found != null {
        interceptor := found;
      }
    }

    method ThrottleCallback(result: int, bytes: int)
      modifies this`throttledByteCount, this`completedReads
      ensures throttledByteCount == bytes && completedReads == old(completedReads) + [result]
    {
      throttledByteCount := bytes;
      completedReads := completedReads + [result];
    }

    method RunCallbacks(completions: seq<Completion>)
      modifies this`throttledByteCount, this`completedReads
      ensures U() == Deliver(old(U()), completions)
      ensures completedReads == old(completedReads) + ReadResults(callback, completions)
    {
      for i := 0 to |completions|
        invariant Deliver(U(), completions[i..]) == Deliver(old(U()), completions)
        invariant completedReads + ReadResults(callback, completions[i..])
               == old(completedReads) + ReadResults(callback, completions)
      {
        assert completions[i..][1..] == completions[i + 1..];
        if completions[i].callback == callback {
          ThrottleCallback(completions[i].result, completions[i].bytes);
        }
      }
    }

    method ThrottleRead(now: int, result: int) returns (answer: int)
      requires interceptor != null ==> Ready(interceptor.S()) && interceptor.clock <= now
      modifies this`throttledByteCount, this`completedReads, interceptor
      ensures interceptor == null ==> U() == old(U()) && completedReads == old(completedReads) && answer == result
      ensures interceptor != null ==>
                ReadOutcome(U(), interceptor.S(), answer)
                == UploadSessions.ThrottleRead(old(U()), old(interceptor.S()), now, result)
                && completedReads
                   == old(completedReads) + ReadResults(callback, NewCompletions(old(interceptor.S()), interceptor.S()))
    {
      if interceptor == null || result < 0 {
        return result;
      }
      answer := ThrottleBytes(now, result);
    }

    /** The part of ThrottleRead that charges the bytes and asks the interceptor. */
    method ThrottleBytes(now: int, result: int) returns (answer: int)
      requires interceptor != null && Ready(interceptor.S()) && interceptor.clock <= now && result >= 0
      modifies this`throttledByteCount, this`completedReads, interceptor
      ensures ReadOutcome(U(), interceptor.S(), answer)
              == UploadSessions.ThrottleRead(old(U()), old(interceptor.S()), now, result)
      ensures completedReads
           == old(completedReads) + ReadResults(callback, NewCompletions(old(interceptor.S()), interceptor.S()))
    {
      hide Ready, Emulation.StartThrottle, ImmediateAnswer, Deliver, ReadResults;
      ghost var net := interceptor.S();
      if result > 0 {
        throttledByteCount := throttledByteCount + result;
      }
      var logged := |interceptor.log|;
      answer := interceptor.StartThrottle(now, result, throttledByteCount, 0, false, true, callback);
      var ran := if logged <= |interceptor.log| then interceptor.log[logged..] else [];
      assert ran == NewCompletions(net, interceptor.S());
      ghost var after := interceptor.S();
      RunCallbacks(ran);
      assert interceptor.S() == after;
    }

    method ResetInternal()
      modifies this`throttledByteCount, interceptor
      ensures U() == old(U()).(balance := 0)
      ensures interceptor != null ==> interceptor.S() == ResetNet(old(U()), old(interceptor.S()))
    {
      throttledByteCount := 0;
      if interceptor != null {
        interceptor.StopThrottle(callback);
      }
    }
  }
}
