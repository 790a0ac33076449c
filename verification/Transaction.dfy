/** The throttled HTTP transaction as the program runs it. */
module Transaction {
  import opened Wrappers
  import opened RoundRobin
  import opened Emulation
  import opened Interceptor
  import opened TransactionSteps

  class NetworkTransaction {
    var throttledByteCount: int
    var interceptor: NetworkInterceptor?
    var hasRequest: bool
    var failed: bool
    var throttleCallback: Option<nat>
    /** The results of the calls that were completed later than they were made. */
    var completedCalls: seq<int>

    ghost function T(): Transaction
      reads this
    {
      Transaction(interceptor != null, hasRequest, failed, throttleCallback, throttledByteCount)
    }

    /** The call that waits for `callback` was completed if the interceptor has run it since the old state. */
    ghost predicate Completed(before: seq<int>, callback: nat, was: State, net: State)
      reads this`completedCalls
    {
      completedCalls == before + CallResults(Some(callback), NewCompletions(was, net))
    }

    constructor ()
      ensures T() == NEW && completedCalls == []
    {
      throttledByteCount, interceptor, hasRequest, failed, throttleCallback := 0, null, false, false, None;
      completedCalls := [];
    }

    method Fail()
      requires hasRequest && !failed
      modifies this`failed, this`interceptor
      ensures T() == TransactionSteps.Fail(old(T()))
    {
      failed := true;
      interceptor := null;
    }

    method CheckFailed() returns (result: bool)
      requires Sound(T())
      requires interceptor != null && throttleCallback.Some? ==> !interceptor.conditions.offline
      modifies this`failed, this`interceptor
      ensures result == failed
      ensures old(interceptor) != null ==> T() == TransactionSteps.CheckFailed(old(T()), old(interceptor.S()))
      ensures old(interceptor) == null ==> T() == old(T())
      ensures interceptor == null || interceptor == old(interceptor)
    {
      if failed {
        return true;
      }
      if interceptor != null {
        var offline := interceptor.IsOffline();
        if offline {
          Fail();
          return true;
        }
      }
      return false;
    }

    /** Runs when the interceptor calls back. */
    method ThrottleCallback(result: int, bytes: int)
      requires throttleCallback.Some? && hasRequest && !failed
      modifies this
      ensures T() == TransactionSteps.ThrottleCallback(old(T()), result, bytes)
      ensures completedCalls == old(completedCalls) + [result]
      ensures interceptor == null || interceptor == old(interceptor)
    {
      throttleCallback := None;
      if result == ERR_INTERNET_DISCONNECTED {
        Fail();
      }
      throttledByteCount := bytes;
      completedCalls := completedCalls + [result];
    }

    /** Hands the callbacks that were run to this transaction, those of other users aside. */
    method RunCallbacks(completions: seq<Completion>)
      requires Sound(T())
      modifies this
      ensures T() == Deliver(old(T()), completions)
      ensures completedCalls == old(completedCalls) + CallResults(old(throttleCallback), completions)
      ensures interceptor == null || interceptor == old(interceptor)
    {
      for i := 0 to |completions|
        invariant Sound(T())
        invariant Deliver(T(), completions[i..]) == Deliver(old(T()), completions)
        invariant completedCalls + CallResults(throttleCallback, completions[i..])
               == old(completedCalls) + CallResults(old(throttleCallback), completions)
        invariant interceptor == null || interceptor == old(interceptor)
      {
        assert completions[i..][1..] == completions[i + 1..];
        if throttleCallback == Some(completions[i].callback) {
          NobodyWaits(completions[i + 1..]);
          ThrottleCallback(completions[i].result, completions[i].bytes);
        }
      }
    }

    /** The part of Throttle that charges the bytes and asks the interceptor. */
    method ThrottleBytes(now: int, start: bool, result: int, received: nat, sendEnd: int, callback: nat)
        returns (answer: int)
      requires Sound(T()) && !failed && result >= 0
      requires interceptor != null && Ready(interceptor.S()) && interceptor.clock <= now
      modifies this, interceptor
      ensures Outcome(T(), old(interceptor).S(), answer)
              == TransactionSteps.Throttle(old(T()), old(interceptor.S()), now, start, result, received, sendEnd,
                                           callback)
      ensures Completed(old(completedCalls), callback, old(interceptor.S()), old(interceptor).S())
    {
      hide Enqueue, Ready;
      ghost var net := interceptor.S();
      if start {
        throttledByteCount := throttledByteCount + received;
      }
      if result > 0 {
        throttledByteCount := throttledByteCount + result;
      }
      throttleCallback := Some(callback);
      ghost var charged := T();
      assert charged == old(T()).(balance := old(throttledByteCount) + ChargeFor(old(T()), start, result, received),
                                  throttleCallback := Some(callback));
      var logged := |interceptor.log|;
      answer := interceptor.StartThrottle(now, result, throttledByteCount, sendEnd, start, false, callback);
      ghost var after := interceptor.S();
      var ran := if logged <= |interceptor.log| then interceptor.log[logged..] else [];
      assert ran == NewCompletions(net, after);
      RunCallbacks(ran);
      assert T() == Deliver(charged, ran);
      assert answer != ERR_IO_PENDING ==> ran == [];
      if answer != ERR_IO_PENDING {
        throttleCallback := None;
      }
      if answer == ERR_INTERNET_DISCONNECTED {
        Fail();
      }
    }

    method Throttle(now: int, start: bool, result: int, received: nat, sendEnd: int, callback: nat)
        returns (answer: int)
      requires Sound(T())
      requires interceptor != null ==> Ready(interceptor.S()) && interceptor.clock <= now
      modifies this, interceptor
      ensures old(interceptor) != null ==>
                Outcome(T(), old(interceptor).S(), answer)
                == TransactionSteps.Throttle(old(T()), old(interceptor.S()), now, start, result, received, sendEnd,
                                             callback)
                && Completed(old(completedCalls), callback, old(interceptor.S()), old(interceptor).S())
      ensures old(interceptor) == null ==>
                && T() == old(T()) && completedCalls == old(completedCalls)
                && answer == if failed then ERR_INTERNET_DISCONNECTED else result
    {
      if failed {
        return ERR_INTERNET_DISCONNECTED;
      }
      if interceptor == null || result < 0 {
        return result;
      }
      answer := ThrottleBytes(now, start, result, received, sendEnd, callback);
    }

    /** Read and the Restart calls; `result` is the answer of the wrapped transaction. */
    method Operate(now: int, start: bool, result: int, received: nat, sendEnd: int, callback: nat) returns (answer: int)
      requires Sound(T()) && throttleCallback.None?
      requires interceptor != null ==> Ready(interceptor.S()) && interceptor.clock <= now
      modifies this, interceptor
      ensures old(interceptor) != null ==>
                Outcome(T(), old(interceptor).S(), answer)
                == TransactionSteps.Operate(old(T()), old(interceptor.S()), now, start, result, received, sendEnd,
                                            callback)
                && Completed(old(completedCalls), callback, old(interceptor.S()), old(interceptor).S())
      ensures old(interceptor) == null ==>
                && T() == old(T()) && completedCalls == old(completedCalls)
                && answer == if failed then ERR_INTERNET_DISCONNECTED else result
    {
      var disconnected := CheckFailed();
      if disconnected {
        return ERR_INTERNET_DISCONNECTED;
      }
      if interceptor == null {
        return result;
      }
      if !start && result == 0 {
        return result;
      }
      answer := Throttle(now, start, result, received, sendEnd, callback);
    }

    /** `found` is the interceptor the controller has for the client of the request, if any. */
    method Start(found: NetworkInterceptor?, now: int, result: int, received: nat, sendEnd: int, callback: nat)
      returns (answer: int)
      requires Sound(T()) && throttleCallback.None?
      requires found != null ==> Ready(found.S()) && found.clock <= now
      requires interceptor != null ==> Ready(interceptor.S()) && interceptor.clock <= now
      modifies this, interceptor, found
      ensures found != null ==>
                Outcome(T(), found.S(), answer)
                == TransactionSteps.Operate(old(T()).(hasRequest := true, attached := true), old(found.S()), now, true,
                                            result, received, sendEnd, callback)
                && Completed(old(completedCalls), callback, old(found.S()), found.S())
      ensures found == null && old(interceptor) != null ==>
                Outcome(T(), old(interceptor).S(), answer)
                == TransactionSteps.Operate(old(T()).(hasRequest := true), old(interceptor.S()), now, true, result,
                                            received, sendEnd, callback)
                && Completed(old(completedCalls), callback, old(interceptor.S()), old(interceptor).S())
      ensures found == null && old(interceptor) == null ==>
                && T() == old(T()).(hasRequest := true) && completedCalls == old(completedCalls)
                && answer == if failed then ERR_INTERNET_DISCONNECTED else result
    {
      hasRequest := true;
      if found != null {
        interceptor := found;
      }
      answer := Operate(now, true, result, received, sendEnd, callback);
    }

    /** `result` is the answer of the wrapped transaction. */
    method ResumeNetworkStart(result: int) returns (answer: int)
      requires Sound(T())
      requires interceptor != null && throttleCallback.Some? ==> !interceptor.conditions.offline
      modifies this`failed, this`interceptor
      ensures old(interceptor) != null ==>
                Outcome(T(), old(interceptor.S()), answer) == Resume(old(T()), old(interceptor.S()), result)
      ensures old(interceptor) == null ==>
                T() == old(T()) && answer == if failed then ERR_INTERNET_DISCONNECTED else result
    {
      var disconnected := CheckFailed();
      answer := if disconnected then ERR_INTERNET_DISCONNECTED else result;
    }

    /** What the destructor does. */
    method Destroy()
      modifies interceptor
      ensures interceptor != null && throttleCallback.Some? ==>
                interceptor.S() == StopThrottle(old(interceptor.S()), throttleCallback.value)
      ensures interceptor != null && throttleCallback.None? ==> interceptor.S() == old(interceptor.S())
    {
      if interceptor != null && throttleCallback.Some? {
        interceptor.StopThrottle(throttleCallback.value);
      }
    }
  }
}
