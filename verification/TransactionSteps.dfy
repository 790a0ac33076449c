/** One throttled HTTP transaction on values: its failure flag, its byte balance and its throttle callback. */
module TransactionSteps {
  import opened Wrappers
  import opened RoundRobin
  import opened Emulation

  /** `attached`: the interceptor is known and still exists.  `balance`: bytes charged but not yet served. */
  datatype Transaction = Transaction(attached: bool, hasRequest: bool, failed: bool, throttleCallback: Option<nat>,
                                     balance: int)

  const NEW := Transaction(false, false, false, None, 0)

  /** The transaction and the interceptor after a call, and what the call answered. */
  datatype Outcome = Outcome(transaction: Transaction, net: State, answer: int)

  /** The request of a transaction is what gives it an interceptor. */
  predicate Sound(t: Transaction) {
    && (t.attached ==> t.hasRequest)
    && (t.throttleCallback.Some? ==> t.hasRequest && !t.failed)
  }

  /** The preconditions are the checks the program makes: there is a request and no earlier failure. */
  function Fail(t: Transaction): Transaction
    requires t.hasRequest && !t.failed
  {
    t.(failed := true, attached := false)
  }

  /** While a callback is outstanding the interceptor is not offline. */
  function CheckFailed(t: Transaction, net: State): (r: Transaction)
    requires Sound(t)
    requires t.throttleCallback.Some? ==> !net.conditions.offline
    ensures Sound(r)
    ensures r.failed <==> t.failed || (t.attached && net.conditions.offline)
  {
    if !t.failed && t.attached && net.conditions.offline then Fail(t) else t
  }

  function ThrottleCallback(t: Transaction, result: int, bytes: int): Transaction
    requires t.throttleCallback.Some? && t.hasRequest && !t.failed
  {
    var t1 := t.(throttleCallback := None);
    (if result == ERR_INTERNET_DISCONNECTED then Fail(t1) else t1).(balance := bytes)
  }

  /** The callbacks an interceptor ran, as far as they are addressed to this transaction. */
  function Deliver(t: Transaction, completions: seq<Completion>): (r: Transaction)
    requires Sound(t)
    ensures Sound(r)
    decreases |completions|
  {
    if completions == [] then t
    else
      var c := completions[0];
      Deliver(if t.throttleCallback == Some(c.callback) then ThrottleCallback(t, c.result, c.bytes) else t,
              completions[1..])
  }

  /** What is handed on to the caller who waits for this callback, if it is run. */
  function CallResults(waiting: Option<nat>, completions: seq<Completion>): seq<int>
    decreases |completions|
  {
    if completions == [] then []
    else if waiting == Some(completions[0].callback) then [completions[0].result]
    else CallResults(waiting, completions[1..])
  }

  lemma {:induction false} NobodyWaits(completions: seq<Completion>)
    ensures CallResults(None, completions) == []
    decreases |completions|
  {
    if completions != [] {
      NobodyWaits(completions[1..]);
    }
  }

  /** What a call of Throttle adds to the balance. */
  function ChargeFor(t: Transaction, start: bool, result: int, received: nat): (bytes: nat)
  {
    if t.failed || !t.attached || result < 0 then 0
    else (if start then received else 0) + result
  }

  /** `callback` is the identity of the callback bound for this call. */
  function Throttle(t: Transaction, net: State, now: int, start: bool, result: int, received: nat, sendEnd: int,
                    callback: nat)
    : (o: Outcome)
    requires Sound(t) && Ready(net) && net.clock <= now
    ensures Sound(o.transaction)
  {
    if t.failed then Outcome(t, net, ERR_INTERNET_DISCONNECTED)
    else if !t.attached || result < 0 then Outcome(t, net, result)
    else
      var bytes := t.balance + ChargeFor(t, start, result, received);
      var answer := ImmediateAnswer(net.conditions, result, false);
      var after := StartThrottle(net, now, Record(result, bytes, sendEnd, false, callback), start);
      var t1 := Deliver(t.(balance := bytes, throttleCallback := Some(callback)), NewCompletions(net, after));
      var t2 := if answer != ERR_IO_PENDING then t1.(throttleCallback := None) else t1;
      if answer == ERR_INTERNET_DISCONNECTED then Outcome(Fail(t2), after, answer) else Outcome(t2, after, answer)
  }

  /** Start, the Restart calls (`start`) and Read, once the transaction has its interceptor.
      `result` is what the wrapped transaction answered. */
  function Operate(t: Transaction, net: State, now: int, start: bool, result: int, received: nat, sendEnd: int,
                   callback: nat)
    : (o: Outcome)
    requires Sound(t) && t.throttleCallback.None? && Ready(net) && net.clock <= now
    ensures Sound(o.transaction)
  {
    var checked := CheckFailed(t, net);
    if checked.failed then Outcome(checked, net, ERR_INTERNET_DISCONNECTED)
    else if !checked.attached then Outcome(checked, net, result)
    else if !start && result == 0 then Outcome(checked, net, result)
    else Throttle(checked, net, now, start, result, received, sendEnd, callback)
  }

  /** ResumeNetworkStart. */
  function Resume(t: Transaction, net: State, result: int): (o: Outcome)
    requires Sound(t)
    requires t.throttleCallback.Some? ==> !net.conditions.offline
    ensures Sound(o.transaction)
  {
    var checked := CheckFailed(t, net);
    Outcome(checked, net, if checked.failed then ERR_INTERNET_DISCONNECTED else result)
  }
}
