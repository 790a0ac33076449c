/** The interceptors of all clients, and the application cache that follows them offline. */
module Controller {
  import opened RoundRobin
  import opened Emulation
  import opened Interceptor
  import opened Runs
  import opened Wrappers

  /** What UpdateConditions does to the throttles of an interceptor that is taken offline or online:
      all of them have been called back, each as often as it was queued. */
  lemma DrainedByUnthrottling(s: State, now: int, conditions: Conditions, callback: nat)
    requires Emulation.Valid(s) && s.clock <= now && conditions.Acceptable() && !conditions.IsThrottling()
    ensures var t := UpdateConditions(s, now, conditions);
            && Queued(t) == [] && t.timer == Stopped
            && CountRan(t.log, callback) == CountRan(s.log, callback) + Outstanding(s, callback)
  {
    UpdateConditionsLedger(s, now, conditions, callback);
    UpdateConditionsKeepsValid(s, now, conditions);
  }

  /** The interceptor can look at the clock at `now`. */
  ghost predicate ValidAt(s: State, now: int) {
    Emulation.Valid(s) && Ready(s) && s.clock <= now
  }

  class NetworkController {
    var interceptors: map<string, NetworkInterceptor>
    var appcacheInterceptor: NetworkInterceptor

    ghost predicate Separate()
      reads this
    {
      && (forall id :: id in interceptors ==> interceptors[id] != appcacheInterceptor)
      && (forall a, b :: a in interceptors && b in interceptors && a != b ==> interceptors[a] != interceptors[b])
    }

    ghost predicate AllValid(now: int)
      reads this, interceptors.Values, appcacheInterceptor
    {
      && (forall id :: id in interceptors ==> ValidAt(interceptors[id].S(), now))
      && ValidAt(appcacheInterceptor.S(), now)
    }

    ghost predicate SomeOffline()
      reads this, interceptors.Values
    {
      exists id :: id in interceptors && interceptors[id].conditions.offline
    }

    /** The application cache is offline exactly when some registered client is. */
    ghost predicate Mirrors()
      reads this, interceptors.Values, appcacheInterceptor
    {
      appcacheInterceptor.conditions.offline <==> SomeOffline()
    }

    constructor ()
      ensures Separate() && AllValid(0) && Mirrors() && interceptors == map[] && fresh(appcacheInterceptor)
    {
      interceptors := map[];
      appcacheInterceptor := new NetworkInterceptor();
    }

    /** Since the old state with the interceptors `was` the named client got its conditions or, without
        conditions, went away; all other clients are as they were. */
    twostate predicate ClientUpdated(was: map<string, NetworkInterceptor>, clientId: string,
                                     conditions: Option<Conditions>, now: int)
      requires was == old(interceptors) && old(AllValid(now)) && now >= 0
      reads this, interceptors.Values, was.Values
    {
      && interceptors.Keys == (if conditions.Some? then was.Keys + {clientId} else was.Keys - {clientId})
      && (forall id :: id in was && id in interceptors ==> interceptors[id] == was[id])
      && (forall id :: id in was && id != clientId ==> was[id].S() == old(was[id].S()))
      && (clientId in was ==>
            was[clientId].S() == UpdateConditions(old(was[clientId].S()), now,
                                                  if conditions.Some? then conditions.value else ONLINE))
      && (clientId !in was && conditions.Some? ==>
            && fresh(interceptors[clientId])
            && interceptors[clientId].S() == UpdateConditions(INITIAL, now, conditions.value))
    }

    /** `conditions` is absent when the client goes away. */
    method SetNetworkState(clientId: string, conditions: Option<Conditions>, now: int)
      requires Separate() && AllValid(now) && Mirrors() && now >= 0
      requires conditions.Some? ==> conditions.value.Acceptable()
      modifies this`interceptors, interceptors.Values, appcacheInterceptor
      ensures Separate() && AllValid(now) && Mirrors()
      ensures ClientUpdated(old(interceptors), clientId, conditions, now)
      ensures appcacheInterceptor.S()
              == if old(appcacheInterceptor.conditions.offline) == SomeOffline() then old(appcacheInterceptor.S())
                 else UpdateConditions(old(appcacheInterceptor.S()), now, Conditions(SomeOffline(), 0.0, 0.0, 0.0))
    {
      hide Emulation.Valid, UpdateConditions, NetworkInterceptor.S;
      if clientId !in interceptors && conditions.None? {
        return;
      }
      UpdateClient(clientId, conditions, now);
      MirrorOffline(now);
    }

    method UpdateClient(clientId: string, conditions: Option<Conditions>, now: int)
      requires Separate() && AllValid(now) && now >= 0
      requires clientId in interceptors || conditions.Some?
      requires conditions.Some? ==> conditions.value.Acceptable()
      modifies this`interceptors, interceptors.Values
      ensures Separate() && AllValid(now)
      ensures appcacheInterceptor.S() == old(appcacheInterceptor.S())
      ensures ClientUpdated(old(interceptors), clientId, conditions, now)
    {
      hide Emulation.Valid, UpdateConditions, NetworkInterceptor.S;
      if clientId !in interceptors {
        var newInterceptor := new NetworkInterceptor();
        Update(newInterceptor, now, conditions.value);
        interceptors := interceptors[clientId := newInterceptor];
      } else if conditions.None? {
        Update(interceptors[clientId], now, ONLINE);
        interceptors := interceptors - {clientId};
      } else {
        Update(interceptors[clientId], now, conditions.value);
      }
    }

    method MirrorOffline(now: int)
      requires Separate() && AllValid(now)
      modifies appcacheInterceptor
      ensures AllValid(now) && Mirrors()
      ensures forall id :: id in interceptors ==> interceptors[id].S() == old(interceptors[id].S())
      ensures appcacheInterceptor.S()
              == if old(appcacheInterceptor.conditions.offline) == SomeOffline() then old(appcacheInterceptor.S())
                 else UpdateConditions(old(appcacheInterceptor.S()), now, Conditions(SomeOffline(), 0.0, 0.0, 0.0))
    {
      hide Emulation.Valid, UpdateConditions, NetworkInterceptor.S;
      var hasOfflineInterceptors := AnyOffline();
      var isAppcacheOffline := appcacheInterceptor.IsOffline();
      if isAppcacheOffline != hasOfflineInterceptors {
        Update(appcacheInterceptor, now, Conditions(hasOfflineInterceptors, 0.0, 0.0, 0.0));
      }
    }

    static method Update(interceptor: NetworkInterceptor, now: int, conditions: Conditions)
      requires ValidAt(interceptor.S(), now) && conditions.Acceptable()
      modifies interceptor
      ensures interceptor.S() == UpdateConditions(old(interceptor.S()), now, conditions)
      ensures ValidAt(interceptor.S(), now)
      ensures interceptor.conditions == conditions
    {
      UpdateConditionsKeepsValid(interceptor.S(), now, conditions);
      interceptor.UpdateConditions(now, conditions);
    }

    method AnyOffline() returns (offline: bool)
      ensures offline == SomeOffline()
    {
      offline := false;
      var rest := interceptors.Keys;
      while rest != {}
        invariant rest <= interceptors.Keys
        invariant forall id :: id in interceptors && id !in rest ==> !interceptors[id].conditions.offline
        decreases |rest|
      {
        var id :| id in rest;
        var isOffline := interceptors[id].IsOffline();
        if isOffline {
          return true;
        }
        rest := rest - {id};
      }
    }

    method GetInterceptor(clientId: string) returns (found: NetworkInterceptor?)
      ensures found == if clientId != "" && clientId in interceptors then interceptors[clientId] else null
    {
      if interceptors == map[] || clientId == "" {
        return null;
      }
      if clientId !in interceptors {
        return null;
      }
      found := interceptors[clientId];
    }
  }
}
