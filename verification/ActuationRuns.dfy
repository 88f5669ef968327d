/** What a group of speeds and a stop of everything do to the devices, whatever the devices answer. */
module ActuationRuns {
  import opened MachineIntegers
  import opened Prelude
  import opened RobotCapabilities
  import opened ActuationCoordinator

  function SetCall(request: Request): Call {
    SetRpm(request.id, request.rpm)
  }

  // --------------------------------------------------------------------------- a group of speeds

  /** Driving only appends, and only the speeds of the requests it is given. */
  lemma {:induction false} DrivenAppends(plant: Plant, log: seq<Call>, requests: seq<Request>, n: nat)
    requires n <= |requests|
    ensures var driven := Driven(plant, log, requests, n);
            && log <= driven
            && forall p | |log| <= p < |driven| :: exists i | 0 <= i < n :: driven[p] == SetCall(requests[i])
  {
    if n > 0 {
      DrivenAppends(plant, log, requests, n - 1);
      hide SetCheck;
      var before, driven := Driven(plant, log, requests, n - 1), Driven(plant, log, requests, n);
      forall p | |log| <= p < |driven| ensures exists i | 0 <= i < n :: driven[p] == SetCall(requests[i]) {
        if p < |before| {
          var i :| 0 <= i < n - 1 && before[p] == SetCall(requests[i]);
          assert driven[p] == SetCall(requests[i]);
        } else {
          assert driven[p] == SetCall(requests[n - 1]);
        }
      }
    }
  }

  /** A request that is answered with success has reached its device. */
  lemma {:induction false} AppliedIsDriven(plant: Plant, log: seq<Call>, requests: seq<Request>, i: nat, n: nat)
    requires i < n <= |requests| && ErrorAt(plant, log, requests, i) == CapOk
    ensures var driven := Driven(plant, log, requests, n); var p := |Driven(plant, log, requests, i)|;
            |log| <= p < |driven| && driven[p] == SetCall(requests[i])
  {
    DrivenAppends(plant, log, requests, i);
    if i < n - 1 {
      AppliedIsDriven(plant, log, requests, i, n - 1);
    }
  }

  /** Can the endpoint of this request be stopped? */
  predicate Haltable(plant: Plant, request: Request) {
    FindIn(plant.endpoints, request.id).Some? && StopCheck(FindIn(plant.endpoints, request.id).value) == CapOk
  }

  /** A stop of the endpoint of this request, which can be stopped. */
  predicate Halts(plant: Plant, call: Call, request: Request) {
    call == Stop(request.id) && Haltable(plant, request)
  }

  /** Rolling back only appends, and only stops of those of the requests that can be stopped. */
  lemma {:induction false} RolledBackAppends(plant: Plant, log: seq<Call>, requests: seq<Request>, n: nat)
    requires n <= |requests|
    ensures var rolled := RolledBack(plant, log, requests, n);
            && log <= rolled
            && forall p | |log| <= p < |rolled| :: exists i | 0 <= i < n :: Halts(plant, rolled[p], requests[i])
  {
    if n > 0 {
      RolledBackAppends(plant, log, requests, n - 1);
      FindIsMembership(plant.endpoints, requests[n - 1].id);
      hide StopCheck, FindIn;
      var before, rolled := RolledBack(plant, log, requests, n - 1), RolledBack(plant, log, requests, n);
      forall p | |log| <= p < |rolled| ensures exists i | 0 <= i < n :: Halts(plant, rolled[p], requests[i]) {
        if p < |before| {
          var i :| 0 <= i < n - 1 && Halts(plant, before[p], requests[i]);
          assert Halts(plant, rolled[p], requests[i]);
        } else {
          assert Halts(plant, rolled[p], requests[n - 1]);
        }
      }
    }
  }

  lemma {:induction false} RolledBackStops(plant: Plant, log: seq<Call>, requests: seq<Request>, i: nat, n: nat)
    requires i < n <= |requests| && Haltable(plant, requests[i])
    ensures var rolled := RolledBack(plant, log, requests, n); var p := |RolledBack(plant, log, requests, i)|;
            |log| <= p < |rolled| && rolled[p] == Stop(requests[i].id)
  {
    RolledBackAppends(plant, log, requests, i);
    FindIsMembership(plant.endpoints, requests[i].id);
    if i < n - 1 {
      RolledBackStops(plant, log, requests, i, n - 1);
    }
  }

  /** When a request fails at k, no endpoint after k is touched, and no call is made except the speeds
      up to k and the stops of those earlier endpoints that can be stopped. */
  lemma {:induction false} NothingAfterTheFailure(plant: Plant, log: seq<Call>, requests: seq<Request>)
    ensures var k := FirstFailure(plant, log, requests, |requests|); var after := GroupLog(plant, log, requests);
            && log <= after
            && forall p | |log| <= p < |after| ::
                 || (exists i | 0 <= i <= k && i < |requests| :: after[p] == SetCall(requests[i]))
                 || (exists i | 0 <= i < k :: Halts(plant, after[p], requests[i]))
  {
    var k := FirstFailure(plant, log, requests, |requests|);
    var n := if k < |requests| then k + 1 else k;
    DrivenAppends(plant, log, requests, n);
    RolledBackAppends(plant, Driven(plant, log, requests, n), requests, k);
    hide FirstFailure, Driven, RolledBack, RollsBack, SetCall;
  }

  /** When a required endpoint fails at k, every earlier endpoint that can be stopped is stopped after
      its speed was set, and no speed is set after that. */
  lemma {:induction false} RequiredFailureStopsEarlier(
    plant: Plant, log: seq<Call>, requests: seq<Request>, j: nat) returns (p: nat, q: nat)
    requires var k := FirstFailure(plant, log, requests, |requests|); j < k && RollsBack(plant, requests, k)
    requires Haltable(plant, requests[j])
    ensures var after := GroupLog(plant, log, requests);
            && |log| <= p < q < |after|
            && after[p] == SetCall(requests[j]) && after[q] == Stop(requests[j].id)
            && (forall r | q <= r < |after| :: after[r].Stop?)
  {
    var k := FirstFailure(plant, log, requests, |requests|);
    var driven := Driven(plant, log, requests, k + 1);
    AppliedIsDriven(plant, log, requests, j, k + 1);
    RolledBackAppends(plant, driven, requests, k);
    RolledBackStops(plant, driven, requests, j, k);
    hide FirstFailure, Driven, RolledBack, RollsBack, Haltable;
    p := |Driven(plant, log, requests, j)|;
    q := |RolledBack(plant, driven, requests, j)|;
  }

  /** An endpoint without a working stop port keeps its speed through the rollback: nothing stops it
      after its speed was set, and its result says that the rollback failed. */
  lemma {:induction false} UnstoppableKeepsItsSpeed(
    plant: Plant, log: seq<Call>, requests: seq<Request>, j: nat) returns (p: nat)
    requires var k := FirstFailure(plant, log, requests, |requests|); j < k && RollsBack(plant, requests, k)
    requires !Haltable(plant, requests[j])
    ensures var after := GroupLog(plant, log, requests);
            && |log| <= p < |after| && after[p] == SetCall(requests[j])
            && forall q | |log| <= q < |after| :: after[q] != Stop(requests[j].id)
    ensures var result := GroupReport(plant, log, requests).results[j];
            result.applied && result.rollbackAttempted && result.rollbackError != CapOk
  {
    var k := FirstFailure(plant, log, requests, |requests|);
    var driven := Driven(plant, log, requests, k + 1);
    AppliedIsDriven(plant, log, requests, j, k + 1);
    RolledBackAppends(plant, driven, requests, k);
    DrivenAppends(plant, log, requests, k + 1);
    p := |Driven(plant, log, requests, j)|;
    var after := GroupLog(plant, log, requests);
    UnstoppableFails(plant, driven, requests, j);
    hide Driven, RolledBack, RollbackError, RollsBack, FirstFailure, FindIn, StopCheck;
    forall q | |log| <= q < |after| ensures after[q] != Stop(requests[j].id) {
      if q >= |driven| {
        var i :| 0 <= i < k && Halts(plant, after[q], requests[i]);
      }
    }
  }

  lemma {:induction false} UnstoppableFails(plant: Plant, log: seq<Call>, requests: seq<Request>, j: nat)
    requires j < |requests| && !Haltable(plant, requests[j])
    ensures RollbackError(plant, log, requests, j) != CapOk
  {
  }

  /** A failure of an optional or unknown endpoint rolls nothing back. */
  lemma {:induction false} NoRollbackWithoutARequiredFailure(plant: Plant, log: seq<Call>, requests: seq<Request>)
    requires !RollsBack(plant, requests, FirstFailure(plant, log, requests, |requests|))
    ensures forall p | |log| <= p < |GroupLog(plant, log, requests)| :: !GroupLog(plant, log, requests)[p].Stop?
    ensures forall i | 0 <= i < |requests| :: !GroupReport(plant, log, requests).results[i].rollbackAttempted
  {
    var k := FirstFailure(plant, log, requests, |requests|);
    DrivenAppends(plant, log, requests, if k < |requests| then k + 1 else k);
    hide FirstFailure, Driven, RolledBack, RollsBack;
  }

  /** Success is reported exactly when every request was answered with success, and then the devices
      have received exactly the requested speeds, in order. */
  lemma {:induction false} SuccessIff(plant: Plant, log: seq<Call>, requests: seq<Request>)
    ensures GroupReport(plant, log, requests).outcome == Success <==>
              forall i | 0 <= i < |requests| :: ErrorAt(plant, log, requests, i) == CapOk
    ensures GroupReport(plant, log, requests).outcome == Success ==>
              GroupLog(plant, log, requests) ==
                log + seq(|requests|, i requires 0 <= i < |requests| => SetCall(requests[i]))
  {
    hide ErrorAt;
    if FirstFailure(plant, log, requests, |requests|) == |requests| {
      AllDriven(plant, log, requests, |requests|);
    }
  }

  lemma {:induction false} AllDriven(plant: Plant, log: seq<Call>, requests: seq<Request>, n: nat)
    requires n <= |requests| && forall i | 0 <= i < n :: ErrorAt(plant, log, requests, i) == CapOk
    ensures Driven(plant, log, requests, n) == log + seq(n, i requires 0 <= i < n => SetCall(requests[i]))
  {
    if n > 0 {
      AllDriven(plant, log, requests, n - 1);
      assert ErrorAt(plant, log, requests, n - 1) == CapOk;
      assert Driven(plant, log, requests, n) == Driven(plant, log, requests, n - 1) + [SetCall(requests[n - 1])];
      hide Driven, ErrorAt;
    }
  }

  lemma {:induction false} CountOfFirst(results: seq<EndpointResult>, k: nat)
    requires k <= |results|
    requires forall i | 0 <= i < |results| :: results[i].applied <==> i < k
    ensures CountApplied(results) == k
  {
    if results != [] {
      CountOfFirst(results[..|results| - 1], if k == |results| then k - 1 else k);
    }
  }

  /** The applied count is the number of applied flags, and the outcome is PARTIAL exactly when some
      but not all requests were applied. */
  lemma {:induction false} AppliedCountIsFlags(plant: Plant, log: seq<Call>, requests: seq<Request>)
    ensures var report := GroupReport(plant, log, requests);
            && report.applied == CountApplied(report.results)
            && (report.outcome == Partial <==> 0 < report.applied < report.requested)
  {
    hide ErrorAt;
    CountOfFirst(GroupReport(plant, log, requests).results, FirstFailure(plant, log, requests, |requests|));
  }

  // ------------------------------------------------------------------------------------ stop all

  function Times(log: seq<Call>, call: Call): nat {
    multiset(log)[call]
  }

  lemma {:induction false} StoppedAppends(plant: Plant, log: seq<Call>, n: nat)
    requires n <= |plant.endpoints|
    ensures var stopped := Stopped(plant, log, n);
            && log <= stopped
            && forall p | |log| <= p < |stopped| ::
                 exists i | 0 <= i < n :: stopped[p] == Stop(plant.endpoints[i].id)
  {
    if n > 0 {
      StoppedAppends(plant, log, n - 1);
      hide StopCheck;
      var before, stopped := Stopped(plant, log, n - 1), Stopped(plant, log, n);
      forall p | |log| <= p < |stopped|
        ensures exists i | 0 <= i < n :: stopped[p] == Stop(plant.endpoints[i].id)
      {
        if p < |before| {
          var i :| 0 <= i < n - 1 && before[p] == Stop(plant.endpoints[i].id);
          assert stopped[p] == Stop(plant.endpoints[i].id);
        } else {
          assert stopped[p] == Stop(plant.endpoints[n - 1].id);
        }
      }
    }
  }

  /** Whatever the devices answer, a stop of everything reaches each endpoint that can be stopped
      exactly once, and no other endpoint. */
  lemma {:induction false} StopsEachOnce(plant: Plant, log: seq<Call>, n: nat, e: nat)
    requires RobotCapabilities.DistinctIds(plant.endpoints) && n <= |plant.endpoints| && e < |plant.endpoints|
    ensures Times(Stopped(plant, log, n), Stop(plant.endpoints[e].id)) ==
              Times(log, Stop(plant.endpoints[e].id))
              + if e < n && StopCheck(plant.endpoints[e]) == CapOk then 1 else 0
  {
    if n > 0 {
      StopsEachOnce(plant, log, n - 1, e);
      assert e != n - 1 ==> plant.endpoints[e].id != plant.endpoints[n - 1].id;
    }
  }

  /** The results list the stoppable endpoints in the order of the registry. */
  lemma {:induction false} ResultsFollowTheRegistry(plant: Plant, log: seq<Call>, n: nat, e: nat) returns (r: nat)
    requires e < n <= |plant.endpoints| && Stoppable(plant.endpoints[e])
    ensures r == |StopResults(plant, log, e)| < |StopResults(plant, log, n)|
    ensures StopResults(plant, log, n)[r] == StopResult(plant, log, e)
  {
    hide StopResult;
    r := |StopResults(plant, log, e)|;
    if e < n - 1 {
      var _ := ResultsFollowTheRegistry(plant, log, n - 1, e);
    }
  }

  lemma {:induction false} AllCounted(results: seq<EndpointResult>)
    ensures CountApplied(results) == |results| <==> forall i | 0 <= i < |results| :: results[i].applied
  {
    if results != [] {
      AllCounted(results[..|results| - 1]);
    }
  }

  lemma {:induction false} EveryResultHasItsEndpoint(plant: Plant, log: seq<Call>, n: nat, r: nat) returns (e: nat)
    requires n <= |plant.endpoints| && r < |StopResults(plant, log, n)|
    ensures e < n && Stoppable(plant.endpoints[e]) && StopResults(plant, log, n)[r] == StopResult(plant, log, e)
  {
    hide StopResult;
    if r < |StopResults(plant, log, n - 1)| {
      e := EveryResultHasItsEndpoint(plant, log, n - 1, r);
    } else {
      e := n - 1;
    }
  }

  /** Success means that there was something to stop and that every stoppable endpoint said so. */
  lemma {:induction false} StopAllSucceedsIff(plant: Plant, log: seq<Call>)
    ensures StopAllReport(plant, log).outcome == Success <==>
              && (exists e | 0 <= e < |plant.endpoints| :: Stoppable(plant.endpoints[e]))
              && (forall e | 0 <= e < |plant.endpoints| && Stoppable(plant.endpoints[e]) ::
                    StopError(plant, Stopped(plant, log, e), plant.endpoints[e]) == CapOk)
  {
    var n := |plant.endpoints|;
    var results := StopResults(plant, log, n);
    AllCounted(results);
    hide StopError, Stopped, StopResults, CountApplied;
    if forall r | 0 <= r < |results| :: results[r].applied {
      forall e | 0 <= e < n && Stoppable(plant.endpoints[e])
        ensures StopError(plant, Stopped(plant, log, e), plant.endpoints[e]) == CapOk
      {
        var r := ResultsFollowTheRegistry(plant, log, n, e);
        assert results[r].applied;
      }
    }
    if |results| > 0 {
      var e := EveryResultHasItsEndpoint(plant, log, n, 0);
    }
    forall r | 0 <= r < |results| && !results[r].applied
      ensures exists e | 0 <= e < n && Stoppable(plant.endpoints[e]) ::
                StopError(plant, Stopped(plant, log, e), plant.endpoints[e]) != CapOk
    {
      var e := EveryResultHasItsEndpoint(plant, log, n, r);
    }
    if e :| 0 <= e < n && Stoppable(plant.endpoints[e]) {
      var r := ResultsFollowTheRegistry(plant, log, n, e);
    }
  }

  // ------------------------------------------------------------------------------------ the lock

  /** The lock is held after this log. */
  predicate Held(log: seq<Call>) {
    if log == [] then false
    else match log[|log| - 1]
      case Acquire(granted) => granted || Held(log[..|log| - 1])
      case Release => false
      case _ => Held(log[..|log| - 1])
  }

  /** The lock is taken only when it is free and released only when it is held, and a device is
      called only under the lock. */
  predicate Disciplined(log: seq<Call>) {
    log != [] ==>
      var before := log[..|log| - 1];
      && Disciplined(before)
      && match log[|log| - 1]
         case Acquire(_) => !Held(before)
         case _ => Held(before)
  }

  lemma {:induction false} OneMoreCall(log: seq<Call>, call: Call)
    ensures Held(log + [call]) ==
              match call
              case Acquire(granted) => granted || Held(log)
              case Release => false
              case _ => Held(log)
    ensures Disciplined(log + [call]) == (Disciplined(log) && if call.Acquire? then !Held(log) else Held(log))
  {
    assert (log + [call])[..|log|] == log;
  }

  lemma {:induction false} DeviceCallsKeepTheLock(log: seq<Call>, longer: seq<Call>)
    requires log <= longer && Held(log) && Disciplined(log)
    requires forall p | |log| <= p < |longer| :: longer[p].SetRpm? || longer[p].Stop?
    ensures Held(longer) && Disciplined(longer)
    decreases |longer|
  {
    if |longer| > |log| {
      var before := longer[..|longer| - 1];
      DeviceCallsKeepTheLock(log, before);
      OneMoreCall(before, longer[|longer| - 1]);
      assert longer == before + [longer[|longer| - 1]];
    } else {
      assert longer == log;
    }
  }

  /** On every path of a group of speeds the lock ends up as free as it was. */
  lemma {:induction false} ApplyBalancesTheLock(
    plant: Plant, lock: seq<Call> -> bool, log: seq<Call>, requests: seq<Request>)
    requires Disciplined(log) && !Held(log)
    ensures Disciplined(ApplyLog(plant, lock, log, requests)) && !Held(ApplyLog(plant, lock, log, requests))
  {
    OneMoreCall(log, Acquire(lock(log)));
    if 0 < |requests| <= MAX_SETPOINTS && lock(log) {
      var taken := log + [Acquire(true)];
      NothingAfterTheFailure(plant, taken, requests);
      DeviceCallsKeepTheLock(taken, GroupLog(plant, taken, requests));
      OneMoreCall(GroupLog(plant, taken, requests), Release);
    }
    hide Held, Disciplined, GroupLog, FirstFailure;
  }

  /** And on every path of a stop of everything. */
  lemma {:induction false} StopAllBalancesTheLock(plant: Plant, lock: seq<Call> -> bool, log: seq<Call>)
    requires Disciplined(log) && !Held(log)
    ensures Disciplined(StopAllLog(plant, lock, log)) && !Held(StopAllLog(plant, lock, log))
  {
    OneMoreCall(log, Acquire(lock(log)));
    if lock(log) {
      var taken := log + [Acquire(true)];
      StoppedAppends(plant, taken, |plant.endpoints|);
      DeviceCallsKeepTheLock(taken, Stopped(plant, taken, |plant.endpoints|));
      OneMoreCall(Stopped(plant, taken, |plant.endpoints|), Release);
    }
    hide Held, Disciplined, Stopped;
  }
}
