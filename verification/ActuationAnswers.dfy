/** Which endpoints are driven and stopped, and what the reports say about it, told from the ports of the
    endpoints and from the log of calls alone. */
module ActuationAnswers {
  import opened MachineIntegers
  import opened Prelude
  import opened RobotCapabilities
  import opened ActuationCoordinator
  import opened ActuationRuns

  /** The endpoint may be asked for this speed. */
  predicate Drivable(endpoint: Endpoint, rpm: I16) {
    && endpoint.available && endpoint.velocity.VelocityPort?
    && endpoint.velocity.operation && endpoint.velocity.context
    && endpoint.velocity.minRpm <= rpm <= endpoint.velocity.maxRpm
  }

  /** The stop port of the endpoint works. */
  predicate Brakes(endpoint: Endpoint) {
    endpoint.stop.StopPort? && endpoint.stop.operation && endpoint.stop.context
  }

  predicate Registered(plant: Plant, endpoint: Endpoint) {
    endpoint in plant.endpoints
  }

  /** The registry of the plant knows its endpoints by different ids. */
  predicate Distinguishes(plant: Plant) {
    RobotCapabilities.DistinctIds(plant.endpoints)
  }

  lemma {:induction false} RegisteredIsFound(plant: Plant, endpoint: Endpoint)
    requires Distinguishes(plant) && Registered(plant, endpoint)
    ensures FindIn(plant.endpoints, endpoint.id) == Some(endpoint)
  {
    var n :| 0 <= n < |plant.endpoints| && plant.endpoints[n] == endpoint;
    FindsItself(plant.endpoints, n);
  }

  lemma {:induction false} UnknownIsNotFound(plant: Plant, id: U16)
    requires forall endpoint | endpoint in plant.endpoints :: endpoint.id != id
    ensures FindIn(plant.endpoints, id) == None
  {
    FindIsMembership(plant.endpoints, id);
  }

  /** An endpoint is taken into the registry exactly when it has a name and some port, its id is new, and
      there is room; otherwise the result names the first of these that it lacks. */
  lemma {:induction false} AddIff(endpoints: seq<Endpoint>, endpoint: Endpoint)
    ensures var result := AddCheck(endpoints, endpoint);
            var whole := endpoint.named
                         && (endpoint.velocity.VelocityPort? || endpoint.stop.StopPort? || endpoint.otherPorts);
            var known := exists other | other in endpoints :: other.id == endpoint.id;
            && (result == RegistryOk <==> whole && !known && |endpoints| < REGISTRY_MAX)
            && (result == RegistryInvalidArgument <==> !whole)
            && (result == DuplicateId <==> whole && known)
            && (result == RegistryFull <==> whole && !known && |endpoints| >= REGISTRY_MAX)
  {
    FindIsMembership(endpoints, endpoint.id);
    if other :| other in endpoints && other.id == endpoint.id {
      var i :| 0 <= i < |endpoints| && endpoints[i] == other;
    }
  }

  // ------------------------------------------------------------------------------ a single request

  /** The device of a registered endpoint is asked exactly when the endpoint is available, its velocity port
      works and the speed is within its limits; otherwise the answer tells the first reason. */
  lemma {:induction false} AskedIff(plant: Plant, log: seq<Call>, request: Request, endpoint: Endpoint)
    requires Distinguishes(plant) && Registered(plant, endpoint) && endpoint.id == request.id
    ensures var error, port := SetError(plant, log, request), endpoint.velocity;
            if Drivable(endpoint, request.rpm) then
              && SetLog(plant, log, request) == log + [SetCall(request)]
              && error == plant.device(log, SetCall(request))
            else
              && SetLog(plant, log, request) == log
              && (error == Unavailable <==> !endpoint.available)
              && (error == Unsupported <==>
                    endpoint.available && (port.NoVelocityPort? || !port.operation))
              && (error == InvalidArgument <==>
                    endpoint.available && port.VelocityPort? && port.operation && !port.context)
              && (error == OutOfRange <==>
                    endpoint.available && port.VelocityPort? && port.operation && port.context
                    && !(port.minRpm <= request.rpm <= port.maxRpm))
  {
    RegisteredIsFound(plant, endpoint);
  }

  /** An id that nobody has registered is unavailable. */
  lemma {:induction false} UnknownIsUnavailable(plant: Plant, log: seq<Call>, request: Request)
    requires forall endpoint | endpoint in plant.endpoints :: endpoint.id != request.id
    ensures SetLog(plant, log, request) == log && SetError(plant, log, request) == Unavailable
  {
    UnknownIsNotFound(plant, request.id);
  }

  lemma {:induction false} BrakesIff(endpoint: Endpoint)
    ensures StopCheck(endpoint) == CapOk <==> Brakes(endpoint)
    ensures !endpoint.stop.StopPort? || !endpoint.stop.operation <==> StopCheck(endpoint) == Unsupported
    ensures StopCheck(endpoint) == InvalidArgument <==>
              endpoint.stop.StopPort? && endpoint.stop.operation && !endpoint.stop.context
  {
  }

  // ----------------------------------------------------------------------------- a group of speeds

  /** No device is ever asked for a speed that its endpoint does not offer. */
  lemma {:induction false} OnlyDrivableAreDriven(plant: Plant, log: seq<Call>, requests: seq<Request>, p: nat)
    requires Distinguishes(plant) && |log| <= p < |GroupLog(plant, log, requests)|
    requires GroupLog(plant, log, requests)[p].SetRpm?
    ensures exists endpoint ::
              && Registered(plant, endpoint) && endpoint.id == GroupLog(plant, log, requests)[p].id
              && Drivable(endpoint, GroupLog(plant, log, requests)[p].rpm)
  {
    var k := FirstFailure(plant, log, requests, |requests|);
    var n := if k < |requests| then k + 1 else k;
    RolledBackAppends(plant, Driven(plant, log, requests, n), requests, k);
    assert p < |Driven(plant, log, requests, n)|;
    DrivenAreDrivable(plant, log, requests, n, p);
    hide FirstFailure, Driven, RolledBack, RollsBack;
  }

  lemma {:induction false} DrivenAreDrivable(plant: Plant, log: seq<Call>, requests: seq<Request>, n: nat, p: nat)
    requires Distinguishes(plant) && n <= |requests| && |log| <= p < |Driven(plant, log, requests, n)|
    ensures var call := Driven(plant, log, requests, n)[p];
            && call.SetRpm?
            && exists endpoint :: Registered(plant, endpoint) && endpoint.id == call.id && Drivable(endpoint, call.rpm)
  {
    var before := Driven(plant, log, requests, n - 1);
    if p < |before| {
      DrivenAreDrivable(plant, log, requests, n - 1, p);
    } else {
      FindIsMembership(plant.endpoints, requests[n - 1].id);
      var endpoint := FindIn(plant.endpoints, requests[n - 1].id).value;
      assert Registered(plant, endpoint);
      AskedIff(plant, before, requests[n - 1], endpoint);
    }
  }

  /** The call of the i-th request stands at its own place, if everything before it went well. */
  lemma {:induction false} PlaceOfCall(plant: Plant, log: seq<Call>, requests: seq<Request>, k: nat)
    requires k == FirstFailure(plant, log, requests, |requests|)
    ensures var after := GroupLog(plant, log, requests);
            && |after| >= |log| + k && forall i | 0 <= i <= k :: after[..|log| + i] == Driven(plant, log, requests, i)
    ensures var after := GroupLog(plant, log, requests);
            forall p | |log| + k < p < |after| :: after[p].Stop?
    ensures var after := GroupLog(plant, log, requests);
            k < |requests| && |after| > |log| + k && after[|log| + k].SetRpm? ==>
              after[|log| + k] == SetCall(requests[k]) && after[..|log| + k + 1] == Driven(plant, log, requests, k + 1)
  {
    var n := if k < |requests| then k + 1 else k;
    var driven := Driven(plant, log, requests, n);
    RolledBackAppends(plant, driven, requests, k);
    var after := GroupLog(plant, log, requests);
    AllDriven(plant, log, requests, k);
    DrivenGrows(plant, log, requests, k, n);
    forall i: nat | i <= k ensures after[..|log| + i] == Driven(plant, log, requests, i) {
      AllDriven(plant, log, requests, i);
      DrivenGrows(plant, log, requests, i, n);
    }
    hide FirstFailure, RolledBack, RollsBack, ErrorAt;
  }

  lemma {:induction false} DrivenGrows(plant: Plant, log: seq<Call>, requests: seq<Request>, i: nat, n: nat)
    requires i <= n <= |requests|
    ensures Driven(plant, log, requests, i) <= Driven(plant, log, requests, n)
  {
    if i < n {
      DrivenGrows(plant, log, requests, i, n - 1);
    }
  }

  /** A request counts as applied exactly when its device was asked for this speed, at its place in the
      order, and answered with success. */
  lemma {:induction false} AppliedIff(plant: Plant, log: seq<Call>, requests: seq<Request>, i: nat)
    requires i < |requests|
    ensures var after, result := GroupLog(plant, log, requests), GroupReport(plant, log, requests).results[i];
            result.applied <==>
              && |log| + i < |after| && after[|log| + i] == SetCall(requests[i])
              && plant.device(after[..|log| + i], after[|log| + i]) == CapOk
  {
    var k := FirstFailure(plant, log, requests, |requests|);
    PlaceOfCall(plant, log, requests, k);
    var after := GroupLog(plant, log, requests);
    if i < k {
      assert ErrorAt(plant, log, requests, i) == CapOk;
      assert after[..|log| + i] == Driven(plant, log, requests, i);
      assert after[..|log| + i + 1] == Driven(plant, log, requests, i + 1);
      SuccessIsAnswered(plant, Driven(plant, log, requests, i), requests[i]);
      assert after[|log| + i] == after[..|log| + i + 1][|log| + i];
    } else if i == k {
      assert ErrorAt(plant, log, requests, i) != CapOk;
      if |log| + i < |after| && after[|log| + i] == SetCall(requests[i]) {
        CallIsAnswered(plant, Driven(plant, log, requests, i), requests[i]);
      }
    }
    hide GroupLog, FirstFailure, Driven, RollsBack;
  }

  lemma {:induction false} SuccessIsAnswered(plant: Plant, log: seq<Call>, request: Request)
    requires SetError(plant, log, request) == CapOk
    ensures SetLog(plant, log, request) == log + [SetCall(request)] && plant.device(log, SetCall(request)) == CapOk
  {
  }

  lemma {:induction false} CallIsAnswered(plant: Plant, log: seq<Call>, request: Request)
    requires SetLog(plant, log, request) != log
    ensures SetError(plant, log, request) == plant.device(log, SetCall(request))
  {
  }

  // ---------------------------------------------------------------------------------- the rollback

  /** How many of the first n requests name an endpoint that can be stopped. */
  function Stops(plant: Plant, requests: seq<Request>, n: nat): nat
    requires n <= |requests|
  {
    if n == 0 then 0 else Stops(plant, requests, n - 1) + if Haltable(plant, requests[n - 1]) then 1 else 0
  }

  lemma {:induction false} RolledBackGrows(plant: Plant, log: seq<Call>, requests: seq<Request>, i: nat, n: nat)
    requires i <= n <= |requests|
    ensures RolledBack(plant, log, requests, i) <= RolledBack(plant, log, requests, n)
    ensures |RolledBack(plant, log, requests, i)| == |log| + Stops(plant, requests, i)
    decreases n, i
  {
    if i < n {
      RolledBackGrows(plant, log, requests, i, n - 1);
    } else if i > 0 {
      RolledBackGrows(plant, log, requests, i - 1, n - 1);
    }
  }

  /** The robot cannot do without the endpoint of this id. */
  ghost predicate Required(plant: Plant, id: U16) {
    exists endpoint | endpoint in plant.endpoints :: endpoint.id == id && endpoint.required
  }

  lemma {:induction false} RequiredRollsBack(plant: Plant, requests: seq<Request>, k: nat)
    requires Distinguishes(plant) && k < |requests|
    ensures RollsBack(plant, requests, k) <==> Required(plant, requests[k].id)
  {
    FindIsMembership(plant.endpoints, requests[k].id);
    if endpoint :| endpoint in plant.endpoints && endpoint.id == requests[k].id && endpoint.required {
      RegisteredIsFound(plant, endpoint);
    }
  }

  /** A rollback is attempted for exactly the requests in front of the failing required one. */
  lemma {:induction false} RollbackIff(plant: Plant, log: seq<Call>, requests: seq<Request>, i: nat)
    requires Distinguishes(plant) && i < |requests|
    ensures var k := FirstFailure(plant, log, requests, |requests|);
            GroupReport(plant, log, requests).results[i].rollbackAttempted <==>
              i < k < |requests| && Required(plant, requests[k].id)
  {
    var k := FirstFailure(plant, log, requests, |requests|);
    hide FirstFailure, Required, ErrorAt, RollbackError, Driven;
    if k < |requests| {
      RequiredRollsBack(plant, requests, k);
    }
  }

  lemma {:induction false} HaltableIff(plant: Plant, request: Request, endpoint: Endpoint)
    requires Distinguishes(plant) && Registered(plant, endpoint) && endpoint.id == request.id
    ensures Haltable(plant, request) <==> Brakes(endpoint)
  {
    RegisteredIsFound(plant, endpoint);
    BrakesIff(endpoint);
  }

  /** It is reported as done exactly when the endpoint can be stopped and its device, asked at its place in
      the order, answered with success. */
  lemma {:induction false} RollbackDoneIff(plant: Plant, log: seq<Call>, requests: seq<Request>, i: nat)
    requires i < |requests| && GroupReport(plant, log, requests).results[i].rollbackAttempted
    ensures var k := FirstFailure(plant, log, requests, |requests|); var after := GroupLog(plant, log, requests);
            && i < k < |requests|
            && var p := |Driven(plant, log, requests, k + 1)| + Stops(plant, requests, i);
               && p <= |after|
               && (Haltable(plant, requests[i]) ==> p < |after| && after[p] == Stop(requests[i].id))
               && (GroupReport(plant, log, requests).results[i].rollbackError == CapOk <==>
                     Haltable(plant, requests[i]) && plant.device(after[..p], Stop(requests[i].id)) == CapOk)
  {
    var k := FirstFailure(plant, log, requests, |requests|);
    assert i < k && RollsBack(plant, requests, k);
    var driven := Driven(plant, log, requests, k + 1);
    RolledBackGrows(plant, driven, requests, i, k);
    RolledBackGrows(plant, driven, requests, i + 1, k);
    FindIsMembership(plant.endpoints, requests[i].id);
    var before := RolledBack(plant, driven, requests, i);
    assert GroupLog(plant, log, requests)[..|before|] == before;
    hide FirstFailure, Driven, RollsBack;
  }

  /** Only the failing request keeps an error, and behind it the results are blank. */
  lemma {:induction false} ErrorsIff(plant: Plant, log: seq<Call>, requests: seq<Request>, i: nat)
    requires i < |requests|
    ensures var k := FirstFailure(plant, log, requests, |requests|);
            var result := GroupReport(plant, log, requests).results[i];
            && (i <= k ==> result.id == requests[i].id)
            && (result.error != CapOk <==> i == k)
            && (i == k ==> result.error == ErrorAt(plant, log, requests, k) && !result.rollbackAttempted)
            && (i > k ==> result == BLANK)
            && (!result.rollbackAttempted ==> result.rollbackError == CapOk)
  {
    hide ErrorAt, RollsBack, RollbackError;
  }

  /** The outcome by the number of applied requests. */
  lemma {:induction false} OutcomeIff(plant: Plant, log: seq<Call>, requests: seq<Request>)
    requires requests != []
    ensures var report := GroupReport(plant, log, requests);
            && report.requested == |requests| == |report.results|
            && (report.outcome == Success <==> report.applied == |requests|)
            && (report.outcome == Partial <==> 0 < report.applied < |requests|)
            && (report.outcome == Failure <==> report.applied == 0)
  {
    hide FirstFailure, ResultAt;
  }

  // ----------------------------------------------------------------------------- a stop of everything

  /** How many of the first n endpoints have a stop port, and how many of these work. */
  function Ports(plant: Plant, n: nat): nat
    requires n <= |plant.endpoints|
  {
    if n == 0 then 0 else Ports(plant, n - 1) + if plant.endpoints[n - 1].stop.StopPort? then 1 else 0
  }

  function Working(plant: Plant, n: nat): nat
    requires n <= |plant.endpoints|
  {
    if n == 0 then 0 else Working(plant, n - 1) + if Brakes(plant.endpoints[n - 1]) then 1 else 0
  }

  lemma {:induction false} StoppedGrows(plant: Plant, log: seq<Call>, i: nat, n: nat)
    requires i <= n <= |plant.endpoints|
    ensures Stopped(plant, log, i) <= Stopped(plant, log, n)
    ensures |Stopped(plant, log, i)| == |log| + Working(plant, i)
    decreases n, i
  {
    if i < n {
      StoppedGrows(plant, log, i, n - 1);
    } else if i > 0 {
      StoppedGrows(plant, log, i - 1, n - 1);
    }
  }

  lemma {:induction false} ResultsAreCounted(plant: Plant, log: seq<Call>, n: nat)
    requires n <= |plant.endpoints|
    ensures |StopResults(plant, log, n)| == Ports(plant, n)
  {
    hide StopResult;
    if n > 0 {
      ResultsAreCounted(plant, log, n - 1);
    }
  }

  /** Every endpoint with a stop port has its result, in the order of the registry.  It counts as applied
      exactly when its port works and its device, asked at its place in the order, answered with success. */
  lemma {:induction false} StopAppliedIff(plant: Plant, log: seq<Call>, e: nat)
    requires e < |plant.endpoints| && plant.endpoints[e].stop.StopPort?
    ensures var n, endpoint := |plant.endpoints|, plant.endpoints[e];
            var after, report := Stopped(plant, log, n), StopAllReport(plant, log);
            var r, p := Ports(plant, e), |log| + Working(plant, e);
            && r < |report.results| == report.requested && p <= |after|
            && report.results[r].id == endpoint.id
            && !report.results[r].rollbackAttempted && report.results[r].rollbackError == CapOk
            && (Brakes(endpoint) ==> p < |after| && after[p] == Stop(endpoint.id))
            && (report.results[r].applied <==>
                  Brakes(endpoint) && plant.device(after[..p], Stop(endpoint.id)) == CapOk)
            && (report.results[r].applied <==> report.results[r].error == CapOk)
  {
    var n := |plant.endpoints|;
    var r := ResultsFollowTheRegistry(plant, log, n, e);
    ResultsAreCounted(plant, log, e);
    StoppedGrows(plant, log, e, n);
    StoppedGrows(plant, log, e + 1, n);
    BrakesIff(plant.endpoints[e]);
    var before := Stopped(plant, log, e);
    assert Stopped(plant, log, n)[..|before|] == before;
    hide CountApplied, StopResults;
  }

  lemma {:induction false} StopOutcomeIff(plant: Plant, log: seq<Call>)
    ensures var report := StopAllReport(plant, log);
            && (report.outcome == Success <==> report.requested > 0 && report.applied == report.requested)
            && (report.outcome == Partial <==> 0 < report.applied < report.requested)
            && (report.outcome == Failure <==> report.applied == 0)
  {
    hide CountApplied, StopResults;
  }

  // ------------------------------------------------------------------------------------ the lock

  /** Without the lock, and for a group that is empty or too long, no device is called and nothing is
      applied. */
  lemma {:induction false} RefusedTouchesNothing(
    plant: Plant, lock: seq<Call> -> bool, log: seq<Call>, requests: seq<Request>)
    ensures var after, report := ApplyLog(plant, lock, log, requests), ApplyReport(plant, lock, log, requests);
            && (report.outcome == LockTimeout <==> 0 < |requests| <= MAX_SETPOINTS && !lock(log))
            && (report.outcome == LockTimeout ==>
                  && after == log + [Acquire(false)] && report.applied == 0 && report.requested == |requests|
                  && |report.results| == |requests| && forall i | 0 <= i < |requests| :: !report.results[i].applied)
            && (requests == [] || |requests| > MAX_SETPOINTS ==>
                  after == log && report.outcome == Failure && report.applied == 0)
    ensures !lock(log) ==> StopAllLog(plant, lock, log) == log + [Acquire(false)]
  {
    hide FirstFailure, ResultAt;
  }

  /** The same inside the lock: a request of the whole operation counts as applied exactly when its device was
      asked for its speed behind the acquisition, and answered with success. */
  lemma {:induction false} AppliedUnderTheLock(
    plant: Plant, lock: seq<Call> -> bool, log: seq<Call>, requests: seq<Request>, i: nat)
    requires i < |requests| <= MAX_SETPOINTS && lock(log)
    ensures var after := ApplyLog(plant, lock, log, requests); var p := |log| + 1 + i;
            && |log| < |after| && after[|log|] == Acquire(true) && after[|after| - 1] == Release
            && (ApplyReport(plant, lock, log, requests).results[i].applied <==>
                  p < |after| && after[p] == SetCall(requests[i])
                  && plant.device(after[..p], after[p]) == CapOk)
  {
    var taken := log + [Acquire(true)];
    AppliedIff(plant, taken, requests, i);
    NothingAfterTheFailure(plant, taken, requests);
    hide FirstFailure, ResultAt, Halts;
    var inner, after := GroupLog(plant, taken, requests), ApplyLog(plant, lock, log, requests);
    assert after == inner + [Release];
    assert |taken| + i < |inner| ==> after[..|taken| + i] == inner[..|taken| + i];
  }
}
