/** Group actuation under one lock.  The log keeps every call to the lock and to a device, in order;
    the answers of the lock and of the devices are arbitrary functions of that log. */
module ActuationCoordinator {
  import opened MachineIntegers
  import opened Prelude
  import opened RobotCapabilities

  const MAX_SETPOINTS: nat := 16

  datatype Call = Acquire(granted: bool) | Release | SetRpm(id: U16, rpm: I16) | Stop(id: U16)

  datatype Request = Request(id: U16, rpm: I16)

  datatype Outcome = Success | Failure | Partial | LockTimeout

  datatype EndpointResult = EndpointResult(
    id: U16, error: CapError, applied: bool, rollbackAttempted: bool, rollbackError: CapError)

  const BLANK: EndpointResult := EndpointResult(0, CapOk, false, false, CapOk)

  /** The registered endpoints and the behaviour of their devices. */
  datatype Plant = Plant(endpoints: seq<Endpoint>, device: (seq<Call>, Call) -> CapError)

  // ------------------------------------------------------------------------ one device at a time

  function SetError(plant: Plant, log: seq<Call>, request: Request): CapError {
    match FindIn(plant.endpoints, request.id)
    case None => Unavailable
    case Some(endpoint) =>
      if SetCheck(endpoint, request.rpm) != CapOk then SetCheck(endpoint, request.rpm)
      else plant.device(log, SetRpm(request.id, request.rpm))
  }

  function SetLog(plant: Plant, log: seq<Call>, request: Request): seq<Call> {
    match FindIn(plant.endpoints, request.id)
    case None => log
    case Some(endpoint) =>
      if SetCheck(endpoint, request.rpm) != CapOk then log else log + [SetRpm(request.id, request.rpm)]
  }

  function StopError(plant: Plant, log: seq<Call>, endpoint: Endpoint): CapError {
    if StopCheck(endpoint) != CapOk then StopCheck(endpoint) else plant.device(log, Stop(endpoint.id))
  }

  function StopLog(log: seq<Call>, endpoint: Endpoint): seq<Call> {
    if StopCheck(endpoint) != CapOk then log else log + [Stop(endpoint.id)]
  }

  // --------------------------------------------------------------------------- a group of speeds

  /** The log after the first n requests have been sent, one after the other. */
  function Driven(plant: Plant, log: seq<Call>, requests: seq<Request>, n: nat): seq<Call>
    requires n <= |requests|
  {
    if n == 0 then log else SetLog(plant, Driven(plant, log, requests, n - 1), requests[n - 1])
  }

  function ErrorAt(plant: Plant, log: seq<Call>, requests: seq<Request>, i: nat): CapError
    requires i < |requests|
  {
    SetError(plant, Driven(plant, log, requests, i), requests[i])
  }

  /** The first request that fails among the first n, or n. */
  function FirstFailure(plant: Plant, log: seq<Call>, requests: seq<Request>, n: nat): (k: nat)
    requires n <= |requests|
    ensures k <= n
    ensures forall i | 0 <= i < k :: ErrorAt(plant, log, requests, i) == CapOk
    ensures k < n ==> ErrorAt(plant, log, requests, k) != CapOk
  {
    if n == 0 then 0
    else
      var k := FirstFailure(plant, log, requests, n - 1);
      if k < n - 1 || ErrorAt(plant, log, requests, n - 1) != CapOk then k else n
  }

  /** The log after the endpoints of the first n requests have been stopped again, oldest first. */
  function RolledBack(plant: Plant, log: seq<Call>, requests: seq<Request>, n: nat): seq<Call>
    requires n <= |requests|
  {
    if n == 0 then log
    else
      var before := RolledBack(plant, log, requests, n - 1);
      match FindIn(plant.endpoints, requests[n - 1].id)
      case None => before
      case Some(endpoint) => StopLog(before, endpoint)
  }

  function RollbackError(plant: Plant, log: seq<Call>, requests: seq<Request>, i: nat): CapError
    requires i < |requests|
  {
    match FindIn(plant.endpoints, requests[i].id)
    case None => InvalidArgument
    case Some(endpoint) => StopError(plant, RolledBack(plant, log, requests, i), endpoint)
  }

  /** Only the failure of a required endpoint stops the earlier ones. */
  predicate RollsBack(plant: Plant, requests: seq<Request>, k: nat) {
    k < |requests| && FindIn(plant.endpoints, requests[k].id).Some?
    && FindIn(plant.endpoints, requests[k].id).value.required
  }

  /** What a group of speed requests leaves behind: the log, the outcome, and a result for each. */
  datatype Report = Report(outcome: Outcome, requested: nat, applied: nat, results: seq<EndpointResult>)

  function GroupLog(plant: Plant, log: seq<Call>, requests: seq<Request>): seq<Call> {
    var k := FirstFailure(plant, log, requests, |requests|);
    var driven := Driven(plant, log, requests, if k < |requests| then k + 1 else k);
    if RollsBack(plant, requests, k) then RolledBack(plant, driven, requests, k) else driven
  }

  function ResultAt(plant: Plant, log: seq<Call>, requests: seq<Request>, i: nat): EndpointResult
    requires i < |requests|
  {
    var k := FirstFailure(plant, log, requests, |requests|);
    if i > k then BLANK
    else if i == k then
      EndpointResult(requests[i].id, ErrorAt(plant, log, requests, i), false, false, CapOk)
    else if RollsBack(plant, requests, k) then
      EndpointResult(requests[i].id, CapOk, true, true,
                     RollbackError(plant, Driven(plant, log, requests, k + 1), requests, i))
    else EndpointResult(requests[i].id, CapOk, true, false, CapOk)
  }

  function GroupReport(plant: Plant, log: seq<Call>, requests: seq<Request>): Report {
    var k := FirstFailure(plant, log, requests, |requests|);
    Report(if k == |requests| then Success else if k > 0 then Partial else Failure, |requests|, k,
           seq(|requests|, i requires 0 <= i < |requests| => ResultAt(plant, log, requests, i)))
  }

  // ------------------------------------------------------------------------------------ stop all

  /** The log after the stoppable ones of the first n endpoints have been stopped. */
  function Stopped(plant: Plant, log: seq<Call>, n: nat): seq<Call>
    requires n <= |plant.endpoints|
  {
    if n == 0 then log
    else
      var before := Stopped(plant, log, n - 1);
      if Stoppable(plant.endpoints[n - 1]) then StopLog(before, plant.endpoints[n - 1]) else before
  }

  function StopResult(plant: Plant, log: seq<Call>, n: nat): EndpointResult
    requires n < |plant.endpoints|
  {
    var error := StopError(plant, Stopped(plant, log, n), plant.endpoints[n]);
    EndpointResult(plant.endpoints[n].id, error, error == CapOk, false, CapOk)
  }

  function StopResults(plant: Plant, log: seq<Call>, n: nat): (results: seq<EndpointResult>)
    requires n <= |plant.endpoints|
    ensures |results| <= n
  {
    if n == 0 then []
    else StopResults(plant, log, n - 1)
         + if Stoppable(plant.endpoints[n - 1]) then [StopResult(plant, log, n - 1)] else []
  }

  function CountApplied(results: seq<EndpointResult>): (n: nat)
    ensures n <= |results|
  {
    if results == [] then 0
    else CountApplied(results[..|results| - 1]) + if results[|results| - 1].applied then 1 else 0
  }

  function StopAllReport(plant: Plant, log: seq<Call>): Report {
    var results := StopResults(plant, log, |plant.endpoints|);
    var applied := CountApplied(results);
    Report(if |results| == 0 then Failure
           else if applied == |results| then Success
           else if applied > 0 then Partial
           else Failure,
           |results|, applied, results)
  }

  // ------------------------------------------------------------------------------ under the lock

  const REFUSED: Report := Report(LockTimeout, 0, 0, [])

  function ApplyLog(plant: Plant, lock: seq<Call> -> bool, log: seq<Call>, requests: seq<Request>): seq<Call> {
    if |requests| == 0 || |requests| > MAX_SETPOINTS then log
    else if !lock(log) then log + [Acquire(false)]
    else GroupLog(plant, log + [Acquire(true)], requests) + [Release]
  }

  function ApplyReport(plant: Plant, lock: seq<Call> -> bool, log: seq<Call>, requests: seq<Request>): Report {
    if |requests| == 0 || |requests| > MAX_SETPOINTS then Report(Failure, |requests|, 0, [])
    else if !lock(log) then Report(LockTimeout, |requests|, 0, seq(|requests|, _ => BLANK))
    else GroupReport(plant, log + [Acquire(true)], requests)
  }

  function StopAllLog(plant: Plant, lock: seq<Call> -> bool, log: seq<Call>): seq<Call> {
    if !lock(log) then log + [Acquire(false)]
    else Stopped(plant, log + [Acquire(true)], |plant.endpoints|) + [Release]
  }

  // -------------------------------------------------------------------------- the in-place form

  /** The caller's report, filled in place. */
  class ReportBuffer {
    var outcome: Outcome
    var requested: nat
    var applied: nat
    const endpoints: array<EndpointResult>

    ghost predicate Valid() {
      endpoints.Length == MAX_SETPOINTS
    }

    ghost function Contents(): Report
      reads this, endpoints
      requires Valid() && requested <= MAX_SETPOINTS
    {
      Report(outcome, requested, applied, endpoints[..requested])
    }

    constructor ()
      ensures Valid() && fresh(endpoints)
    {
      outcome, requested, applied := Failure, 0, 0;
      endpoints := new EndpointResult[MAX_SETPOINTS](_ => BLANK);
    }

    method Reset(requested: nat)
      requires Valid()
      modifies this, endpoints
      ensures outcome == Failure && this.requested == requested && applied == 0
      ensures forall i | 0 <= i < MAX_SETPOINTS :: endpoints[i] == BLANK
    {
      outcome, this.requested, applied := Failure, requested, 0;
      for index := 0 to MAX_SETPOINTS
        invariant forall i | 0 <= i < index :: endpoints[i] == BLANK
        modifies endpoints
      {
        endpoints[index] := BLANK;
      }
    }
  }

  class Coordinator {
    const registry: Registry
    const device: (seq<Call>, Call) -> CapError
    const lock: seq<Call> -> bool
    var log: seq<Call>

    ghost predicate Valid()
      reads registry, registry.items
    {
      registry.Valid()
    }

    ghost function Attached(): Plant
      reads registry, registry.items
      requires Valid()
    {
      Plant(registry.Contents(), device)
    }

    constructor (registry: Registry, device: (seq<Call>, Call) -> CapError, lock: seq<Call> -> bool)
      requires registry.Valid()
      ensures Valid() && this.registry == registry && this.device == device && this.lock == lock && log == []
    {
      this.registry, this.device, this.lock, log := registry, device, lock, [];
    }

    method SetVelocity(endpoint: Endpoint, rpm: I16) returns (error: CapError)
      requires Valid()
      modifies `log
      ensures log == if SetCheck(endpoint, rpm) == CapOk then old(log) + [SetRpm(endpoint.id, rpm)] else old(log)
      ensures error == if SetCheck(endpoint, rpm) == CapOk then device(old(log), SetRpm(endpoint.id, rpm))
                       else SetCheck(endpoint, rpm)
    {
      error := SetCheck(endpoint, rpm);
      if error == CapOk {
        error := device(log, SetRpm(endpoint.id, rpm));
        log := log + [SetRpm(endpoint.id, rpm)];
      }
    }

    method StopEndpoint(endpoint: Endpoint) returns (error: CapError)
      requires Valid()
      modifies `log
      ensures log == StopLog(old(log), endpoint)
      ensures error == StopError(Attached(), old(log), endpoint)
    {
      error := StopCheck(endpoint);
      if error == CapOk {
        error := device(log, Stop(endpoint.id));
        log := log + [Stop(endpoint.id)];
      }
    }

    /** Stops the endpoints that have been applied before the failing one, oldest first. */
    method Rollback(report: ReportBuffer, ghost requests: seq<Request>, appliedCount: nat)
      requires Valid() && report.Valid() && appliedCount <= |requests| <= MAX_SETPOINTS
      requires forall i | 0 <= i < appliedCount ::
                 report.endpoints[i] == EndpointResult(requests[i].id, CapOk, true, false, CapOk)
      modifies `log, report.endpoints
      ensures log == RolledBack(Attached(), old(log), requests, appliedCount)
      ensures forall i | 0 <= i < appliedCount ::
                report.endpoints[i] == EndpointResult(requests[i].id, CapOk, true, true,
                                                      RollbackError(Attached(), old(log), requests, i))
      ensures forall i | appliedCount <= i < MAX_SETPOINTS :: report.endpoints[i] == old(report.endpoints[i])
    {
      hide StopError, StopLog, FindIn, DistinctIds;
      for index := 0 to appliedCount
        invariant log == RolledBack(Attached(), old(log), requests, index)
        invariant forall i | 0 <= i < index ::
          report.endpoints[i] == EndpointResult(requests[i].id, CapOk, true, true,
                                                RollbackError(Attached(), old(log), requests, i))
        invariant forall i | index <= i < MAX_SETPOINTS :: report.endpoints[i] == old(report.endpoints[i])
        modifies `log, report.endpoints
      {
        var previous := report.endpoints[index];
        if previous.applied {
          var found := registry.Find(previous.id);
          var error := InvalidArgument;
          if found.Some? {
            error := StopEndpoint(found.value);
          }
          report.endpoints[index] := previous.(rollbackAttempted := true, rollbackError := error);
        }
      }
    }

    /** One request; an id that nobody has registered is not required by anybody. */
    method Attempt(request: Request) returns (error: CapError, required: bool)
      requires Valid()
      modifies `log
      ensures log == SetLog(Attached(), old(log), request)
      ensures error == SetError(Attached(), old(log), request)
      ensures required == var found := FindIn(Attached().endpoints, request.id); found.Some? && found.value.required
    {
      var found := registry.Find(request.id);
      FindIsMembership(registry.Contents(), request.id);
      if found.None? {
        return Unavailable, false;
      }
      error := SetVelocity(found.value, request.rpm);
      required := found.value.required;
    }

    method ApplyLocked(requests: seq<Request>, report: ReportBuffer) returns (outcome: Outcome)
      requires Valid() && report.Valid() && 0 < |requests| <= MAX_SETPOINTS && report.applied == 0
      requires forall i | 0 <= i < MAX_SETPOINTS :: report.endpoints[i] == BLANK
      modifies `log, report`applied, report.endpoints
      ensures log == GroupLog(Attached(), old(log), requests)
      ensures outcome == GroupReport(Attached(), old(log), requests).outcome
      ensures report.applied == GroupReport(Attached(), old(log), requests).applied
      ensures report.endpoints[..|requests|] == GroupReport(Attached(), old(log), requests).results
    {
      hide DistinctIds, RolledBack, RollbackError, SetError, SetLog, FindIn;
      ghost var plant, before := Attached(), log;
      for index := 0 to |requests|
        invariant FirstFailure(plant, before, requests, index) == index == report.applied
        invariant log == Driven(plant, before, requests, index)
        invariant forall i | 0 <= i < index ::
          report.endpoints[i] == EndpointResult(requests[i].id, CapOk, true, false, CapOk)
        invariant forall i | index <= i < MAX_SETPOINTS :: report.endpoints[i] == BLANK
        modifies `log, report`applied, report.endpoints
      {
        var request := requests[index];
        var error, required := Attempt(request);
        report.endpoints[index] := EndpointResult(request.id, error, error == CapOk, false, CapOk);
        if error == CapOk {
          report.applied := report.applied + 1;
        } else {
          FailureStays(plant, before, requests, index);
          if required {
            Rollback(report, requests, index);
          }
          return if report.applied > 0 then Partial else Failure;
        }
      }
      return Success;
    }

    method ApplyVelocity(requests: seq<Request>, report: ReportBuffer) returns (outcome: Outcome)
      requires Valid() && report.Valid()
      modifies `log, report, report.endpoints
      ensures log == ApplyLog(Attached(), lock, old(log), requests)
      ensures report.requested == |requests| && report.outcome == outcome
      ensures |requests| <= MAX_SETPOINTS && |requests| > 0 ==>
                report.Contents() == ApplyReport(Attached(), lock, old(log), requests)
      ensures |requests| == 0 || |requests| > MAX_SETPOINTS ==> outcome == Failure && report.applied == 0
    {
      report.Reset(|requests|);
      if |requests| == 0 || |requests| > MAX_SETPOINTS {
        return Failure;
      }
      if !lock(log) {
        log := log + [Acquire(false)];
        report.outcome := LockTimeout;
        return LockTimeout;
      }
      log := log + [Acquire(true)];
      outcome := ApplyLocked(requests, report);
      report.outcome := outcome;
      log := log + [Release];
    }

    /** Handles one registered endpoint and appends its result if it can be stopped at all. */
    method StopNext(report: ReportBuffer, index: nat)
      requires Valid() && report.Valid() && index < registry.count && report.requested <= index
      modifies `log, report`requested, report`applied, report.endpoints
      ensures var endpoint := registry.items[index]; var place := old(report.requested);
              if Stoppable(endpoint) then
                var error := StopError(Attached(), old(log), endpoint);
                && log == StopLog(old(log), endpoint)
                && report.requested == place + 1
                && report.applied == old(report.applied) + (if error == CapOk then 1 else 0)
                && report.endpoints[..place] == old(report.endpoints[..place])
                && report.endpoints[place] == EndpointResult(endpoint.id, error, error == CapOk, false, CapOk)
              else
                && log == old(log) && report.requested == place && report.applied == old(report.applied)
                && report.endpoints[..place] == old(report.endpoints[..place])
    {
      hide StopError, StopLog, DistinctIds;
      var endpoint := registry.items[index];
      if Stoppable(endpoint) {
        var error := StopEndpoint(endpoint);
        report.endpoints[report.requested] := EndpointResult(endpoint.id, error, error == CapOk, false, CapOk);
        report.requested := report.requested + 1;
        if error == CapOk {
          report.applied := report.applied + 1;
        }
      }
    }

    method StopAllLocked(report: ReportBuffer) returns (outcome: Outcome)
      requires Valid() && report.Valid() && report.requested == report.applied == 0
      modifies `log, report`requested, report`applied, report.endpoints
      ensures log == Stopped(Attached(), old(log), |Attached().endpoints|)
      ensures report.requested <= MAX_SETPOINTS
      ensures report.Contents().(outcome := outcome) == StopAllReport(Attached(), old(log))
    {
      hide StopError, StopLog, DistinctIds;
      ghost var plant, before := Attached(), log;
      for index := 0 to registry.count
        invariant log == Stopped(plant, before, index)
        invariant report.requested <= index
        invariant report.endpoints[..report.requested] == StopResults(plant, before, index)
        invariant report.applied == CountApplied(StopResults(plant, before, index))
        modifies `log, report`requested, report`applied, report.endpoints
      {
        ghost var place := report.requested;
        StopNext(report, index);
        assert Stoppable(plant.endpoints[index]) ==>
            report.endpoints[..place + 1] == report.endpoints[..place] + [StopResult(plant, before, index)];
        CountOneMore(plant, before, index);
      }
      if report.requested == 0 {
        outcome := Failure;
      } else if report.applied == report.requested {
        outcome := Success;
      } else if report.applied > 0 {
        outcome := Partial;
      } else {
        outcome := Failure;
      }
    }

    method StopAll(report: ReportBuffer) returns (outcome: Outcome)
      requires Valid() && report.Valid()
      modifies `log, report, report.endpoints
      ensures log == StopAllLog(Attached(), lock, old(log))
      ensures report.requested <= MAX_SETPOINTS && report.outcome == outcome
      ensures report.Contents() ==
                if lock(old(log)) then StopAllReport(Attached(), old(log) + [Acquire(true)]) else REFUSED
    {
      report.Reset(0);
      if !lock(log) {
        log := log + [Acquire(false)];
        report.outcome := LockTimeout;
        return LockTimeout;
      }
      log := log + [Acquire(true)];
      outcome := StopAllLocked(report);
      report.outcome := outcome;
      log := log + [Release];
    }
  }

  lemma {:induction false} CountOneMore(plant: Plant, log: seq<Call>, n: nat)
    requires n < |plant.endpoints|
    ensures CountApplied(StopResults(plant, log, n + 1)) ==
              CountApplied(StopResults(plant, log, n))
              + if Stoppable(plant.endpoints[n]) && StopResult(plant, log, n).applied then 1 else 0
  {
    var results := StopResults(plant, log, n);
    hide StopResult;
    if Stoppable(plant.endpoints[n]) {
      var more := StopResults(plant, log, n + 1);
      assert more == results + [StopResult(plant, log, n)];
      assert more[..|more| - 1] == results;
    } else {
      assert StopResults(plant, log, n + 1) == results;
    }
  }

  /** Later requests do not change which one fails first. */
  lemma {:induction false} FailureStays(plant: Plant, log: seq<Call>, requests: seq<Request>, k: nat)
    requires k < |requests| && FirstFailure(plant, log, requests, k) == k
    requires ErrorAt(plant, log, requests, k) != CapOk
    ensures FirstFailure(plant, log, requests, |requests|) == k
  {
    hide ErrorAt;
    var m := FirstFailure(plant, log, requests, |requests|);
  }
}
