/** Endpoints, the ports they carry, and the registry that finds them by id.  A port is described by
    whether its operation and its device context are present; what the device answers is a parameter
    of the modules that call it. */
module RobotCapabilities {
  import opened MachineIntegers
  import opened Prelude

  const REGISTRY_MAX: nat := 16

  datatype CapError = CapOk | InvalidArgument | Unavailable | Unsupported | OutOfRange | IoError

  datatype VelocityPort = NoVelocityPort | VelocityPort(minRpm: I16, maxRpm: I16, operation: bool, context: bool)

  datatype StopPort = NoStopPort | StopPort(operation: bool, context: bool)

  datatype Endpoint = Endpoint(
    id: U16, named: bool, available: bool, required: bool,
    velocity: VelocityPort, stop: StopPort, otherPorts: bool)

  datatype RegistryResult = RegistryOk | RegistryInvalidArgument | DuplicateId | RegistryFull

  /** What a speed request is answered before the device is asked. */
  function SetCheck(endpoint: Endpoint, rpm: I16): CapError {
    if !endpoint.available then Unavailable
    else match endpoint.velocity
      case NoVelocityPort => Unsupported
      case VelocityPort(minRpm, maxRpm, operation, context) =>
        if !operation then Unsupported
        else if !context then InvalidArgument
        else if rpm < minRpm || rpm > maxRpm then OutOfRange
        else CapOk
  }

  /** Stopping does not ask whether the endpoint is available. */
  function StopCheck(endpoint: Endpoint): CapError {
    match endpoint.stop
    case NoStopPort => Unsupported
    case StopPort(operation, context) =>
      if !operation then Unsupported else if !context then InvalidArgument else CapOk
  }

  predicate Stoppable(endpoint: Endpoint) {
    endpoint.stop.StopPort?
  }

  /** The first endpoint with this id. */
  function FindIn(endpoints: seq<Endpoint>, id: U16): Option<Endpoint> {
    if endpoints == [] then None
    else if endpoints[0].id == id then Some(endpoints[0])
    else FindIn(endpoints[1..], id)
  }

  predicate DistinctIds(endpoints: seq<Endpoint>) {
    forall i, j | 0 <= i < j < |endpoints| :: endpoints[i].id != endpoints[j].id
  }

  lemma {:induction false} FindIsMembership(endpoints: seq<Endpoint>, id: U16)
    ensures FindIn(endpoints, id).Some? <==> exists i | 0 <= i < |endpoints| :: endpoints[i].id == id
    ensures FindIn(endpoints, id).Some? ==>
              FindIn(endpoints, id).value in endpoints && FindIn(endpoints, id).value.id == id
  {
    if endpoints != [] && endpoints[0].id != id {
      FindIsMembership(endpoints[1..], id);
      if i: int :| 0 <= i < |endpoints| && endpoints[i].id == id {
        assert endpoints[1..][i - 1].id == id;
      }
    }
  }

  lemma {:induction false} FindFirst(endpoints: seq<Endpoint>, id: U16, n: nat)
    requires n < |endpoints| && endpoints[n].id == id
    requires forall i | 0 <= i < n :: endpoints[i].id != id
    ensures FindIn(endpoints, id) == Some(endpoints[n])
  {
    if n > 0 {
      FindFirst(endpoints[1..], id, n - 1);
    }
  }

  /** In a registry every endpoint is found under its own id. */
  lemma {:induction false} FindsItself(endpoints: seq<Endpoint>, n: nat)
    requires DistinctIds(endpoints) && n < |endpoints|
    ensures FindIn(endpoints, endpoints[n].id) == Some(endpoints[n])
  {
    FindFirst(endpoints, endpoints[n].id, n);
  }

  function AddCheck(endpoints: seq<Endpoint>, endpoint: Endpoint): RegistryResult {
    if !endpoint.named || (endpoint.velocity.NoVelocityPort? && endpoint.stop.NoStopPort? && !endpoint.otherPorts)
    then RegistryInvalidArgument
    else if FindIn(endpoints, endpoint.id).Some? then DuplicateId
    else if |endpoints| >= REGISTRY_MAX then RegistryFull
    else RegistryOk
  }

  class Registry {
    const items: array<Endpoint>
    var count: nat

    ghost predicate Valid()
      reads this, items
    {
      items.Length == REGISTRY_MAX && count <= REGISTRY_MAX && DistinctIds(items[..count])
    }

    ghost function Contents(): seq<Endpoint>
      reads this, items
      requires Valid()
    {
      items[..count]
    }

    constructor ()
      ensures Valid() && fresh(items) && Contents() == []
    {
      items := new Endpoint[REGISTRY_MAX](_ => Endpoint(0, false, false, false, NoVelocityPort, NoStopPort, false));
      count := 0;
    }

    method Find(id: U16) returns (found: Option<Endpoint>)
      requires Valid()
      ensures found == FindIn(Contents(), id)
    {
      for index := 0 to count
        invariant forall i | 0 <= i < index :: items[i].id != id
      {
        if items[index].id == id {
          FindFirst(Contents(), id, index);
          return Some(items[index]);
        }
      }
      FindIsMembership(Contents(), id);
      return None;
    }

    /** Adding keeps the ids of the registry distinct, up to its capacity. */
    method Add(endpoint: Endpoint) returns (result: RegistryResult)
      requires Valid()
      modifies this, items
      ensures Valid() && result == AddCheck(old(Contents()), endpoint)
      ensures Contents() == old(Contents()) + if result == RegistryOk then [endpoint] else []
    {
      if !endpoint.named || (endpoint.velocity.NoVelocityPort? && endpoint.stop.NoStopPort? && !endpoint.otherPorts) {
        return RegistryInvalidArgument;
      }
      var found := Find(endpoint.id);
      FindIsMembership(Contents(), endpoint.id);
      if found.Some? {
        return DuplicateId;
      }
      if count >= REGISTRY_MAX {
        return RegistryFull;
      }
      items[count] := endpoint;
      count := count + 1;
      return RegistryOk;
    }
  }
}
