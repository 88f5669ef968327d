/** The validation of the endpoints and the geometry of a robot profile.  What comes before it (board,
    buses, pins, the devices themselves) and behind it (steering axes, radio) is left out; a device
    is what its endpoints need to know of it. */
module RobotProfile {
  import opened MachineIntegers
  import opened Prelude
  import CA = CommandAuthority

  const MAX_ENDPOINTS: nat := 8
  const TTL_MIN: nat := 50
  const TTL_MAX: nat := 500

  datatype Capability =
    | VelocityRpm
    | Stoppable
    | Position
    | PositionSensor
    | PositionObservation
    | PositionReference

  /** `driver` is what the driver of the device can do, if there is one. */
  datatype Device = Device(id: U16, channelCount: U8, driver: Option<set<Capability>>)

  /** `side` is the stored byte: 0 is none, 1 left, 2 right. */
  datatype Endpoint = Endpoint(
    id: U16, name: string, device: U16, channel: U8, capabilities: set<Capability>,
    minRpm: I16, maxRpm: I16, minPosition: real, maxPosition: real,
    side: U8, directionSign: int, ratio: real)

  datatype Profile = Profile(
    devices: seq<Device>, endpoints: seq<Endpoint>,
    differential: bool, trackWidth: real, wheelRadius: real, wheelbase: real,
    maxVelocity: CA.Velocity, ttl: U32)

  const NO_SIDE: U8 := 0
  const LEFT: U8 := 1
  const RIGHT: U8 := 2

  datatype Error =
    | Valid
    | BadCount
    | BadReference
    | DuplicateId
    | DuplicateName
    | DuplicateChannel
    | BadChannel
    | BadCapability
    | BadLimit
    | BadGeometry

  // ------------------------------------------------------------------------- what is demanded

  predicate LimitsValid(e: Endpoint) {
    && (VelocityRpm in e.capabilities ==> e.minRpm <= e.maxRpm && e.minRpm <= 0 <= e.maxRpm)
    && (Position in e.capabilities ==> e.minPosition < e.maxPosition)
  }

  predicate SideValid(e: Endpoint) {
    e.side != NO_SIDE ==>
      && {VelocityRpm, Stoppable} <= e.capabilities && (e.side == LEFT || e.side == RIGHT)
      && (e.directionSign == -1 || e.directionSign == 1) && e.ratio > 0.0
  }

  predicate GeometryValid(p: Profile) {
    && p.wheelbase >= 0.0 && p.trackWidth > 0.0 && p.wheelRadius > 0.0
    && p.maxVelocity.vx > 0.0 && p.maxVelocity.vy > 0.0 && p.maxVelocity.wz > 0.0
    && TTL_MIN <= p.ttl <= TTL_MAX
  }

  ghost predicate HasSide(endpoints: seq<Endpoint>, side: U8) {
    exists i | 0 <= i < |endpoints| :: endpoints[i].side == side
  }

  ghost predicate IdsValid(endpoints: seq<Endpoint>) {
    && (forall i | 0 <= i < |endpoints| :: endpoints[i].id != 0)
    && (forall i, j | 0 <= i < j < |endpoints| :: endpoints[i].id != endpoints[j].id)
  }

  ghost predicate NamesValid(endpoints: seq<Endpoint>) {
    && (forall i | 0 <= i < |endpoints| :: endpoints[i].name != "")
    && (forall i, j | 0 <= i < j < |endpoints| :: endpoints[i].name != endpoints[j].name)
  }

  /** No two endpoints share a channel of a device. */
  ghost predicate ChannelsValid(endpoints: seq<Endpoint>) {
    forall i, j | 0 <= i < j < |endpoints| ::
      endpoints[i].device != endpoints[j].device || endpoints[i].channel != endpoints[j].channel
  }

  /** The first device with this id. */
  function FindDevice(devices: seq<Device>, id: U16): (found: Option<Device>)
    ensures found.Some? ==> found.value in devices && found.value.id == id
    ensures found.None? ==> forall d | d in devices :: d.id != id
  {
    if devices == [] then None
    else if devices[0].id == id then Some(devices[0])
    else FindDevice(devices[1..], id)
  }

  /** The endpoint is a channel of a device whose driver can do what it promises. */
  predicate AttachedTo(e: Endpoint, d: Device) {
    e.channel < d.channelCount && d.driver.Some? && e.capabilities <= d.driver.value
  }

  predicate Attached(devices: seq<Device>, e: Endpoint) {
    var device := FindDevice(devices, e.device);
    device.Some? && AttachedTo(e, device.value)
  }

  ghost predicate EndpointsValid(p: Profile) {
    && IdsValid(p.endpoints) && NamesValid(p.endpoints) && ChannelsValid(p.endpoints)
    && forall i | 0 <= i < |p.endpoints| :: Attached(p.devices, p.endpoints[i]) && LimitsValid(p.endpoints[i])
  }

  ghost predicate MotionValid(p: Profile) {
    && (p.differential ==>
          && GeometryValid(p)
          && (forall i | 0 <= i < |p.endpoints| :: SideValid(p.endpoints[i]))
          && HasSide(p.endpoints, LEFT) && HasSide(p.endpoints, RIGHT))
    && (!p.differential ==> forall i | 0 <= i < |p.endpoints| :: p.endpoints[i].side == NO_SIDE)
  }

  /** Everything the validation demands of the endpoints and the geometry. */
  ghost predicate ProfileValid(p: Profile) {
    |p.endpoints| <= MAX_ENDPOINTS && EndpointsValid(p) && MotionValid(p)
  }

  // ------------------------------------------------------------------- which error comes first

  function ClashOf(earlier: Endpoint, e: Endpoint): Error {
    if earlier.id == e.id then DuplicateId
    else if earlier.name == e.name then DuplicateName
    else if earlier.device == e.device && earlier.channel == e.channel then DuplicateChannel
    else Valid
  }

  /** The first clash of endpoint i with the endpoints before n. */
  function FirstClash(endpoints: seq<Endpoint>, i: nat, n: nat): (error: Error)
    requires n <= i < |endpoints|
    ensures error == Valid <==> forall j | 0 <= j < n :: ClashOf(endpoints[j], endpoints[i]) == Valid
  {
    if n == 0 then Valid
    else if FirstClash(endpoints, i, n - 1) != Valid then FirstClash(endpoints, i, n - 1)
    else ClashOf(endpoints[n - 1], endpoints[i])
  }

  function AttachmentError(devices: seq<Device>, e: Endpoint): Error {
    var device := FindDevice(devices, e.device);
    if device.None? then BadReference
    else if e.channel >= device.value.channelCount then BadChannel
    else if !AttachedTo(e, device.value) then BadCapability
    else if !LimitsValid(e) then BadLimit
    else Valid
  }

  function EndpointError(p: Profile, i: nat): Error
    requires i < |p.endpoints|
  {
    var e := p.endpoints[i];
    if e.id == 0 || e.name == "" then BadReference
    else if FirstClash(p.endpoints, i, i) != Valid then FirstClash(p.endpoints, i, i)
    else AttachmentError(p.devices, e)
  }

  /** The error of the first of the first n endpoints that has one. */
  function EndpointsError(p: Profile, n: nat): (error: Error)
    requires n <= |p.endpoints|
    ensures error == Valid <==> forall i | 0 <= i < n :: EndpointError(p, i) == Valid
  {
    if n == 0 then Valid
    else if EndpointsError(p, n - 1) != Valid then EndpointsError(p, n - 1)
    else EndpointError(p, n - 1)
  }

  ghost function ProfileError(p: Profile): Error {
    if |p.endpoints| > MAX_ENDPOINTS then BadCount
    else if EndpointsError(p, |p.endpoints|) != Valid then EndpointsError(p, |p.endpoints|)
    else if !MotionValid(p) then BadGeometry
    else Valid
  }

  lemma {:induction false} FirstClashStays(endpoints: seq<Endpoint>, i: nat, j: nat, n: nat)
    requires j <= n <= i < |endpoints| && FirstClash(endpoints, i, j) != Valid
    ensures FirstClash(endpoints, i, n) == FirstClash(endpoints, i, j)
  {
    if j < n {
      FirstClashStays(endpoints, i, j, n - 1);
    }
  }

  lemma {:induction false} FirstErrorStays(p: Profile, i: nat, n: nat)
    requires i <= n <= |p.endpoints| && EndpointsError(p, i) != Valid
    ensures EndpointsError(p, n) == EndpointsError(p, i)
  {
    hide EndpointError;
    if i < n {
      FirstErrorStays(p, i, n - 1);
    }
  }

  lemma {:induction false} AttachmentErrorIff(devices: seq<Device>, e: Endpoint)
    ensures AttachmentError(devices, e) == Valid <==> Attached(devices, e) && LimitsValid(e)
  {
    hide LimitsValid, FindDevice;
  }

  /** No endpoint has an error exactly when ids, names and channels are distinct and every endpoint is
      attached to a device that can do what it promises. */
  lemma {:induction false} EndpointsErrorIff(p: Profile)
    ensures EndpointsError(p, |p.endpoints|) == Valid <==> EndpointsValid(p)
  {
    hide EndpointsError, FirstClash, AttachmentError, Attached, LimitsValid;
    forall i | 0 <= i < |p.endpoints|
      ensures AttachmentError(p.devices, p.endpoints[i]) == Valid <==>
                Attached(p.devices, p.endpoints[i]) && LimitsValid(p.endpoints[i])
    {
      AttachmentErrorIff(p.devices, p.endpoints[i]);
    }
    if EndpointsError(p, |p.endpoints|) == Valid {
      forall i, j | 0 <= i < j < |p.endpoints| ensures ClashOf(p.endpoints[i], p.endpoints[j]) == Valid {
        assert EndpointError(p, j) == Valid;
      }
      forall i | 0 <= i < |p.endpoints|
        ensures p.endpoints[i].id != 0 && p.endpoints[i].name != ""
        ensures Attached(p.devices, p.endpoints[i]) && LimitsValid(p.endpoints[i])
      {
        assert EndpointError(p, i) == Valid;
      }
    }
    if EndpointsValid(p) {
      forall i | 0 <= i < |p.endpoints| ensures EndpointError(p, i) == Valid {
        assert Attached(p.devices, p.endpoints[i]) && LimitsValid(p.endpoints[i]);
      }
    }
  }

  /** The validation reports no error exactly for the valid profiles. */
  lemma {:induction false} ProfileErrorIff(p: Profile)
    ensures ProfileError(p) == Valid <==> ProfileValid(p)
  {
    hide EndpointsValid, MotionValid, EndpointsError;
    EndpointsErrorIff(p);
  }

  // --------------------------------------------------------------------------- the validation

  method LookUp(devices: seq<Device>, id: U16) returns (found: Option<Device>)
    ensures found == FindDevice(devices, id)
  {
    for index := 0 to |devices|
      invariant FindDevice(devices, id) == FindDevice(devices[index..], id)
    {
      if devices[index].id == id {
        return Some(devices[index]);
      }
      assert devices[index..][1..] == devices[index + 1..];
    }
    return None;
  }

  /** The tests of one endpoint behind those against the endpoints before it. */
  method ValidateAttachment(devices: seq<Device>, e: Endpoint) returns (error: Error)
    ensures error == AttachmentError(devices, e)
  {
    var device := LookUp(devices, e.device);
    if device.None? {
      return BadReference;
    }
    if e.channel >= device.value.channelCount {
      return BadChannel;
    }
    if device.value.driver.None? || e.capabilities * device.value.driver.value != e.capabilities {
      return BadCapability;
    }
    assert e.capabilities <= device.value.driver.value;
    if VelocityRpm in e.capabilities && (e.minRpm > e.maxRpm || e.minRpm > 0 || e.maxRpm < 0) {
      return BadLimit;
    }
    if Position in e.capabilities && e.minPosition >= e.maxPosition {
      return BadLimit;
    }
    return Valid;
  }

  method ValidateEndpoints(p: Profile) returns (error: Error)
    ensures error == EndpointsError(p, |p.endpoints|)
  {
    hide AttachmentError, ClashOf;
    var endpoints := p.endpoints;
    for i := 0 to |endpoints|
      invariant EndpointsError(p, i) == Valid
    {
      var endpoint := endpoints[i];
      if endpoint.id == 0 || endpoint.name == "" {
        FirstErrorStays(p, i + 1, |endpoints|);
        return BadReference;
      }
      for j := 0 to i
        invariant FirstClash(endpoints, i, j) == Valid
      {
        var clash := ClashOf(endpoints[j], endpoint);
        if clash != Valid {
          FirstClashStays(endpoints, i, j + 1, i);
          FirstErrorStays(p, i + 1, |endpoints|);
          return clash;
        }
      }
      error := ValidateAttachment(p.devices, endpoint);
      if error != Valid {
        FirstErrorStays(p, i + 1, |endpoints|);
        return;
      }
    }
    return Valid;
  }

  method ValidateSides(endpoints: seq<Endpoint>) returns (error: Error)
    ensures error == Valid || error == BadGeometry
    ensures error == Valid <==>
              && (forall i | 0 <= i < |endpoints| :: SideValid(endpoints[i]))
              && HasSide(endpoints, LEFT) && HasSide(endpoints, RIGHT)
  {
    var left, right := 0, 0;
    for index := 0 to |endpoints|
      invariant forall k | 0 <= k < index :: SideValid(endpoints[k])
      invariant left >= 0 && (left > 0 <==> exists k | 0 <= k < index :: endpoints[k].side == LEFT)
      invariant right >= 0 && (right > 0 <==> exists k | 0 <= k < index :: endpoints[k].side == RIGHT)
    {
      var endpoint := endpoints[index];
      if endpoint.side == NO_SIDE {
        continue;
      }
      if !({VelocityRpm, Stoppable} <= endpoint.capabilities) || (endpoint.side != LEFT && endpoint.side != RIGHT)
         || (endpoint.directionSign != -1 && endpoint.directionSign != 1) || endpoint.ratio <= 0.0 {
        return BadGeometry;
      }
      left := left + if endpoint.side == LEFT then 1 else 0;
      right := right + if endpoint.side == RIGHT then 1 else 0;
    }
    return if left == 0 || right == 0 then BadGeometry else Valid;
  }

  method ValidateNoSides(endpoints: seq<Endpoint>) returns (error: Error)
    ensures error == Valid || error == BadGeometry
    ensures error == Valid <==> forall i | 0 <= i < |endpoints| :: endpoints[i].side == NO_SIDE
  {
    for index := 0 to |endpoints|
      invariant forall k | 0 <= k < index :: endpoints[k].side == NO_SIDE
    {
      if endpoints[index].side != NO_SIDE {
        return BadGeometry;
      }
    }
    return Valid;
  }

  method ValidateMotion(p: Profile) returns (error: Error)
    ensures error == if MotionValid(p) then Valid else BadGeometry
  {
    if p.differential {
      if p.wheelbase < 0.0 || p.trackWidth <= 0.0 || p.wheelRadius <= 0.0
         || p.maxVelocity.vx <= 0.0 || p.maxVelocity.vy <= 0.0 || p.maxVelocity.wz <= 0.0
         || p.ttl < TTL_MIN || p.ttl > TTL_MAX {
        return BadGeometry;
      }
      error := ValidateSides(p.endpoints);
    } else {
      error := ValidateNoSides(p.endpoints);
    }
  }

  method Validate(p: Profile) returns (error: Error)
    ensures error == ProfileError(p)
    ensures error == Valid <==> ProfileValid(p)
  {
    hide EndpointsError, MotionValid, ProfileValid;
    ProfileErrorIff(p);
    if |p.endpoints| > MAX_ENDPOINTS {
      return BadCount;
    }
    error := ValidateEndpoints(p);
    if error == Valid {
      error := ValidateMotion(p);
    }
  }
}
