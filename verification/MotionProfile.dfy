/** The motion configuration built from a robot profile, and why a plan of a robot with a valid profile
    never leaves the limits of its endpoints. */
module MotionProfile {
  import opened MachineIntegers
  import opened Prelude
  import opened RobotProfile
  import CA = CommandAuthority
  import RC = RobotCapabilities
  import RK = RobotKinematics
  import MA = MotionApplication
  import MAR = MotionApplicationRuns
  import MS = MotionService
  import MSR = MotionServiceRuns

  const MOVING_EPSILON: real := 0.0001
  const VY_EPSILON: real := 0.0001

  // -------------------------------------------------------------------- the motion configuration

  datatype BuildResult = Built(config: MA.Config) | NotSupported | InvalidSize | InvalidState

  /** In 32 bits, so that the smallest 16-bit number has a magnitude too. */
  function Magnitude(x: int): (m: int)
    ensures 0 <= m && (m == x || m == -x)
  {
    if x < 0 then -x else x
  }

  /** The one limit that holds in both directions. */
  function SymmetricLimit(e: Endpoint): (limit: int)
    ensures 0 <= limit <= 0x8000
  {
    if Magnitude(e.minRpm) < Magnitude(e.maxRpm) then Magnitude(e.minRpm) else Magnitude(e.maxRpm)
  }

  function MotorOf(p: Profile, e: Endpoint): RK.Motor {
    RK.Motor(e.id, if e.side == LEFT then RK.LeftSide else RK.RightSide, p.wheelRadius, e.ratio,
             e.directionSign, SymmetricLimit(e) as real)
  }

  /** The endpoints that take part in motion, in order. */
  function Driving(endpoints: seq<Endpoint>): (driving: seq<Endpoint>)
    ensures |driving| <= |endpoints|
  {
    if endpoints == [] then []
    else
      var last := endpoints[|endpoints| - 1];
      Driving(endpoints[..|endpoints| - 1]) + if last.side == NO_SIDE then [] else [last]
  }

  function Motors(p: Profile, endpoints: seq<Endpoint>): (motors: seq<RK.Motor>)
    ensures |motors| == |endpoints|
  {
    seq(|endpoints|, i requires 0 <= i < |endpoints| => MotorOf(p, endpoints[i]))
  }

  function ConfigOf(p: Profile, motors: seq<RK.Motor>): MA.Config {
    MA.Config(p.ttl, p.maxVelocity, CA.Velocity(MOVING_EPSILON, MOVING_EPSILON, MOVING_EPSILON),
              RK.Differential(p.trackWidth, VY_EPSILON), motors)
  }

  function Build(p: Profile): BuildResult {
    var driving := Driving(p.endpoints);
    if !p.differential then NotSupported
    else if |driving| > MAX_ENDPOINTS then InvalidSize
    else if |driving| < 2 then InvalidState
    else Built(ConfigOf(p, Motors(p, driving)))
  }

  /** Why no configuration is built. */
  lemma {:induction false} BuildErrorIff(p: Profile)
    ensures var driving := |Driving(p.endpoints)|;
            && (Build(p) == NotSupported <==> !p.differential)
            && (Build(p) == InvalidSize <==> p.differential && driving > MAX_ENDPOINTS)
            && (Build(p) == InvalidState <==> p.differential && driving < 2)
            && (Build(p).Built? <==> p.differential && 2 <= driving <= MAX_ENDPOINTS)
  {
  }

  lemma {:induction false} DrivingGrows(endpoints: seq<Endpoint>, n: nat)
    requires n <= |endpoints|
    ensures |Driving(endpoints[..n])| <= |Driving(endpoints)|
    decreases |endpoints| - n
  {
    if n < |endpoints| {
      DrivingGrows(endpoints, n + 1);
      assert endpoints[..n + 1][..n] == endpoints[..n];
    } else {
      assert endpoints[..n] == endpoints;
    }
  }

  method BuildConfig(p: Profile) returns (result: BuildResult)
    ensures result == Build(p)
  {
    if !p.differential {
      return NotSupported;
    }
    var motors: seq<RK.Motor> := [];
    for index := 0 to |p.endpoints|
      invariant motors == Motors(p, Driving(p.endpoints[..index])) && |motors| <= MAX_ENDPOINTS
    {
      var source := p.endpoints[index];
      assert p.endpoints[..index + 1][..index] == p.endpoints[..index];
      if source.side == NO_SIDE {
        continue;
      }
      if |motors| >= MAX_ENDPOINTS {
        DrivingGrows(p.endpoints, index + 1);
        return InvalidSize;
      }
      motors := motors + [MotorOf(p, source)];
    }
    assert p.endpoints[..|p.endpoints|] == p.endpoints;
    return if |motors| >= 2 then Built(ConfigOf(p, motors)) else InvalidState;
  }

  // ------------------------------------------------------------------ what a valid profile builds

  lemma {:induction false} DrivingIsFilter(endpoints: seq<Endpoint>)
    ensures forall e :: e in Driving(endpoints) <==> e in endpoints && e.side != NO_SIDE
    ensures IdsValid(endpoints) ==> IdsValid(Driving(endpoints))
  {
    DrivingMembers(endpoints);
    DrivingIds(endpoints);
  }

  lemma {:induction false} DrivingMembers(endpoints: seq<Endpoint>)
    ensures forall e :: e in Driving(endpoints) <==> e in endpoints && e.side != NO_SIDE
  {
    if endpoints != [] {
      DrivingMembers(endpoints[..|endpoints| - 1]);
      assert endpoints == endpoints[..|endpoints| - 1] + [endpoints[|endpoints| - 1]];
    }
  }

  lemma {:induction false} DrivingIds(endpoints: seq<Endpoint>)
    ensures IdsValid(endpoints) ==> IdsValid(Driving(endpoints))
  {
    hide IdsValid;
    if endpoints == [] {
      NoIds();
    } else {
      var before, last := endpoints[..|endpoints| - 1], endpoints[|endpoints| - 1];
      DrivingMembers(before);
      DrivingIds(before);
      assert endpoints == before + [last];
      assert Driving(before) + [] == Driving(before);
      IdsGrow(before, Driving(before), last);
    }
  }

  lemma {:induction false} NoIds()
    ensures IdsValid([])
  {
  }

  lemma {:induction false} IdsGrow(before: seq<Endpoint>, driving: seq<Endpoint>, last: Endpoint)
    requires IdsValid(before) ==> IdsValid(driving)
    requires forall e | e in driving :: e in before
    ensures IdsValid(before + [last]) ==> IdsValid(driving) && IdsValid(driving + [last])
  {
    var all := before + [last];
    if IdsValid(all) {
      assert IdsValid(before) by {
        assert forall i | 0 <= i < |before| :: all[i] == before[i];
      }
      forall i | 0 <= i < |driving| ensures driving[i].id != last.id {
        assert driving[i] in before;
        var k :| 0 <= k < |before| && before[k] == driving[i];
        assert all[k].id != all[|before|].id;
      }
      assert all[|before|].id != 0;
    }
  }

  /** A valid differential profile always builds: the size and state errors cannot happen. */
  lemma {:induction false} ValidProfileBuilds(p: Profile)
    requires ProfileValid(p)
    ensures Build(p).Built? <==> p.differential
    ensures p.differential ==> |Driving(p.endpoints)| >= 2 && |Driving(p.endpoints)| <= MAX_ENDPOINTS
  {
    hide EndpointsValid, GeometryValid, SideValid, Driving, Motors, ConfigOf;
    if p.differential {
      DrivingIsFilter(p.endpoints);
      var l :| 0 <= l < |p.endpoints| && p.endpoints[l].side == LEFT;
      var r :| 0 <= r < |p.endpoints| && p.endpoints[r].side == RIGHT;
      assert p.endpoints[l] in Driving(p.endpoints) && p.endpoints[r] in Driving(p.endpoints);
    }
  }

  /** Every motor of the built configuration is the endpoint it came from, with a limit that both
      directions of that endpoint allow. */
  lemma {:induction false} MotorOfEndpoint(p: Profile, i: nat)
    requires ProfileValid(p) && p.differential && i < |Driving(p.endpoints)|
    ensures var e, motor := Driving(p.endpoints)[i], Motors(p, Driving(p.endpoints))[i];
            && e in p.endpoints && motor == MotorOf(p, e) && SideValid(e) && e.side != NO_SIDE
            && e.minRpm <= -SymmetricLimit(e) <= 0 <= SymmetricLimit(e) <= e.maxRpm
            && (RK.MotorValid(motor) <==> e.minRpm < 0 < e.maxRpm)
  {
    DrivingIsFilter(p.endpoints);
    assert Driving(p.endpoints)[i] in p.endpoints;
  }

  lemma {:induction false} BuiltSides(p: Profile)
    requires ProfileValid(p) && p.differential
    ensures var motors := Motors(p, Driving(p.endpoints));
            RK.HasSide(motors, RK.LeftSide) && RK.HasSide(motors, RK.RightSide) && RK.DistinctIds(motors)
  {
    hide NamesValid, ChannelsValid, Attached, LimitsValid, GeometryValid, SideValid, Driving, SymmetricLimit;
    var driving := Driving(p.endpoints);
    DrivingIsFilter(p.endpoints);
    var l :| 0 <= l < |p.endpoints| && p.endpoints[l].side == LEFT;
    var r :| 0 <= r < |p.endpoints| && p.endpoints[r].side == RIGHT;
    assert p.endpoints[l] in driving && p.endpoints[r] in driving;
    var i :| 0 <= i < |driving| && driving[i] == p.endpoints[l];
    var j :| 0 <= j < |driving| && driving[j] == p.endpoints[r];
    assert Motors(p, driving)[i].side == RK.LeftSide && Motors(p, driving)[j].side == RK.RightSide;
  }

  /** A valid profile is enough for the application to start only if every driving endpoint can turn
      both ways, and the velocity limits are not below the moving epsilon. */
  lemma {:induction false} StartsIff(p: Profile)
    requires ProfileValid(p) && p.differential
    ensures Build(p).Built?
    ensures MA.ConfigValid(Build(p).config) <==>
              && (forall i | 0 <= i < |Driving(p.endpoints)| ::
                    Driving(p.endpoints)[i].minRpm < 0 < Driving(p.endpoints)[i].maxRpm)
              && p.maxVelocity.vx >= MOVING_EPSILON && p.maxVelocity.vy >= MOVING_EPSILON
              && p.maxVelocity.wz >= MOVING_EPSILON
  {
    hide RK.MotorValid, RK.HasSide, RK.DistinctIds, Driving;
    ValidProfileBuilds(p);
    BuiltSides(p);
    DrivingIsFilter(p.endpoints);
    var driving := Driving(p.endpoints);
    forall i | 0 <= i < |driving|
      ensures driving[i].id != 0
      ensures RK.MotorValid(Motors(p, driving)[i]) <==> driving[i].minRpm < 0 < driving[i].maxRpm
    {
      MotorOfEndpoint(p, i);
    }
    assert RK.MotorsValid(Motors(p, driving)) <==>
        forall i | 0 <= i < |driving| :: driving[i].minRpm < 0 < driving[i].maxRpm;
  }

  /** A robot with a motor on each side, the right one of which turns backwards down to `lowest`. */
  function TwoWheels(lowest: I16): Profile {
    Profile(
      [Device(1, 2, Some({VelocityRpm, Stoppable}))],
      [Endpoint(1, "left", 1, 0, {VelocityRpm, Stoppable}, -100, 100, 0.0, 0.0, LEFT, 1, 1.0),
       Endpoint(2, "right", 1, 1, {VelocityRpm, Stoppable}, lowest, 100, 0.0, 0.0, RIGHT, 1, 1.0)],
      true, 0.5, 0.1, 0.0, CA.Velocity(1.0, 1.0, 1.0), 200)
  }

  lemma {:induction false} TwoWheelsAreValid(lowest: I16)
    requires lowest <= 0
    ensures ProfileValid(TwoWheels(lowest))
  {
    var p := TwoWheels(lowest);
    assert "left" != "right" && "left" != "" && "right" != "";
    assert FindDevice(p.devices, 1) == Some(p.devices[0]);
    assert p.endpoints[0].side == LEFT && p.endpoints[1].side == RIGHT;
  }

  /** Its profile is always valid, but it starts exactly if that motor can turn backwards at all. */
  lemma {:induction false} OneWayRobotCannotStart(lowest: I16)
    requires lowest <= 0
    ensures ProfileValid(TwoWheels(lowest)) && Build(TwoWheels(lowest)).Built?
    ensures MA.ConfigValid(Build(TwoWheels(lowest)).config) <==> lowest < 0
  {
    hide ProfileValid, MA.ConfigValid, Build;
    TwoWheelsAreValid(lowest);
    var p := TwoWheels(lowest);
    StartsIff(p);
    BothWheelsDrive(lowest);
  }

  lemma {:induction false} BothWheelsDrive(lowest: I16)
    ensures Driving(TwoWheels(lowest).endpoints) == TwoWheels(lowest).endpoints
  {
    var endpoints := TwoWheels(lowest).endpoints;
    assert endpoints[..1] == [endpoints[0]] && endpoints[..1][..0] == [];
    assert Driving([endpoints[0]]) == [endpoints[0]];
  }

  // ---------------------------------------------------------------------- plans stay in the limits

  lemma {:induction false} RoundedWithin(x: real, limit: int)
    requires -(limit as real) <= x <= limit as real
    ensures -limit <= MA.Rounded(x) <= limit
  {
  }

  /** The configuration of a robot with a valid profile. */
  ghost predicate Robot(p: Profile, config: MA.Config) {
    ProfileValid(p) && p.differential && Build(p) == Built(config) && MA.ConfigValid(config)
  }

  lemma {:induction false} CommandWithin(p: Profile, config: MA.Config, v: CA.Velocity, i: nat)
    requires Robot(p, config) && i < |config.motors|
    requires forall k | 0 <= k < |config.motors| :: RK.MotorValid(config.motors[k])
    ensures var c := RK.Commands(config.differential, MA.Body(v), config.motors)[i];
            var e := Driving(p.endpoints)[i];
            && c.id == e.id && e in p.endpoints && e.side != NO_SIDE
            && e.minRpm <= MA.Rounded(c.rpm) <= e.maxRpm
  {
    ValidProfileBuilds(p);
    MotorOfEndpoint(p, i);
    RK.CommandsKeepShape(config.differential, MA.Body(v), config.motors, i);
    hide RK.RawRpm, RK.CommonScale, MA.ConfigValid, ProfileValid, MA.Rounded;
    RoundedWithin(RK.Commands(config.differential, MA.Body(v), config.motors)[i].rpm,
                  SymmetricLimit(Driving(p.endpoints)[i]));
  }

  /** The motors of a running robot pass the validation of the kinematics. */
  lemma {:induction false} RunningMotors(config: MA.Config)
    requires MA.ConfigValid(config)
    ensures forall k | 0 <= k < |config.motors| :: RK.MotorValid(config.motors[k])
    ensures forall v: CA.Velocity ::
              RK.InverseError(config.differential, MA.Body(v), config.motors, MA.MAX_ENDPOINTS) == RK.Ok
              <==> Abs(v.vy) <= config.differential.vyEpsilon
  {
    hide CA.ConfigValid;
  }

  /** With a valid profile a velocity can be turned into motor speeds exactly when it has no lateral
      part: the 16-bit overflow of the rounded speeds cannot happen. */
  lemma {:induction false} PlannableIff(p: Profile, config: MA.Config, v: CA.Velocity)
    requires Robot(p, config)
    ensures MA.Plannable(config, v) <==> Abs(v.vy) <= VY_EPSILON
  {
    RunningMotors(config);
    ValidProfileBuilds(p);
    forall i | 0 <= i < |config.motors|
      ensures I16_MIN <= MA.Rounded(RK.Commands(config.differential, MA.Body(v), config.motors)[i].rpm) <= I16_MAX
    {
      CommandWithin(p, config, v, i);
    }
    hide RK.InverseError, RK.Commands, RK.CommonScale, MA.ConfigValid, ProfileValid, MA.Rounded, Driving;
  }

  /** Every target of a plan lies within the limits of the endpoint it is addressed to. */
  lemma {:induction false} TargetsWithinLimits(p: Profile, config: MA.Config, v: CA.Velocity, i: nat)
    requires Robot(p, config) && MA.Plannable(config, v) && i < |MA.TargetsFor(config, v)|
    ensures var t, e := MA.TargetsFor(config, v)[i], Driving(p.endpoints)[i];
            t.endpointId == e.id && e in p.endpoints && e.side != NO_SIDE && e.minRpm <= t.rpm <= e.maxRpm
  {
    RunningMotors(config);
    ValidProfileBuilds(p);
    assert |MA.TargetsFor(config, v)| == |config.motors|;
    CommandWithin(p, config, v, i);
    hide RK.InverseError, RK.CommonScale, MA.ConfigValid, ProfileValid, MA.Rounded;
  }

  lemma {:induction false} MadeWithinLimits(p: Profile, s: MS.System, step: MS.Step, plan: MA.Plan, i: nat)
    requires MSR.Invariant(s) && Robot(p, s.service.model.config)
    requires MSR.Makes(s, step, plan) && i < |plan.targets|
    ensures i < |Driving(p.endpoints)|
    ensures var t, e := plan.targets[i], Driving(p.endpoints)[i];
            t.endpointId == e.id && e in p.endpoints && e.side != NO_SIDE && e.minRpm <= t.rpm <= e.maxRpm
  {
    var event := MSR.Handed(s, step).value;
    MAR.ApplyIsItsCommand(s.service.model, event, MSR.GateOf(step), MSR.NowOf(step));
    hide MA.Submit, MAR.Invariant, MA.TargetsFor, MA.Plannable, Robot, Driving;
    assert plan.targets == MA.TargetsFor(s.service.model.config, event.body);
    TargetsWithinLimits(p, s.service.model.config, event.body, i);
  }

  /** In every run of the service of a robot with a valid profile, no speed that is sent to the motors
      is refused as out of range by the endpoint it is addressed to. */
  lemma {:induction false} SentSpeedsAreInRange(
    p: Profile, config: MA.Config, states: seq<MS.System>, steps: seq<MS.Step>, j: nat, i: nat,
    endpoint: RC.Endpoint)
    requires Robot(p, config) && MSR.IsRun(config, states, steps) && j < |steps|
    requires MSR.Sends(states[j], steps[j], MA.PlanApply) && i < |states[j].flight.plan.targets|
    requires i < |Driving(p.endpoints)| ==>
               endpoint.velocity.VelocityPort?
               && endpoint.velocity.minRpm == Driving(p.endpoints)[i].minRpm
               && endpoint.velocity.maxRpm == Driving(p.endpoints)[i].maxRpm
    ensures i < |Driving(p.endpoints)|
    ensures var target := states[j].flight.plan.targets[i];
            target.endpointId == Driving(p.endpoints)[i].id && RC.SetCheck(endpoint, target.rpm) != RC.OutOfRange
  {
    hide MSR.Makes, MSR.Invariant, MSR.Takes, MSR.ArmsAt, Robot, Driving;
    var a, x, c, t := MSR.EveryApplyHasItsArm(config, states, steps, j);
    MSR.RunKeepsInvariant(config, states, steps, c);
    MadeWithinLimits(p, states[c], steps[c], states[j].flight.plan, i);
  }

  /** And a command whose motion cannot be planned is one with a lateral part: it ends its stream. */
  lemma {:induction false} UnplannableIsLateral(
    p: Profile, config: MA.Config, m: MA.Model, event: MA.Event, gate: bool, now: U64)
    requires Robot(p, config) && MAR.Invariant(m) && m.config == config
    requires MA.Submit(m, event, gate, now).2 == MA.KinematicsFailed
    ensures event.action == MA.Command && Abs(event.body.vy) > VY_EPSILON
    ensures var after := MA.Submit(m, event, gate, now).0; after.activeStream == 0 && after.state == MA.Fault
  {
    UnplannableCommand(m, event, gate, now);
    PlannableIff(p, config, event.body);
    hide MA.Submit, MAR.Invariant, MA.Plannable, Robot;
  }

  lemma {:induction false} UnplannableCommand(m: MA.Model, event: MA.Event, gate: bool, now: U64)
    requires MAR.Invariant(m) && MA.Submit(m, event, gate, now).2 == MA.KinematicsFailed
    ensures event.action == MA.Command && !MA.Plannable(m.config, event.body)
    ensures var after := MA.Submit(m, event, gate, now).0; after.activeStream == 0 && after.state == MA.Fault
  {
    if MA.CommandCheck(m, event) == MA.Ok && gate {
      MAR.PublicationOnStream(m, event, now);
      var command := MA.MoveCommand(m, event);
      var published := CA.PublishModel(m.authority, event.source, command, now);
      if CA.PublishCheck(m.authority, event.source, command, now) == CA.PublishOk {
        MAR.SoloArbitrate(published, event.source, now);
      }
    }
    hide MA.Plannable, MA.TargetsFor;
  }
}
