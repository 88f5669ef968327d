/** The motion application: the arm / command / stop machine that wraps one command authority and
    turns an admitted command into a plan for the motors.  Text details are left out. */
module MotionApplication {
  import opened MachineIntegers
  import CA = CommandAuthority
  import RK = RobotKinematics

  const RETIRED_STREAMS: nat := 16
  const MAX_ENDPOINTS: nat := 8

  datatype Action = Arm | Command | Disarm | StopAll

  datatype Event = Event(
    action: Action, source: CA.Source, streamId: U64, sequence: U64, receivedAt: U64,
    finite: bool, body: CA.Velocity, deadman: bool)

  /** The names of the endpoints are left out; each endpoint is the motor it drives. */
  datatype Config = Config(
    ttl: U32, velocityLimit: CA.Velocity, movingEpsilon: CA.Velocity,
    differential: RK.Differential, motors: seq<RK.Motor>)

  datatype ControlState = Unavailable | Disarmed | Armed | Active | Expired | Fault

  datatype PlanAction = PlanNone | PlanApply | PlanStop

  datatype Target = Target(endpointId: nat, rpm: I16)

  datatype Plan = Plan(action: PlanAction, commandRevision: U64, targets: seq<Target>)

  const NO_PLAN: Plan := Plan(PlanNone, 0, [])
  const STOP_PLAN: Plan := Plan(PlanStop, 0, [])

  datatype Result =
    | Ok
    | InvalidArgument
    | InvalidConfig
    | NotArmed
    | AlreadyArmed
    | StreamMismatch
    | StreamRetired
    | SequenceInvalid
    | Unsafe
    | AuthorityRejected
    | KinematicsFailed
    | SourceInvalid
    | SourceMismatch

  datatype Model = Model(
    config: Config,
    authority: CA.Model,
    state: ControlState,
    activeSource: CA.Source,
    activeStream: U64,
    sequence: U64,
    lastReceived: U64,
    lastDispatched: U64,
    retired: seq<U64>,
    deadman: bool,
    requested: CA.Velocity,
    targets: seq<Target>)

  function AuthorityConfig(config: Config): CA.Config {
    CA.Config(config.velocityLimit, config.movingEpsilon, config.ttl)
  }

  /** The tests of the application itself; the last one is an inverse of standing still. */
  ghost predicate DriveValid(config: Config) {
    && config.ttl != 0
    && 2 <= |config.motors| <= MAX_ENDPOINTS
    && config.velocityLimit.vx > 0.0 && config.velocityLimit.vy > 0.0 && config.velocityLimit.wz > 0.0
    && (forall i | 0 <= i < |config.motors| :: config.motors[i].id != 0)
    && RK.InverseError(config.differential, RK.BodyVelocity(0.0, 0.0, 0.0), config.motors, MAX_ENDPOINTS) == RK.Ok
  }

  ghost predicate ConfigValid(config: Config) {
    DriveValid(config) && CA.ConfigValid(AuthorityConfig(config))
  }

  function InitialTargets(motors: seq<RK.Motor>): seq<Target> {
    seq(|motors|, i requires 0 <= i < |motors| => Target(motors[i].id, 0))
  }

  function Initial(config: Config): Model {
    Model(config, CA.Initial(AuthorityConfig(config)), Disarmed, CA.NoSource, 0, 0, 0, 0, [], false,
          CA.ZERO_VELOCITY, InitialTargets(config.motors))
  }

  predicate SourceSupported(source: CA.Source) {
    source == CA.Lan || source == CA.Rc
  }

  /** The last 16 retired streams; the oldest one makes room. */
  function Appended(retired: seq<U64>, stream: U64): seq<U64> {
    (if |retired| == RETIRED_STREAMS then retired[1..] else retired) + [stream]
  }

  function Retire(m: Model): Model {
    if m.activeStream == 0 then m
    else m.(retired := if m.activeStream in m.retired then m.retired else Appended(m.retired, m.activeStream),
            activeStream := 0, activeSource := CA.NoSource, sequence := 0, deadman := false,
            requested := CA.ZERO_VELOCITY)
  }

  /** Every way of ending a stream: the authority is stopped, the stream is retired, and the
      authority starts afresh. */
  function Ended(m: Model, state: ControlState): Model {
    Retire(m).(authority := CA.Initial(AuthorityConfig(m.config)), state := state)
  }

  /** lround: to the nearest integer, halves away from zero. */
  function Rounded(x: real): int {
    if x >= 0.0 then (x + 0.5).Floor else -((-x + 0.5).Floor)
  }

  predicate Representable(commands: seq<RK.MotorCommand>) {
    forall i | 0 <= i < |commands| :: I16_MIN <= Rounded(commands[i].rpm) <= I16_MAX
  }

  function RoundedTargets(commands: seq<RK.MotorCommand>): seq<Target>
    requires Representable(commands)
  {
    seq(|commands|, i requires 0 <= i < |commands| => Target(commands[i].id, Rounded(commands[i].rpm)))
  }

  function Body(velocity: CA.Velocity): RK.BodyVelocity {
    RK.BodyVelocity(velocity.vx, velocity.vy, velocity.wz)
  }

  /** Can the velocity be turned into 16-bit motor speeds? */
  ghost predicate Plannable(config: Config, velocity: CA.Velocity) {
    && RK.InverseError(config.differential, Body(velocity), config.motors, MAX_ENDPOINTS) == RK.Ok
    && Representable(RK.Commands(config.differential, Body(velocity), config.motors))
  }

  ghost function TargetsFor(config: Config, velocity: CA.Velocity): seq<Target>
    requires Plannable(config, velocity)
  {
    RoundedTargets(RK.Commands(config.differential, Body(velocity), config.motors))
  }

  predicate EndsStream(cycle: CA.CycleResult) {
    || cycle.decision == CA.FaultStop
    || cycle.reason == CA.SelectedSourceExpired
    || cycle.reason == CA.SelectedSourceInvalidated
    || cycle.reason == CA.NoFreshSource
  }

  ghost function Converted(m: Model, cycle: CA.CycleResult): (Model, Plan, Result) {
    if EndsStream(cycle) then (Ended(m, Expired), STOP_PLAN, Ok)
    else if cycle.decision != CA.Apply || cycle.commandRevision == m.lastDispatched then (m, NO_PLAN, Ok)
    else
      var dispatched := m.(lastDispatched := cycle.commandRevision, requested := cycle.output);
      if !m.deadman then
        (dispatched.(state := Armed), Plan(PlanStop, cycle.commandRevision, []), Ok)
      else if !Plannable(m.config, cycle.output) then
        (Ended(dispatched, Fault), STOP_PLAN, KinematicsFailed)
      else
        (dispatched, Plan(PlanApply, cycle.commandRevision, TargetsFor(m.config, cycle.output)), Ok)
  }

  function ArmCommand(m: Model, event: Event): CA.Command {
    CA.Command(event.streamId, event.sequence, event.receivedAt, m.config.ttl, true, false, true, CA.ZERO_VELOCITY)
  }

  function MoveCommand(m: Model, event: Event): CA.Command {
    CA.Command(event.streamId, event.sequence, event.receivedAt, m.config.ttl, true, event.deadman,
               event.finite, event.body)
  }

  /** The tests of an ARM, before the authority is asked. */
  function ArmCheck(m: Model, event: Event, gate: bool): Result {
    if !SourceSupported(event.source) then SourceInvalid
    else if !gate then Unsafe
    else if event.streamId == 0 || event.sequence == 0 then SequenceInvalid
    else if event.streamId in m.retired then StreamRetired
    else if m.activeStream != 0 then
      if m.activeStream == event.streamId then AlreadyArmed else StreamMismatch
    else Ok
  }

  function Arming(m: Model, event: Event, gate: bool, now: U64): (Model, Plan, Result) {
    var check := ArmCheck(m, event, gate);
    if check != Ok then (m, NO_PLAN, check)
    else
      var blank := CA.Initial(AuthorityConfig(m.config));
      var published := CA.PublishModel(blank, event.source, ArmCommand(m, event), now);
      if CA.PublishCheck(blank, event.source, ArmCommand(m, event), now) != CA.PublishOk then
        (m.(authority := published), NO_PLAN, AuthorityRejected)
      else
        (m.(authority := CA.Arbitrate(published, now).0,
            activeStream := event.streamId, activeSource := event.source, sequence := event.sequence,
            lastReceived := event.receivedAt, deadman := false, requested := CA.ZERO_VELOCITY,
            state := Armed, lastDispatched := 0),
         STOP_PLAN, Ok)
  }

  function CommandCheck(m: Model, event: Event): Result {
    if m.state != Armed && m.state != Active then NotArmed
    else if event.streamId != m.activeStream then StreamMismatch
    else if !SourceSupported(event.source) then SourceInvalid
    else if event.source != m.activeSource then SourceMismatch
    else Ok
  }

  ghost function Commanding(m: Model, event: Event, gate: bool, now: U64): (Model, Plan, Result) {
    if CommandCheck(m, event) != Ok then (m, NO_PLAN, CommandCheck(m, event))
    else if !gate then (Ended(m, Fault), STOP_PLAN, Unsafe)
    else
      var command := MoveCommand(m, event);
      var published := CA.PublishModel(m.authority, event.source, command, now);
      if CA.PublishCheck(m.authority, event.source, command, now) != CA.PublishOk then
        (m.(authority := published), if event.deadman then NO_PLAN else STOP_PLAN, AuthorityRejected)
      else
        var (authority, cycle) := CA.Arbitrate(published, now);
        Converted(m.(authority := authority, sequence := event.sequence,
                     lastReceived := event.receivedAt, deadman := event.deadman), cycle)
  }

  ghost function Submit(m: Model, event: Event, gate: bool, now: U64): (Model, Plan, Result) {
    if event.receivedAt > now then (m, NO_PLAN, InvalidArgument)
    else match event.action
      case Arm => Arming(m, event, gate, now)
      case Command => Commanding(m, event, gate, now)
      case Disarm => (Ended(m, Disarmed), STOP_PLAN, Ok)
      case StopAll => (Ended(m, Disarmed), STOP_PLAN, Ok)
  }

  ghost function Tick(m: Model, gate: bool, now: U64): (Model, Plan, Result) {
    if m.state != Armed && m.state != Active then (m, NO_PLAN, Ok)
    else if !gate then (Ended(m, Fault), STOP_PLAN, Unsafe)
    else
      var (authority, cycle) := CA.Arbitrate(m.authority, now);
      if cycle.decision == CA.Invalid then (Ended(m, Fault), STOP_PLAN, AuthorityRejected)
      else Converted(m.(authority := authority), cycle)
  }

  function Stilled(targets: seq<Target>): seq<Target> {
    seq(|targets|, i requires 0 <= i < |targets| => targets[i].(rpm := 0))
  }

  /** The first |given| targets are replaced, the others stay. */
  function Overlaid(targets: seq<Target>, given: seq<Target>): seq<Target> {
    seq(|targets|, i requires 0 <= i < |targets| => if i < |given| then given[i] else targets[i])
  }

  /** What is remembered of an executed plan.  The state goes back to ACTIVE after a successful
      APPLY even if the stream has been ended meanwhile. */
  function Record(m: Model, plan: Plan, success: bool): Model {
    if plan.action == PlanNone then m
    else if !success then m.(state := Fault)
    else if plan.action == PlanStop then m.(targets := Stilled(m.targets))
    else m.(targets := Overlaid(m.targets, plan.targets), state := Active)
  }

  // -------------------------------------------------------------------------- the in-place form

  class Application {
    var config: Config
    const authority: CA.Authority
    var state: ControlState
    var activeSource: CA.Source
    var activeStream: U64
    var sequence: U64
    var lastReceived: U64
    var lastDispatched: U64
    const retiredStreams: array<U64>
    var retiredCount: nat
    var deadman: bool
    var requested: CA.Velocity
    const targets: array<Target>
    var initialized: bool

    ghost predicate Valid()
      reads this
    {
      && authority.Valid()
      && retiredStreams.Length == RETIRED_STREAMS && retiredCount <= RETIRED_STREAMS
      && targets.Length == MAX_ENDPOINTS && |config.motors| <= MAX_ENDPOINTS
      && (initialized ==> ConfigValid(config))
    }

    ghost function Contents(): Model
      reads this, authority, authority.mailboxes, retiredStreams, targets
      requires Valid()
    {
      Model(config, authority.Contents(), state, activeSource, activeStream, sequence, lastReceived,
            lastDispatched, retiredStreams[..retiredCount], deadman, requested, targets[..|config.motors|])
    }

    constructor ()
      ensures Valid() && !initialized
      ensures fresh(authority) && fresh(authority.mailboxes) && fresh(retiredStreams) && fresh(targets)
    {
      config := Config(0, CA.ZERO_VELOCITY, CA.ZERO_VELOCITY, RK.Differential(0.0, 0.0), []);
      authority := new CA.Authority();
      state, activeSource, activeStream, sequence := Unavailable, CA.NoSource, 0, 0;
      lastReceived, lastDispatched, retiredCount, deadman := 0, 0, 0, false;
      requested := CA.ZERO_VELOCITY;
      retiredStreams := new U64[RETIRED_STREAMS](_ => 0);
      targets := new Target[MAX_ENDPOINTS](_ => Target(0, 0));
      initialized := false;
    }

    method CheckConfig(config: Config) returns (valid: bool)
      ensures valid == DriveValid(config)
    {
      if config.ttl == 0 || |config.motors| < 2 || |config.motors| > MAX_ENDPOINTS
         || config.velocityLimit.vx <= 0.0 || config.velocityLimit.vy <= 0.0 || config.velocityLimit.wz <= 0.0 {
        return false;
      }
      for index := 0 to |config.motors|
        invariant forall k | 0 <= k < index :: config.motors[k].id != 0
      {
        if config.motors[index].id == 0 {
          return false;
        }
      }
      var commands := new RK.MotorCommand[MAX_ENDPOINTS](_ => RK.MotorCommand(0, 0.0));
      var error, _ := RK.DifferentialInverse(
        config.differential, config.motors, RK.BodyVelocity(0.0, 0.0, 0.0), commands, RK.Report(0.0, false));
      return error == RK.Ok;
    }

    /** The fields of a disarmed application without history. */
    method Clear(config: Config)
      requires targets.Length == MAX_ENDPOINTS && |config.motors| <= MAX_ENDPOINTS
      modifies this, targets
      ensures this.config == config && initialized == old(initialized)
      ensures state == Disarmed && activeSource == CA.NoSource && activeStream == 0 && sequence == 0
      ensures lastReceived == 0 && lastDispatched == 0 && retiredCount == 0 && !deadman
      ensures requested == CA.ZERO_VELOCITY
      ensures targets[..|config.motors|] == InitialTargets(config.motors)
    {
      this.config := config;
      state, activeSource, activeStream, sequence := Disarmed, CA.NoSource, 0, 0;
      lastReceived, lastDispatched, retiredCount, deadman := 0, 0, 0, false;
      requested := CA.ZERO_VELOCITY;
      for index := 0 to |config.motors|
        invariant forall k | 0 <= k < index :: targets[k] == Target(config.motors[k].id, 0)
        modifies targets
      {
        targets[index] := Target(config.motors[index].id, 0);
      }
    }

    method Init(config: Config) returns (result: Result)
      requires Valid()
      modifies this, authority, authority.mailboxes, targets
      ensures Valid() && initialized == ConfigValid(config)
      ensures result == if ConfigValid(config) then Ok else InvalidConfig
      ensures initialized ==> Contents() == Initial(config)
    {
      initialized := false;
      var valid := CheckConfig(config);
      if !valid {
        return InvalidConfig;
      }
      Clear(config);
      hide DriveValid, InitialTargets;
      initialized := authority.Init(AuthorityConfig(config));
      result := if initialized then Ok else InvalidConfig;
    }

    method IsRetired(stream: U64) returns (found: bool)
      requires Valid()
      ensures found == (stream in retiredStreams[..retiredCount])
    {
      for index := 0 to retiredCount
        invariant stream !in retiredStreams[..index]
      {
        if retiredStreams[index] == stream {
          return true;
        }
      }
      return false;
    }

    /** Makes room by moving every retired stream one place down. */
    method DropOldest()
      requires Valid() && retiredCount == RETIRED_STREAMS
      modifies `retiredCount, retiredStreams
      ensures Valid() && retiredCount == RETIRED_STREAMS - 1
      ensures retiredStreams[..retiredCount] == old(retiredStreams[1..])
    {
      for index := 0 to RETIRED_STREAMS - 1
        invariant forall k | 0 <= k < index :: retiredStreams[k] == old(retiredStreams[k + 1])
        invariant forall k | index <= k < RETIRED_STREAMS :: retiredStreams[k] == old(retiredStreams[k])
        modifies retiredStreams
      {
        retiredStreams[index] := retiredStreams[index + 1];
      }
      retiredCount := retiredCount - 1;
    }

    /** Appends a stream; the oldest one makes room. */
    method Remember(stream: U64)
      requires Valid()
      modifies `retiredCount, retiredStreams
      ensures Valid() && retiredStreams[..retiredCount] == Appended(old(retiredStreams[..retiredCount]), stream)
    {
      hide ConfigValid;
      if retiredCount == RETIRED_STREAMS {
        DropOldest();
      }
      retiredStreams[retiredCount] := stream;
      retiredCount := retiredCount + 1;
    }

    method RetireActive()
      requires Valid()
      modifies this, retiredStreams
      ensures Valid() && initialized == old(initialized) && Contents() == Retire(old(Contents()))
    {
      hide ConfigValid, Appended;
      if activeStream == 0 {
        return;
      }
      var known := IsRetired(activeStream);
      if !known {
        Remember(activeStream);
      }
      activeStream := 0;
      activeSource := CA.NoSource;
      sequence := 0;
      deadman := false;
      requested := CA.ZERO_VELOCITY;
    }

    /** Stop the authority, retire the stream, start the authority afresh. */
    method End(end: ControlState, now: U64)
      requires Valid() && initialized
      modifies this, authority, authority.mailboxes, retiredStreams
      ensures Valid() && initialized && Contents() == Ended(old(Contents()), end)
    {
      hide DriveValid;
      var _ := authority.StopNow(now);
      RetireActive();
      var _ := authority.Init(AuthorityConfig(config));
      state := end;
    }

    method RoundCommands(commands: seq<RK.MotorCommand>) returns (ok: bool, rounded: seq<Target>)
      ensures ok == Representable(commands)
      ensures ok ==> rounded == RoundedTargets(commands)
    {
      rounded := [];
      for index := 0 to |commands|
        invariant |rounded| == index && Representable(commands[..index])
        invariant forall k | 0 <= k < index :: rounded[k] == Target(commands[k].id, Rounded(commands[k].rpm))
      {
        var rpm := Rounded(commands[index].rpm);
        if rpm < I16_MIN || rpm > I16_MAX {
          return false, [];
        }
        rounded := rounded + [Target(commands[index].id, rpm)];
      }
      assert commands[..|commands|] == commands;
      return true, rounded;
    }

    method PlanTargets(velocity: CA.Velocity) returns (ok: bool, planned: seq<Target>)
      requires Valid()
      ensures ok == Plannable(config, velocity)
      ensures ok ==> planned == TargetsFor(config, velocity)
    {
      var commands := new RK.MotorCommand[MAX_ENDPOINTS](_ => RK.MotorCommand(0, 0.0));
      var error, _ := RK.DifferentialInverse(
        config.differential, config.motors, Body(velocity), commands, RK.Report(0.0, false));
      if error != RK.Ok {
        return false, [];
      }
      ok, planned := RoundCommands(commands[..|config.motors|]);
    }

    method Convert(cycle: CA.CycleResult, now: U64) returns (plan: Plan, result: Result)
      requires Valid() && initialized
      modifies this, authority, authority.mailboxes, retiredStreams
      ensures Valid() && initialized
      ensures (Contents(), plan, result) == Converted(old(Contents()), cycle)
    {
      if EndsStream(cycle) {
        End(Expired, now);
        return STOP_PLAN, Ok;
      }
      if cycle.decision != CA.Apply || cycle.commandRevision == lastDispatched {
        return NO_PLAN, Ok;
      }
      lastDispatched := cycle.commandRevision;
      requested := cycle.output;
      if !deadman {
        state := Armed;
        return Plan(PlanStop, cycle.commandRevision, []), Ok;
      }
      var ok, planned := PlanTargets(cycle.output);
      if !ok {
        End(Fault, now);
        return STOP_PLAN, KinematicsFailed;
      }
      return Plan(PlanApply, cycle.commandRevision, planned), Ok;
    }

    method CheckArm(event: Event, gate: bool) returns (result: Result)
      requires Valid()
      ensures result == ArmCheck(Contents(), event, gate)
    {
      if !SourceSupported(event.source) {
        return SourceInvalid;
      }
      if !gate {
        return Unsafe;
      }
      if event.streamId == 0 || event.sequence == 0 {
        return SequenceInvalid;
      }
      var known := IsRetired(event.streamId);
      if known {
        return StreamRetired;
      }
      if activeStream != 0 {
        return if activeStream == event.streamId then AlreadyArmed else StreamMismatch;
      }
      return Ok;
    }

    /** A fresh authority hears the ARM, without a deadman, and arbitrates once. */
    method Offer(event: Event, now: U64) returns (accepted: bool)
      requires Valid() && initialized
      modifies authority, authority.mailboxes
      ensures var blank := CA.Initial(AuthorityConfig(config)); var command := ArmCommand(Contents(), event);
              && accepted == (CA.PublishCheck(blank, event.source, command, now) == CA.PublishOk)
              && var published := CA.PublishModel(blank, event.source, command, now);
                 authority.Contents() == if accepted then CA.Arbitrate(published, now).0 else published
    {
      hide CA.PublishCheck, CA.PublishModel, CA.Arbitrate, DriveValid;
      var _ := authority.Init(AuthorityConfig(config));
      var command := CA.Command(event.streamId, event.sequence, event.receivedAt, config.ttl,
                                true, false, true, CA.ZERO_VELOCITY);
      var published := authority.Publish(event.source, command, now);
      accepted := published == CA.PublishOk;
      if accepted {
        var _ := authority.ArbitrateNow(now);
      }
    }

    method HandleArm(event: Event, gate: bool, now: U64) returns (plan: Plan, result: Result)
      requires Valid() && initialized
      modifies this, authority, authority.mailboxes
      ensures Valid() && initialized
      ensures (Contents(), plan, result) == Arming(old(Contents()), event, gate, now)
    {
      hide CA.PublishCheck, CA.PublishModel, CA.Arbitrate, CA.Initial, ConfigValid, ArmCheck;
      result := CheckArm(event, gate);
      if result != Ok {
        return NO_PLAN, result;
      }
      var accepted := Offer(event, now);
      if !accepted {
        return NO_PLAN, AuthorityRejected;
      }
      Follow(event);
      return STOP_PLAN, Ok;
    }

    /** The fields of a stream that has just been armed. */
    method Follow(event: Event)
      requires Valid()
      modifies `activeStream, `activeSource, `sequence, `lastReceived, `deadman, `requested, `state, `lastDispatched
      ensures Valid()
      ensures Contents() == old(Contents()).(
                activeStream := event.streamId, activeSource := event.source, sequence := event.sequence,
                lastReceived := event.receivedAt, deadman := false, requested := CA.ZERO_VELOCITY,
                state := Armed, lastDispatched := 0)
    {
      hide ConfigValid;
      activeStream := event.streamId;
      activeSource := event.source;
      sequence := event.sequence;
      lastReceived := event.receivedAt;
      deadman := false;
      requested := CA.ZERO_VELOCITY;
      state := Armed;
      lastDispatched := 0;
    }

    method CheckCommand(event: Event) returns (result: Result)
      requires Valid()
      ensures result == CommandCheck(Contents(), event)
    {
      if state != Armed && state != Active {
        return NotArmed;
      }
      if event.streamId != activeStream {
        return StreamMismatch;
      }
      if !SourceSupported(event.source) {
        return SourceInvalid;
      }
      return if event.source != activeSource then SourceMismatch else Ok;
    }

    method HandleCommand(event: Event, gate: bool, now: U64) returns (plan: Plan, result: Result)
      requires Valid() && initialized
      modifies this, authority, authority.mailboxes, retiredStreams
      ensures Valid() && initialized
      ensures (Contents(), plan, result) == Commanding(old(Contents()), event, gate, now)
    {
      hide CA.PublishCheck, CA.PublishModel, CA.Arbitrate, Converted, Ended, ConfigValid, CommandCheck;
      result := CheckCommand(event);
      if result != Ok {
        return NO_PLAN, result;
      }
      if !gate {
        End(Fault, now);
        return STOP_PLAN, Unsafe;
      }
      var command := CA.Command(event.streamId, event.sequence, event.receivedAt, config.ttl,
                                true, event.deadman, event.finite, event.body);
      var published := authority.Publish(event.source, command, now);
      if published != CA.PublishOk {
        return if event.deadman then NO_PLAN else STOP_PLAN, AuthorityRejected;
      }
      sequence := event.sequence;
      lastReceived := event.receivedAt;
      deadman := event.deadman;
      var cycle := authority.ArbitrateNow(now);
      plan, result := Convert(cycle, now);
    }

    method SubmitEvent(event: Event, gate: bool, now: U64) returns (plan: Plan, result: Result)
      requires Valid()
      modifies this, authority, authority.mailboxes, retiredStreams
      ensures Valid() && initialized == old(initialized)
      ensures (Contents(), plan, result) ==
        if initialized then Submit(old(Contents()), event, gate, now) else (old(Contents()), NO_PLAN, InvalidArgument)
    {
      hide Arming, Commanding, Ended, ConfigValid;
      if !initialized {
        return NO_PLAN, InvalidArgument;
      }
      if event.receivedAt > now {
        return NO_PLAN, InvalidArgument;
      }
      match event.action {
        case Arm =>
          plan, result := HandleArm(event, gate, now);
        case Command =>
          plan, result := HandleCommand(event, gate, now);
        case Disarm =>
          End(Disarmed, now);
          return STOP_PLAN, Ok;
        case StopAll =>
          End(Disarmed, now);
          return STOP_PLAN, Ok;
      }
    }

    method TickNow(gate: bool, now: U64) returns (plan: Plan, result: Result)
      requires Valid()
      modifies this, authority, authority.mailboxes, retiredStreams
      ensures Valid() && initialized == old(initialized)
      ensures (Contents(), plan, result) ==
        if initialized then Tick(old(Contents()), gate, now) else (old(Contents()), NO_PLAN, InvalidArgument)
    {
      hide CA.Arbitrate, Converted, ConfigValid;
      if !initialized {
        return NO_PLAN, InvalidArgument;
      }
      if state != Armed && state != Active {
        return NO_PLAN, Ok;
      }
      if !gate {
        End(Fault, now);
        return STOP_PLAN, Unsafe;
      }
      var cycle := authority.ArbitrateNow(now);
      if cycle.decision == CA.Invalid {
        End(Fault, now);
        return STOP_PLAN, AuthorityRejected;
      }
      plan, result := Convert(cycle, now);
    }

    /** A plan holds at most MAX_ENDPOINTS targets; those behind the last endpoint are stored and never
        read. */
    method RecordActuation(plan: Plan, success: bool)
      requires Valid() && |plan.targets| <= MAX_ENDPOINTS
      modifies this, targets
      ensures Valid() && initialized == old(initialized)
      ensures Contents() == if initialized then Record(old(Contents()), plan, success) else old(Contents())
    {
      hide ConfigValid;
      if !initialized {
        return;
      }
      if plan.action == PlanNone {
        return;
      }
      if !success {
        state := Fault;
        return;
      }
      if plan.action == PlanStop {
        for index := 0 to |config.motors|
          invariant forall k | 0 <= k < index :: targets[k] == old(targets[k]).(rpm := 0)
          invariant forall k | index <= k < MAX_ENDPOINTS :: targets[k] == old(targets[k])
          modifies targets
        {
          targets[index] := targets[index].(rpm := 0);
        }
        assert targets[..|config.motors|] == Stilled(old(targets[..|config.motors|]));
        return;
      }
      for index := 0 to |plan.targets|
        invariant forall k | 0 <= k < index :: targets[k] == plan.targets[k]
        invariant forall k | index <= k < MAX_ENDPOINTS :: targets[k] == old(targets[k])
        modifies targets
      {
        targets[index] := plan.targets[index];
      }
      assert targets[..|config.motors|] == Overlaid(old(targets[..|config.motors|]), plan.targets);
      state := Active;
    }
  }
}
