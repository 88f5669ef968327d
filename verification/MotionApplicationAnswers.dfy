/** What the motion application answers to every event and every tick: the plan, the state and the result,
    told by conditions that a caller can check. */
module MotionApplicationAnswers {
  import opened MachineIntegers
  import opened Prelude
  import CA = CommandAuthority
  import CAR = CommandAuthorityRuns
  import RK = RobotKinematics
  import opened MA = MotionApplication
  import MAR = MotionApplicationRuns
  import opened MRR = MotionReleaseRuns

  /** The model after the end of its stream: nobody may command, and the stream is retired. */
  predicate Over(m: Model, after: Model, state: ControlState) {
    && after.state == state && after.activeStream == 0
    && after.config == m.config && after.targets == m.targets
    && after.retired == (if m.activeStream == 0 then m.retired else Appended(m.retired, m.activeStream))
    && (m.activeStream != 0 ==>
          && after.activeSource == CA.NoSource && after.sequence == 0 && !after.deadman
          && after.requested == CA.ZERO_VELOCITY)
  }

  lemma {:induction false} EndedIsOver(m: Model, state: ControlState)
    requires m.activeStream != 0 ==> m.activeStream !in m.retired
    ensures Over(m, Ended(m, state), state)
  {
    hide Appended;
  }

  lemma {:induction false} LiveIsNotRetired(m: Model)
    requires MAR.Invariant(m)
    ensures m.activeStream != 0 ==> m.activeStream !in m.retired
  {
  }

  // ------------------------------------------------------------------------------------ STOP, DISARM

  /** A STOP or DISARM that is not from the future ends the stream, in whatever state. */
  lemma {:induction false} StopAnswer(m: Model, event: Event, gate: bool, now: U64)
    requires MAR.Invariant(m) && (event.action == StopAll || event.action == Disarm)
    ensures var (after, plan, result) := Submit(m, event, gate, now);
            if event.receivedAt <= now then Over(m, after, Disarmed) && plan == STOP_PLAN && result == Ok
            else after == m && plan == NO_PLAN && result == InvalidArgument
  {
    hide Ended, Over;
    LiveIsNotRetired(m);
    EndedIsOver(m, Disarmed);
  }

  // --------------------------------------------------------------------------------------------- ARM

  /** An ARM that may start its stream: from a supported source, with an open gate, a stream that is new as
      far as the model remembers, no other stream, and a lease that runs and ends within 64 bits. */
  predicate Armable(m: Model, event: Event, gate: bool, now: U64) {
    && (event.source == CA.Lan || event.source == CA.Rc)
    && gate && event.streamId != 0 && event.sequence != 0 && event.streamId !in m.retired && m.activeStream == 0
    && event.receivedAt <= now < event.receivedAt + m.config.ttl <= U64_MAX
  }

  /** The first voice on a blank authority. */
  lemma {:induction false} BlankAccepts(m: Model, event: Event, now: U64)
    requires ConfigValid(m.config) && SourceSupported(event.source) && event.streamId != 0 && event.receivedAt <= now
    ensures var blank := CA.Initial(AuthorityConfig(m.config)); var command := ArmCommand(m, event);
            var published := CA.PublishModel(blank, event.source, command, now);
            && (CA.PublishCheck(blank, event.source, command, now) == CA.PublishOk <==>
                  now < event.receivedAt + m.config.ttl <= U64_MAX)
            && (CA.PublishCheck(blank, event.source, command, now) != CA.PublishOk ==> published == blank)
            && (CA.PublishCheck(blank, event.source, command, now) == CA.PublishOk ==>
                  CA.Arbitrate(published, now).0.selected == event.source)
  {
    var blank := CA.Initial(AuthorityConfig(m.config));
    var command := ArmCommand(m, event);
    assert blank.Box(event.source) == CA.EMPTY_MAILBOX;
    if CA.PublishCheck(blank, event.source, command, now) == CA.PublishOk {
      var published := CA.PublishModel(blank, event.source, command, now);
      assert published.Box(event.source) == CA.AcceptedBox(CA.EMPTY_MAILBOX, command, 1);
      assert forall s: CA.Source | s != event.source :: published.Box(s) == CA.EMPTY_MAILBOX;
    }
  }

  /** An ARM is accepted exactly when it is armable.  Then it starts its stream in ARMED, with a STOP plan, on
      an authority that follows it; otherwise it changes nothing, and the result names the reason. */
  lemma {:induction false} ArmAnswer(m: Model, event: Event, gate: bool, now: U64)
    requires MAR.Invariant(m) && event.action == Arm
    ensures var (after, plan, result) := Submit(m, event, gate, now);
            && (result == Ok <==> Armable(m, event, gate, now))
            && (result == Ok ==>
                  && plan == STOP_PLAN && after.state == Armed && after.authority.selected == event.source
                  && after == m.(authority := after.authority, state := Armed, activeStream := event.streamId,
                                 activeSource := event.source, sequence := event.sequence,
                                 lastReceived := event.receivedAt, deadman := false,
                                 requested := CA.ZERO_VELOCITY, lastDispatched := 0))
            && (result != Ok ==> after == m && plan == NO_PLAN)
  {
    hide CA.PublishCheck, CA.PublishModel, CA.Arbitrate, ConfigValid;
    if event.receivedAt <= now && ArmCheck(m, event, gate) == Ok {
      ConfigHolds(m);
      BlankAccepts(m, event, now);
    }
  }

  lemma {:induction false} ConfigHolds(m: Model)
    requires MAR.Invariant(m)
    ensures ConfigValid(m.config)
  {
  }

  /** The reasons, in the order in which they are looked for. */
  lemma {:induction false} ArmRefusal(m: Model, event: Event, gate: bool, now: U64)
    requires MAR.Invariant(m) && event.action == Arm
    ensures var result := Submit(m, event, gate, now).2;
            var arrived := event.receivedAt <= now; var heard := event.source == CA.Lan || event.source == CA.Rc;
            var numbered := event.streamId != 0 && event.sequence != 0; var unused := event.streamId !in m.retired;
            && (result == InvalidArgument <==> !arrived)
            && (result == SourceInvalid <==> arrived && !heard)
            && (result == Unsafe <==> arrived && heard && !gate)
            && (result == SequenceInvalid <==> arrived && heard && gate && !numbered)
            && (result == StreamRetired <==> arrived && heard && gate && numbered && !unused)
            && (result == AlreadyArmed <==>
                  arrived && heard && gate && numbered && unused && m.activeStream == event.streamId)
            && (result == StreamMismatch <==>
                  arrived && heard && gate && numbered && unused && m.activeStream != event.streamId
                  && m.activeStream != 0)
            && (result == AuthorityRejected <==>
                  arrived && heard && gate && numbered && unused && m.activeStream == 0
                  && !(now < event.receivedAt + m.config.ttl <= U64_MAX))
  {
    hide CA.PublishCheck, CA.PublishModel, CA.Arbitrate, ConfigValid;
    if event.receivedAt <= now && ArmCheck(m, event, gate) == Ok {
      ConfigHolds(m);
      BlankAccepts(m, event, now);
    }
  }

  // ----------------------------------------------------------------------------------------- COMMAND

  /** The stream of the model is the one that the COMMAND is for. */
  predicate Addressed(m: Model, event: Event, now: U64) {
    && event.receivedAt <= now && (m.state == Armed || m.state == Active)
    && m.activeStream != 0 && event.streamId == m.activeStream && event.source == m.activeSource
  }

  /** A COMMAND for another stream, source or state, or from the future, changes nothing, and the result names
      the reason. */
  lemma {:induction false} StrayCommand(m: Model, event: Event, gate: bool, now: U64)
    requires MAR.Invariant(m) && event.action == Command && !Addressed(m, event, now)
    ensures var (after, plan, result) := Submit(m, event, gate, now);
            var arrived := event.receivedAt <= now; var open := m.state == Armed || m.state == Active;
            var heard := event.source == CA.Lan || event.source == CA.Rc;
            && after == m && plan == NO_PLAN
            && (result == InvalidArgument <==> !arrived)
            && (result == NotArmed <==> arrived && !open)
            && (result == StreamMismatch <==> arrived && open && event.streamId != m.activeStream)
            && (result == SourceInvalid <==> arrived && open && event.streamId == m.activeStream && !heard)
            && (result == SourceMismatch <==>
                  arrived && open && event.streamId == m.activeStream && heard && event.source != m.activeSource)
  {
    hide CA.PublishCheck, CA.PublishModel, CA.Arbitrate, Converted;
  }

  lemma {:induction false} AddressedIff(m: Model, event: Event, now: U64)
    requires MAR.Invariant(m) && event.receivedAt <= now
    ensures Addressed(m, event, now) <==> CommandCheck(m, event) == Ok
  {
  }

  /** With a closed gate it ends the stream in FAULT, with a STOP plan. */
  lemma {:induction false} GatedCommand(m: Model, event: Event, now: U64)
    requires MAR.Invariant(m) && event.action == Command && Addressed(m, event, now)
    ensures var (after, plan, result) := Submit(m, event, false, now);
            Over(m, after, Fault) && plan == STOP_PLAN && result == Unsafe
  {
    hide Ended, Over;
    LiveIsNotRetired(m);
    EndedIsOver(m, Fault);
    AddressedIff(m, event, now);
  }

  predicate Accepted(m: Model, event: Event, now: U64) {
    CA.PublishCheck(m.authority, event.source, MoveCommand(m, event), now) == CA.PublishOk
  }

  /** A COMMAND that the authority rejects keeps the stream, and stops exactly when its deadman is released.
      The authority has heard it as a publication: one that is out of order silences it, any other leaves it
      as it was. */
  lemma {:induction false} RejectedCommand(m: Model, event: Event, now: U64)
    requires MAR.Invariant(m) && event.action == Command && Addressed(m, event, now) && !Accepted(m, event, now)
    ensures var (after, plan, result) := Submit(m, event, true, now);
            var heard := CAR.Published(event.source, MoveCommand(m, event), now);
            && after == m.(authority := after.authority) && result == AuthorityRejected
            && plan == (if event.deadman then NO_PLAN else STOP_PLAN)
            && after.authority == CAR.Next(m.authority, heard)
            && (CAR.Silences(m.authority, heard) ==>
                  after.authority.selected == CA.NoSource && !after.authority.Box(m.activeSource).command.valid)
            && (!CAR.Silences(m.authority, heard) ==>
                  after.authority == m.authority.(exhausted := after.authority.exhausted))
  {
    AddressedIff(m, event, now);
    CAR.BoxStep(m.authority, CAR.Published(event.source, MoveCommand(m, event), now), m.activeSource);
    hide CA.PublishCheck, CA.Arbitrate, Converted, CAR.BoxInvariant;
  }

  /** What is kept of an accepted COMMAND. */
  predicate Kept(m: Model, event: Event, after: Model, state: ControlState) {
    && after == m.(authority := after.authority, sequence := event.sequence, lastReceived := event.receivedAt,
                   deadman := event.deadman, state := state,
                   requested := after.requested, lastDispatched := after.lastDispatched)
  }

  /** An accepted COMMAND that the authority follows, and that lies behind the barrier of its stream, is
      dispatched at once: as a STOP when the deadman is released, which leaves the stream ARMED; as an APPLY
      with the speeds of its velocity when the motors can do it; and otherwise it ends the stream in FAULT. */
  lemma {:induction false} DispatchedCommand(m: Model, event: Event, now: U64)
    requires MAR.Invariant(m) && event.action == Command && Addressed(m, event, now) && Accepted(m, event, now)
    requires m.authority.selected == m.activeSource && event.receivedAt > m.authority.barrierTime
    ensures var (after, plan, result) := Submit(m, event, true, now);
            var revision := m.authority.publicationRevision + 1;
            if !event.deadman then
              && plan == Plan(PlanStop, revision, []) && result == Ok && Kept(m, event, after, Armed)
              && after.requested == CA.ZERO_VELOCITY && after.lastDispatched == revision
            else if Plannable(m.config, event.body) then
              && plan == Plan(PlanApply, revision, TargetsFor(m.config, event.body)) && result == Ok
              && Kept(m, event, after, m.state)
              && after.requested == event.body && after.lastDispatched == revision
            else
              Over(m, after, Fault) && plan == STOP_PLAN && result == KinematicsFailed
  {
    hide CA.PublishCheck, CA.Arbitrate, CA.Fresh, Plannable, TargetsFor, CAR.BoxInvariant, Appended;
    AddressedIff(m, event, now);
    MAR.PublicationOnStream(m, event, now);
    var published := CA.PublishModel(m.authority, event.source, MoveCommand(m, event), now);
    MAR.SoloArbitrate(published, event.source, now);
  }

  /** While the authority follows nobody, or the COMMAND lies in front of the barrier, it is kept and makes no
      plan; the authority follows it from then on, unless its counters are at their end. */
  lemma {:induction false} WaitingCommand(m: Model, event: Event, now: U64)
    requires MAR.Invariant(m) && event.action == Command && Addressed(m, event, now) && Accepted(m, event, now)
    requires !(m.authority.selected == m.activeSource && event.receivedAt > m.authority.barrierTime)
    ensures var (after, plan, result) := Submit(m, event, true, now);
            if AtTheEnd(m.authority) then Over(m, after, Expired) && plan == STOP_PLAN && result == Ok
            else
              && plan == NO_PLAN && result == Ok && Kept(m, event, after, m.state)
              && after.requested == m.requested && after.lastDispatched == m.lastDispatched
              && after.authority.selected == m.activeSource
  {
    hide CA.PublishCheck, CA.Arbitrate, CA.Fresh, Plannable, TargetsFor, Appended;
    AddressedIff(m, event, now);
    MAR.PublicationOnStream(m, event, now);
    var published := CA.PublishModel(m.authority, event.source, MoveCommand(m, event), now);
    MAR.SoloArbitrate(published, event.source, now);
    if m.authority.selected == CA.NoSource {
      SoloSelects(published, event.source, now);
    }
  }

  // -------------------------------------------------------------------------------------------- ticks

  /** The lease of the last accepted event of the stream runs. */
  predicate LeaseRuns(m: Model, now: U64) {
    m.authority.Box(m.activeSource).command.valid && m.lastReceived <= now < m.lastReceived + m.config.ttl
  }

  /** A tick watches over a live stream: a closed gate or a clock that runs backwards ends it in FAULT, a
      lease that is over ends it as EXPIRED, each with a STOP plan; otherwise, and without anything to watch
      over, nothing happens. */
  lemma {:induction false} TickAnswer(m: Model, gate: bool, now: U64)
    requires MAR.Invariant(m) && m.activeStream != 0
    ensures var (after, plan, result) := Tick(m, gate, now);
            if m.state != Armed && m.state != Active then after == m && plan == NO_PLAN && result == Ok
            else if !gate then Over(m, after, Fault) && plan == STOP_PLAN && result == Unsafe
            else if m.authority.hasTime && now < m.authority.lastNow then
              Over(m, after, Fault) && plan == STOP_PLAN && result == AuthorityRejected
            else if !LeaseRuns(m, now) then Over(m, after, Expired) && plan == STOP_PLAN && result == Ok
            else after == m.(authority := after.authority) && plan == NO_PLAN && result == Ok
  {
    hide CA.Arbitrate, Plannable, TargetsFor, Appended, CA.Expired, CAR.BoxInvariant;
    ClockBackwards(m.authority, now);
    if !(m.authority.hasTime && now < m.authority.lastNow) {
      MAR.SoloArbitrate(m.authority, m.activeSource, now);
    }
  }

  // -------------------------------------------------------------------------------------- the speeds

  /** The nearest whole speed, and of two nearest ones the faster. */
  predicate Nearest(n: int, x: real) {
    && -0.5 <= n as real - x <= 0.5
    && (n as real - x == 0.5 ==> x > 0.0) && (n as real - x == -0.5 ==> x < 0.0)
  }

  lemma {:induction false} RoundedIsNearest(x: real, n: int)
    ensures n == Rounded(x) <==> Nearest(n, x)
  {
  }

  /** A velocity that the kinematics accepts can be planned exactly when the nearest whole speeds all fit into
      16 bits, and then the targets are, motor by motor, those speeds. */
  lemma {:induction false} TargetsAreNearest(config: Config, velocity: CA.Velocity)
    requires RK.InverseError(config.differential, Body(velocity), config.motors, MAX_ENDPOINTS) == RK.Ok
    ensures var body := RK.BodyVelocity(velocity.vx, velocity.vy, velocity.wz);
            var commands := RK.Commands(config.differential, body, config.motors);
            && (Plannable(config, velocity) <==>
                  forall i | 0 <= i < |commands| :: exists n | I16_MIN <= n <= I16_MAX :: Nearest(n, commands[i].rpm))
            && (Plannable(config, velocity) ==>
                  var targets := TargetsFor(config, velocity);
                  && |targets| == |commands| == |config.motors|
                  && forall i | 0 <= i < |commands| ::
                       targets[i].endpointId == config.motors[i].id && Nearest(targets[i].rpm, commands[i].rpm))
  {
    hide Nearest, Rounded;
    var commands := RK.Commands(config.differential, Body(velocity), config.motors);
    forall i, n: int | 0 <= i < |commands| ensures n == Rounded(commands[i].rpm) <==> Nearest(n, commands[i].rpm) {
      RoundedIsNearest(commands[i].rpm, n);
    }
    forall i | 0 <= i < |commands| ensures Nearest(Rounded(commands[i].rpm), commands[i].rpm) {
      RoundedIsNearest(commands[i].rpm, Rounded(commands[i].rpm));
    }
  }

  // ------------------------------------------------------------------------------- without a stream

  /** A model without a stream keeps nothing of one. */
  predicate Blank(m: Model) {
    m.activeStream == 0 ==>
      m.activeSource == CA.NoSource && m.sequence == 0 && !m.deadman && m.requested == CA.ZERO_VELOCITY
  }

  lemma {:induction false} StepKeepsBlank(m: Model, step: MAR.Step)
    requires MAR.Invariant(m) && Blank(m)
    ensures Blank(MAR.Next(m, step))
  {
    hide CA.Arbitrate, CA.PublishCheck, CA.PublishModel, Plannable, TargetsFor, ConfigValid;
    match step
    case Submitted(event, gate, now) =>
    case Ticked(gate, now) =>
      if m.activeStream == 0 {
        MAR.OrphanIsEnded(m, gate, now);
      }
    case Recorded(plan, success) =>
  }

  lemma {:induction false} RunIsBlank(config: Config, states: seq<Model>, steps: seq<MAR.Step>, n: nat)
    requires MAR.IsRun(config, states, steps) && n < |states|
    ensures Blank(states[n])
  {
    hide Submit, Tick, Record;
    if n > 0 {
      RunIsBlank(config, states, steps, n - 1);
      MAR.RunKeepsInvariant(config, states, steps, n - 1);
      StepKeepsBlank(states[n - 1], steps[n - 1]);
    }
  }
}
