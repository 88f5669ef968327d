/** What holds over every run of the motion application: submissions, ticks and recorded
    actuations in any order. */
module MotionApplicationRuns {
  import opened MachineIntegers
  import CA = CommandAuthority
  import CAR = CommandAuthorityRuns
  import RK = RobotKinematics
  import opened MotionApplication

  // --------------------------------------------------------------------- the state invariant

  /** The mailbox of the active stream carries the last accepted event of that stream; a command
      that could still be applied has already been dispatched. */
  ghost predicate StreamInvariant(m: Model) {
    var a, box := m.authority, m.authority.Box(m.activeSource);
    && SourceSupported(m.activeSource)
    && m.activeStream !in m.retired
    && box.initialized
    && box.command.streamId == m.activeStream
    && box.command.sequence == m.sequence
    && box.command.receivedAt == m.lastReceived
    && box.command.deadman == m.deadman
    && box.command.ttl == m.config.ttl
    && box.retired == []
    && box.revision == a.publicationRevision
    && (forall s: CA.Source | s != CA.NoSource && s != m.activeSource :: a.Box(s) == CA.EMPTY_MAILBOX)
    && (a.selected == CA.NoSource || a.selected == m.activeSource)
    && (a.selected == CA.NoSource ==> !box.command.valid)
    && m.lastDispatched <= a.publicationRevision
    && (Eligible(a, m.activeSource) ==> m.lastDispatched == box.revision)
  }

  ghost predicate Invariant(m: Model) {
    && ConfigValid(m.config)
    && CAR.Invariant(m.authority)
    && m.authority.config == AuthorityConfig(m.config)
    && CAR.Distinct(m.retired) && |m.retired| <= RETIRED_STREAMS
    && (m.activeStream == 0 ==>
          m.activeSource == CA.NoSource && m.authority == CA.Initial(AuthorityConfig(m.config)))
    && (m.activeStream != 0 ==> StreamInvariant(m))
    && (m.state == Armed ==> m.activeStream != 0)
  }

  lemma {:induction false} InitialInvariant(config: Config)
    requires ConfigValid(config)
    ensures Invariant(Initial(config))
  {
    assert forall s: CA.Source :: CA.Initial(AuthorityConfig(config)).Box(s) == CA.EMPTY_MAILBOX;
  }

  lemma {:induction false} AppendedDistinct(retired: seq<U64>, stream: U64)
    requires CAR.Distinct(retired) && |retired| <= RETIRED_STREAMS && stream !in retired
    ensures CAR.Distinct(Appended(retired, stream)) && |Appended(retired, stream)| <= RETIRED_STREAMS
  {
  }

  lemma {:induction false} EndedInvariant(m: Model, state: ControlState)
    requires ConfigValid(m.config) && CAR.Distinct(m.retired) && |m.retired| <= RETIRED_STREAMS
    requires m.activeStream == 0 ==> m.activeSource == CA.NoSource
    requires state != Armed
    ensures Invariant(Ended(m, state)) && Ended(m, state).activeStream == 0
  {
    if m.activeStream != 0 && m.activeStream !in m.retired {
      AppendedDistinct(m.retired, m.activeStream);
    }
    assert forall s: CA.Source :: CA.Initial(AuthorityConfig(m.config)).Box(s) == CA.EMPTY_MAILBOX;
  }

  // ----------------------------------------------------- the authority with a single publisher

  ghost predicate Solo(a: CA.Model, s: CA.Source) {
    && CAR.Invariant(a)
    && SourceSupported(s)
    && a.Box(s).initialized
    && (forall other: CA.Source | other != CA.NoSource && other != s :: a.Box(other) == CA.EMPTY_MAILBOX)
    && (a.selected == CA.NoSource || a.selected == s)
  }

  predicate Eligible(a: CA.Model, s: CA.Source) {
    a.selected == s && a.Box(s).revision > a.barrierRevision && a.Box(s).command.receivedAt > a.barrierTime
  }

  lemma {:induction false} EmptyIsStale(now: U64)
    ensures !CA.Fresh(CA.EMPTY_MAILBOX, now)
  {
  }

  lemma {:induction false} SoloDesired(a: CA.Model, s: CA.Source, now: U64)
    requires Solo(a, s)
    ensures CA.HighestFresh(a.mailboxes, now) == if CA.Fresh(a.Box(s), now) then s else CA.NoSource
  {
    hide CA.Fresh, CAR.Invariant;
    EmptyIsStale(now);
    assert a.Box(CA.Bluetooth) == CA.EMPTY_MAILBOX;
    assert a.Box(CA.Lan) == CA.EMPTY_MAILBOX || s == CA.Lan;
    assert a.Box(CA.Rc) == CA.EMPTY_MAILBOX || s == CA.Rc;
  }

  /** All that an arbitration can do when a single source has published. */
  lemma {:induction false} SoloArbitrate(a: CA.Model, s: CA.Source, now: U64)
    requires Solo(a, s) && !(a.hasTime && now < a.lastNow)
    ensures var (after, cycle) := CA.Arbitrate(a, now);
            && Solo(after, s)
            && after.mailboxes == a.mailboxes && after.config == a.config
            && after.publicationRevision == a.publicationRevision
            && cycle.decision != CA.Invalid
            && (!CA.Fresh(a.Box(s), now) ==> EndsStream(cycle))
            && (CA.Fresh(a.Box(s), now) && a.selected == s ==>
                  && after.selected == s && !EndsStream(cycle)
                  && after.barrierRevision == a.barrierRevision && after.barrierTime == a.barrierTime
                  && (cycle.decision == CA.Apply <==> Eligible(a, s))
                  && (cycle.decision == CA.Apply ==>
                        && cycle.commandRevision == a.Box(s).revision
                        && cycle.output ==
                             if a.Box(s).command.deadman then a.Box(s).command.body else CA.ZERO_VELOCITY))
            && (CA.Fresh(a.Box(s), now) && a.selected == CA.NoSource ==>
                  && cycle.decision != CA.Apply
                  && (!EndsStream(cycle) ==>
                        after.selected == s && after.barrierRevision == a.publicationRevision
                        && after.barrierTime == now))
  {
    hide CA.Fresh, CA.Expired, CAR.Invariant, CA.IsMoving, CA.HighestFresh;
    CAR.ArbitrateKeepsInvariant(a, now);
    CAR.ArbitrationKeepsBoxes(a, now);
    SoloDesired(a, s, now);
    forall other: CA.Source | other != CA.NoSource && other != s
      ensures CA.Arbitrate(a, now).0.Box(other) == CA.EMPTY_MAILBOX
    {
      assert a.Box(other) == CA.EMPTY_MAILBOX;
    }
  }

  // ------------------------------------------------------------------ every step keeps it

  lemma {:induction false} ArmingKeepsInvariant(m: Model, event: Event, gate: bool, now: U64)
    requires Invariant(m) && event.receivedAt <= now
    ensures Invariant(Arming(m, event, gate, now).0)
    ensures Arming(m, event, gate, now).2 == Ok ==>
              Arming(m, event, gate, now).0.authority.barrierTime == now
  {
    var blank := CA.Initial(AuthorityConfig(m.config));
    var command := ArmCommand(m, event);
    if ArmCheck(m, event, gate) == Ok {
      var published := CA.PublishModel(blank, event.source, command, now);
      assert forall s: CA.Source :: blank.Box(s) == CA.EMPTY_MAILBOX;
      if CA.PublishCheck(blank, event.source, command, now) == CA.PublishOk {
        CAR.StoreKeepsInvariant(blank, event.source, command, now);
        forall s: CA.Source | s != CA.NoSource && s != event.source
          ensures published.Box(s) == CA.EMPTY_MAILBOX
        {
        }
        assert published.Box(event.source) == CA.AcceptedBox(CA.EMPTY_MAILBOX, command, 1);
        SoloArbitrate(published, event.source, now);
      } else {
        assert published == blank;
      }
    }
  }

  /** The stream invariant without its two clauses about the authority's choice. */
  ghost predicate Carries(m: Model) {
    var a, box := m.authority, m.authority.Box(m.activeSource);
    && ConfigValid(m.config) && a.config == AuthorityConfig(m.config)
    && CAR.Distinct(m.retired) && |m.retired| <= RETIRED_STREAMS
    && m.activeStream != 0 && m.activeStream !in m.retired
    && Solo(a, m.activeSource)
    && box.command.streamId == m.activeStream
    && box.command.sequence == m.sequence
    && box.command.receivedAt == m.lastReceived
    && box.command.deadman == m.deadman
    && box.command.ttl == m.config.ttl
    && box.retired == []
    && box.revision == a.publicationRevision
    && m.lastDispatched <= a.publicationRevision
  }

  /** Turning an arbitration into a plan keeps the invariant. */
  lemma {:induction false} ConvertedKeepsInvariant(m: Model, now: U64)
    requires Carries(m) && !(m.authority.hasTime && now < m.authority.lastNow)
    requires m.authority.selected == CA.NoSource ==>
               !m.authority.Box(m.activeSource).command.valid || CA.Fresh(m.authority.Box(m.activeSource), now)
    ensures var (authority, cycle) := CA.Arbitrate(m.authority, now);
            Invariant(Converted(m.(authority := authority), cycle).0)
  {
    hide CA.Arbitrate, RK.InverseError, RK.Commands;
    var s := m.activeSource;
    SoloArbitrate(m.authority, s, now);
    var (authority, cycle) := CA.Arbitrate(m.authority, now);
    var arbitrated := m.(authority := authority);
    if EndsStream(cycle) {
      EndedInvariant(arbitrated, Expired);
    } else if cycle.decision == CA.Apply && cycle.commandRevision != m.lastDispatched {
      var dispatched := arbitrated.(lastDispatched := cycle.commandRevision, requested := cycle.output);
      if m.deadman && !Plannable(m.config, cycle.output) {
        EndedInvariant(dispatched, Fault);
      }
    }
  }

  /** The authority after the publication of a COMMAND, whether it is accepted or not. */
  lemma {:induction false} PublicationOnStream(m: Model, event: Event, now: U64)
    requires Invariant(m) && CommandCheck(m, event) == Ok
    ensures m.activeStream != 0 && event.source == m.activeSource && event.streamId == m.activeStream
    ensures var command := MoveCommand(m, event);
            var result := CA.PublishCheck(m.authority, event.source, command, now);
            var published := CA.PublishModel(m.authority, event.source, command, now);
            && (result != CA.PublishOk ==> Invariant(m.(authority := published)))
            && (result == CA.PublishOk ==>
                  && Carries(m.(authority := published, sequence := event.sequence,
                                lastReceived := event.receivedAt, deadman := event.deadman))
                  && published.lastNow == now
                  && CA.Fresh(published.Box(event.source), now)
                  && published.selected == m.authority.selected
                  && published.publicationRevision == m.authority.publicationRevision + 1
                  && published.barrierRevision == m.authority.barrierRevision
                  && published.barrierTime == m.authority.barrierTime
                  && event.sequence > m.sequence && event.receivedAt >= m.lastReceived
                  && published.Box(event.source).command == CA.Normalized(command))
  {
    var s, a, command := event.source, m.authority, MoveCommand(m, event);
    var result := CA.PublishCheck(a, s, command, now);
    var published := CA.PublishModel(a, s, command, now);
    var e := CAR.Published(s, command, now);
    CAR.StepKeepsInvariant(a, e);
    CAR.BoxStep(a, e, s);
    forall other: CA.Source | other != CA.NoSource && other != s
      ensures published.Box(other) == CA.EMPTY_MAILBOX
    {
      CAR.BoxStep(a, e, other);
    }
    if result == CA.PublishOk {
      assert published.Box(s) == CA.AcceptedBox(a.Box(s), command, a.publicationRevision + 1);
    } else if published.selected == m.activeSource {
      assert published.Box(s) == a.Box(s);
    } else {
      assert published.Box(s) == a.Box(s) || published.Box(s) == CA.Silenced(a.Box(s));
    }
  }

  lemma {:induction false} CommandingKeepsInvariant(m: Model, event: Event, gate: bool, now: U64)
    requires Invariant(m)
    ensures Invariant(Commanding(m, event, gate, now).0)
  {
    hide CA.PublishCheck, CA.PublishModel, CA.Arbitrate, Converted;
    if CommandCheck(m, event) == Ok {
      PublicationOnStream(m, event, now);
      if !gate {
        EndedInvariant(m, Fault);
      } else {
        var command := MoveCommand(m, event);
        var published := CA.PublishModel(m.authority, event.source, command, now);
        if CA.PublishCheck(m.authority, event.source, command, now) == CA.PublishOk {
          ConvertedKeepsInvariant(
            m.(authority := published, sequence := event.sequence,
               lastReceived := event.receivedAt, deadman := event.deadman), now);
        }
      }
    }
  }

  lemma {:induction false} SubmitKeepsInvariant(m: Model, event: Event, gate: bool, now: U64)
    requires Invariant(m)
    ensures Invariant(Submit(m, event, gate, now).0)
  {
    hide Arming, Commanding;
    if event.receivedAt <= now {
      match event.action
      case Arm => ArmingKeepsInvariant(m, event, gate, now);
      case Command => CommandingKeepsInvariant(m, event, gate, now);
      case Disarm => EndedInvariant(m, Disarmed);
      case StopAll => EndedInvariant(m, Disarmed);
    }
  }

  lemma {:induction false} TickKeepsInvariant(m: Model, gate: bool, now: U64)
    requires Invariant(m)
    ensures Invariant(Tick(m, gate, now).0)
  {
    EndedInvariant(m, Fault);
    EndedInvariant(m, Expired);
    if m.activeStream != 0 && !(m.authority.hasTime && now < m.authority.lastNow) {
      ConvertedKeepsInvariant(m, now);
      SoloArbitrate(m.authority, m.activeSource, now);
    } else if m.activeStream == 0 {
      OrphanIsEnded(m, gate, now);
    }
  }

  lemma {:induction false} RecordKeepsInvariant(m: Model, plan: Plan, success: bool)
    requires Invariant(m)
    ensures Invariant(Record(m, plan, success))
  {
  }

  // ------------------------------------------------------------ what a tick and a command can do

  /** A state ACTIVE that was recorded after its stream had ended does not survive a tick. */
  lemma {:induction false} OrphanIsEnded(m: Model, gate: bool, now: U64)
    requires Invariant(m) && m.activeStream == 0
    ensures m.state == Active ==>
              Tick(m, gate, now).1.action == PlanStop
              && Tick(m, gate, now).0 == m.(state := if gate then Expired else Fault)
    ensures m.state != Active ==> Tick(m, gate, now) == (m, NO_PLAN, Ok)
  {
    var blank := CA.Initial(AuthorityConfig(m.config));
    assert forall s: CA.Source :: blank.Box(s) == CA.EMPTY_MAILBOX;
    assert CA.HighestFresh(blank.mailboxes, now) == CA.NoSource;
  }

  /** A tick never moves: a command that is still eligible has always been dispatched before. */
  lemma {:induction false} TickNeverApplies(m: Model, gate: bool, now: U64)
    requires Invariant(m)
    ensures Tick(m, gate, now).1.action != PlanApply
    ensures Tick(m, gate, now).1.action == PlanStop ==> Tick(m, gate, now).0.activeStream == 0
    ensures Tick(m, gate, now).1.action == PlanNone ==> Tick(m, gate, now).0.activeStream == m.activeStream
  {
    EndedInvariant(m, Fault);
    EndedInvariant(m, Expired);
    if m.activeStream == 0 {
      OrphanIsEnded(m, gate, now);
    } else if !(m.authority.hasTime && now < m.authority.lastNow) {
      SoloArbitrate(m.authority, m.activeSource, now);
    }
  }

  /** The lease, carried up to the application: a tick of an armed or active model at or after the
      last accepted reception plus the TTL always stops and leaves no stream. */
  lemma {:induction false} LeaseEndsInStop(m: Model, gate: bool, now: U64)
    requires Invariant(m) && (m.state == Armed || m.state == Active)
    requires now >= m.lastReceived + m.config.ttl || m.activeStream == 0
    ensures Tick(m, gate, now).1.action == PlanStop
    ensures Tick(m, gate, now).0.activeStream == 0
    ensures Tick(m, gate, now).0.state == Expired || Tick(m, gate, now).0.state == Fault
  {
    EndedInvariant(m, Fault);
    EndedInvariant(m, Expired);
    if m.activeStream == 0 {
      OrphanIsEnded(m, gate, now);
    } else if !(m.authority.hasTime && now < m.authority.lastNow) {
      SoloArbitrate(m.authority, m.activeSource, now);
    }
  }

  /** An APPLY plan is made only by the submission of the very COMMAND whose velocity it carries:
      on the active stream and source, gate open, deadman held, with a sequence above the last
      accepted one, received strictly after the barrier of its stream. */
  lemma {:induction false} ApplyIsItsCommand(m: Model, event: Event, gate: bool, now: U64)
    requires Invariant(m) && Submit(m, event, gate, now).1.action == PlanApply
    ensures var (after, plan, result) := Submit(m, event, gate, now);
            && event.action == Command && gate && result == Ok
            && event.streamId == m.activeStream == after.activeStream != 0
            && event.source == m.activeSource == after.activeSource
            && event.deadman && event.sequence > m.sequence && after.sequence == event.sequence
            && m.authority.barrierTime < event.receivedAt <= now < event.receivedAt + m.config.ttl
            && CA.WithinLimits(AuthorityConfig(m.config), event.body)
            && Plannable(m.config, event.body)
            && plan.targets == TargetsFor(m.config, event.body)
            && plan.commandRevision == after.lastDispatched == m.authority.publicationRevision + 1
            && (m.state == Armed || m.state == Active)
  {
    if CommandCheck(m, event) == Ok && gate {
      PublicationOnStream(m, event, now);
      var command := MoveCommand(m, event);
      var published := CA.PublishModel(m.authority, event.source, command, now);
      if CA.PublishCheck(m.authority, event.source, command, now) == CA.PublishOk {
        SoloArbitrate(published, event.source, now);
      }
    }
  }

  /** After a failed actuation the live stream is locked: until a STOP or DISARM, or a recorded
      success of an APPLY, nothing moves, nothing arms and nothing stops. */
  lemma {:induction false} FaultLatches(m: Model, event: Event, gate: bool, now: U64)
    requires Invariant(m) && m.state == Fault && m.activeStream != 0
    ensures Tick(m, gate, now) == (m, NO_PLAN, Ok)
    ensures event.action == Arm || event.action == Command ==>
              && Submit(m, event, gate, now).0 == m
              && Submit(m, event, gate, now).1 == NO_PLAN
              && Submit(m, event, gate, now).2 != Ok
  {
  }

  // ---------------------------------------------------------------------------------- runs

  datatype Step =
    | Submitted(event: Event, gate: bool, now: U64)
    | Ticked(gate: bool, now: U64)
    | Recorded(plan: Plan, success: bool)

  ghost function Next(m: Model, step: Step): Model {
    match step
    case Submitted(event, gate, now) => Submit(m, event, gate, now).0
    case Ticked(gate, now) => Tick(m, gate, now).0
    case Recorded(plan, success) => Record(m, plan, success)
  }

  /** The plan that a step hands out. */
  ghost function PlanOf(m: Model, step: Step): Plan {
    match step
    case Submitted(event, gate, now) => Submit(m, event, gate, now).1
    case Ticked(gate, now) => Tick(m, gate, now).1
    case Recorded(_, _) => NO_PLAN
  }

  /** states[i] is the model before steps[i]. */
  ghost predicate IsRun(config: Config, states: seq<Model>, steps: seq<Step>) {
    && ConfigValid(config)
    && |states| == |steps| + 1
    && states[0] == Initial(config)
    && forall i | 0 <= i < |steps| :: states[i + 1] == Next(states[i], steps[i])
  }

  /** The step arms a stream. */
  ghost predicate Arms(m: Model, step: Step) {
    step.Submitted? && step.event.action == Arm && Submit(m, step.event, step.gate, step.now).2 == Ok
  }

  lemma {:induction false} RunKeepsInvariant(config: Config, states: seq<Model>, steps: seq<Step>, n: nat)
    requires IsRun(config, states, steps) && n < |states|
    ensures Invariant(states[n]) && states[n].config == config
  {
    hide Submit, Tick, Record;
    if n == 0 {
      InitialInvariant(config);
    } else {
      RunKeepsInvariant(config, states, steps, n - 1);
      StepChangesStream(states[n - 1], steps[n - 1]);
    }
  }

  /** How a step can change the stream: an accepted ARM on an idle model starts one, at a barrier
      set at that time; the end of a stream retires it; otherwise stream, source and configuration
      stay, and the barrier does not go back. */
  lemma {:induction false} StepChangesStream(m: Model, step: Step)
    requires Invariant(m)
    ensures Invariant(Next(m, step)) && Next(m, step).config == m.config
    ensures var after := Next(m, step);
            && (Arms(m, step) ==>
                  && m.activeStream == 0 && step.event.streamId !in m.retired && step.gate
                  && after.activeStream == step.event.streamId != 0
                  && after.activeSource == step.event.source
                  && after.sequence == step.event.sequence
                  && after.authority.barrierTime == step.now
                  && after.retired == m.retired
                  && PlanOf(m, step) == STOP_PLAN)
            && (!Arms(m, step) && after.activeStream != 0 ==>
                  && after.activeStream == m.activeStream
                  && after.activeSource == m.activeSource
                  && after.sequence >= m.sequence
                  && after.authority.barrierTime >= m.authority.barrierTime
                  && after.retired == m.retired)
            && (!Arms(m, step) && after.activeStream == 0 ==>
                  after.retired == if m.activeStream == 0 then m.retired
                                   else Appended(m.retired, m.activeStream))
  {
    match step
    case Submitted(event, gate, now) =>
      SubmitKeepsInvariant(m, event, gate, now);
      SubmitChangesStream(m, event, gate, now);
    case Ticked(gate, now) =>
      TickKeepsInvariant(m, gate, now);
      TickChangesStream(m, gate, now);
    case Recorded(plan, success) =>
      RecordKeepsInvariant(m, plan, success);
  }

  /** The part of a model that the history of streams depends on. */
  predicate SameOrEnded(m: Model, after: Model) {
    && after.config == m.config
    && (after.activeStream != 0 ==>
          && after.activeStream == m.activeStream && after.activeSource == m.activeSource
          && after.sequence >= m.sequence && after.retired == m.retired
          && after.authority.barrierTime >= m.authority.barrierTime)
    && (after.activeStream == 0 ==>
          after.retired == if m.activeStream == 0 then m.retired else Appended(m.retired, m.activeStream))
  }

  lemma {:induction false} BarrierAdvances(a: CA.Model, now: U64)
    requires CAR.Invariant(a) && !(a.hasTime && now < a.lastNow)
    ensures CA.Arbitrate(a, now).0.barrierTime >= a.barrierTime
  {
  }

  lemma {:induction false} ConvertedChangesStream(m: Model, now: U64)
    requires Carries(m) && !(m.authority.hasTime && now < m.authority.lastNow)
    ensures var (authority, cycle) := CA.Arbitrate(m.authority, now);
            SameOrEnded(m, Converted(m.(authority := authority), cycle).0)
  {
    hide CA.Arbitrate, RK.InverseError, RK.Commands;
    SoloArbitrate(m.authority, m.activeSource, now);
    BarrierAdvances(m.authority, now);
  }

  lemma {:induction false} TickChangesStream(m: Model, gate: bool, now: U64)
    requires Invariant(m)
    ensures SameOrEnded(m, Tick(m, gate, now).0)
  {
    hide Converted;
    if m.activeStream == 0 {
      OrphanIsEnded(m, gate, now);
    } else if !(m.authority.hasTime && now < m.authority.lastNow) {
      ConvertedChangesStream(m, now);
    }
  }

  lemma {:induction false} CommandChangesStream(m: Model, event: Event, gate: bool, now: U64)
    requires Invariant(m) && event.action == Command && event.receivedAt <= now
    ensures SameOrEnded(m, Commanding(m, event, gate, now).0)
  {
    if CommandCheck(m, event) == Ok && gate {
      PublicationOnStream(m, event, now);
      var command := MoveCommand(m, event);
      var published := CA.PublishModel(m.authority, event.source, command, now);
      if CA.PublishCheck(m.authority, event.source, command, now) == CA.PublishOk {
        ConvertedChangesStream(
          m.(authority := published, sequence := event.sequence,
             lastReceived := event.receivedAt, deadman := event.deadman), now);
        hide Converted, CA.Arbitrate, CA.PublishModel, CA.PublishCheck;
      }
    }
  }

  /** An accepted ARM starts its stream on an authority that has just set its barrier. */
  ghost predicate Started(m: Model, event: Event, gate: bool, now: U64, after: Model, plan: Plan) {
    && m.activeStream == 0 && event.streamId !in m.retired && gate
    && after == m.(authority := after.authority, activeStream := event.streamId,
                   activeSource := event.source, sequence := event.sequence,
                   lastReceived := event.receivedAt, deadman := false,
                   requested := CA.ZERO_VELOCITY, state := Armed, lastDispatched := 0)
    && after.activeStream != 0 && after.authority.barrierTime == now && plan == STOP_PLAN
  }

  lemma {:induction false} ArmChangesStream(m: Model, event: Event, gate: bool, now: U64)
    requires Invariant(m) && event.action == Arm && event.receivedAt <= now
    ensures var (after, plan, result) := Arming(m, event, gate, now);
            if result == Ok then Started(m, event, gate, now, after, plan) else SameOrEnded(m, after)
  {
    hide CA.PublishCheck, CA.PublishModel, CA.Arbitrate;
    ArmingKeepsInvariant(m, event, gate, now);
  }

  lemma {:induction false} SubmitChangesStream(m: Model, event: Event, gate: bool, now: U64)
    requires Invariant(m)
    ensures var (after, plan, result) := Submit(m, event, gate, now);
            if event.action == Arm && result == Ok then Started(m, event, gate, now, after, plan)
            else SameOrEnded(m, after)
  {
    hide Arming, Commanding, Started;
    if event.receivedAt <= now {
      if event.action == Arm {
        ArmChangesStream(m, event, gate, now);
      } else if event.action == Command {
        CommandChangesStream(m, event, gate, now);
      }
    }
  }

  // -------------------------------------------------------------------- every APPLY has its ARM

  /** The ARM at step a started the stream that is still active at step n. */
  ghost predicate ArmedSince(states: seq<Model>, steps: seq<Step>, a: nat, n: nat)
    requires |states| == |steps| + 1 && a < n < |states|
  {
    && Arms(states[a], steps[a])
    && forall k | a < k <= n ::
         && states[k].activeStream == steps[a].event.streamId
         && states[k].activeSource == steps[a].event.source
         && states[k].sequence >= steps[a].event.sequence
         && states[k].authority.barrierTime >= steps[a].now
  }

  lemma {:induction false} LiveStreamWasArmed(config: Config, states: seq<Model>, steps: seq<Step>, n: nat)
    returns (a: nat)
    requires IsRun(config, states, steps) && n < |states| && states[n].activeStream != 0
    ensures a < n && ArmedSince(states, steps, a, n)
  {
    hide Submit, Tick, Record;
    assert n > 0;
    RunKeepsInvariant(config, states, steps, n - 1);
    StepChangesStream(states[n - 1], steps[n - 1]);
    if Arms(states[n - 1], steps[n - 1]) {
      a := n - 1;
    } else {
      a := LiveStreamWasArmed(config, states, steps, n - 1);
    }
  }

  /** Every APPLY plan is the plan of one COMMAND of a stream that an accepted ARM started, with no
      end of the stream in between; the command was received strictly after that ARM and carries a
      higher sequence. */
  lemma {:induction false} ApplyFollowsItsArm(config: Config, states: seq<Model>, steps: seq<Step>, j: nat)
    returns (a: nat)
    requires IsRun(config, states, steps) && j < |steps|
    requires PlanOf(states[j], steps[j]).action == PlanApply
    ensures steps[j].Submitted? && steps[j].event.action == Command && steps[j].gate
    ensures a < j && ArmedSince(states, steps, a, j)
    ensures steps[j].event.streamId == steps[a].event.streamId
    ensures steps[j].event.source == steps[a].event.source
    ensures steps[j].event.sequence > steps[a].event.sequence
    ensures steps[j].event.receivedAt > steps[a].now
    ensures Plannable(config, steps[j].event.body)
    ensures PlanOf(states[j], steps[j]).targets == TargetsFor(config, steps[j].event.body)
  {
    hide Submit, Tick, Record, Plannable;
    RunKeepsInvariant(config, states, steps, j);
    if steps[j].Ticked? {
      TickNeverApplies(states[j], steps[j].gate, steps[j].now);
    }
    ApplyIsItsCommand(states[j], steps[j].event, steps[j].gate, steps[j].now);
    a := LiveStreamWasArmed(config, states, steps, j);
  }

  // ------------------------------------------------------------------------ retired streams

  /** The streams retired before step n, oldest first. */
  ghost function RetiredLog(states: seq<Model>, n: nat): seq<U64>
    requires n < |states|
  {
    if n == 0 then []
    else RetiredLog(states, n - 1)
         + if states[n - 1].activeStream != 0 && states[n].activeStream == 0 then [states[n - 1].activeStream] else []
  }

  function LastSixteen(log: seq<U64>): seq<U64> {
    if |log| <= RETIRED_STREAMS then log else log[|log| - RETIRED_STREAMS..]
  }

  lemma {:induction false} LastSixteenOfNone()
    ensures LastSixteen([]) == []
  {
  }

  lemma {:induction false} AppendedIsLast(log: seq<U64>, stream: U64)
    ensures Appended(LastSixteen(log), stream) == LastSixteen(log + [stream])
  {
  }

  /** The retired array is always the last 16 retired streams, in order. */
  lemma {:induction false} RetiredAreTheLast(config: Config, states: seq<Model>, steps: seq<Step>, n: nat)
    requires IsRun(config, states, steps) && n < |states|
    ensures states[n].retired == LastSixteen(RetiredLog(states, n))
  {
    hide Submit, Tick, Record, Invariant, Appended, LastSixteen;
    if n == 0 {
      LastSixteenOfNone();
    } else {
      RetiredAreTheLast(config, states, steps, n - 1);
      RunKeepsInvariant(config, states, steps, n - 1);
      StepChangesStream(states[n - 1], steps[n - 1]);
      AppendedIsLast(RetiredLog(states, n - 1), states[n - 1].activeStream);
      assert RetiredLog(states, n - 1) + [] == RetiredLog(states, n - 1);
    }
  }

  /** A retired stream is armed again only after 16 other, pairwise distinct streams have been
      retired after it. */
  lemma {:induction false} RearmNeedsEviction(
    config: Config, states: seq<Model>, steps: seq<Step>, j: nat, p: nat)
    requires IsRun(config, states, steps) && j < |steps| && Arms(states[j], steps[j])
    requires p < |RetiredLog(states, j)| && RetiredLog(states, j)[p] == steps[j].event.streamId
    ensures var log := RetiredLog(states, j);
            && p + RETIRED_STREAMS < |log|
            && CAR.Distinct(log[|log| - RETIRED_STREAMS..])
            && steps[j].event.streamId !in log[|log| - RETIRED_STREAMS..]
  {
    hide Submit, Tick, Record;
    RunKeepsInvariant(config, states, steps, j);
    StepChangesStream(states[j], steps[j]);
    RetiredAreTheLast(config, states, steps, j);
    var log := RetiredLog(states, j);
    var start := if |log| <= RETIRED_STREAMS then 0 else |log| - RETIRED_STREAMS;
    assert forall k | start <= k < |log| :: LastSixteen(log)[k - start] == log[k];
  }

  lemma {:induction false} LogGrows(states: seq<Model>, i: nat, n: nat)
    requires i <= n < |states|
    ensures RetiredLog(states, i) <= RetiredLog(states, n)
    decreases n
  {
    if i < n {
      LogGrows(states, i, n - 1);
    }
  }

  /** A stream that was active at i and is not active at n has been retired in between. */
  lemma {:induction false} LeftMeansRetired(config: Config, states: seq<Model>, steps: seq<Step>, i: nat, n: nat)
    returns (p: nat)
    requires IsRun(config, states, steps) && i < n < |states|
    requires states[i].activeStream != 0 && states[n].activeStream != states[i].activeStream
    ensures |RetiredLog(states, i)| <= p < |RetiredLog(states, n)|
    ensures RetiredLog(states, n)[p] == states[i].activeStream
    decreases n
  {
    hide Submit, Tick, Record, Invariant;
    RunKeepsInvariant(config, states, steps, n - 1);
    StepChangesStream(states[n - 1], steps[n - 1]);
    if states[n - 1].activeStream == states[i].activeStream {
      p := |RetiredLog(states, n - 1)|;
      LogGrows(states, i, n - 1);
    } else {
      p := LeftMeansRetired(config, states, steps, i, n - 1);
    }
  }

  /** Within one life of a stream the accepted sequence never goes back. */
  lemma {:induction false} SequenceRises(
    config: Config, states: seq<Model>, steps: seq<Step>, a: nat, i: nat, n: nat)
    requires IsRun(config, states, steps) && a < i <= n < |states| && ArmedSince(states, steps, a, n)
    ensures states[n].sequence >= states[i].sequence
    decreases n
  {
    hide Submit, Tick, Record, Invariant;
    RunKeepsInvariant(config, states, steps, a);
    StepChangesStream(states[a], steps[a]);
    if i < n {
      SequenceRises(config, states, steps, a, i, n - 1);
      RunKeepsInvariant(config, states, steps, n - 1);
      StepChangesStream(states[n - 1], steps[n - 1]);
    }
  }

  /** A command is dispatched at most once: two APPLY plans of one stream carry rising sequences,
      unless the stream has been retired and forgotten, which takes 17 retirements. */
  lemma {:induction false} DispatchedOnce(config: Config, states: seq<Model>, steps: seq<Step>, i: nat, j: nat)
    requires IsRun(config, states, steps) && i < j < |steps|
    requires PlanOf(states[i], steps[i]).action == PlanApply && PlanOf(states[j], steps[j]).action == PlanApply
    requires states[i].activeStream == states[j].activeStream
    ensures steps[i].Submitted? && steps[j].Submitted?
    ensures || steps[i].event.sequence < steps[j].event.sequence
            || |RetiredLog(states, j)| > |RetiredLog(states, i)| + RETIRED_STREAMS
  {
    hide Submit, Tick, Record, Invariant, Plannable;
    var ai := ApplyFollowsItsArm(config, states, steps, i);
    var aj := ApplyFollowsItsArm(config, states, steps, j);
    RunKeepsInvariant(config, states, steps, i);
    RunKeepsInvariant(config, states, steps, j);
    ApplyIsItsCommand(states[i], steps[i].event, steps[i].gate, steps[i].now);
    ApplyIsItsCommand(states[j], steps[j].event, steps[j].gate, steps[j].now);
    if aj < i {
      SequenceRises(config, states, steps, aj, i + 1, j);
    } else {
      RunKeepsInvariant(config, states, steps, aj);
      StepChangesStream(states[aj], steps[aj]);
      assert states[aj].activeStream == 0;
      assert aj != i;
      var p := LeftMeansRetired(config, states, steps, i, aj);
      RearmNeedsEviction(config, states, steps, aj, p);
      LogGrows(states, aj, j);
    }
  }
}
