/** Runs of the motion service that reach the two states its findings are about: with every valid
    configuration, by the same few steps. */
module MotionExamples {
  import opened MachineIntegers
  import opened Prelude
  import CA = CommandAuthority
  import RK = RobotKinematics
  import opened MA = MotionApplication
  import MAR = MotionApplicationRuns
  import opened MS = MotionService
  import MSR = MotionServiceRuns

  /** The states that these steps lead through. */
  ghost function StatesOf(config: Config, steps: seq<Step>): (states: seq<System>)
    ensures |states| == |steps| + 1
  {
    if steps == [] then [MS.Initial(config)]
    else
      var before := StatesOf(config, steps[..|steps| - 1]);
      before + [MS.Next(before[|steps| - 1], steps[|steps| - 1])]
  }

  ghost function After(config: Config, steps: seq<Step>): System {
    StatesOf(config, steps)[|steps|]
  }

  lemma {:induction false} StatesAreRun(config: Config, steps: seq<Step>)
    requires MA.ConfigValid(config)
    ensures MSR.IsRun(config, StatesOf(config, steps), steps)
  {
    hide MS.Next, MA.ConfigValid;
    if steps != [] {
      StatesAreRun(config, steps[..|steps| - 1]);
    }
  }

  lemma {:induction false} OneMoreStep(config: Config, steps: seq<Step>, step: Step)
    ensures After(config, steps + [step]) == MS.Next(After(config, steps), step)
  {
    hide MS.Next;
    assert (steps + [step])[..|steps|] == steps;
  }

  const ARM: Event := Event(Arm, CA.Lan, 1, 1, 1, true, CA.ZERO_VELOCITY, false)
  const COMMAND: Event := Event(Command, CA.Lan, 1, 2, 2, true, CA.ZERO_VELOCITY, true)
  const STOP: Event := Event(StopAll, CA.Lan, 1, 3, 2, true, CA.ZERO_VELOCITY, false)

  /** The first stream of a fresh application. */
  lemma {:induction false} FirstArm(config: Config)
    requires MA.ConfigValid(config)
    ensures var (m, plan, result) := MA.Submit(MA.Initial(config), ARM, true, 1);
            && result == Ok && plan == STOP_PLAN && m.config == config && Ready(m)
  {
    hide RK.InverseError;
  }

  /** A stream is armed on an authority that waits for its first command. */
  ghost predicate Ready(m: Model) {
    var box := m.authority.Box(CA.Lan);
    && m.state == Armed && m.activeStream == 1 && m.activeSource == CA.Lan && m.lastDispatched == 0
    && m.authority.initialized && m.authority.config == AuthorityConfig(m.config)
    && m.authority.selected == CA.Lan && m.authority.publicationRevision == 1
    && m.authority.barrierRevision == 1 && m.authority.barrierTime == 1
    && m.authority.hasTime && m.authority.lastNow == 1
    && box.initialized && box.command.streamId == 1 && box.command.sequence == 1 && box.command.receivedAt == 1
    && m.authority.Box(CA.Rc) == CA.EMPTY_MAILBOX
  }

  lemma {:induction false} NothingIsRounded()
    ensures Rounded(0.0) == 0
  {
  }

  lemma {:induction false} StandingCommand(config: Config, i: nat)
    requires i < |config.motors| && forall k | 0 <= k < |config.motors| :: RK.MotorValid(config.motors[k])
    ensures RK.Commands(config.differential, Body(CA.ZERO_VELOCITY), config.motors)[i].rpm == 0.0
  {
    RK.CommandsKeepShape(config.differential, Body(CA.ZERO_VELOCITY), config.motors, i);
    hide RK.Commands, RK.CommonScale, RK.MotorValid;
  }

  /** Standing still can always be planned. */
  lemma {:induction false} StandingIsPlannable(config: Config)
    requires MA.ConfigValid(config)
    ensures Plannable(config, CA.ZERO_VELOCITY)
  {
    hide Rounded, CA.ConfigValid;
    var commands := RK.Commands(config.differential, Body(CA.ZERO_VELOCITY), config.motors);
    NothingIsRounded();
    forall i | 0 <= i < |commands| ensures I16_MIN <= Rounded(commands[i].rpm) <= I16_MAX {
      StandingCommand(config, i);
    }
  }

  /** The first command of that stream is planned. */
  lemma {:induction false} FirstCommand(m: Model)
    requires MA.ConfigValid(m.config) && Ready(m)
    ensures var (after, plan, result) := MA.Submit(m, COMMAND, true, 2);
            result == Ok && plan.action == PlanApply && after.activeStream == 1
  {
    hide RK.InverseError, Plannable, TargetsFor;
    StandingIsPlannable(m.config);
  }

  // -------------------------------------------------------------------------------- one opening

  /** Arms a stream, sends its STOP, and takes the plan of its first command. */
  const OPENING: seq<Step> := [
    SubmitNow(ARM, true, 1), Cycle(true, 1, 1), Execute(true), RecordResult,
    SubmitNow(COMMAND, true, 2), Cycle(true, 2, 2)]

  /** Nothing waits. */
  ghost predicate Empty(s: Service) {
    && s.stopPlan.None? && s.applyPlan.None?
    && s.stopEvent.None? && s.armEvent.None? && s.commandEvent.None?
  }

  /** The task is about to execute an APPLY of the live stream. */
  ghost predicate Flying(s: System) {
    && s.flight.Executing? && s.flight.plan.action == PlanApply
    && s.service.model.activeStream == 1 && Empty(s.service)
  }

  /** A stream is armed, and its STOP has been sent. */
  ghost predicate Waiting(s: System) {
    s.flight.Idle? && Ready(s.service.model) && Empty(s.service)
  }

  /** A plan that was queued on an empty service is what the next lock section takes. */
  lemma {:induction false} PlanIsTaken(s: System, now: U64)
    requires s.flight.Idle? && Empty(s.service.(stopPlan := None, applyPlan := None))
    requires s.service.stopPlan.Some? || s.service.applyPlan.Some?
    ensures MS.Next(s, Cycle(true, now, now)) ==
              if s.service.stopPlan.Some? then System(s.service.(stopPlan := None), Executing(s.service.stopPlan.value))
              else System(s.service.(applyPlan := None), Executing(s.service.applyPlan.value))
  {
    hide MA.Submit, MA.Tick;
  }

  lemma {:induction false} ArmingSteps(config: Config)
    requires MA.ConfigValid(config)
    ensures Waiting(After(config, OPENING[..4])) && After(config, OPENING[..4]).service.model.config == config
  {
    hide After, MA.ConfigValid, MA.Submit, MA.Tick, CycleSection;
    FirstArm(config);
    assert After(config, []) == MS.Initial(config) by { FirstState(config); }
    OneMoreStep(config, [], OPENING[0]);
    assert [] + [OPENING[0]] == OPENING[..1];
    PlanIsTaken(After(config, OPENING[..1]), 1);
    Opening(config, 1);
    Opening(config, 2);
    Opening(config, 3);
  }

  lemma {:induction false} FirstState(config: Config)
    ensures After(config, []) == MS.Initial(config)
  {
  }

  lemma {:induction false} Opening(config: Config, n: nat)
    requires n < |OPENING|
    ensures After(config, OPENING[..n + 1]) == MS.Next(After(config, OPENING[..n]), OPENING[n])
  {
    OneMoreStep(config, OPENING[..n], OPENING[n]);
    assert OPENING[..n] + [OPENING[n]] == OPENING[..n + 1];
    hide *;
  }

  lemma {:induction false} ApplyIsFlying(config: Config)
    requires MA.ConfigValid(config)
    ensures Flying(After(config, OPENING))
  {
    hide After, MA.ConfigValid, MA.Submit, MA.Tick, CycleSection, Ready;
    ArmingSteps(config);
    FirstCommand(After(config, OPENING[..4]).service.model);
    Opening(config, 4);
    PlanIsTaken(After(config, OPENING[..5]), 2);
    Opening(config, 5);
    assert OPENING[..6] == OPENING;
  }

  // ---------------------------------------------------------------------------- the two states

  /** With every valid configuration a run leaves ACTIVE behind without a stream: a STOP is accepted
      while the APPLY is being executed, and then its success is recorded. */
  lemma {:induction false} OrphanIsReached(config: Config) returns (states: seq<System>, steps: seq<Step>)
    requires MA.ConfigValid(config)
    ensures MSR.IsRun(config, states, steps) && MSR.Orphan(states[|steps|].service.model)
  {
    hide After, MA.ConfigValid, MSR.IsRun;
    ApplyIsFlying(config);
    steps := OPENING + [Execute(true)] + [SubmitNow(STOP, true, 2)] + [RecordResult];
    OneMoreStep(config, OPENING, Execute(true));
    OneMoreStep(config, OPENING + [Execute(true)], SubmitNow(STOP, true, 2));
    OneMoreStep(config, OPENING + [Execute(true)] + [SubmitNow(STOP, true, 2)], RecordResult);
    states := StatesOf(config, steps);
    StatesAreRun(config, steps);
    LastState(config, steps);
  }

  lemma {:induction false} LastState(config: Config, steps: seq<Step>)
    ensures StatesOf(config, steps)[|steps|] == After(config, steps)
  {
  }

  /** And a run ends with a live stream locked in FAULT: the same APPLY fails. */
  lemma {:induction false} LatchIsReached(config: Config) returns (states: seq<System>, steps: seq<Step>)
    requires MA.ConfigValid(config)
    ensures MSR.IsRun(config, states, steps)
    ensures states[|steps|].service.model.state == Fault && states[|steps|].service.model.activeStream != 0
  {
    hide After, MA.ConfigValid, MSR.IsRun, MA.Submit;
    ApplyIsFlying(config);
    steps := OPENING + [Execute(false)] + [RecordResult];
    OneMoreStep(config, OPENING, Execute(false));
    OneMoreStep(config, OPENING + [Execute(false)], RecordResult);
    states := StatesOf(config, steps);
    StatesAreRun(config, steps);
    LastState(config, steps);
  }
}
