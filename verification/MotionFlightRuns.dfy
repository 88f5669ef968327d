/** What becomes of the plans that the task of the motion service sends, over every interleaving. */
module MotionFlightRuns {
  import opened MachineIntegers
  import opened Prelude
  import CA = CommandAuthority
  import RK = RobotKinematics
  import opened MA = MotionApplication
  import MAR = MotionApplicationRuns
  import opened MS = MotionService
  import opened MSR = MotionServiceRuns

  /** The task records this result of this plan at this step. */
  predicate Records(s: System, step: MS.Step, plan: Plan, success: bool) {
    step.RecordResult? && s.flight == Executed(plan, success)
  }

  /** The task stays at work from step low on up to step high: no lock section is entered. */
  predicate Busy(states: seq<System>, low: nat, high: nat)
    requires high < |states|
  {
    forall i | low < i <= high :: !states[i].flight.Idle?
  }

  /** The result of the plan sent at x has been recorded before n. */
  ghost predicate RecordedBy(states: seq<System>, steps: seq<MS.Step>, x: nat, n: nat)
    requires |states| == |steps| + 1 && n <= |steps|
    requires x < |steps| && steps[x].Execute? && states[x].flight.Executing?
  {
    exists y: nat :: x < y < n && Records(states[y], steps[y], states[x].flight.plan, steps[x].success)
                     && Busy(states, x, y)
  }

  lemma {:induction false} ResultWaits(config: Config, states: seq<System>, steps: seq<MS.Step>, x: nat, n: nat)
    requires IsRun(config, states, steps) && x < n < |states| && steps[x].Execute? && states[x].flight.Executing?
    ensures || (states[n].flight == Executed(states[x].flight.plan, steps[x].success) && Busy(states, x, n))
            || RecordedBy(states, steps, x, n)
    decreases n
  {
    hide MA.Submit, MA.Tick, CycleSection, Submitted;
    if n > x + 1 {
      ResultWaits(config, states, steps, x, n - 1);
      if RecordedBy(states, steps, x, n - 1) {
        var y: nat :| x < y < n - 1 && Records(states[y], steps[y], states[x].flight.plan, steps[x].success)
                      && Busy(states, x, y);
      } else if steps[n - 1].RecordResult? {
        assert Records(states[n - 1], steps[n - 1], states[x].flight.plan, steps[x].success);
      }
    }
  }

  /** The result of every plan that is sent is recorded before the task enters its next lock section. */
  lemma {:induction false} EveryResultIsRecorded(
    config: Config, states: seq<System>, steps: seq<MS.Step>, x: nat, t: nat) returns (y: nat)
    requires IsRun(config, states, steps) && x < t < |steps| && EntersCycle(states[t], steps[t])
    requires steps[x].Execute? && states[x].flight.Executing?
    ensures x < y < t && Records(states[y], steps[y], states[x].flight.plan, steps[x].success) && Busy(states, x, y)
  {
    hide MS.Next, Records, Busy;
    ResultWaits(config, states, steps, x, t);
    y :| x < y < t && Records(states[y], steps[y], states[x].flight.plan, steps[x].success) && Busy(states, x, y);
  }

  /** The STOP that follows a failed APPLY is under way, or has been sent. */
  ghost predicate StopUnderWay(states: seq<System>, steps: seq<MS.Step>, y: nat, n: nat)
    requires |states| == |steps| + 1 && n <= |steps|
  {
    || (states[n].flight == Executing(STOP_PLAN) && Busy(states, y, n))
    || exists x: nat :: y < x < n && Sends(states[x], steps[x], PlanStop) && Busy(states, y, x)
                        && states[x].flight.plan == STOP_PLAN
  }

  lemma {:induction false} FailureSendsStop(
    config: Config, states: seq<System>, steps: seq<MS.Step>, y: nat, n: nat, plan: Plan)
    requires IsRun(config, states, steps) && y < n < |states|
    requires Records(states[y], steps[y], plan, false) && plan.action == PlanApply
    ensures StopUnderWay(states, steps, y, n)
    decreases n
  {
    hide MA.Submit, MA.Tick, CycleSection, Submitted;
    if n > y + 1 {
      FailureSendsStop(config, states, steps, y, n - 1, plan);
      if states[n - 1].flight == Executing(STOP_PLAN) && Busy(states, y, n - 1) && steps[n - 1].Execute? {
        assert Sends(states[n - 1], steps[n - 1], PlanStop);
      }
    }
  }

  /** When the task sends an APPLY that fails, it records the failure, sends a STOP and records the result
      of that STOP, all before it enters its next lock section. */
  lemma {:induction false} FailedApplyIsStopped(
    config: Config, states: seq<System>, steps: seq<MS.Step>, j: nat, t: nat) returns (y: nat, x: nat, z: nat)
    requires IsRun(config, states, steps) && j < t < |steps| && EntersCycle(states[t], steps[t])
    requires Sends(states[j], steps[j], PlanApply) && steps[j] == Execute(false)
    ensures j < y < x < z < t && Busy(states, j, z)
    ensures Records(states[y], steps[y], states[j].flight.plan, false)
    ensures Sends(states[x], steps[x], PlanStop)
    ensures Records(states[z], steps[z], states[x].flight.plan, steps[x].success)
  {
    hide MS.Next, Records, EntersCycle;
    y := EveryResultIsRecorded(config, states, steps, j, t);
    FailureSendsStop(config, states, steps, y, t, states[j].flight.plan);
    assert states[t].flight.Idle? by { CycleIsIdle(states[t], steps[t]); }
    x :| y < x < t && Sends(states[x], steps[x], PlanStop) && Busy(states, y, x);
    z := EveryResultIsRecorded(config, states, steps, x, t);
  }

  lemma {:induction false} CycleIsIdle(s: System, step: MS.Step)
    requires EntersCycle(s, step)
    ensures s.flight.Idle?
  {
  }

  /** Behind a recorded result the task is idle, but for the STOP behind a failed APPLY. */
  lemma {:induction false} RecordedFlight(s: System, step: MS.Step, plan: Plan, success: bool)
    requires Records(s, step, plan, success)
    ensures MS.Next(s, step).flight ==
              if plan.action == PlanApply && !success then Executing(STOP_PLAN) else Idle
  {
    hide MA.Record;
  }

  /** The task works on this plan from step t on, and has done nothing else with it before n. */
  predicate InHand(states: seq<System>, t: nat, n: nat)
    requires n < |states|
  {
    forall i | t < i <= n :: states[i].flight == states[n].flight
  }

  /** No STOP is sent without a reason: it was taken from a lock section, or an APPLY has just failed. */
  lemma {:induction false} StopOrigin(config: Config, states: seq<System>, steps: seq<MS.Step>, n: nat) returns (t: nat)
    requires IsRun(config, states, steps) && n < |states|
    requires states[n].flight.Executing? && states[n].flight.plan.action == PlanStop
    ensures t < n && InHand(states, t, n)
    ensures || Takes(states[t], steps[t], PlanStop)
            || (steps[t].RecordResult? && states[t].flight.Executed? && !states[t].flight.success
                && states[t].flight.plan.action == PlanApply)
  {
    hide MA.Submit, MA.Tick, MA.Record, CycleSection, Submitted, MA.ConfigValid;
    if states[n - 1].flight == states[n].flight {
      t := StopOrigin(config, states, steps, n - 1);
    } else {
      t := n - 1;
    }
  }

  // -------------------------------------------------------------------------- what is remembered

  /** The plan of the last success recorded before n. */
  ghost function LastDone(states: seq<System>, steps: seq<MS.Step>, n: nat): Option<Plan>
    requires |states| == |steps| + 1 && n <= |steps|
  {
    if n == 0 then None
    else if steps[n - 1].RecordResult? && states[n - 1].flight.Executed? && states[n - 1].flight.success then
      Some(states[n - 1].flight.plan)
    else LastDone(states, steps, n - 1)
  }

  /** The speed of motor i after such a plan. */
  function SpeedAfter(done: Option<Plan>, i: nat): int {
    if done.Some? && done.value.action == PlanApply && i < |done.value.targets| then done.value.targets[i].rpm else 0
  }

  /** The targets are those of a plan for these motors. */
  predicate Addressed(motors: seq<RK.Motor>, targets: seq<Target>) {
    |targets| == |motors| && forall i | 0 <= i < |motors| :: targets[i].endpointId == motors[i].id
  }

  lemma {:induction false} TargetsAreAddressed(config: Config, velocity: CA.Velocity)
    requires Plannable(config, velocity)
    ensures Addressed(config.motors, TargetsFor(config, velocity))
  {
  }

  ghost predicate PlansFit(s: System) {
    var motors := s.service.model.config.motors;
    && Addressed(motors, s.service.model.targets)
    && (s.service.applyPlan.Some? ==> Addressed(motors, s.service.applyPlan.value.targets))
    && (!s.flight.Idle? && s.flight.plan.action == PlanApply ==> Addressed(motors, s.flight.plan.targets))
  }

  lemma {:induction false} SubmitFits(m: Model, event: Event, gate: bool, now: U64)
    requires MAR.Invariant(m)
    ensures var (after, plan, result) := MA.Submit(m, event, gate, now);
            && after.targets == m.targets && after.config == m.config
            && (plan.action == PlanApply ==> Addressed(m.config.motors, plan.targets))
  {
    hide CA.Arbitrate, CA.PublishModel, CA.PublishCheck, Plannable, TargetsFor, Addressed, MAR.Invariant;
    if MA.Submit(m, event, gate, now).1.action == PlanApply {
      MAR.ApplyIsItsCommand(m, event, gate, now);
      TargetsAreAddressed(m.config, event.body);
    }
  }

  lemma {:induction false} TickKeepsTargets(m: Model, gate: bool, now: U64)
    ensures MA.Tick(m, gate, now).0.targets == m.targets && MA.Tick(m, gate, now).0.config == m.config
  {
    hide CA.Arbitrate, Plannable, TargetsFor;
  }

  lemma {:induction false} SubmittedFits(s: Service, event: Event, gate: bool, now: U64)
    requires MAR.Invariant(s.model)
    ensures var after := Submitted(s, event, gate, now); var motors := s.model.config.motors;
            && after.model.targets == s.model.targets && after.model.config == s.model.config
            && (after.applyPlan.Some? ==>
                  after.applyPlan == s.applyPlan || Addressed(motors, after.applyPlan.value.targets))
  {
    hide MA.Submit, MAR.Invariant, Addressed;
    SubmitFits(s.model, event, gate, now);
  }

  lemma {:induction false} StepFits(s: System, step: MS.Step)
    requires Invariant(s) && PlansFit(s)
    ensures PlansFit(MS.Next(s, step))
    ensures !step.RecordResult? ==> MS.Next(s, step).service.model.targets == s.service.model.targets
    ensures MS.Next(s, step).service.model.config == s.service.model.config
  {
    hide MA.Submit, MA.Tick, MA.Record, MAR.Invariant, Submitted, Addressed;
    if step.SubmitNow? {
      SubmittedFits(s.service, step.event, step.gate, step.now);
    } else if EntersCycle(s, step) {
      var (rest, event) := TakeEvent(s.service);
      if event.Some? {
        SubmittedFits(rest, event.value, step.gate, step.now);
      }
      var handled := EventHandled(s.service, step.gate, step.now);
      TickKeepsTargets(handled.model, step.gate, step.later);
      HandledStep(s, step);
      MAR.TickNeverApplies(handled.model, step.gate, step.later);
    } else if step.RecordResult? && s.flight.Executed? {
      RecordFits(s.service.model, s.flight.plan, s.flight.success);
    }
  }

  /** A recorded success leaves exactly the speeds of its plan behind. */
  lemma {:induction false} RecordFits(m: Model, plan: Plan, success: bool)
    requires Addressed(m.config.motors, m.targets) && plan.action != PlanNone
    requires plan.action == PlanApply ==> Addressed(m.config.motors, plan.targets)
    ensures var after := MA.Record(m, plan, success);
            && Addressed(m.config.motors, after.targets) && after.config == m.config
            && (if success then
                  forall i | 0 <= i < |m.config.motors| :: after.targets[i].rpm == SpeedAfter(Some(plan), i)
                else after.targets == m.targets)
  {
  }

  /** The remembered speeds are, for every motor, those of the last plan that was recorded as done: zero
      after a STOP and before any plan. */
  lemma {:induction false} SpeedsAreTheLastDone(config: Config, states: seq<System>, steps: seq<MS.Step>, n: nat)
    requires IsRun(config, states, steps) && n < |states|
    ensures PlansFit(states[n]) && states[n].service.model.config == config
    ensures forall i | 0 <= i < |config.motors| ::
              states[n].service.model.targets[i].rpm == SpeedAfter(LastDone(states, steps, n), i)
  {
    hide MS.Next, MAR.Invariant, SpeedAfter, MA.ConfigValid;
    if n == 0 {
      NothingDone(config);
    } else {
      SpeedsAreTheLastDone(config, states, steps, n - 1);
      RunKeepsInvariant(config, states, steps, n - 1);
      var s, step := states[n - 1], steps[n - 1];
      StepFits(s, step);
      if step.RecordResult? {
        RecordedNext(s, step);
        if s.flight.Executed? {
          RecordFits(s.service.model, s.flight.plan, s.flight.success);
        }
      }
    }
  }

  lemma {:induction false} NothingDone(config: Config)
    requires MA.ConfigValid(config)
    ensures PlansFit(MS.Initial(config))
    ensures forall i | 0 <= i < |config.motors| :: MA.Initial(config).targets[i].rpm == SpeedAfter(None, i)
  {
  }

  lemma {:induction false} RecordedNext(s: System, step: MS.Step)
    requires step.RecordResult?
    ensures MS.Next(s, step).service.model ==
              if s.flight.Executed? then MA.Record(s.service.model, s.flight.plan, s.flight.success)
              else s.service.model
  {
  }

  /** A recorded failure locks the model in FAULT, and the success of a STOP leaves the state alone. */
  lemma {:induction false} RecordedState(s: System, step: MS.Step, plan: Plan, success: bool)
    requires Invariant(s) && Records(s, step, plan, success)
    ensures var m, after := s.service.model, MS.Next(s, step).service.model;
            && after == m.(targets := after.targets, state := after.state)
            && (!success ==> after.state == Fault)
            && (success && plan.action == PlanApply ==> after.state == Active)
            && (success && plan.action == PlanStop ==> after.state == m.state)
  {
    hide MAR.Invariant, Stilled, Overlaid;
  }
}
