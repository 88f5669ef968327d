/** Safety of the motion service under every interleaving of its steps. */
module MotionServiceRuns {
  import opened MachineIntegers
  import opened Prelude
  import CA = CommandAuthority
  import CAR = CommandAuthorityRuns
  import opened MA = MotionApplication
  import MAR = MotionApplicationRuns
  import opened MS = MotionService

  ghost predicate IsRun(config: Config, states: seq<System>, steps: seq<Step>) {
    && MA.ConfigValid(config)
    && |states| == |steps| + 1
    && states[0] == MS.Initial(config)
    && forall i | 0 <= i < |steps| :: states[i + 1] == MS.Next(states[i], steps[i])
  }

  // ------------------------------------------------------------------- what happens at a step

  /** The event that a step hands to the model, and the gate and clock it sees. */
  function Handed(s: System, step: Step): Option<Event> {
    match step
    case SubmitNow(event, _, _) => Some(event)
    case Cycle(_, _, _) => if s.flight.Idle? then TakeEvent(s.service).1 else None
    case _ => None
  }

  function GateOf(step: Step): bool {
    (step.SubmitNow? || step.Cycle?) && step.gate
  }

  function NowOf(step: Step): U64 {
    if step.SubmitNow? || step.Cycle? then step.now else 0
  }

  predicate IsStop(event: Event) {
    event.action == StopAll || event.action == Disarm
  }

  ghost predicate AcceptedAt(s: System, step: Step, action: Action) {
    && Handed(s, step).Some? && Handed(s, step).value.action == action
    && MA.Submit(s.service.model, Handed(s, step).value, GateOf(step), NowOf(step)).2 == Ok
  }

  ghost predicate ArmsAt(s: System, step: Step) {
    AcceptedAt(s, step, Arm)
  }

  ghost predicate StopsAt(s: System, step: Step) {
    AcceptedAt(s, step, StopAll) || AcceptedAt(s, step, Disarm)
  }

  /** The task sends a plan of this kind to the motors at this step. */
  predicate Sends(s: System, step: Step, action: PlanAction) {
    step.Execute? && s.flight.Executing? && s.flight.plan.action == action
  }

  /** The task leaves the lock section of this step with a plan of this kind. */
  ghost predicate Takes(s: System, step: Step, action: PlanAction) {
    && step.Cycle? && s.flight.Idle?
    && MS.Next(s, step).flight.Executing? && MS.Next(s, step).flight.plan.action == action
  }

  /** The model makes this APPLY plan at this step out of the COMMAND it is handed. */
  ghost predicate Makes(s: System, step: Step, plan: Plan) {
    && Handed(s, step).Some? && Handed(s, step).value.action == Command && GateOf(step)
    && MA.Submit(s.service.model, Handed(s, step).value, GateOf(step), NowOf(step)).1 == plan
    && plan.action == PlanApply
  }

  // --------------------------------------------------------------------- the state invariant

  ghost predicate Invariant(s: System) {
    && MAR.Invariant(s.service.model)
    && (s.service.stopPlan.Some? ==> s.service.stopPlan.value.action == PlanStop)
    && (s.service.applyPlan.Some? ==>
          s.service.applyPlan.value.action == PlanApply && s.service.model.activeStream != 0)
    && (s.service.stopEvent.Some? ==> IsStop(s.service.stopEvent.value))
    && (s.service.armEvent.Some? ==> s.service.armEvent.value.action == Arm)
    && (s.service.commandEvent.Some? ==> s.service.commandEvent.value.action == Command)
    && (!s.flight.Idle? ==> s.flight.plan.action != PlanNone)
  }

  /** How handing an event to the model moves the queues. */
  lemma {:induction false} SubmittedStep(s: Service, event: Event, gate: bool, now: U64)
    requires MAR.Invariant(s.model)
    ensures var after := Submitted(s, event, gate, now);
            var (model, plan, result) := MA.Submit(s.model, event, gate, now);
            && MAR.Invariant(after.model) && after.model.config == s.model.config
            && after == Queued(s.(model := model), plan)
            && (event.action == Arm && result == Ok ==>
                  && s.model.activeStream == 0 && after.model.activeStream == event.streamId != 0
                  && after.model.authority.barrierTime == now && plan == STOP_PLAN)
            && (!(event.action == Arm && result == Ok) && after.model.activeStream != 0 ==>
                  && after.model.activeStream == s.model.activeStream
                  && after.model.authority.barrierTime >= s.model.authority.barrierTime)
            && (s.model.activeStream != 0 && after.model.activeStream == 0 ==> plan.action == PlanStop)
            && (plan.action == PlanApply ==>
                  && event.action == Command && gate
                  && event.streamId == s.model.activeStream == after.model.activeStream != 0
                  && event.receivedAt > s.model.authority.barrierTime)
            && (IsStop(event) && result == Ok ==> after.model.activeStream == 0 && plan.action == PlanStop)
  {
    hide MA.Arming, MA.Commanding;
    MAR.SubmitKeepsInvariant(s.model, event, gate, now);
    MAR.SubmitChangesStream(s.model, event, gate, now);
    SubmitEndsWithStop(s.model, event, gate, now);
    if MA.Submit(s.model, event, gate, now).1.action == PlanApply {
      MAR.ApplyIsItsCommand(s.model, event, gate, now);
    }
  }

  /** Whenever a submission ends the stream, its plan is a STOP. */
  lemma {:induction false} SubmitEndsWithStop(m: Model, event: Event, gate: bool, now: U64)
    requires MAR.Invariant(m)
    ensures m.activeStream != 0 && MA.Submit(m, event, gate, now).0.activeStream == 0 ==>
              MA.Submit(m, event, gate, now).1.action == PlanStop
  {
    hide CA.Arbitrate, CA.PublishModel, CA.PublishCheck, Plannable, TargetsFor;
  }

  // ------------------------------------------------------------- what one step of the system does

  ghost predicate StreamStep(s: System, step: Step) {
    var after := MS.Next(s, step); var m, m' := s.service.model, after.service.model;
    && m'.config == m.config
    && (ArmsAt(s, step) ==>
          && m.activeStream == 0 && m'.activeStream == Handed(s, step).value.streamId != 0
          && m'.authority.barrierTime == NowOf(step)
          && (after.service.stopPlan.Some? || Takes(s, step, PlanStop)))
    && (!ArmsAt(s, step) && m'.activeStream != 0 ==>
          && m'.activeStream == m.activeStream
          && m'.authority.barrierTime >= m.authority.barrierTime
          && (s.service.stopPlan.Some? ==> after.service.stopPlan.Some? || Takes(s, step, PlanStop)))
    && (StopsAt(s, step) ==> m'.activeStream == 0)
  }

  ghost predicate PlanStep(s: System, step: Step) {
    var after := MS.Next(s, step); var m, m' := s.service.model, after.service.model;
    && (after.service.applyPlan.Some? ==>
          && !ArmsAt(s, step)
          && (after.service.applyPlan == s.service.applyPlan || Makes(s, step, after.service.applyPlan.value)))
    && (Takes(s, step, PlanApply) ==>
          && !ArmsAt(s, step) && s.service.stopPlan.None? && m'.activeStream != 0
          && (s.service.applyPlan == Some(after.flight.plan) || Makes(s, step, after.flight.plan)))
    && (after.flight.Executing? && after.flight.plan.action == PlanApply ==>
          after.flight == s.flight || Takes(s, step, PlanApply))
    && (forall p: Plan :: Makes(s, step, p) ==>
          && Handed(s, step).value.streamId == m.activeStream == m'.activeStream != 0
          && Handed(s, step).value.receivedAt > m.authority.barrierTime)
  }

  lemma {:induction false} SubmitNowStep(s: System, step: Step)
    requires Invariant(s) && step.SubmitNow?
    ensures Invariant(MS.Next(s, step)) && StreamStep(s, step) && PlanStep(s, step)
  {
    hide MA.Submit, MAR.Invariant;
    SubmittedStep(s.service, step.event, step.gate, step.now);
  }

  /** The first half of a cycle: the event. */
  lemma {:induction false} HandledStep(s: System, step: Step)
    requires Invariant(s) && step.Cycle? && s.flight.Idle?
    ensures var m := s.service.model; var handled := EventHandled(s.service, step.gate, step.now);
            && Invariant(System(handled, Idle)) && handled.model.config == m.config
            && (ArmsAt(s, step) ==>
                  && m.activeStream == 0 && handled.model.activeStream == Handed(s, step).value.streamId != 0
                  && handled.model.authority.barrierTime == step.now && handled.stopPlan.Some?)
            && (!ArmsAt(s, step) && handled.model.activeStream != 0 ==>
                  && handled.model.activeStream == m.activeStream
                  && handled.model.authority.barrierTime >= m.authority.barrierTime)
            && (s.service.stopPlan.Some? ==> handled.stopPlan.Some?)
            && (StopsAt(s, step) ==> handled.model.activeStream == 0 && handled.stopPlan.Some?)
            && (handled.applyPlan.Some? ==>
                  handled.applyPlan == s.service.applyPlan || Makes(s, step, handled.applyPlan.value))
            && (forall p: Plan :: Makes(s, step, p) ==>
                  && handled.applyPlan == Some(p)
                  && Handed(s, step).value.streamId == m.activeStream == handled.model.activeStream != 0
                  && Handed(s, step).value.receivedAt > m.authority.barrierTime)
  {
    hide MA.Submit, Submitted, MAR.Invariant, TakePlan;
    var (rest, event) := TakeEvent(s.service);
    if event.Some? {
      SubmittedStep(rest, event.value, step.gate, step.now);
    }
  }

  lemma {:induction false} CycleStep(s: System, step: Step)
    requires Invariant(s) && step.Cycle? && s.flight.Idle?
    ensures Invariant(MS.Next(s, step)) && StreamStep(s, step) && PlanStep(s, step)
  {
    hide MA.Submit, MA.Tick, EventHandled, MAR.Invariant, ArmsAt, StopsAt, Makes;
    HandledStep(s, step);
    var handled := EventHandled(s.service, step.gate, step.now);
    MAR.TickKeepsInvariant(handled.model, step.gate, step.later);
    MAR.TickChangesStream(handled.model, step.gate, step.later);
    MAR.TickNeverApplies(handled.model, step.gate, step.later);
  }

  /** The steps that hand no event to the model. */
  lemma {:induction false} QuietStep(s: System, step: Step)
    requires Invariant(s) && !step.SubmitNow? && !(step.Cycle? && s.flight.Idle?)
    ensures var after := MS.Next(s, step); var m, m' := s.service.model, after.service.model;
            && Handed(s, step) == None && !Takes(s, step, PlanApply) && MAR.Invariant(m') && m'.config == m.config
            && m'.activeStream == m.activeStream && m'.authority == m.authority
            && after.service.stopPlan == s.service.stopPlan
            && (after.service.applyPlan == s.service.applyPlan || after.service.applyPlan == None)
            && (after.flight.Executing? ==> after.flight.plan == STOP_PLAN || after.flight == s.flight)
            && (!after.flight.Idle? ==> after.flight.plan.action != PlanNone)
  {
    hide MAR.Invariant, CycleSection, TakeEvent;
    if s.flight.Executed? {
      MAR.RecordKeepsInvariant(s.service.model, s.flight.plan, s.flight.success);
    }
  }

  lemma {:induction false} RecordStep(s: System, step: Step)
    requires Invariant(s) && !step.SubmitNow? && !(step.Cycle? && s.flight.Idle?)
    ensures Invariant(MS.Next(s, step)) && StreamStep(s, step) && PlanStep(s, step)
  {
    hide MA.Submit, MAR.Invariant, Handed, Takes, MS.Next;
    QuietStep(s, step);
    QueuesStayTyped(s, step);
  }

  lemma {:induction false} QueuesStayTyped(s: System, step: Step)
    requires Invariant(s) && !step.SubmitNow? && !(step.Cycle? && s.flight.Idle?)
    ensures var service := MS.Next(s, step).service;
            && (service.stopEvent.Some? ==> IsStop(service.stopEvent.value))
            && (service.armEvent.Some? ==> service.armEvent.value.action == Arm)
            && (service.commandEvent.Some? ==> service.commandEvent.value.action == Command)
  {
    hide MAR.Invariant, CycleSection, MA.Record;
  }

  lemma {:induction false} SystemStep(s: System, step: Step)
    requires Invariant(s)
    ensures Invariant(MS.Next(s, step)) && StreamStep(s, step) && PlanStep(s, step)
  {
    hide *;
    if step.SubmitNow? {
      SubmitNowStep(s, step);
    } else if step.Cycle? && s.flight.Idle? {
      CycleStep(s, step);
    } else {
      RecordStep(s, step);
    }
  }

  lemma {:induction false} RunKeepsInvariant(config: Config, states: seq<System>, steps: seq<Step>, n: nat)
    requires IsRun(config, states, steps) && n < |states|
    ensures Invariant(states[n]) && states[n].service.model.config == config
  {
    hide MAR.Invariant, MS.Next, PlanStep;
    if n == 0 {
      MAR.InitialInvariant(config);
    } else {
      RunKeepsInvariant(config, states, steps, n - 1);
      SystemStep(states[n - 1], steps[n - 1]);
    }
  }

  // ------------------------------------------------------------------- where an APPLY comes from

  function StreamAt(s: System): U64 {
    s.service.model.activeStream
  }

  /** The ARM accepted at step a started the stream that is still active at step n. */
  ghost predicate ArmedSince(states: seq<System>, steps: seq<Step>, a: nat, n: nat)
    requires |states| == |steps| + 1 && a < n < |states|
  {
    && ArmsAt(states[a], steps[a])
    && Handed(states[a], steps[a]).value.streamId != 0
    && (forall k | a < k <= n :: StreamAt(states[k]) == Handed(states[a], steps[a]).value.streamId)
    && states[n].service.model.authority.barrierTime >= NowOf(steps[a])
  }

  /** The STOP that every ARM queues is still waiting, or has been taken since. */
  ghost predicate BarrierStop(states: seq<System>, steps: seq<Step>, a: nat, n: nat)
    requires |states| == |steps| + 1 && a < n < |states|
  {
    states[n].service.stopPlan.Some? || exists e: nat | a <= e < n :: Takes(states[e], steps[e], PlanStop)
  }

  lemma {:induction false} LiveStreamWasArmed(config: Config, states: seq<System>, steps: seq<Step>, n: nat)
    returns (a: nat)
    requires IsRun(config, states, steps) && n < |states| && StreamAt(states[n]) != 0
    ensures a < n && ArmedSince(states, steps, a, n) && BarrierStop(states, steps, a, n)
  {
    hide MS.Next, MAR.Invariant, PlanStep, ArmsAt, StopsAt, Takes;
    assert n > 0;
    RunKeepsInvariant(config, states, steps, n - 1);
    SystemStep(states[n - 1], steps[n - 1]);
    if ArmsAt(states[n - 1], steps[n - 1]) {
      a := n - 1;
    } else {
      a := LiveStreamWasArmed(config, states, steps, n - 1);
    }
  }

  /** An armed stream is unique: two ARM steps of the stream live at n are the same step. */
  lemma {:induction false} ArmIsUnique(
    config: Config, states: seq<System>, steps: seq<Step>, a: nat, b: nat, n: nat)
    requires IsRun(config, states, steps) && a < n < |states| && b < n
    requires ArmedSince(states, steps, a, n) && ArmedSince(states, steps, b, n)
    ensures a == b
  {
    hide MS.Next, MAR.Invariant, PlanStep, ArmsAt, StopsAt, Takes;
    RunKeepsInvariant(config, states, steps, a);
    SystemStep(states[a], steps[a]);
    RunKeepsInvariant(config, states, steps, b);
    SystemStep(states[b], steps[b]);
  }

  /** The whole origin of an APPLY plan: the ARM at a, the COMMAND at c that made it. */
  ghost predicate Origin(states: seq<System>, steps: seq<Step>, a: nat, c: nat, n: nat, plan: Plan)
    requires |states| == |steps| + 1 && a < n < |states|
  {
    && a < c < |steps| && ArmedSince(states, steps, a, n)
    && Makes(states[c], steps[c], plan)
    && Handed(states[c], steps[c]).value.streamId == Handed(states[a], steps[a]).value.streamId
    && Handed(states[c], steps[c]).value.receivedAt > NowOf(steps[a])
  }

  lemma {:induction false} MadeNow(config: Config, states: seq<System>, steps: seq<Step>, c: nat, plan: Plan)
    returns (a: nat)
    requires IsRun(config, states, steps) && c < |steps| && Makes(states[c], steps[c], plan)
    requires !ArmsAt(states[c], steps[c])
    ensures a < c && Origin(states, steps, a, c, c + 1, plan) && ArmedSince(states, steps, a, c)
  {
    hide MS.Next, MAR.Invariant, ArmsAt, StopsAt, Takes, Makes;
    RunKeepsInvariant(config, states, steps, c);
    SystemStep(states[c], steps[c]);
    a := LiveStreamWasArmed(config, states, steps, c);
  }

  lemma {:induction false} WaitingPlanOrigin(config: Config, states: seq<System>, steps: seq<Step>, n: nat)
    returns (a: nat, c: nat)
    requires IsRun(config, states, steps) && n < |states| && states[n].service.applyPlan.Some?
    ensures a < c < n && Origin(states, steps, a, c, n, states[n].service.applyPlan.value)
  {
    hide MS.Next, MAR.Invariant, ArmsAt, StopsAt, Takes, Makes;
    assert n > 0;
    RunKeepsInvariant(config, states, steps, n);
    RunKeepsInvariant(config, states, steps, n - 1);
    SystemStep(states[n - 1], steps[n - 1]);
    var plan := states[n].service.applyPlan.value;
    if states[n].service.applyPlan == states[n - 1].service.applyPlan {
      a, c := WaitingPlanOrigin(config, states, steps, n - 1);
    } else {
      c := n - 1;
      a := MadeNow(config, states, steps, c, plan);
    }
  }

  lemma {:induction false} OriginExtends(
    states: seq<System>, steps: seq<Step>, a: nat, c: nat, n: nat, plan: Plan)
    requires |states| == |steps| + 1 && a < n < |steps| && Origin(states, steps, a, c, n, plan)
    requires !ArmsAt(states[n], steps[n]) && StreamStep(states[n], steps[n])
    requires states[n + 1] == MS.Next(states[n], steps[n]) && StreamAt(states[n + 1]) != 0
    ensures Origin(states, steps, a, c, n + 1, plan)
  {
    hide MS.Next, ArmsAt, StopsAt, Takes, Makes, Handed;
  }

  lemma {:induction false} TakenApply(s: System, step: Step)
    requires Invariant(s) && Takes(s, step, PlanApply)
    ensures var after := MS.Next(s, step);
            && !ArmsAt(s, step) && StreamStep(s, step) && s.service.stopPlan.None?
            && StreamAt(s) != 0 && StreamAt(after) != 0 && after.flight.Executing?
            && (s.service.applyPlan == Some(after.flight.plan) || Makes(s, step, after.flight.plan))
  {
    hide MAR.Invariant, ArmsAt, StopsAt, Makes, CycleSection;
    SystemStep(s, step);
  }

  lemma {:induction false} TakenCommandOrigin(config: Config, states: seq<System>, steps: seq<Step>, t: nat)
    returns (a: nat, c: nat)
    requires IsRun(config, states, steps) && t < |steps| && Takes(states[t], steps[t], PlanApply)
    ensures a < c <= t && Origin(states, steps, a, c, t + 1, states[t + 1].flight.plan)
    ensures states[t].service.stopPlan.None? && StreamAt(states[t]) != 0 && ArmedSince(states, steps, a, t)
  {
    hide MS.Next, MAR.Invariant, ArmsAt, StopsAt, Makes, Takes, Invariant, StreamStep;
    RunKeepsInvariant(config, states, steps, t);
    TakenApply(states[t], steps[t]);
    var plan := states[t + 1].flight.plan;
    if states[t].service.applyPlan == Some(plan) {
      a, c := WaitingPlanOrigin(config, states, steps, t);
      OriginExtends(states, steps, a, c, t, plan);
    } else {
      c := t;
      a := MadeNow(config, states, steps, t, plan);
    }
  }

  /** When an APPLY leaves the lock section: its COMMAND, the ARM of its stream, and a STOP that
      left the lock section since that ARM. */
  lemma {:induction false} TakenPlanOrigin(config: Config, states: seq<System>, steps: seq<Step>, t: nat)
    returns (a: nat, e: nat, c: nat)
    requires IsRun(config, states, steps) && t < |steps| && Takes(states[t], steps[t], PlanApply)
    ensures a <= e < t && a < c <= t
    ensures Takes(states[e], steps[e], PlanStop)
    ensures Origin(states, steps, a, c, t + 1, states[t + 1].flight.plan)
  {
    hide MS.Next, MA.ConfigValid, Takes, ArmedSince, Origin;
    a, c := TakenCommandOrigin(config, states, steps, t);
    var b := LiveStreamWasArmed(config, states, steps, t);
    ArmIsUnique(config, states, steps, a, b, t);
    e :| a <= e < t && Takes(states[e], steps[e], PlanStop);
  }

  // -------------------------------------------------------------------------- the task's flights

  /** A STOP that left the lock section has been sent before the task enters its next cycle. */
  lemma {:induction false} TakenStopIsSent(config: Config, states: seq<System>, steps: seq<Step>, e: nat, n: nat)
    requires IsRun(config, states, steps) && e < n < |states| && Takes(states[e], steps[e], PlanStop)
    ensures || (states[n].flight.Executing? && states[n].flight.plan.action == PlanStop)
            || exists x: nat | e < x < n :: Sends(states[x], steps[x], PlanStop)
    decreases n
  {
    hide MA.Submit, MA.Tick, CycleSection, Submitted;
    if n > e + 1 {
      TakenStopIsSent(config, states, steps, e, n - 1);
      if states[n - 1].flight.Executing? && states[n - 1].flight.plan.action == PlanStop {
        assert steps[n - 1].Execute? ==> Sends(states[n - 1], steps[n - 1], PlanStop);
      }
    }
  }

  /** The flight of an APPLY goes back to the one step that took it. */
  lemma {:induction false} FlightOrigin(config: Config, states: seq<System>, steps: seq<Step>, n: nat)
    returns (t: nat)
    requires IsRun(config, states, steps) && n < |states|
    requires states[n].flight.Executing? && states[n].flight.plan.action == PlanApply
    ensures t < n && Takes(states[t], steps[t], PlanApply)
    ensures forall i | t < i <= n :: states[i].flight == states[n].flight
  {
    hide MS.Next, MAR.Invariant, ArmsAt, StopsAt, Makes, Takes, StreamStep;
    assert n > 0;
    RunKeepsInvariant(config, states, steps, n - 1);
    SystemStep(states[n - 1], steps[n - 1]);
    if Takes(states[n - 1], steps[n - 1], PlanApply) {
      t := n - 1;
    } else {
      t := FlightOrigin(config, states, steps, n - 1);
    }
  }

  /** Every APPLY sent to the motors: an accepted ARM at a, a STOP sent at x after it, the COMMAND at
      c whose plan it is, on the stream that ARM started and received strictly after it, with no end
      of the stream up to the lock section at t in which the task took the plan. */
  lemma {:induction false} EveryApplyHasItsArm(config: Config, states: seq<System>, steps: seq<Step>, j: nat)
    returns (a: nat, x: nat, c: nat, t: nat)
    requires IsRun(config, states, steps) && j < |steps| && Sends(states[j], steps[j], PlanApply)
    ensures a < x < t < j && a < c <= t
    ensures Sends(states[x], steps[x], PlanStop)
    ensures Takes(states[t], steps[t], PlanApply)
    ensures forall i | t < i <= j :: states[i].flight == states[j].flight
    ensures Origin(states, steps, a, c, t + 1, states[j].flight.plan)
  {
    hide MS.Next, ArmsAt, Makes, MAR.Invariant;
    t := FlightOrigin(config, states, steps, j);
    var e;
    a, e, c := TakenPlanOrigin(config, states, steps, t);
    TakenStopIsSent(config, states, steps, e, t);
    x :| e < x < t && Sends(states[x], steps[x], PlanStop);
  }

  // ------------------------------------------------------------------------------ STOP dominates

  /** After the model has accepted a STOP or DISARM at step k, an APPLY is sent at j only if it had
      left the lock section before k, or if an ARM was accepted and a STOP was sent in between. */
  lemma {:induction false} StopDominates(config: Config, states: seq<System>, steps: seq<Step>, k: nat, j: nat)
    requires IsRun(config, states, steps) && k < j < |steps|
    requires StopsAt(states[k], steps[k]) && Sends(states[j], steps[j], PlanApply)
    ensures || (forall i | k <= i <= j :: states[i].flight == states[j].flight)
            || exists a: nat, x: nat | k < a < x < j ::
                 ArmsAt(states[a], steps[a]) && Sends(states[x], steps[x], PlanStop)
  {
    hide MS.Next, ArmsAt, StopsAt, Makes, MAR.Invariant, Takes;
    var a, x, c, t := EveryApplyHasItsArm(config, states, steps, j);
    RunKeepsInvariant(config, states, steps, k);
    SystemStep(states[k], steps[k]);
    assert StreamAt(states[k + 1]) == 0;
  }

  /** So at most the one APPLY that was already out of the lock section still runs: of two APPLY
      sent after the STOP, the second has an ARM and a sent STOP of its own after the STOP. */
  lemma {:induction false} AtMostOneStraggler(
    config: Config, states: seq<System>, steps: seq<Step>, k: nat, i: nat, j: nat)
    requires IsRun(config, states, steps) && k < i < j < |steps| && StopsAt(states[k], steps[k])
    requires Sends(states[i], steps[i], PlanApply) && Sends(states[j], steps[j], PlanApply)
    ensures exists a: nat, x: nat | k < a < x < j ::
              ArmsAt(states[a], steps[a]) && Sends(states[x], steps[x], PlanStop)
  {
    StopDominates(config, states, steps, k, j);
    assert states[i + 1].flight.Executed?;
    hide MS.Next, ArmsAt, StopsAt;
  }

  /** The task enters its lock section at this step. */
  predicate EntersCycle(s: System, step: Step) {
    step.Cycle? && s.flight.Idle?
  }

  /** Only a lock section of the task takes a waiting STOP plan. */
  lemma {:induction false} StopPlanStays(s: System, step: Step)
    requires Invariant(s) && !EntersCycle(s, step)
    ensures s.service.stopPlan.Some? ==> MS.Next(s, step).service.stopPlan.Some?
    ensures StopsAt(s, step) ==> MS.Next(s, step).service.stopPlan.Some?
  {
    hide MA.Submit, MAR.Invariant;
    if step.SubmitNow? {
      SubmittedStep(s.service, step.event, step.gate, step.now);
    }
  }

  /** And when it takes a plan while a STOP waits, or is accepted just then, it takes a STOP. */
  lemma {:induction false} WaitingStopIsTaken(s: System, step: Step)
    requires Invariant(s) && EntersCycle(s, step) && (s.service.stopPlan.Some? || StopsAt(s, step))
    ensures Takes(s, step, PlanStop)
  {
    hide MA.Submit, MA.Tick, EventHandled, MAR.Invariant, ArmsAt, StopsAt, Makes;
    HandledStep(s, step);
  }

  /** After the model has accepted a STOP or DISARM at step k, the very next lock section of the task,
      which may be step k itself, takes a STOP: no other plan leaves the queue before it. */
  lemma {:induction false} StopIsNext(config: Config, states: seq<System>, steps: seq<Step>, k: nat, t: nat)
    requires IsRun(config, states, steps) && k <= t < |steps| && StopsAt(states[k], steps[k])
    requires EntersCycle(states[t], steps[t]) && forall i | k <= i < t :: !EntersCycle(states[i], steps[i])
    ensures Takes(states[t], steps[t], PlanStop)
  {
    hide MS.Next, StopsAt, Takes, Invariant, EntersCycle;
    RunKeepsInvariant(config, states, steps, t);
    if k < t {
      StopPlanWaits(config, states, steps, k, t);
    }
    WaitingStopIsTaken(states[t], steps[t]);
  }

  lemma {:induction false} StopPlanWaits(config: Config, states: seq<System>, steps: seq<Step>, k: nat, n: nat)
    requires IsRun(config, states, steps) && k < n < |states| && StopsAt(states[k], steps[k])
    requires forall i | k <= i < n :: !EntersCycle(states[i], steps[i])
    ensures states[n].service.stopPlan.Some?
    decreases n
  {
    hide MS.Next, StopsAt, Invariant, EntersCycle;
    RunKeepsInvariant(config, states, steps, n - 1);
    if n > k + 1 {
      StopPlanWaits(config, states, steps, k, n - 1);
    }
    StopPlanStays(states[n - 1], steps[n - 1]);
  }

  // ------------------------------------------------------------------------- published stops

  /** A STOP or DISARM is accepted exactly when its reception time is not in the future; a
      future-dated one changes nothing. */
  lemma {:induction false} StopAcceptedIff(s: System, step: Step)
    requires Handed(s, step).Some? && IsStop(Handed(s, step).value)
    ensures StopsAt(s, step) <==> Handed(s, step).value.receivedAt <= NowOf(step)
    ensures !StopsAt(s, step) ==>
              Submitted(s.service, Handed(s, step).value, GateOf(step), NowOf(step)) == s.service
  {
  }

  predicate PublishesStop(step: Step) {
    step.Publish? && IsStop(step.event)
  }

  /** The task handed a STOP or DISARM to the model at step c. */
  predicate HandsStop(s: System, step: Step) {
    step.Cycle? && Handed(s, step).Some? && IsStop(Handed(s, step).value)
  }

  /** A published stop stays at the head of the queue until a cycle hands a stop to the model. */
  lemma {:induction false} PublishedStopWaits(config: Config, states: seq<System>, steps: seq<Step>, k: nat, n: nat)
    requires IsRun(config, states, steps) && k < n < |states| && PublishesStop(steps[k])
    ensures || states[n].service.stopEvent.Some?
            || exists c: nat | k < c < n :: HandsStop(states[c], steps[c])
    decreases n
  {
    hide MA.Submit, MA.Tick, MAR.Invariant;
    if n > k + 1 {
      PublishedStopWaits(config, states, steps, k, n - 1);
      RunKeepsInvariant(config, states, steps, n - 1);
      if states[n - 1].service.stopEvent.Some? && states[n].service.stopEvent.None? {
        assert HandsStop(states[n - 1], steps[n - 1]);
      }
    }
  }

  /** A published STOP or DISARM dominates like an accepted one, as long as the clock does not hand
      out reception times from the future. */
  lemma {:induction false} PublishedStopDominates(
    config: Config, states: seq<System>, steps: seq<Step>, k: nat, j: nat)
    requires IsRun(config, states, steps) && k < j < |steps|
    requires PublishesStop(steps[k]) && Sends(states[j], steps[j], PlanApply)
    requires forall c | k < c < j && HandsStop(states[c], steps[c]) ::
               Handed(states[c], steps[c]).value.receivedAt <= NowOf(steps[c])
    ensures || (forall i | k <= i <= j :: states[i].flight == states[j].flight)
            || exists a: nat, x: nat | k < a < x < j ::
                 ArmsAt(states[a], steps[a]) && Sends(states[x], steps[x], PlanStop)
  {
    hide MS.Next, ArmsAt, StopsAt, Makes, MAR.Invariant;
    var t := FlightOrigin(config, states, steps, j);
    if t > k {
      PublishedStopWaits(config, states, steps, k, t);
      RunKeepsInvariant(config, states, steps, t);
      SystemStep(states[t], steps[t]);
      var c: nat;
      if states[t].service.stopEvent.Some? {
        assert HandsStop(states[t], steps[t]);
        c := t;
      } else {
        c :| k < c < t && HandsStop(states[c], steps[c]);
      }
      StopAcceptedIff(states[c], steps[c]);
      StopDominates(config, states, steps, c, j);
    }
  }

  /** The next lock section after a published STOP or DISARM hands a stop to the model, and takes a STOP
      unless that stop is dated in the future. */
  lemma {:induction false} PublishedStopIsNext(config: Config, states: seq<System>, steps: seq<Step>, k: nat, t: nat)
    requires IsRun(config, states, steps) && k < t < |steps| && PublishesStop(steps[k])
    requires EntersCycle(states[t], steps[t]) && forall i | k < i < t :: !EntersCycle(states[i], steps[i])
    ensures HandsStop(states[t], steps[t])
    ensures Handed(states[t], steps[t]).value.receivedAt <= NowOf(steps[t]) ==> Takes(states[t], steps[t], PlanStop)
  {
    hide MS.Next, StopsAt, Takes, MAR.Invariant;
    RunKeepsInvariant(config, states, steps, t);
    PublishedStopWaits(config, states, steps, k, t);
    StopAcceptedIff(states[t], steps[t]);
    if StopsAt(states[t], steps[t]) {
      StopIsNext(config, states, steps, t, t);
    }
  }

  /** An ARM or COMMAND that waits was waiting before, or is published at this step; a published STOP
      or DISARM leaves none. */
  lemma {:induction false} WaitingStep(s: System, step: Step)
    ensures var before, after := s.service, MS.Next(s, step).service;
            && (after.armEvent.Some? ==> step == Publish(after.armEvent.value) || after.armEvent == before.armEvent)
            && (after.commandEvent.Some? ==>
                  step == Publish(after.commandEvent.value) || after.commandEvent == before.commandEvent)
            && (PublishesStop(step) ==> after.armEvent == None && after.commandEvent == None)
  {
    hide MA.Submit, MA.Tick, MA.Record;
  }

  /** A published STOP or DISARM discards the ARM and the COMMAND that were waiting: whatever a later
      cycle hands to the model was published after it. */
  lemma {:induction false} WaitingIntentIsNewer(
    config: Config, states: seq<System>, steps: seq<Step>, k: nat, n: nat)
    requires IsRun(config, states, steps) && k < n < |states| && PublishesStop(steps[k])
    ensures states[n].service.armEvent.Some? ==>
              exists p: nat | k < p < n :: steps[p] == Publish(states[n].service.armEvent.value)
    ensures states[n].service.commandEvent.Some? ==>
              exists p: nat | k < p < n :: steps[p] == Publish(states[n].service.commandEvent.value)
    decreases n
  {
    hide MS.Next, PublishesStop, MA.ConfigValid;
    WaitingStep(states[n - 1], steps[n - 1]);
    if n > k + 1 {
      WaitingIntentIsNewer(config, states, steps, k, n - 1);
    }
  }

  /** And no such event reaches the model before the stop itself has been handed to it. */
  lemma {:induction false} StopIsHandedFirst(config: Config, states: seq<System>, steps: seq<Step>, k: nat, c: nat)
    requires IsRun(config, states, steps) && k < c < |steps| && PublishesStop(steps[k])
    requires steps[c].Cycle? && Handed(states[c], steps[c]).Some? && !IsStop(Handed(states[c], steps[c]).value)
    ensures exists p: nat | k < p < c :: steps[p] == Publish(Handed(states[c], steps[c]).value)
    ensures exists h: nat | k < h < c :: HandsStop(states[h], steps[h])
  {
    hide MS.Next, MAR.Invariant;
    RunKeepsInvariant(config, states, steps, c);
    WaitingIntentIsNewer(config, states, steps, k, c);
    PublishedStopWaits(config, states, steps, k, c);
  }

  // -------------------------------------------------------------- ACTIVE that outlives its stream

  predicate Orphan(m: Model) {
    m.state == Active && m.activeStream == 0
  }

  lemma {:induction false} ModelMakesNoOrphan(m: Model, event: Event, gate: bool, now: U64)
    requires MAR.Invariant(m)
    ensures !Orphan(m) ==> !Orphan(MA.Submit(m, event, gate, now).0)
    ensures !Orphan(m) ==> !Orphan(MA.Tick(m, gate, now).0)
  {
    hide CA.Arbitrate, CA.PublishModel, CA.PublishCheck, Plannable, TargetsFor;
  }

  /** Nor does a whole cycle. */
  lemma {:induction false} CycleMakesNoOrphan(s: System, step: Step)
    requires Invariant(s) && step.Cycle? && s.flight.Idle?
    ensures !Orphan(s.service.model) ==> !Orphan(MS.Next(s, step).service.model)
  {
    hide MA.Submit, MA.Tick, MAR.Invariant, ArmsAt, StopsAt, Makes;
    var event := TakeEvent(s.service).1;
    HandledStep(s, step);
    if event.Some? {
      ModelMakesNoOrphan(s.service.model, event.value, step.gate, step.now);
    }
    var handled := EventHandled(s.service, step.gate, step.now);
    ModelMakesNoOrphan(handled.model, ANY_EVENT, step.gate, step.later);
  }

  /** The state ACTIVE is left without a stream in exactly one way: the success of an APPLY is
      recorded after a STOP, an expiry or a fault has ended its stream. */
  lemma {:induction false} OrphanArisesIff(s: System, step: Step)
    requires Invariant(s) && !Orphan(s.service.model)
    ensures Orphan(MS.Next(s, step).service.model) <==>
              && step.RecordResult? && s.flight.Executed? && s.flight.success
              && s.flight.plan.action == PlanApply && StreamAt(s) == 0
  {
    if step.SubmitNow? {
      ModelMakesNoOrphan(s.service.model, step.event, step.gate, step.now);
      hide MA.Submit, MAR.Invariant;
    } else if step.Cycle? && s.flight.Idle? {
      CycleMakesNoOrphan(s, step);
      hide MS.Next, MAR.Invariant;
    } else {
      hide MAR.Invariant, CycleSection;
    }
  }

  const ANY_EVENT: Event := Event(StopAll, CA.NoSource, 0, 0, 0, true, CA.ZERO_VELOCITY, false)

  /** It cannot move, and the first cycle that finds no event and no plan waiting ends it with a
      STOP plan. */
  lemma {:induction false} OrphanRecovers(s: System, step: Step)
    requires Invariant(s) && Orphan(s.service.model)
    ensures s.service.applyPlan.None?
    ensures step.Cycle? && s.flight.Idle? && Handed(s, step).None? && s.service.stopPlan.None? ==>
              Takes(s, step, PlanStop) && !Orphan(MS.Next(s, step).service.model)
  {
    if step.Cycle? {
      MAR.OrphanIsEnded(s.service.model, step.gate, step.later);
    }
  }
}
