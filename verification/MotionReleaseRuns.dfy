/** What letting go of the deadman is worth: first for one COMMAND of the motion application, then over
    every interleaving of the motion service. */
module MotionReleaseRuns {
  import opened MachineIntegers
  import opened Prelude
  import CA = CommandAuthority
  import CAR = CommandAuthorityRuns
  import opened MA = MotionApplication
  import MAR = MotionApplicationRuns
  import opened MS = MotionService
  import opened MSR = MotionServiceRuns

  // ------------------------------------------------------------------------- one released COMMAND

  /** A COMMAND with the deadman released that the live stream admits. */
  predicate Releases(m: Model, event: Event, now: U64) {
    event.action == Command && !event.deadman && event.receivedAt <= now && CommandCheck(m, event) == Ok
  }

  /** The authority follows the stream, and the last accepted command of the stream lies behind the
      barrier: an APPLY may be in force. */
  predicate Drives(m: Model) {
    && m.activeStream != 0 && m.authority.selected == m.activeSource
    && m.lastReceived > m.authority.barrierTime
  }

  /** The authority has nobody selected, and its counters are at their end. */
  predicate AtTheEnd(a: CA.Model) {
    a.selected == CA.NoSource && (a.epoch == U64_MAX || a.publicationRevision + 1 == U64_MAX)
  }

  /** Selecting the only publisher fails exactly when a counter is at its end. */
  lemma {:induction false} SoloSelects(a: CA.Model, s: CA.Source, now: U64)
    requires MAR.Solo(a, s) && !(a.hasTime && now < a.lastNow)
    requires CA.Fresh(a.Box(s), now) && a.selected == CA.NoSource
    ensures EndsStream(CA.Arbitrate(a, now).1) <==> a.epoch == U64_MAX || a.publicationRevision == U64_MAX
  {
    hide CA.Fresh, CA.Expired, CAR.BoxInvariant, CA.HighestFresh;
    MAR.SoloDesired(a, s, now);
  }

  /** A released COMMAND makes a STOP plan when the gate is closed, when the authority rejects it, or when
      the authority follows the stream and the COMMAND lies behind the barrier; otherwise it makes none,
      but for the end of the counters. */
  lemma {:induction false} ReleaseStopsIff(m: Model, event: Event, gate: bool, now: U64)
    requires MAR.Invariant(m) && Releases(m, event, now)
    ensures var plan := Submit(m, event, gate, now).1;
            && plan.action != PlanApply
            && (plan.action == PlanStop <==>
                  || !gate
                  || CA.PublishCheck(m.authority, event.source, MoveCommand(m, event), now) != CA.PublishOk
                  || (m.authority.selected == m.activeSource && event.receivedAt > m.authority.barrierTime)
                  || AtTheEnd(m.authority))
  {
    hide CA.Arbitrate, CA.Fresh, CA.PublishCheck, Plannable, TargetsFor;
    MAR.PublicationOnStream(m, event, now);
    var published := CA.PublishModel(m.authority, event.source, MoveCommand(m, event), now);
    if gate && CA.PublishCheck(m.authority, event.source, MoveCommand(m, event), now) == CA.PublishOk {
      MAR.SoloArbitrate(published, event.source, now);
      if m.authority.selected == CA.NoSource {
        SoloSelects(published, event.source, now);
      }
    }
  }

  /** So while an APPLY may be in force, letting go always stops. */
  lemma {:induction false} ReleaseStopsDriving(m: Model, event: Event, gate: bool, now: U64)
    requires MAR.Invariant(m) && Releases(m, event, now) && Drives(m)
    ensures Submit(m, event, gate, now).1.action == PlanStop
  {
    hide MA.Submit, CA.PublishCheck;
    ReleaseStopsIff(m, event, gate, now);
    PublishedIsLater(m, event, now);
  }

  lemma {:induction false} PublishedIsLater(m: Model, event: Event, now: U64)
    requires MAR.Invariant(m) && CommandCheck(m, event) == Ok
    ensures CA.PublishCheck(m.authority, event.source, MoveCommand(m, event), now) == CA.PublishOk ==>
              event.receivedAt >= m.lastReceived
  {
    hide CA.PublishCheck, CA.PublishModel;
    MAR.PublicationOnStream(m, event, now);
  }

  lemma {:induction false} CommandKeepsDriving(m: Model, event: Event, gate: bool, now: U64)
    requires MAR.Invariant(m) && event.receivedAt <= now
    ensures var (after, plan, result) := Commanding(m, event, gate, now);
            && (plan.action == PlanApply ==> Drives(after))
            && (plan.action == PlanNone && Drives(m) ==> Drives(after))
  {
    hide CA.Arbitrate, CA.Fresh, CA.PublishCheck, Plannable, TargetsFor;
    if CommandCheck(m, event) == Ok && gate {
      MAR.PublicationOnStream(m, event, now);
      var published := CA.PublishModel(m.authority, event.source, MoveCommand(m, event), now);
      if CA.PublishCheck(m.authority, event.source, MoveCommand(m, event), now) == CA.PublishOk {
        MAR.SoloArbitrate(published, event.source, now);
        hide CA.PublishModel;
      }
    }
  }

  /** An APPLY plan leaves such a state behind, and only a STOP plan leads out of it. */
  lemma {:induction false} SubmitKeepsDriving(m: Model, event: Event, gate: bool, now: U64)
    requires MAR.Invariant(m)
    ensures var (after, plan, result) := Submit(m, event, gate, now);
            && (plan.action == PlanApply ==> Drives(after))
            && (plan.action == PlanNone && Drives(m) ==> Drives(after))
  {
    hide Commanding, Drives, CA.Arbitrate, CA.PublishModel, CA.PublishCheck;
    if event.receivedAt <= now && event.action == Command {
      CommandKeepsDriving(m, event, gate, now);
    }
    NothingStreams(m);
  }

  lemma {:induction false} NothingStreams(m: Model)
    ensures Drives(m) ==> m.activeStream != 0
  {
  }

  lemma {:induction false} ClockBackwards(a: CA.Model, now: U64)
    requires CAR.Invariant(a)
    ensures a.hasTime && now < a.lastNow ==> CA.Arbitrate(a, now).1.decision == CA.Invalid
  {
  }

  lemma {:induction false} TickKeepsDriving(m: Model, gate: bool, now: U64)
    requires MAR.Invariant(m)
    ensures var (after, plan, result) := Tick(m, gate, now);
            plan.action == PlanNone && Drives(m) ==> Drives(after)
  {
    hide CA.Arbitrate, CA.Fresh, Plannable, TargetsFor;
    ClockBackwards(m.authority, now);
    if m.activeStream != 0 && !(m.authority.hasTime && now < m.authority.lastNow) {
      MAR.SoloArbitrate(m.authority, m.activeSource, now);
    }
  }

  // --------------------------------------------------------------------- the plans of the service

  /** The plan of the event that a step hands to the model. */
  ghost function Answered(s: System, step: MS.Step): Plan {
    var event := Handed(s, step);
    if event.Some? then MA.Submit(s.service.model, event.value, GateOf(step), NowOf(step)).1 else NO_PLAN
  }

  /** The plan that the model makes at a step: for the event, or else by the tick of an idle cycle. */
  ghost function Made(s: System, step: MS.Step): Plan {
    if Answered(s, step).action != PlanNone || !EntersCycle(s, step) then Answered(s, step)
    else
      var handled := EventHandled(s.service, step.gate, step.now);
      if TakePlan(handled).1.Some? then NO_PLAN else MA.Tick(handled.model, step.gate, step.later).1
  }

  /** A released COMMAND is handed to the model at this step. */
  predicate HandsRelease(s: System, step: MS.Step) {
    Handed(s, step).Some? && Releases(s.service.model, Handed(s, step).value, NowOf(step))
  }

  /** What a made plan does to the queues and to the model. */
  ghost predicate MadeStep(s: System, step: MS.Step) {
    var after, made := MS.Next(s, step), Made(s, step);
    && (made.action == PlanApply ==> Drives(after.service.model))
    && (made.action == PlanNone && Drives(s.service.model) ==> Drives(after.service.model))
    && (made.action == PlanStop ==>
          && after.service.applyPlan.None? && !Takes(s, step, PlanApply)
          && (if EntersCycle(s, step) then Takes(s, step, PlanStop) else after.service.stopPlan.Some?))
    && (HandsRelease(s, step) ==>
          && made.action != PlanApply
          && (Drives(s.service.model) ==> made.action == PlanStop))
  }

  lemma {:induction false} AnsweredStep(s: System, step: MS.Step)
    requires Invariant(s) && Handed(s, step).Some?
    ensures var m, event := s.service.model, Handed(s, step).value;
            var (model, plan, result) := MA.Submit(m, event, GateOf(step), NowOf(step));
            && MAR.Invariant(model) && plan == Answered(s, step)
            && (plan.action == PlanApply ==> Drives(model))
            && (plan.action == PlanNone && Drives(m) ==> Drives(model))
            && (HandsRelease(s, step) ==>
                  plan.action != PlanApply && (Drives(m) ==> plan.action == PlanStop))
  {
    hide MA.Submit, Drives, Releases, MAR.Invariant, TakeEvent;
    var m, event := s.service.model, Handed(s, step).value;
    MAR.SubmitKeepsInvariant(m, event, GateOf(step), NowOf(step));
    SubmitKeepsDriving(m, event, GateOf(step), NowOf(step));
    if HandsRelease(s, step) {
      ReleaseStopsIff(m, event, GateOf(step), NowOf(step));
      if Drives(m) {
        ReleaseStopsDriving(m, event, GateOf(step), NowOf(step));
      }
    }
  }

  lemma {:induction false} SubmitNowMakes(s: System, step: MS.Step)
    requires Invariant(s) && step.SubmitNow?
    ensures MadeStep(s, step)
  {
    hide MA.Submit, MAR.Invariant, Drives, Releases;
    AnsweredStep(s, step);
  }

  /** The first half of a cycle, by the plan of its event. */
  lemma {:induction false} HandledMakes(s: System, step: MS.Step)
    requires Invariant(s) && EntersCycle(s, step)
    ensures var handled, plan := EventHandled(s.service, step.gate, step.now), Answered(s, step);
            && MAR.Invariant(handled.model)
            && (plan.action == PlanApply ==> Drives(handled.model))
            && (plan.action == PlanNone ==>
                  && handled.stopPlan == s.service.stopPlan && handled.applyPlan == s.service.applyPlan
                  && (Drives(s.service.model) ==> Drives(handled.model)))
            && (plan.action == PlanApply ==> handled.applyPlan == Some(plan))
            && (plan.action == PlanStop ==> handled.stopPlan.Some? && handled.applyPlan.None?)
            && (HandsRelease(s, step) ==>
                  plan.action != PlanApply && (Drives(s.service.model) ==> plan.action == PlanStop))
  {
    hide MA.Submit, MAR.Invariant, Drives, Releases;
    if Handed(s, step).Some? {
      AnsweredStep(s, step);
    }
  }

  lemma {:induction false} CycleMakes(s: System, step: MS.Step)
    requires Invariant(s) && EntersCycle(s, step)
    ensures MadeStep(s, step)
  {
    hide MA.Submit, MA.Tick, MAR.Invariant, Drives, EventHandled, Answered, HandsRelease, TakeEvent;
    HandledMakes(s, step);
    HandledStep(s, step);
    var handled := EventHandled(s.service, step.gate, step.now);
    TickKeepsDriving(handled.model, step.gate, step.later);
    MAR.TickNeverApplies(handled.model, step.gate, step.later);
  }

  lemma {:induction false} QuietMakes(s: System, step: MS.Step)
    requires Invariant(s) && !step.SubmitNow? && !EntersCycle(s, step)
    ensures MadeStep(s, step)
  {
    hide CycleSection, MAR.Invariant, MA.Submit, MA.Tick;
  }

  lemma {:induction false} StepMakes(s: System, step: MS.Step)
    requires Invariant(s)
    ensures MadeStep(s, step)
  {
    hide *;
    if step.SubmitNow? {
      SubmitNowMakes(s, step);
    } else if EntersCycle(s, step) {
      CycleMakes(s, step);
    } else {
      QuietMakes(s, step);
    }
  }

  // ------------------------------------------------------------------------------- over every run

  /** The plan made at h is a STOP, and no APPLY has been made since. */
  ghost predicate StoppedSince(states: seq<System>, steps: seq<MS.Step>, h: nat, n: nat)
    requires |states| == |steps| + 1 && n <= |steps|
  {
    && h < n && Made(states[h], steps[h]).action == PlanStop
    && forall i | h < i < n :: Made(states[i], steps[i]).action != PlanApply
  }

  /** Every ARM makes a STOP. */
  lemma {:induction false} ArmMakesStop(s: System, step: MS.Step)
    requires Invariant(s) && ArmsAt(s, step)
    ensures Made(s, step).action == PlanStop
  {
    hide MA.Submit, MAR.Invariant;
    SubmittedStep(s.service, Handed(s, step).value, GateOf(step), NowOf(step));
  }

  /** A live stream whose authority does not drive has a STOP behind its last APPLY. */
  lemma {:induction false} DrivesOrStopped(config: Config, states: seq<System>, steps: seq<MS.Step>, n: nat)
    requires IsRun(config, states, steps) && n < |states| && StreamAt(states[n]) != 0
    ensures Drives(states[n].service.model) || exists h: nat :: StoppedSince(states, steps, h, n)
  {
    hide MS.Next, Made, MAR.Invariant, Drives, ArmsAt, StopsAt, Takes, HandsRelease, PlanStep;
    assert n > 0;
    RunKeepsInvariant(config, states, steps, n - 1);
    SystemStep(states[n - 1], steps[n - 1]);
    StepMakes(states[n - 1], steps[n - 1]);
    if ArmsAt(states[n - 1], steps[n - 1]) {
      ArmMakesStop(states[n - 1], steps[n - 1]);
    }
    if Made(states[n - 1], steps[n - 1]).action == PlanStop {
      assert StoppedSince(states, steps, n - 1, n);
    } else {
      DrivesOrStopped(config, states, steps, n - 1);
      if !Drives(states[n - 1].service.model) && Made(states[n - 1], steps[n - 1]).action == PlanNone {
        var h: nat :| StoppedSince(states, steps, h, n - 1);
        assert StoppedSince(states, steps, h, n);
      }
    }
  }

  /** When a released COMMAND is handed to the model, the last plan made so far, counting the one it
      makes, is a STOP. */
  lemma {:induction false} ReleaseHasItsStop(config: Config, states: seq<System>, steps: seq<MS.Step>, k: nat)
    returns (h: nat)
    requires IsRun(config, states, steps) && k < |steps| && HandsRelease(states[k], steps[k])
    ensures StoppedSince(states, steps, h, k + 1)
  {
    hide MS.Next, Made, MAR.Invariant, Drives, Releases, Takes;
    RunKeepsInvariant(config, states, steps, k);
    StepMakes(states[k], steps[k]);
    ReleasedStreams(states[k], steps[k]);
    if Made(states[k], steps[k]).action == PlanStop {
      h := k;
    } else {
      DrivesOrStopped(config, states, steps, k);
      h :| StoppedSince(states, steps, h, k);
    }
  }

  lemma {:induction false} ReleasedStreams(s: System, step: MS.Step)
    requires Invariant(s) && HandsRelease(s, step)
    ensures StreamAt(s) != 0
  {
    hide CA.PublishCheck, CA.PublishModel, CommandCheck, TakeEvent;
    MAR.PublicationOnStream(s.service.model, Handed(s, step).value, NowOf(step));
  }

  /** A STOP that is made is taken by the next lock section of the task, which may be the same step. */
  lemma {:induction false} MadeStopIsTaken(
    config: Config, states: seq<System>, steps: seq<MS.Step>, h: nat, t: nat)
    requires IsRun(config, states, steps) && h <= t < |steps| && Made(states[h], steps[h]).action == PlanStop
    requires EntersCycle(states[t], steps[t]) && forall i | h <= i < t :: !EntersCycle(states[i], steps[i])
    ensures Takes(states[t], steps[t], PlanStop)
  {
    hide MS.Next, Made, Takes, MAR.Invariant, EntersCycle, Drives, HandsRelease;
    RunKeepsInvariant(config, states, steps, t);
    if h == t {
      StepMakes(states[h], steps[h]);
    } else {
      MadeStopWaits(config, states, steps, h, t);
      WaitingStopIsTaken(states[t], steps[t]);
    }
  }

  lemma {:induction false} MadeStopWaits(
    config: Config, states: seq<System>, steps: seq<MS.Step>, h: nat, n: nat)
    requires IsRun(config, states, steps) && h < n < |states| && Made(states[h], steps[h]).action == PlanStop
    requires forall i | h <= i < n :: !EntersCycle(states[i], steps[i])
    ensures states[n].service.stopPlan.Some?
    decreases n
  {
    hide MS.Next, Made, Takes, MAR.Invariant, EntersCycle, Drives, HandsRelease;
    RunKeepsInvariant(config, states, steps, n - 1);
    if n == h + 1 {
      StepMakes(states[h], steps[h]);
    } else {
      MadeStopWaits(config, states, steps, h, n - 1);
      StopPlanStays(states[n - 1], steps[n - 1]);
    }
  }

  /** The first lock section of the task from h on. */
  lemma {:induction false} NextEntry(states: seq<System>, steps: seq<MS.Step>, h: nat, t: nat) returns (e: nat)
    requires |states| == |steps| + 1 && h <= t < |steps| && EntersCycle(states[t], steps[t])
    ensures h <= e <= t && EntersCycle(states[e], steps[e])
    ensures forall i | h <= i < e :: !EntersCycle(states[i], steps[i])
    decreases t
  {
    hide EntersCycle;
    e := t;
    if i :| h <= i < t && EntersCycle(states[i], steps[i]) {
      e := NextEntry(states, steps, h, i);
    }
  }

  /** The COMMAND handed over at c made the plan, which waited until the task took it at t. */
  ghost predicate MadeAndTaken(states: seq<System>, steps: seq<MS.Step>, c: nat, t: nat, plan: Plan)
    requires |states| == |steps| + 1 && t < |steps|
  {
    && c <= t && Makes(states[c], steps[c], plan) && Takes(states[t], steps[t], PlanApply)
    && (forall i | c < i <= t :: states[i].service.applyPlan == Some(plan))
  }

  lemma {:induction false} WaitingPlanMaker(
    config: Config, states: seq<System>, steps: seq<MS.Step>, n: nat) returns (c: nat)
    requires IsRun(config, states, steps) && n < |states| && states[n].service.applyPlan.Some?
    ensures c < n && Makes(states[c], steps[c], states[n].service.applyPlan.value)
    ensures forall i | c < i <= n :: states[i].service.applyPlan == states[n].service.applyPlan
  {
    hide MS.Next, MAR.Invariant, ArmsAt, StopsAt, Takes, Makes, StreamStep;
    assert n > 0;
    RunKeepsInvariant(config, states, steps, n - 1);
    SystemStep(states[n - 1], steps[n - 1]);
    if states[n].service.applyPlan == states[n - 1].service.applyPlan {
      c := WaitingPlanMaker(config, states, steps, n - 1);
    } else {
      c := n - 1;
    }
  }

  /** Where an APPLY that is sent comes from: the COMMAND that made it and the lock section that took it. */
  lemma {:induction false} SentPlanMaker(
    config: Config, states: seq<System>, steps: seq<MS.Step>, x: nat) returns (c: nat, t: nat)
    requires IsRun(config, states, steps) && x < |steps| && Sends(states[x], steps[x], PlanApply)
    ensures t < x && MadeAndTaken(states, steps, c, t, states[x].flight.plan)
    ensures forall i | t < i <= x :: states[i].flight == states[x].flight
  {
    hide MS.Next, MAR.Invariant, ArmsAt, StopsAt, Takes, Makes, StreamStep;
    t := FlightOrigin(config, states, steps, x);
    RunKeepsInvariant(config, states, steps, t);
    TakenApply(states[t], steps[t]);
    assert states[t + 1].flight == states[x].flight;
    if states[t].service.applyPlan == Some(states[x].flight.plan) {
      c := WaitingPlanMaker(config, states, steps, t);
    } else {
      c := t;
    }
  }

  lemma {:induction false} MakesIsMade(s: System, step: MS.Step, plan: Plan)
    requires Makes(s, step, plan)
    ensures Made(s, step) == plan && plan.action == PlanApply
  {
    hide MA.Submit, MA.Tick, EventHandled, TakeEvent;
  }

  /** An APPLY made before a made STOP has left the lock section before it. */
  lemma {:induction false} TakenBeforeStop(
    config: Config, states: seq<System>, steps: seq<MS.Step>, c: nat, t: nat, h: nat, plan: Plan)
    requires IsRun(config, states, steps) && t < |steps| && h < |steps|
    requires MadeAndTaken(states, steps, c, t, plan) && c < h && Made(states[h], steps[h]).action == PlanStop
    ensures t < h
  {
    hide MS.Next, Made, Makes, Takes, MAR.Invariant, Drives, HandsRelease;
    RunKeepsInvariant(config, states, steps, h);
    StepMakes(states[h], steps[h]);
    assert t > h ==> states[h + 1].service.applyPlan == Some(plan);
  }

  /** Letting go stops the motors, over every interleaving: let a released COMMAND that the live stream
      admits be handed to the model at k.  Then every APPLY that is ever sent was either made by a COMMAND
      handed over after k, or, by the end of any lock section of the task from k on that comes after it, a
      STOP has been taken behind it. */
  lemma {:induction false} ReleaseStopsTheMotors(
    config: Config, states: seq<System>, steps: seq<MS.Step>, k: nat, x: nat, t: nat) returns (c: nat, taken: nat)
    requires IsRun(config, states, steps) && k <= t < |steps| && x < t
    requires HandsRelease(states[k], steps[k]) && Sends(states[x], steps[x], PlanApply)
    requires EntersCycle(states[t], steps[t])
    ensures taken < x && MadeAndTaken(states, steps, c, taken, states[x].flight.plan)
    ensures c > k || exists e: nat | x < e <= t :: Takes(states[e], steps[e], PlanStop)
  {
    hide MS.Next, Made, Makes, Takes, HandsRelease, MAR.Invariant, MA.ConfigValid;
    c, taken := SentPlanMaker(config, states, steps, x);
    if c <= k {
      var h := ReleaseHasItsStop(config, states, steps, k);
      MakesIsMade(states[c], steps[c], states[x].flight.plan);
      assert c < h;
      TakenBeforeStop(config, states, steps, c, taken, h, states[x].flight.plan);
      var e := NextEntry(states, steps, h, t);
      MadeStopIsTaken(config, states, steps, h, e);
      assert x < e;
    }
  }

  /** And directly: as long as an APPLY may be in force, or when the release is refused, the next lock
      section takes a STOP, and no APPLY is left waiting. */
  lemma {:induction false} ReleaseIsNext(config: Config, states: seq<System>, steps: seq<MS.Step>, k: nat, t: nat)
    requires IsRun(config, states, steps) && k <= t < |steps| && HandsRelease(states[k], steps[k])
    requires var m, event := states[k].service.model, Handed(states[k], steps[k]).value;
             || Drives(m) || !GateOf(steps[k])
             || CA.PublishCheck(m.authority, event.source, MoveCommand(m, event), NowOf(steps[k])) != CA.PublishOk
    requires EntersCycle(states[t], steps[t]) && forall i | k <= i < t :: !EntersCycle(states[i], steps[i])
    ensures Takes(states[t], steps[t], PlanStop) && states[k + 1].service.applyPlan.None?
  {
    hide MS.Next, MA.Submit, MA.Tick, MAR.Invariant, Takes, Drives, EntersCycle, CA.PublishCheck, TakeEvent,
         EventHandled;
    RunKeepsInvariant(config, states, steps, k);
    StepMakes(states[k], steps[k]);
    ReleaseStopsIff(states[k].service.model, Handed(states[k], steps[k]).value, GateOf(steps[k]), NowOf(steps[k]));
    MadeStopIsTaken(config, states, steps, k, t);
  }
}
