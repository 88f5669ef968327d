/** The queues of the motion service over every interleaving: nothing is handed over or executed twice,
    nothing is lost, and a STOP discards what waited before it. */
module MotionQueueRuns {
  import opened MachineIntegers
  import opened Prelude
  import opened MA = MotionApplication
  import MAR = MotionApplicationRuns
  import opened MS = MotionService
  import opened MSR = MotionServiceRuns
  import opened MRR = MotionReleaseRuns

  // -------------------------------------------------------------------------------------- the events

  /** STOP and DISARM wait in one place, ARM and COMMAND in places of their own. */
  predicate SameKind(a: Event, b: Event) {
    (IsStop(a) && IsStop(b)) || a.action == b.action
  }

  function Place(s: Service, event: Event): Option<Event> {
    if IsStop(event) then s.stopEvent else if event.action == Arm then s.armEvent else s.commandEvent
  }

  /** A lock section hands over exactly one waiting event, if there is any: a stop before an ARM before a
      COMMAND.  The event is gone from its place, and the others go on waiting. */
  lemma {:induction false} HandedAnswer(s: System, step: MS.Step)
    requires Invariant(s) && EntersCycle(s, step)
    ensures var q, after, handed := s.service, MS.Next(s, step).service, Handed(s, step);
            && (handed.Some? <==> q.stopEvent.Some? || q.armEvent.Some? || q.commandEvent.Some?)
            && (handed.Some? ==>
                  var event := handed.value;
                  && Place(q, event) == handed && Place(after, event) == None
                  && (IsStop(event) <==> q.stopEvent.Some?)
                  && (event.action == Arm <==> q.stopEvent.None? && q.armEvent.Some?)
                  && (event.action == Command <==> q.stopEvent.None? && q.armEvent.None?)
                  && forall other: Event | !SameKind(event, other) :: Place(after, other) == Place(q, other))
            && (handed.None? ==> forall other: Event :: Place(after, other) == Place(q, other))
  {
    hide MA.Submit, MA.Tick, MAR.Invariant;
  }

  /** A publication takes its place, and a stop clears the places of the intents and of the APPLY plan; no
      other step but a lock section moves an event. */
  lemma {:induction false} WaitingAnswer(s: System, step: MS.Step)
    requires Invariant(s) && !EntersCycle(s, step)
    ensures var q, after := s.service, MS.Next(s, step).service;
            && (step.Publish? ==>
                  && Place(after, step.event) == Some(step.event)
                  && after.stopPlan == q.stopPlan && MS.Next(s, step).flight == s.flight && after.model == q.model
                  && (IsStop(step.event) ==>
                        after.armEvent == None && after.commandEvent == None && after.applyPlan == None)
                  && (!IsStop(step.event) ==>
                        && after.applyPlan == q.applyPlan
                        && forall other: Event | !SameKind(step.event, other) ::
                             Place(after, other) == Place(q, other)))
            && (!step.Publish? ==> forall other: Event :: Place(after, other) == Place(q, other))
  {
    hide MA.Submit, MA.Tick, MA.Record, MAR.Invariant, CycleSection;
  }

  /** The step takes the event out of its place: a lock section that hands over an event of its kind, a later
      publication of its kind, or, for an intent, the publication of a stop. */
  predicate Displaces(s: System, step: MS.Step, event: Event) {
    if step.Publish? then SameKind(step.event, event) || IsStop(step.event)
    else EntersCycle(s, step) && Handed(s, step).Some? && SameKind(Handed(s, step).value, event)
  }

  /** The publication of the event at p has not been displaced before n. */
  ghost predicate Waits(states: seq<System>, steps: seq<MS.Step>, p: nat, n: nat, event: Event)
    requires |states| == |steps| + 1 && n <= |steps|
  {
    p < n && steps[p] == Publish(event) && forall i | p < i < n :: !Displaces(states[i], steps[i], event)
  }

  lemma {:induction false} PlaceStep(s: System, step: MS.Step, event: Event)
    requires Invariant(s)
    ensures var before, after := Place(s.service, event), Place(MS.Next(s, step).service, event);
            && (step.Publish? && SameKind(step.event, event) ==> after == Some(step.event))
            && (Displaces(s, step, event) && !(step.Publish? && SameKind(step.event, event)) ==> after == None)
            && (!Displaces(s, step, event) ==> after == before)
  {
    hide MS.Next, MAR.Invariant, TakeEvent;
    if EntersCycle(s, step) {
      HandedAnswer(s, step);
    } else {
      WaitingAnswer(s, step);
    }
  }

  /** An event stands in its place exactly as long as its publication waits: so every event that a lock
      section hands over was published, waits for one hand-over only, and none is lost. */
  lemma {:induction false} PlaceIff(config: Config, states: seq<System>, steps: seq<MS.Step>, n: nat, event: Event)
    requires IsRun(config, states, steps) && n < |states|
    ensures Place(states[n].service, event) == Some(event) <==> exists p: nat :: Waits(states, steps, p, n, event)
  {
    hide MS.Next, Place, Displaces, MAR.Invariant, EntersCycle;
    if n == 0 {
      NothingWaits(config, event);
    } else {
      PlaceIff(config, states, steps, n - 1, event);
      RunKeepsInvariant(config, states, steps, n - 1);
      PlaceStep(states[n - 1], steps[n - 1], event);
      if steps[n - 1] == Publish(event) {
        assert Waits(states, steps, n - 1, n, event);
      }
      if Place(states[n - 1].service, event) == Some(event) && !Displaces(states[n - 1], steps[n - 1], event) {
        var p: nat :| Waits(states, steps, p, n - 1, event);
        assert Waits(states, steps, p, n, event);
      }
      forall p: nat | p < n - 1 && Waits(states, steps, p, n, event)
        ensures Waits(states, steps, p, n - 1, event) && !Displaces(states[n - 1], steps[n - 1], event)
      {
      }
      PublicationDisplaces(states[n - 1], steps[n - 1], event);
    }
  }

  lemma {:induction false} NothingWaits(config: Config, event: Event)
    ensures Place(MS.Initial(config).service, event) == None
  {
  }

  lemma {:induction false} PublicationDisplaces(s: System, step: MS.Step, event: Event)
    ensures step.Publish? && SameKind(step.event, event) ==> Displaces(s, step, event)
    ensures step == Publish(event) ==> SameKind(step.event, event)
  {
  }

  // ---------------------------------------------------------------------------------------- the plans

  /** After the event of the cycle, a STOP plan waits. */
  ghost predicate StopWaits(s: System, step: MS.Step) {
    s.service.stopPlan.Some? || Answered(s, step).action == PlanStop
  }

  /** And the APPLY plan that waits, if there is one. */
  ghost function ApplyWaiting(s: System, step: MS.Step): Option<Plan> {
    if Answered(s, step).action == PlanApply then Some(Answered(s, step))
    else if Answered(s, step).action == PlanStop then None
    else s.service.applyPlan
  }

  /** A lock section takes the waiting STOP, or else the waiting APPLY, or else the STOP of a tick; what it
      takes does not wait any longer, and what it does not take goes on waiting. */
  lemma {:induction false} TakenAnswer(s: System, step: MS.Step)
    requires Invariant(s) && EntersCycle(s, step)
    ensures var after, apply := MS.Next(s, step), ApplyWaiting(s, step);
            && after.service.stopPlan == None
            && (StopWaits(s, step) ==> Takes(s, step, PlanStop) && after.service.applyPlan == apply)
            && (!StopWaits(s, step) && apply.Some? ==>
                  && Takes(s, step, PlanApply) && after.flight == Executing(apply.value)
                  && after.service.applyPlan == None)
            && (!StopWaits(s, step) && apply.None? ==> !Takes(s, step, PlanApply) && after.service.applyPlan == None)
  {
    hide MA.Submit, MA.Tick, MAR.Invariant;
    var handled := EventHandled(s.service, step.gate, step.now);
    HandledStep(s, step);
    MAR.TickNeverApplies(handled.model, step.gate, step.later);
  }

  lemma {:induction false} TakenIsGone(s: System, step: MS.Step)
    requires Invariant(s)
    ensures Takes(s, step, PlanApply) ==> MS.Next(s, step).service.applyPlan == None
    ensures Takes(s, step, PlanStop) ==> MS.Next(s, step).service.stopPlan == None
  {
    hide MS.Next, MAR.Invariant, Answered;
    if EntersCycle(s, step) {
      TakenAnswer(s, step);
    }
  }

  /** No APPLY is executed twice: between two lock sections that take one, another COMMAND has made the
      second. */
  lemma {:induction false} ApplyIsTakenOnce(config: Config, states: seq<System>, steps: seq<MS.Step>, t: nat, u: nat)
    returns (c: nat)
    requires IsRun(config, states, steps) && t < u < |steps|
    requires Takes(states[t], steps[t], PlanApply) && Takes(states[u], steps[u], PlanApply)
    ensures t < c <= u && Makes(states[c], steps[c], states[u + 1].flight.plan)
  {
    hide MS.Next, Takes, Makes, MAR.Invariant, StreamStep, ArmsAt;
    RunKeepsInvariant(config, states, steps, t);
    RunKeepsInvariant(config, states, steps, u);
    TakenIsGone(states[t], steps[t]);
    TakenApply(states[u], steps[u]);
    if states[u].service.applyPlan == Some(states[u + 1].flight.plan) {
      c := WaitingPlanMaker(config, states, steps, u);
      var gone, waiting := states[t + 1].service.applyPlan, states[u].service.applyPlan;
      assert c <= t ==> gone == waiting;
    } else {
      c := u;
    }
  }

  /** A STOP waits only if it has been made and not been taken since. */
  lemma {:induction false} WaitingStopMaker(config: Config, states: seq<System>, steps: seq<MS.Step>, n: nat)
    returns (c: nat)
    requires IsRun(config, states, steps) && n < |states| && states[n].service.stopPlan.Some?
    ensures c < n && Made(states[c], steps[c]).action == PlanStop
    ensures forall i | c < i <= n :: states[i].service.stopPlan.Some?
  {
    hide MS.Next, Made, MAR.Invariant;
    assert n > 0;
    RunKeepsInvariant(config, states, steps, n - 1);
    StopPlanStep(states[n - 1], steps[n - 1]);
    if Made(states[n - 1], steps[n - 1]).action == PlanStop {
      c := n - 1;
    } else {
      c := WaitingStopMaker(config, states, steps, n - 1);
    }
  }

  lemma {:induction false} StopPlanStep(s: System, step: MS.Step)
    requires Invariant(s)
    ensures MS.Next(s, step).service.stopPlan.Some? ==>
              s.service.stopPlan.Some? || Made(s, step).action == PlanStop
    ensures Takes(s, step, PlanStop) ==> s.service.stopPlan.Some? || Made(s, step).action == PlanStop
  {
    hide MA.Submit, MA.Tick, MAR.Invariant, MA.Record;
    if EntersCycle(s, step) {
      var handled := EventHandled(s.service, step.gate, step.now);
      HandledStep(s, step);
    }
  }

  /** Nor is a STOP: each one that is taken has been made since the last one. */
  lemma {:induction false} StopIsTakenOnce(config: Config, states: seq<System>, steps: seq<MS.Step>, t: nat, u: nat)
    returns (c: nat)
    requires IsRun(config, states, steps) && t < u < |steps|
    requires Takes(states[t], steps[t], PlanStop) && Takes(states[u], steps[u], PlanStop)
    ensures t < c <= u && Made(states[c], steps[c]).action == PlanStop
  {
    hide MS.Next, Takes, Made, MAR.Invariant;
    RunKeepsInvariant(config, states, steps, t);
    RunKeepsInvariant(config, states, steps, u);
    TakenIsGone(states[t], steps[t]);
    StopPlanStep(states[u], steps[u]);
    if Made(states[u], steps[u]).action == PlanStop {
      c := u;
    } else {
      c := WaitingStopMaker(config, states, steps, u);
      var gone := states[t + 1].service.stopPlan;
      assert c <= t ==> gone.Some?;
    }
  }

  /** A published STOP or DISARM discards the APPLY that waits: every APPLY that is sent later was in flight
      before it, or is made by a COMMAND handed over after it. */
  lemma {:induction false} PublishedStopDiscards(
    config: Config, states: seq<System>, steps: seq<MS.Step>, k: nat, x: nat) returns (c: nat, t: nat)
    requires IsRun(config, states, steps) && k < x < |steps|
    requires PublishesStop(steps[k]) && Sends(states[x], steps[x], PlanApply)
    ensures t < x && MadeAndTaken(states, steps, c, t, states[x].flight.plan)
    ensures t < k || c > k
  {
    hide MS.Next, Takes, Makes, MAR.Invariant;
    c, t := SentPlanMaker(config, states, steps, x);
    RunKeepsInvariant(config, states, steps, k);
    PublicationTakesNothing(states[k], steps[k]);
    WaitingAnswer(states[k], steps[k]);
    var discarded, plan := states[k + 1].service.applyPlan, states[x].flight.plan;
    assert c <= k < t ==> discarded == Some(plan);
  }

  lemma {:induction false} PublicationTakesNothing(s: System, step: MS.Step)
    requires step.Publish?
    ensures !EntersCycle(s, step) && !Takes(s, step, PlanApply)
    ensures forall plan: Plan :: !Makes(s, step, plan)
  {
  }
}
