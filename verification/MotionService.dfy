/** The motion service: one motion application shared, under a lock, by a task that executes plans
    and by any number of callers that submit or publish events.  The steps below are the lock
    sections and the two actions of the task outside the lock. */
module MotionService {
  import opened MachineIntegers
  import opened Prelude
  import CA = CommandAuthority
  import opened MA = MotionApplication

  /** What the lock protects. */
  datatype Service = Service(
    model: Model,
    stopPlan: Option<Plan>, applyPlan: Option<Plan>,
    stopEvent: Option<Event>, armEvent: Option<Event>, commandEvent: Option<Event>)

  /** Where the task is outside the lock: about to execute a plan, or about to record its result. */
  datatype Flight = Idle | Executing(plan: Plan) | Executed(plan: Plan, success: bool)

  datatype System = System(service: Service, flight: Flight)

  datatype Step =
    | Publish(event: Event)
    | SubmitNow(event: Event, gate: bool, now: U64)
    | Cycle(gate: bool, now: U64, later: U64)
    | Execute(success: bool)
    | RecordResult

  function Initial(config: Config): System {
    System(Service(MA.Initial(config), None, None, None, None, None), Idle)
  }

  /** A STOP plan displaces a waiting APPLY plan. */
  function Queued(s: Service, plan: Plan): Service {
    if plan.action == PlanStop then s.(stopPlan := Some(plan), applyPlan := None)
    else if plan.action == PlanApply then s.(applyPlan := Some(plan))
    else s
  }

  /** STOP leaves the queue before APPLY. */
  function TakePlan(s: Service): (Service, Option<Plan>) {
    if s.stopPlan.Some? then (s.(stopPlan := None), s.stopPlan)
    else if s.applyPlan.Some? then (s.(applyPlan := None), s.applyPlan)
    else (s, None)
  }

  function TakeEvent(s: Service): (Service, Option<Event>) {
    if s.stopEvent.Some? then (s.(stopEvent := None), s.stopEvent)
    else if s.armEvent.Some? then (s.(armEvent := None), s.armEvent)
    else if s.commandEvent.Some? then (s.(commandEvent := None), s.commandEvent)
    else (s, None)
  }

  function Published(s: Service, event: Event): Service {
    match event.action
    case StopAll => s.(stopEvent := Some(event), armEvent := None, commandEvent := None, applyPlan := None)
    case Disarm => s.(stopEvent := Some(event), armEvent := None, commandEvent := None, applyPlan := None)
    case Arm => s.(armEvent := Some(event))
    case Command => s.(commandEvent := Some(event))
  }

  ghost function Submitted(s: Service, event: Event, gate: bool, now: U64): Service {
    var (model, plan, result) := MA.Submit(s.model, event, gate, now);
    Queued(s.(model := model), plan)
  }

  /** The service after the pending event, if any, has been handed to the model. */
  ghost function EventHandled(s: Service, gate: bool, now: U64): Service {
    var (rest, event) := TakeEvent(s);
    if event.Some? then Submitted(rest, event.value, gate, now) else s
  }

  /** The lock section of one cycle: at most one event, then at most one plan; a tick only when no
      plan was waiting.  The clock is read once for each. */
  ghost function CycleSection(s: Service, gate: bool, now: U64, later: U64): (Service, Option<Plan>) {
    var handled := EventHandled(s, gate, now);
    var (rest, plan) := TakePlan(handled);
    if plan.Some? then (rest, plan)
    else
      var (model, ticked, result) := MA.Tick(handled.model, gate, later);
      (handled.(model := model), if ticked.action != PlanNone then Some(ticked) else None)
  }

  ghost function Next(s: System, step: Step): System {
    match step
    case Publish(event) => s.(service := Published(s.service, event))
    case SubmitNow(event, gate, now) => s.(service := Submitted(s.service, event, gate, now))
    case Cycle(gate, now, later) =>
      if s.flight.Idle? then
        var (service, plan) := CycleSection(s.service, gate, now, later);
        System(service, if plan.Some? then Executing(plan.value) else Idle)
      else s
    case Execute(success) =>
      if s.flight.Executing? then s.(flight := Executed(s.flight.plan, success)) else s
    case RecordResult =>
      if s.flight.Executed? then
        System(s.service.(model := MA.Record(s.service.model, s.flight.plan, s.flight.success)),
               if !s.flight.success && s.flight.plan.action == PlanApply then Executing(STOP_PLAN) else Idle)
      else s
  }

  // -------------------------------------------------------------------------- the in-place form

  /** The handle: a pending flag beside each stored plan and event.  A stored value whose flag is
      down means nothing. */
  class Handle {
    const application: MA.Application
    var pendingStop: bool
    var stopPlan: Plan
    var pendingApply: bool
    var applyPlan: Plan
    var pendingStopEvent: bool
    var stopEvent: Event
    var pendingArmEvent: bool
    var armEvent: Event
    var pendingCommandEvent: bool
    var commandEvent: Event

    ghost predicate Valid()
      reads this, application
    {
      application.Valid() && application.initialized
    }

    ghost function Contents(): Service
      reads this, application, application.authority, application.authority.mailboxes,
            application.retiredStreams, application.targets
      requires Valid()
    {
      Service(application.Contents(),
              if pendingStop then Some(stopPlan) else None,
              if pendingApply then Some(applyPlan) else None,
              if pendingStopEvent then Some(stopEvent) else None,
              if pendingArmEvent then Some(armEvent) else None,
              if pendingCommandEvent then Some(commandEvent) else None)
    }

    constructor (application: MA.Application)
      requires application.Valid() && application.initialized
      requires application.Contents() == MA.Initial(application.config)
      ensures this.application == application && Valid()
      ensures Contents() == Service(MA.Initial(application.config), None, None, None, None, None)
    {
      this.application := application;
      pendingStop, stopPlan, pendingApply, applyPlan := false, NO_PLAN, false, NO_PLAN;
      var blank := Event(StopAll, CA.NoSource, 0, 0, 0, true, CA.ZERO_VELOCITY, false);
      pendingStopEvent, stopEvent := false, blank;
      pendingArmEvent, armEvent := false, blank;
      pendingCommandEvent, commandEvent := false, blank;
    }

    method QueuePlan(plan: Plan)
      requires Valid()
      modifies `pendingStop, `stopPlan, `pendingApply, `applyPlan
      ensures Valid() && Contents() == Queued(old(Contents()), plan)
    {
      if plan.action == PlanStop {
        stopPlan := plan;
        pendingStop := true;
        pendingApply := false;
      } else if plan.action == PlanApply {
        applyPlan := plan;
        pendingApply := true;
      }
    }

    method TakePendingPlan() returns (plan: Option<Plan>)
      requires Valid()
      modifies `pendingStop, `pendingApply
      ensures Valid() && (Contents(), plan) == TakePlan(old(Contents()))
    {
      if pendingStop {
        pendingStop := false;
        return Some(stopPlan);
      }
      if pendingApply {
        pendingApply := false;
        return Some(applyPlan);
      }
      return None;
    }

    method TakePendingEvent() returns (event: Option<Event>)
      requires Valid()
      modifies `pendingStopEvent, `pendingArmEvent, `pendingCommandEvent
      ensures Valid() && (Contents(), event) == TakeEvent(old(Contents()))
    {
      if pendingStopEvent {
        pendingStopEvent := false;
        return Some(stopEvent);
      }
      if pendingArmEvent {
        pendingArmEvent := false;
        return Some(armEvent);
      }
      if pendingCommandEvent {
        pendingCommandEvent := false;
        return Some(commandEvent);
      }
      return None;
    }

    /** Does not wait for the lock.  The answer says whether a task is there to handle the event, which is
        stored either way. */
    method PublishEvent(event: Event, lockFree: bool, running: bool) returns (accepted: bool)
      requires Valid()
      modifies this
      ensures Valid() && accepted == (lockFree && running)
      ensures Contents() == if lockFree then Published(old(Contents()), event) else old(Contents())
    {
      if !lockFree {
        return false;
      }
      match event.action {
        case StopAll =>
          stopEvent := event;
          pendingStopEvent := true;
          pendingArmEvent := false;
          pendingCommandEvent := false;
          pendingApply := false;
        case Disarm =>
          stopEvent := event;
          pendingStopEvent := true;
          pendingArmEvent := false;
          pendingCommandEvent := false;
          pendingApply := false;
        case Arm =>
          armEvent := event;
          pendingArmEvent := true;
        case Command =>
          commandEvent := event;
          pendingCommandEvent := true;
      }
      accepted := running;
    }

    /** Gives up when the lock is not free in time. */
    method SubmitEvent(event: Event, lockFree: bool, gate: bool, now: U64) returns (accepted: bool)
      requires Valid()
      modifies this, application, application.authority, application.authority.mailboxes,
               application.retiredStreams
      ensures Valid()
      ensures Contents() == if lockFree then Submitted(old(Contents()), event, gate, now) else old(Contents())
      ensures accepted == (lockFree && MA.Submit(old(Contents()).model, event, gate, now).2 == Ok)
    {
      hide MA.Submit, MA.ConfigValid;
      if !lockFree {
        return false;
      }
      var plan, result := application.SubmitEvent(event, gate, now);
      QueuePlan(plan);
      accepted := result == Ok;
    }

    /** The lock section of one cycle of the task. */
    method CycleLocked(gate: bool, now: U64, later: U64) returns (taken: Option<Plan>)
      requires Valid()
      modifies this, application, application.authority, application.authority.mailboxes,
               application.retiredStreams
      ensures Valid() && (Contents(), taken) == CycleSection(old(Contents()), gate, now, later)
    {
      hide MA.Submit, MA.Tick, MA.ConfigValid;
      var event := TakePendingEvent();
      if event.Some? {
        var _ := SubmitEvent(event.value, true, gate, now);
      }
      hide Submitted, TakeEvent;
      taken := TakePendingPlan();
      if taken.None? {
        var plan, _ := application.TickNow(gate, later);
        if plan.action != PlanNone {
          taken := Some(plan);
        }
      }
    }

    method RecordPlanResult(plan: Plan, success: bool)
      requires Valid() && |plan.targets| <= MA.MAX_ENDPOINTS
      modifies application, application.targets
      ensures Valid()
      ensures Contents() == old(Contents()).(model := MA.Record(old(Contents()).model, plan, success))
    {
      hide MA.Record, MA.ConfigValid;
      application.RecordActuation(plan, success);
    }
  }
}
