/** What the command authority answers over every run, told from the leases, the limits and the history
    alone: who should drive, when a command is applied, and how an owner loses the authority. */
module CommandAuthorityAnswers {
  import opened MachineIntegers
  import opened Prelude
  import opened CommandAuthority
  import opened CommandAuthorityRuns

  /** The lease of the mailbox's command runs at `now`. */
  predicate Leased(box: Mailbox, now: U64) {
    && box.initialized && box.command.valid
    && box.command.receivedAt <= now < box.command.receivedAt + box.command.ttl
  }

  /** `s` is the one to drive: its lease runs, and no lease of higher priority does. */
  predicate Deserves(m: Model, now: U64, s: Source) {
    && (s != NoSource ==> Leased(m.Box(s), now))
    && forall other: Source | Index(other) > Index(s) :: !Leased(m.Box(other), now)
  }

  /** Some component of the velocity is larger than the configuration calls standing still. */
  predicate Moves(config: Config, v: Velocity) {
    !(&& -config.movingEpsilon.vx <= v.vx <= config.movingEpsilon.vx
      && -config.movingEpsilon.vy <= v.vy <= config.movingEpsilon.vy
      && -config.movingEpsilon.wz <= v.wz <= config.movingEpsilon.wz)
  }

  /** The clock does not run backwards. */
  predicate ClockRuns(m: Model, now: U64) {
    !m.hasTime || m.lastNow <= now
  }

  /** A hand-over at `now` would need a number beyond 64 bits. */
  predicate Overflows(m: Model, now: U64) {
    m.epoch == U64_MAX || (m.publicationRevision == U64_MAX && !Deserves(m, now, NoSource))
  }

  lemma {:induction false} FreshIffLeased(box: Mailbox, now: U64)
    ensures Fresh(box, now) <==> Leased(box, now)
  {
  }

  lemma {:induction false} HighestDeserves(m: Model, now: U64, s: Source)
    ensures Deserves(m, now, s) <==> s == HighestFresh(m.mailboxes, now)
  {
    hide Fresh, Leased;
    FreshIffLeased(m.Box(Bluetooth), now);
    FreshIffLeased(m.Box(Lan), now);
    FreshIffLeased(m.Box(Rc), now);
    assert Index(Bluetooth) == 1 && Index(Lan) == 2 && Index(Rc) == 3;
  }

  lemma {:induction false} MovesIff(config: Config, v: Velocity)
    ensures Moves(config, v) <==> IsMoving(config, v)
  {
  }

  lemma {:induction false} ZeroStands(config: Config)
    requires ConfigValid(config)
    ensures !IsMoving(config, ZERO_VELOCITY)
  {
  }

  /** The stored flag always tells whether the output in force moves. */
  lemma {:induction false} MovingIsKnown(config: Config, states: seq<Model>, events: seq<Event>, n: nat)
    requires IsRun(config, states, events) && n < |states|
    ensures states[n].outputMoving <==> Moves(config, states[n].output)
  {
    hide Fresh, PublishCheck, HighestFresh, IsMoving, Moves;
    ZeroStands(config);
    MovesIff(config, states[n].output);
    if n > 0 {
      MovingIsKnown(config, states, events, n - 1);
      MovesIff(config, states[n - 1].output);
      RunKeepsInvariant(config, states, events, n - 1);
    }
  }

  // --------------------------------------------------------------------------------- the decision

  /** A command is applied exactly when its source already owns the authority and is still the one to
      drive, and it was published behind the barrier and received strictly after it. */
  lemma {:induction false} AppliesIff(config: Config, states: seq<Model>, events: seq<Event>, n: nat)
    requires IsRun(config, states, events) && n < |events| && events[n].Arbitrated?
    ensures var m, now := states[n], events[n].now; var box := m.Box(m.selected);
            Applies(m, events[n]) <==>
              && ClockRuns(m, now) && m.selected != NoSource && Deserves(m, now, m.selected)
              && box.revision > m.barrierRevision && box.command.receivedAt > m.barrierTime
  {
    hide Fresh, HighestFresh, Deserves;
    RunKeepsInvariant(config, states, events, n);
    HighestDeserves(states[n], events[n].now, states[n].selected);
  }

  /** An arbitration answers nothing exactly when the clock has run backwards, and then it changes
      nothing; otherwise the one to drive owns the authority afterwards, unless the counters end. */
  lemma {:induction false} OwnerDeserves(config: Config, states: seq<Model>, events: seq<Event>, n: nat)
    requires IsRun(config, states, events) && n < |events| && events[n].Arbitrated?
    ensures var m, now, after := states[n], events[n].now, states[n + 1];
            && (Arbitrate(m, now).1.decision == Invalid <==> !ClockRuns(m, now))
            && (!ClockRuns(m, now) ==>
                  && after == m
                  && Arbitrate(m, now).1 == CycleResult(Invalid, ClockRegressed, m.selected, m.selected, 0, m.output))
            && (ClockRuns(m, now) ==>
                  if !Deserves(m, now, m.selected) && Overflows(m, now) then
                    after.selected == NoSource && after.exhausted
                  else
                    Deserves(m, now, after.selected))
  {
    hide Fresh, Deserves;
    RunKeepsInvariant(config, states, events, n);
    var m, now := states[n], events[n].now;
    HighestDeserves(m, now, m.selected);
    HighestDeserves(m, now, NoSource);
    HighestDeserves(m, now, HighestFresh(m.mailboxes, now));
    hide HighestFresh;
  }

  /** An authority that has never been configured moves nothing and answers so. */
  lemma {:induction false} UnconfiguredIsInert(m: Model, source: Source, command: Command, now: U64)
    requires !m.initialized
    ensures var silent := CycleResult(Invalid, Uninitialized, NoSource, NoSource, 0, ZERO_VELOCITY);
            && Arbitrate(m, now) == ExplicitlyStopped(m, now) == (m, silent)
            && PublishCheck(m, source, command, now) == NotInitialized
            && PublishModel(m, source, command, now) == m
  {
  }

  /** An owner, or the absence of one, gives way at this arbitration. */
  predicate HandsOver(m: Model, e: Event) {
    e.Arbitrated? && ClockRuns(m, e.now) && !Deserves(m, e.now, m.selected)
  }

  /** While the counters last, a hand-over answers FAULT_STOP exactly when the owner's lease has gone
      while the output in force moves, and STOP otherwise.  The reason tells a lease that ran out from a
      command that was withdrawn, and both from an owner outranked during its lease. */
  lemma {:induction false} HandOverAnswer(config: Config, states: seq<Model>, events: seq<Event>, n: nat)
    requires IsRun(config, states, events) && n < |events| && HandsOver(states[n], events[n])
    requires !Overflows(states[n], events[n].now)
    ensures var m, now := states[n], events[n].now; var box, cycle := m.Box(m.selected), Arbitrate(m, now).1;
            && (cycle.decision == FaultStop <==>
                  m.selected != NoSource && !Leased(box, now) && Moves(config, m.output))
            && (cycle.decision == Stop <==> cycle.decision != FaultStop)
            && (cycle.reason == SelectedSourceExpired <==>
                  m.selected != NoSource && box.command.valid && now >= box.command.receivedAt + box.command.ttl)
            && (cycle.reason == SelectedSourceInvalidated <==> m.selected != NoSource && !box.command.valid)
            && (cycle.reason == SourceSwitch <==> m.selected == NoSource || Leased(box, now))
  {
    hide HighestFresh, Deserves, IsMoving, Moves, WithinLimits;
    var m, now := states[n], events[n].now;
    RunKeepsInvariant(config, states, events, n);
    MovingIsKnown(config, states, events, n);
    HighestDeserves(m, now, m.selected);
    HighestDeserves(m, now, NoSource);
    FreshIffLeased(m.Box(m.selected), now);
  }

  /** When a hand-over would need a number beyond 64 bits, it is a FAULT_STOP, and nobody owns the
      authority. */
  lemma {:induction false} OverflowAnswer(config: Config, states: seq<Model>, events: seq<Event>, n: nat)
    requires IsRun(config, states, events) && n < |events| && events[n].Arbitrated?
    ensures var m, now := states[n], events[n].now; var cycle := Arbitrate(m, now).1;
            (cycle.reason == CountersExhausted <==> HandsOver(m, events[n]) && Overflows(m, now))
            && (cycle.reason == CountersExhausted ==> cycle.decision == FaultStop && cycle.selectedSource == NoSource)
  {
    hide Fresh, HighestFresh, Deserves;
    RunKeepsInvariant(config, states, events, n);
    HighestDeserves(states[n], events[n].now, states[n].selected);
    HighestDeserves(states[n], events[n].now, NoSource);
  }

  /** Without a hand-over, the answer is APPLY, or STOP for want of a source or of a command behind the
      barrier. */
  lemma {:induction false} QuietAnswer(config: Config, states: seq<Model>, events: seq<Event>, n: nat)
    requires IsRun(config, states, events) && n < |events| && events[n].Arbitrated?
    requires ClockRuns(states[n], events[n].now) && !HandsOver(states[n], events[n])
    ensures var m, now := states[n], events[n].now; var cycle := Arbitrate(m, now).1;
            && cycle.selectedSource == cycle.previousSource == m.selected
            && (cycle.decision == Stop <==> cycle.decision != Apply)
            && (cycle.reason == NoFreshSource <==> m.selected == NoSource)
            && (cycle.reason == WaitingFreshAfterSwitch <==> m.selected != NoSource && cycle.decision == Stop)
            && (cycle.reason == CommandApplied <==> cycle.decision == Apply)
  {
    hide Fresh, HighestFresh, Deserves;
    RunKeepsInvariant(config, states, events, n);
    HighestDeserves(states[n], events[n].now, states[n].selected);
  }

  // ---------------------------------------------------------------------------------- the output

  /** A stop, a rejected release, an arbitration that answers STOP or FAULT_STOP, or a change of the
      owner's own stream. */
  predicate Interrupts(m: Model, e: Event) {
    || Silences(m, e) || Halts(m, e)
    || (m.selected != NoSource && Accepts(m, e, m.selected) && e.command.streamId != m.Box(m.selected).command.streamId)
  }

  /** The authority has been granted at step k, and nothing has interrupted it before n. */
  ghost predicate GrantedSince(states: seq<Model>, events: seq<Event>, k: nat, n: nat)
    requires |states| == |events| + 1 && n <= |events|
  {
    && k < n && Applies(states[k], events[k])
    && forall i | k < i < n :: !Interrupts(states[i], events[i]) && !Applies(states[i], events[i])
  }

  lemma {:induction false} GrantStep(m: Model, e: Event)
    requires Invariant(m)
    ensures Applies(m, e) ==> Next(m, e).granted && Next(m, e).output == Arbitrate(m, e.now).1.output
    ensures Interrupts(m, e) ==> !Next(m, e).granted && Next(m, e).output == ZERO_VELOCITY
    ensures !Applies(m, e) && !Interrupts(m, e) ==>
              Next(m, e).granted == m.granted && Next(m, e).output == m.output
  {
    hide Fresh, HighestFresh, IsMoving, PublishCheck;
  }

  /** In every run the output is granted exactly when some APPLY stands without an interruption since,
      and then it is the velocity of the latest such APPLY; otherwise it is zero. */
  lemma {:induction false} OutputIsTheLastApply(config: Config, states: seq<Model>, events: seq<Event>, n: nat)
    requires IsRun(config, states, events) && n < |states|
    ensures states[n].granted <==> exists k: nat :: GrantedSince(states, events, k, n)
    ensures forall k: nat | GrantedSince(states, events, k, n) ::
              states[n].output == Arbitrate(states[k], events[k].now).1.output
    ensures !states[n].granted ==> states[n].output == ZERO_VELOCITY
  {
    hide Next, Applies, Interrupts, Arbitrate;
    RunKeepsInvariant(config, states, events, n);
    if n > 0 {
      OutputIsTheLastApply(config, states, events, n - 1);
      RunKeepsInvariant(config, states, events, n - 1);
      var m, e := states[n - 1], events[n - 1];
      GrantStep(m, e);
      if Applies(m, e) {
        assert GrantedSince(states, events, n - 1, n);
      }
      forall k: nat | k < n - 1 && GrantedSince(states, events, k, n)
        ensures GrantedSince(states, events, k, n - 1) && !Applies(m, e) && !Interrupts(m, e)
      {
      }
      if !Applies(m, e) && !Interrupts(m, e) && m.granted {
        var k: nat :| GrantedSince(states, events, k, n - 1);
        assert GrantedSince(states, events, k, n);
      }
    }
  }

  // ------------------------------------------------------------------------------ the publications

  /** The objections to a publication by the order in which they are raised. */
  function Rank(objection: PublishResult): nat {
    match objection
    case NotInitialized => 0
    case InvalidSource => 1
    case StreamIdZero => 2
    case ClockRegression => 3
    case TimestampInFuture => 4
    case TtlInvalid => 5
    case ExpiredOnArrival => 6
    case NonfiniteVelocity => 7
    case VelocityLimit => 8
    case TimestampRegression => 9
    case SequenceNotIncreasing => 10
    case StreamRetired => 11
    case StreamHistoryFull => 12
    case CounterExhausted => 13
    case PublishOk => 14
  }

  /** The command would move: it is valid and its deadman is held. */
  predicate Held(command: Command) {
    command.valid && command.deadman
  }

  predicate Inside(limit: Velocity, v: Velocity) {
    -limit.vx <= v.vx <= limit.vx && -limit.vy <= v.vy <= limit.vy && -limit.wz <= v.wz <= limit.wz
  }

  predicate Objects(m: Model, source: Source, command: Command, now: U64, objection: PublishResult) {
    var last := m.Box(source);
    var same := last.initialized && command.streamId == last.command.streamId;
    match objection
    case NotInitialized => !m.initialized
    case InvalidSource => source == NoSource
    case StreamIdZero => command.streamId == 0
    case ClockRegression => !ClockRuns(m, now)
    case TimestampInFuture => now < command.receivedAt
    case TtlInvalid => !(0 < command.ttl <= m.config.maxTtl && command.receivedAt + command.ttl <= U64_MAX)
    case ExpiredOnArrival => command.receivedAt + command.ttl <= now
    case NonfiniteVelocity => Held(command) && !command.finite
    case VelocityLimit => Held(command) && !Inside(m.config.velocityLimit, command.body)
    case TimestampRegression => last.initialized && command.receivedAt < last.command.receivedAt
    case SequenceNotIncreasing => same && command.sequence <= last.command.sequence
    case StreamRetired => last.initialized && !same && command.streamId in last.retired
    case StreamHistoryFull => last.initialized && !same && |last.retired| == RETIRED_STREAM_CAPACITY
    case CounterExhausted => m.publicationRevision == U64_MAX
    case PublishOk => false
  }

  lemma {:induction false} InsideIff(config: Config, v: Velocity)
    ensures Inside(config.velocityLimit, v) <==> WithinLimits(config, v)
  {
  }

  lemma {:induction false} AnswerObjects(
    m: Model, source: Source, command: Command, now: U64, objection: PublishResult)
    requires Invariant(m)
    ensures var answer := PublishCheck(m, source, command, now);
            && (answer != PublishOk ==> Objects(m, source, command, now, answer))
            && (Rank(objection) < Rank(answer) ==> !Objects(m, source, command, now, objection))
            && (Rank(objection) == Rank(answer) ==> objection == answer)
  {
    hide Inside, WithinLimits;
    InsideIff(m.config, command.body);
    assert source != NoSource ==> BoxInvariant(m, m.Box(source));
  }

  /** A publication is accepted exactly when there is no objection to it, and otherwise answered with the
      first one. */
  lemma {:induction false} FirstObjection(m: Model, source: Source, command: Command, now: U64)
    requires Invariant(m)
    ensures var answer := PublishCheck(m, source, command, now);
            && (answer == PublishOk <==> forall o: PublishResult :: !Objects(m, source, command, now, o))
            && forall o: PublishResult | o != PublishOk ::
                 answer == o <==>
                   && Objects(m, source, command, now, o)
                   && forall p: PublishResult | Rank(p) < Rank(o) :: !Objects(m, source, command, now, p)
  {
    hide PublishCheck, Objects, Invariant;
    var answer := PublishCheck(m, source, command, now);
    forall o: PublishResult
      ensures Rank(o) < Rank(answer) ==> !Objects(m, source, command, now, o)
      ensures Rank(o) == Rank(answer) ==> o == answer
      ensures answer != PublishOk ==> Objects(m, source, command, now, answer)
    {
      AnswerObjects(m, source, command, now, o);
    }
    AnswerObjects(m, source, command, now, answer);
    NoObjection(m, source, command, now);
  }

  lemma {:induction false} NoObjection(m: Model, source: Source, command: Command, now: U64)
    ensures !Objects(m, source, command, now, PublishOk)
    ensures forall o: PublishResult :: o == PublishOk || Rank(o) < Rank(PublishOk)
  {
  }

  /** A rejected publication stops exactly when its deadman is not held, and it is out of order: a sequence
      that does not rise, a stream that was left, or one stream too many, and nothing else is wrong. */
  lemma {:induction false} RejectedReleaseStopsIff(m: Model, source: Source, command: Command, now: U64)
    requires Invariant(m)
    ensures Silences(m, Published(source, command, now)) <==>
              && !Held(command)
              && (forall o: PublishResult | Rank(o) < Rank(SequenceNotIncreasing) ::
                    !Objects(m, source, command, now, o))
              && (|| Objects(m, source, command, now, SequenceNotIncreasing)
                  || Objects(m, source, command, now, StreamRetired)
                  || Objects(m, source, command, now, StreamHistoryFull))
  {
    hide PublishCheck, Objects, Invariant;
    var answer := PublishCheck(m, source, command, now);
    forall o: PublishResult ensures Rank(o) < Rank(answer) ==> !Objects(m, source, command, now, o) {
      AnswerObjects(m, source, command, now, o);
    }
    AnswerObjects(m, source, command, now, answer);
  }

  /** A publication that is neither accepted nor stops leaves everything as it was, but for the note that
      the counter has ended. */
  lemma {:induction false} RejectionEffect(m: Model, source: Source, command: Command, now: U64)
    requires Invariant(m) && source != NoSource
    ensures var e := Published(source, command, now); var after := Next(m, e);
            !Accepts(m, e, source) && !Silences(m, e) ==>
              after == m.(exhausted := m.exhausted || PublishCheck(m, source, command, now) == CounterExhausted)
  {
    hide PublishCheck, StopModel, StoreModel;
  }

  /** An accepted publication is the mailbox from then on: without a held deadman it carries no velocity.  It
      has the next revision, and leaves the owner alone unless the owner itself has changed its stream. */
  lemma {:induction false} AcceptanceEffect(m: Model, source: Source, command: Command, now: U64)
    requires Invariant(m) && Accepts(m, Published(source, command, now), source)
    ensures var after := Next(m, Published(source, command, now)); var box, last := after.Box(source), m.Box(source);
            var changes := last.initialized && command.streamId != last.command.streamId;
            && box.initialized && box.revision == after.publicationRevision == m.publicationRevision + 1
            && box.command == command.(body := if Held(command) then command.body else ZERO_VELOCITY)
            && after.hasTime && after.lastNow == now && after.epoch == m.epoch && after.config == m.config
            && after.barrierRevision == m.barrierRevision && after.barrierTime == m.barrierTime
            && after.exhausted == m.exhausted
            && after.selected == (if changes && m.selected == source then NoSource else m.selected)
            && forall other: Source | other != source :: after.Box(other) == m.Box(other)
  {
    hide PublishCheck, WithinLimits;
  }

  /** A stop leaves nobody in charge, raises the epoch as long as it lasts, and sets the barrier at
      everything published so far and at the latest time ever seen. */
  lemma {:induction false} StopEffect(m: Model, e: Event)
    requires Invariant(m) && Silences(m, e)
    ensures var after := Next(m, e); var clock := if ClockRuns(m, e.now) then e.now else m.lastNow;
            && after.selected == NoSource && !after.granted && after.output == ZERO_VELOCITY
            && after.barrierRevision == after.publicationRevision == m.publicationRevision
            && after.barrierTime == after.lastNow == clock && after.hasTime
            && after.epoch == (if m.epoch == U64_MAX then m.epoch else m.epoch + 1)
            && after.exhausted == (m.exhausted || m.epoch == U64_MAX)
            && forall s: Source | s != NoSource :: after.Box(s) == Silenced(m.Box(s)) && !after.Box(s).command.valid
    ensures e.Stopped? ==>
              ExplicitlyStopped(m, e.now).1 == CycleResult(Stop, ExplicitStop, m.selected, NoSource, 0, ZERO_VELOCITY)
  {
    hide PublishCheck;
    forall s: Source | s != NoSource ensures Next(m, e).Box(s) == Silenced(m.Box(s)) {
      BoxStep(m, e, s);
    }
  }

  /** A hand-over raises the epoch as long as it lasts and sets the barrier at everything published so far
      and at the present time; an arbitration without one leaves epoch and barrier alone. */
  lemma {:induction false} HandOverEffect(m: Model, e: Event)
    requires Invariant(m) && e.Arbitrated? && ClockRuns(m, e.now)
    ensures var after := Next(m, e);
            && after.hasTime && after.lastNow == e.now && after.mailboxes == m.mailboxes
            && after.publicationRevision == m.publicationRevision && after.config == m.config
            && (if HandsOver(m, e) then
                  && after.barrierRevision == m.publicationRevision && after.barrierTime == e.now
                  && after.epoch == (if m.epoch == U64_MAX then m.epoch else m.epoch + 1)
                  && after.exhausted == (m.exhausted || Overflows(m, e.now))
                  && !after.granted && after.output == ZERO_VELOCITY
                else
                  && after.barrierRevision == m.barrierRevision && after.barrierTime == m.barrierTime
                  && after.epoch == m.epoch && after.exhausted == m.exhausted && after.selected == m.selected)
    ensures var cycle := Arbitrate(m, e.now).1;
            && cycle.previousSource == m.selected && cycle.selectedSource == Next(m, e).selected
            && cycle.output == Next(m, e).output
            && cycle.commandRevision == (if cycle.decision == Apply then m.Box(m.selected).revision else 0)
  {
    hide Fresh, HighestFresh, Deserves, IsMoving;
    HighestDeserves(m, e.now, m.selected);
    HighestDeserves(m, e.now, NoSource);
  }

  // ---------------------------------------------------------------------------------- the counters

  /** The hand-overs and stops among the first n steps. */
  function Barriers(states: seq<Model>, events: seq<Event>, n: nat): nat
    requires |states| == |events| + 1 && n <= |events|
  {
    if n == 0 then 0
    else Barriers(states, events, n - 1)
         + if HandsOver(states[n - 1], events[n - 1]) || Silences(states[n - 1], events[n - 1]) then 1 else 0
  }

  /** The step needs a number beyond 64 bits. */
  predicate Ends(m: Model, e: Event) {
    || (HandsOver(m, e) && Overflows(m, e.now))
    || (Silences(m, e) && m.epoch == U64_MAX)
    || (e.Published? && PublishCheck(m, e.source, e.command, e.now) == CounterExhausted)
  }

  lemma {:induction false} EpochStep(m: Model, e: Event)
    requires Invariant(m)
    ensures Next(m, e).epoch ==
              if (HandsOver(m, e) || Silences(m, e)) && m.epoch < U64_MAX then m.epoch + 1 else m.epoch
    ensures Next(m, e).exhausted == (m.exhausted || Ends(m, e))
  {
    hide Fresh, HighestFresh, Deserves, IsMoving, PublishCheck, WithinLimits;
    if e.Arbitrated? {
      HighestDeserves(m, e.now, m.selected);
      HighestDeserves(m, e.now, NoSource);
    }
  }

  /** In every run the epoch is the number of hand-overs and stops, up to the end of its 64 bits, and the
      counters count as exhausted exactly when some step has needed more. */
  lemma {:induction false} EpochCountsBarriers(config: Config, states: seq<Model>, events: seq<Event>, n: nat)
    requires IsRun(config, states, events) && n < |states|
    ensures states[n].epoch == Min(U64_MAX, Barriers(states, events, n))
    ensures states[n].exhausted <==> exists i | 0 <= i < n :: Ends(states[i], events[i])
  {
    hide Next, HandsOver, Silences, Overflows, PublishCheck;
    if n > 0 {
      EpochCountsBarriers(config, states, events, n - 1);
      RunKeepsInvariant(config, states, events, n - 1);
      EpochStep(states[n - 1], events[n - 1]);
    }
  }
}
