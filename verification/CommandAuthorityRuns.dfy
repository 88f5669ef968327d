/** What holds over every run of the command authority: any interleaving of publications,
    arbitrations and stops after initialisation. */
module CommandAuthorityRuns {
  import opened MachineIntegers
  import opened Prelude
  import opened CommandAuthority

  datatype Event =
    | Published(source: Source, command: Command, now: U64)
    | Arbitrated(now: U64)
    | Stopped(now: U64)

  function Next(m: Model, e: Event): Model {
    match e
    case Published(source, command, now) => PublishModel(m, source, command, now)
    case Arbitrated(now) => Arbitrate(m, now).0
    case Stopped(now) => ExplicitlyStopped(m, now).0
  }

  /** states[i] is the authority before events[i]. */
  ghost predicate IsRun(config: Config, states: seq<Model>, events: seq<Event>) {
    && ConfigValid(config)
    && |states| == |events| + 1
    && states[0] == Initial(config)
    && forall i | 0 <= i < |events| :: states[i + 1] == Next(states[i], events[i])
  }

  /** The publication of `source` at step i was accepted. */
  predicate Accepts(m: Model, e: Event, source: Source) {
    e.Published? && e.source == source && PublishCheck(m, source, e.command, e.now) == PublishOk
  }

  /** The arbitration at this step let a command through. */
  predicate Applies(m: Model, e: Event) {
    e.Arbitrated? && Arbitrate(m, e.now).1.decision == Apply
  }

  /** The arbitration at this step answered STOP or FAULT_STOP. */
  predicate Halts(m: Model, e: Event) {
    e.Arbitrated? && (Arbitrate(m, e.now).1.decision == Stop || Arbitrate(m, e.now).1.decision == FaultStop)
  }

  /** An explicit stop, or an out-of-order release that stops although it is rejected. */
  predicate Silences(m: Model, e: Event) {
    || e.Stopped?
    || (e.Published? && (!e.command.valid || !e.command.deadman)
        && IsOrderRejection(PublishCheck(m, e.source, e.command, e.now)))
  }

  // --------------------------------------------------------------------- the state invariant

  predicate Distinct(s: seq<U64>) {
    forall i, j | 0 <= i < j < |s| :: s[i] != s[j]
  }

  predicate BoxInvariant(m: Model, box: Mailbox) {
    && box.revision <= m.publicationRevision
    && Distinct(box.retired) && |box.retired| <= RETIRED_STREAM_CAPACITY
    && (!box.initialized ==> box == EMPTY_MAILBOX)
    && (box.initialized ==>
          && m.hasTime
          && box.command.streamId != 0
          && box.command.streamId !in box.retired
          && box.command.receivedAt <= m.lastNow
          && 0 < box.command.ttl <= m.config.maxTtl
          && WithinLimits(m.config, box.command.body))
  }

  predicate Invariant(m: Model) {
    && m.initialized && ConfigValid(m.config)
    && m.barrierRevision <= m.publicationRevision
    && m.barrierTime <= m.lastNow && (!m.hasTime ==> m.lastNow == 0)
    && (!m.granted ==> m.output == ZERO_VELOCITY && !m.outputMoving)
    && (m.selected == NoSource ==> !m.granted)
    && (m.selected != NoSource ==> m.Box(m.selected).initialized)
    && WithinLimits(m.config, m.output)
    && forall s: Source | s != NoSource :: BoxInvariant(m, m.Box(s))
  }

  lemma {:induction false} DistinctExtends(s: seq<U64>, x: U64)
    requires Distinct(s)
    ensures x !in s ==> Distinct(s + [x])
  {
  }

  lemma {:induction false} StopKeepsInvariant(m: Model, now: U64)
    requires Invariant(m)
    ensures Invariant(StopModel(m, now))
  {
    forall s: Source | s != NoSource
      ensures BoxInvariant(StopModel(m, now), StopModel(m, now).Box(s))
    {
      assert StopModel(m, now).Box(s) == Silenced(m.Box(s));
      assert BoxInvariant(m, m.Box(s));
    }
  }

  lemma {:induction false} AcceptedBoxKeepsInvariant(m: Model, source: Source, command: Command, now: U64)
    requires Invariant(m) && PublishCheck(m, source, command, now) == PublishOk
    ensures BoxInvariant(StoreModel(m, source, command, now),
                         AcceptedBox(m.Box(source), command, m.publicationRevision + 1))
  {
    var box := m.Box(source);
    assert BoxInvariant(m, box);
    DistinctExtends(box.retired, box.command.streamId);
  }

  lemma {:induction false} StoreKeepsInvariant(m: Model, source: Source, command: Command, now: U64)
    requires Invariant(m) && PublishCheck(m, source, command, now) == PublishOk
    ensures Invariant(StoreModel(m, source, command, now))
  {
    hide Distinct;
    AcceptedBoxKeepsInvariant(m, source, command, now);
    var after := StoreModel(m, source, command, now);
    forall s: Source | s != NoSource
      ensures BoxInvariant(after, after.Box(s))
    {
      assert BoxInvariant(m, m.Box(s));
      assert s != source ==> after.Box(s) == m.Box(s);
    }
  }

  lemma {:induction false} ArbitrateKeepsInvariant(m: Model, now: U64)
    requires Invariant(m)
    ensures Invariant(Arbitrate(m, now).0)
  {
    var after := Arbitrate(m, now).0;
    forall s: Source | s != NoSource
      ensures BoxInvariant(after, after.Box(s))
    {
      assert BoxInvariant(m, m.Box(s));
      assert after.Box(s) == m.Box(s);
    }
  }

  lemma {:induction false} StepKeepsInvariant(m: Model, e: Event)
    requires Invariant(m)
    ensures Invariant(Next(m, e)) && Next(m, e).config == m.config
  {
    match e
    case Published(source, command, now) =>
      if PublishCheck(m, source, command, now) == PublishOk {
        StoreKeepsInvariant(m, source, command, now);
      } else {
        StopKeepsInvariant(m, now);
        forall s: Source | s != NoSource
          ensures BoxInvariant(m.(exhausted := true), m.(exhausted := true).Box(s))
        {
          assert BoxInvariant(m, m.Box(s));
        }
      }
    case Arbitrated(now) => ArbitrateKeepsInvariant(m, now);
    case Stopped(now) => StopKeepsInvariant(m, now);
  }

  lemma {:induction false} RunKeepsInvariant(config: Config, states: seq<Model>, events: seq<Event>, n: nat)
    requires IsRun(config, states, events) && n < |states|
    ensures Invariant(states[n]) && states[n].config == config
  {
    if n > 0 {
      RunKeepsInvariant(config, states, events, n - 1);
      StepKeepsInvariant(states[n - 1], events[n - 1]);
    }
  }

  // ------------------------------------------------- streams: no replay, no return, full history

  /** The mailbox of a source never moves except by an accepted publication of that source, or by
      a stop that silences it. */
  lemma {:induction false} BoxStep(m: Model, e: Event, s: Source)
    requires Invariant(m) && s != NoSource
    ensures Accepts(m, e, s) ==> Next(m, e).Box(s) == AcceptedBox(m.Box(s), e.command, m.publicationRevision + 1)
    ensures !Accepts(m, e, s) ==> Next(m, e).Box(s) == m.Box(s) || Next(m, e).Box(s) == Silenced(m.Box(s))
    ensures Silences(m, e) ==> Next(m, e).Box(s) == Silenced(m.Box(s))
    ensures !Silences(m, e) && !Accepts(m, e, s) ==> Next(m, e).Box(s) == m.Box(s)
  {
    hide StopModel, Silenced, PublishCheck, PublishModel, Arbitrate, AcceptedBox;
    StopSilences(m, e.now, s);
    ArbitrationKeepsBoxes(m, e.now);
    if e.Published? {
      PublicationChangesBox(m, e, s);
    }
  }

  lemma {:induction false} StopSilences(m: Model, now: U64, s: Source)
    requires s != NoSource
    ensures StopModel(m, now).Box(s) == Silenced(m.Box(s))
  {
  }

  lemma {:induction false} ArbitrationKeepsBoxes(m: Model, now: U64)
    ensures Arbitrate(m, now).0.mailboxes == m.mailboxes
  {
  }

  lemma {:induction false} PublicationChangesBox(m: Model, e: Event, s: Source)
    requires e.Published? && s != NoSource
    ensures var result := PublishCheck(m, e.source, e.command, e.now);
            var after := PublishModel(m, e.source, e.command, e.now);
            after.Box(s) ==
              if result == PublishOk && e.source == s then AcceptedBox(m.Box(s), e.command, m.publicationRevision + 1)
              else if IsOrderRejection(result) && (!e.command.valid || !e.command.deadman) then
                StopModel(m, e.now).Box(s)
              else m.Box(s)
  {
    hide StopModel, AcceptedBox, Silenced;
  }

  /** The streams that `source` had accepted by step n. */
  ghost function AcceptedStreams(states: seq<Model>, events: seq<Event>, n: nat, source: Source): set<U64>
    requires |states| == |events| + 1 && n <= |events|
  {
    set i: nat | i < n && Accepts(states[i], events[i], source) :: events[i].command.streamId
  }

  function Elements(s: seq<U64>): set<U64> {
    set x | x in s
  }

  function KnownStreams(box: Mailbox): set<U64> {
    Elements(box.retired) + if box.initialized then {box.command.streamId} else {}
  }

  lemma {:induction false} KnownStreamsStep(box: Mailbox, command: Command, revision: U64)
    ensures KnownStreams(AcceptedBox(box, command, revision)) == KnownStreams(box) + {command.streamId}
    ensures KnownStreams(Silenced(box)) == KnownStreams(box)
  {
    assert Elements(box.retired + [box.command.streamId]) == Elements(box.retired) + {box.command.streamId};
  }

  lemma {:induction false} AcceptedStreamsStep(states: seq<Model>, events: seq<Event>, n: nat, s: Source)
    requires |states| == |events| + 1 && n < |events|
    ensures AcceptedStreams(states, events, n + 1, s)
         == AcceptedStreams(states, events, n, s)
            + if Accepts(states[n], events[n], s) then {events[n].command.streamId} else {}
  {
    hide PublishCheck;
  }

  /** The retired array together with the current stream is exactly the set of streams that were
      ever accepted, without repetition. */
  lemma {:induction false} HistoryIsComplete(
    config: Config, states: seq<Model>, events: seq<Event>, n: nat, s: Source)
    requires IsRun(config, states, events) && n < |states| && s != NoSource
    ensures KnownStreams(states[n].Box(s)) == AcceptedStreams(states, events, n, s)
    ensures Distinct(states[n].Box(s).retired)
    ensures states[n].Box(s).initialized ==> states[n].Box(s).command.streamId !in states[n].Box(s).retired
  {
    hide PublishCheck, PublishModel, Arbitrate, StopModel;
    RunKeepsInvariant(config, states, events, n);
    if n == 0 {
      assert KnownStreams(states[0].Box(s)) == {};
    } else {
      HistoryIsComplete(config, states, events, n - 1, s);
      RunKeepsInvariant(config, states, events, n - 1);
      var m, e := states[n - 1], events[n - 1];
      BoxStep(m, e, s);
      AcceptedStreamsStep(states, events, n - 1, s);
      KnownStreamsStep(m.Box(s), if e.Published? then e.command else NO_COMMAND, states[n].Box(s).revision);
    }
  }

  lemma {:induction false} ElementsSize(s: seq<U64>)
    ensures |Elements(s)| <= |s|
  {
    if s == [] {
      assert Elements(s) == {};
    } else {
      ElementsSize(s[1..]);
      assert s == [s[0]] + s[1..];
      assert Elements(s) == Elements(s[1..]) + {s[0]};
    }
  }

  /** So a source has at most 17 streams in its life. */
  lemma {:induction false} StreamsAreBounded(config: Config, states: seq<Model>, events: seq<Event>, n: nat, s: Source)
    requires IsRun(config, states, events) && n < |states| && s != NoSource
    ensures |AcceptedStreams(states, events, n, s)| <= RETIRED_STREAM_CAPACITY + 1
  {
    hide PublishCheck, PublishModel, Arbitrate, StopModel;
    HistoryIsComplete(config, states, events, n, s);
    RunKeepsInvariant(config, states, events, n);
    ElementsSize(states[n].Box(s).retired);
  }

  /** From an accepted publication on, the mailbox either still holds that stream, at a sequence at
      least as high, or has retired the stream for good. */
  lemma {:induction false} AcceptedStaysBehind(
    config: Config, states: seq<Model>, events: seq<Event>, i: nat, n: nat, s: Source)
    requires IsRun(config, states, events) && i < n < |states|
    requires Accepts(states[i], events[i], s)
    ensures var box := states[n].Box(s);
            && box.initialized
            && (|| (box.command.streamId == events[i].command.streamId
                    && box.command.sequence >= events[i].command.sequence)
                || events[i].command.streamId in box.retired)
    decreases n
  {
    hide PublishModel, Arbitrate, StopModel;
    RunKeepsInvariant(config, states, events, n - 1);
    BoxStep(states[n - 1], events[n - 1], s);
    if n > i + 1 {
      AcceptedStaysBehind(config, states, events, i, n - 1, s);
    }
  }

  /** No replay: two accepted publications of a source on one stream have rising sequences. */
  lemma {:induction false} NoReplay(config: Config, states: seq<Model>, events: seq<Event>, i: nat, j: nat, s: Source)
    requires IsRun(config, states, events) && i < j < |events|
    requires Accepts(states[i], events[i], s) && Accepts(states[j], events[j], s)
    ensures events[i].command.streamId == events[j].command.streamId ==>
              events[i].command.sequence < events[j].command.sequence
  {
    AcceptedStaysBehind(config, states, events, i, j, s);
    RunKeepsInvariant(config, states, events, j);
    BoxStep(states[j], events[j], s);
  }

  /** A stream that a source has left never comes back. */
  lemma {:induction false} StreamsNeverReturn(
    config: Config, states: seq<Model>, events: seq<Event>, i: nat, j: nat, k: nat, s: Source)
    requires IsRun(config, states, events) && i < j < k < |events|
    requires Accepts(states[i], events[i], s) && Accepts(states[j], events[j], s)
    requires Accepts(states[k], events[k], s)
    requires events[i].command.streamId == events[k].command.streamId
    ensures events[j].command.streamId == events[i].command.streamId
  {
    AcceptedStaysBehind(config, states, events, i, k, s);
    AcceptedStaysBehind(config, states, events, i, j, s);
    RunKeepsInvariant(config, states, events, j);
    BoxStep(states[j], events[j], s);
    if events[j].command.streamId != events[i].command.streamId {
      RetiredStaysRetired(config, states, events, events[i].command.streamId, j + 1, k, s);
      RunKeepsInvariant(config, states, events, k);
    }
  }

  lemma {:induction false} RetiredStaysRetired(
    config: Config, states: seq<Model>, events: seq<Event>, stream: U64, i: nat, n: nat, s: Source)
    requires IsRun(config, states, events) && i <= n < |states| && s != NoSource
    requires stream in states[i].Box(s).retired
    ensures stream in states[n].Box(s).retired
    decreases n
  {
    if n > i {
      RetiredStaysRetired(config, states, events, stream, i, n - 1, s);
      RunKeepsInvariant(config, states, events, n - 1);
      BoxStep(states[n - 1], events[n - 1], s);
    }
  }

  ghost predicate OwnerMoves(m: Model, e: Event) {
    var after := Next(m, e);
    && after.epoch >= m.epoch
    && (after.selected != NoSource && after.selected != m.selected ==>
          && m.Box(after.selected).command.valid
          && Halts(m, e) && after.epoch > m.epoch
          && after.barrierRevision == m.publicationRevision && after.barrierTime == e.now)
    && (after.selected != NoSource && after.selected == m.selected ==>
          && after.barrierRevision == m.barrierRevision && after.barrierTime == m.barrierTime
          && after.Box(m.selected).command.streamId == m.Box(m.selected).command.streamId)
    && (Silences(m, e) ==> after.selected == NoSource)
    && (Applies(m, e) ==> after.selected == m.selected != NoSource)
  }

  lemma {:induction false} OwnerOnPublication(m: Model, e: Event)
    requires Invariant(m) && e.Published?
    ensures OwnerMoves(m, e)
  {
    hide Arbitrate, WithinLimits;
  }

  lemma {:induction false} OwnerOnArbitration(m: Model, e: Event)
    requires Invariant(m) && e.Arbitrated?
    ensures OwnerMoves(m, e)
  {
    hide PublishCheck, WithinLimits, IsMoving, BoxInvariant;
    HighestIsValid(m, e.now);
  }

  lemma {:induction false} HighestIsValid(m: Model, now: U64)
    ensures HighestFresh(m.mailboxes, now) != NoSource ==> m.Box(HighestFresh(m.mailboxes, now)).command.valid
  {
  }

  /** The owner changes to a source only in an arbitration that answers STOP, raises the epoch and
      sets the barrier; otherwise the owner keeps the barrier it had, or there is none any more.  An
      owner that changes its own stream is dropped. */
  lemma {:induction false} OwnerStep(m: Model, e: Event)
    requires Invariant(m)
    ensures OwnerMoves(m, e)
  {
    hide PublishCheck, PublishModel, Arbitrate, IsOrderRejection;
    if e.Published? {
      OwnerOnPublication(m, e);
    } else if e.Arbitrated? {
      OwnerOnArbitration(m, e);
    }
  }

  // ------------------------------------------------------ authority: lease, priority and bounds

  /** What a granted arbitration means.  The command is the one of the highest-priority mailbox
      whose lease has not run out, it was published after the barrier, and the output is inside
      the velocity limits; a released deadman gives exactly zero. */
  lemma {:induction false} ApplyIsLeasedAndBounded(m: Model, now: U64)
    requires Invariant(m) && Arbitrate(m, now).1.decision == Apply
    ensures var s := Arbitrate(m, now).0.selected; var box := m.Box(s); var r := Arbitrate(m, now).1;
            && s == m.selected != NoSource && box.initialized && box.command.valid
            && box.command.receivedAt <= now
            && now - box.command.receivedAt < box.command.ttl <= m.config.maxTtl
            && (forall other: Source | Index(other) > Index(s) :: !Fresh(m.Box(other), now))
            && r.commandRevision == box.revision > m.barrierRevision
            && box.command.receivedAt > m.barrierTime
            && WithinLimits(m.config, r.output)
            && r.output == (if box.command.deadman then box.command.body else ZERO_VELOCITY)
  {
    assert BoxInvariant(m, m.Box(m.selected));
  }

  /** Nothing but a granted arbitration ever leaves an output other than zero. */
  lemma {:induction false} OnlyGrantMoves(config: Config, states: seq<Model>, events: seq<Event>, n: nat)
    requires IsRun(config, states, events) && n < |states|
    ensures !states[n].granted ==> states[n].output == ZERO_VELOCITY
    ensures WithinLimits(config, states[n].output)
    ensures n > 0 && states[n].output != states[n - 1].output && states[n].output != ZERO_VELOCITY ==>
              Applies(states[n - 1], events[n - 1])
  {
    RunKeepsInvariant(config, states, events, n);
    if n > 0 {
      RunKeepsInvariant(config, states, events, n - 1);
    }
  }

  // --------------------------------------------------------------------- authority: the barrier

  /** The arbitration at step k set the barrier that is in force. */
  predicate BarrierFrom(states: seq<Model>, events: seq<Event>, k: nat, m: Model)
    requires |states| == |events| + 1 && k < |events|
  {
    && Halts(states[k], events[k])
    && m.barrierRevision == states[k].publicationRevision
    && m.barrierTime == events[k].now
  }

  /** After an APPLY at step i of stream `stream` of source `s`: the owner has not changed, or there
      is no owner, or a later arbitration has answered STOP and set the present barrier. */
  ghost predicate Fenced(states: seq<Model>, events: seq<Event>, i: nat, n: nat, s: Source, stream: U64)
    requires |states| == |events| + 1 && i < n < |states|
  {
    var m := states[n];
    || m.selected == NoSource
    || (m.selected == s && m.Box(s).command.streamId == stream)
    || (m.epoch > states[i].epoch && exists k: nat | i < k < n :: BarrierFrom(states, events, k, m))
  }

  lemma {:induction false} FenceHolds(
    config: Config, states: seq<Model>, events: seq<Event>, i: nat, n: nat)
    requires IsRun(config, states, events) && i < n < |states|
    requires Applies(states[i], events[i])
    ensures Fenced(states, events, i, n, states[i].selected, states[i].Box(states[i].selected).command.streamId)
    ensures states[n].epoch >= states[i].epoch
    decreases n
  {
    hide PublishCheck, PublishModel, Arbitrate, StopModel;
    var s := states[i].selected;
    RunKeepsInvariant(config, states, events, i);
    OwnerStep(states[i], events[i]);
    RunKeepsInvariant(config, states, events, n - 1);
    var m, e, after := states[n - 1], events[n - 1], states[n];
    BoxStep(m, e, s);
    OwnerStep(m, e);
    if n > i + 1 {
      FenceHolds(config, states, events, i, n - 1);
      if after.selected != m.selected {
        assert after.selected != NoSource ==> BarrierFrom(states, events, n - 1, after);
      } else if after.selected != NoSource {
        assert forall k: nat | i < k < n - 1 ::
            BarrierFrom(states, events, k, m) ==> BarrierFrom(states, events, k, after);
      }
    }
  }

  /** Between two APPLY decisions of different source or stream some arbitration answered STOP or
      FAULT_STOP, the later command was published after that arbitration and received strictly
      after it, and the authority epoch has moved on: nothing is carried over a switch. */
  lemma {:induction false} AuthorityBarrier(config: Config, states: seq<Model>, events: seq<Event>, i: nat, j: nat)
    requires IsRun(config, states, events) && i < j < |events|
    requires Applies(states[i], events[i]) && Applies(states[j], events[j])
    requires || states[i].selected != states[j].selected
             || states[i].Box(states[i].selected).command.streamId
                != states[j].Box(states[j].selected).command.streamId
    ensures states[j].epoch > states[i].epoch
    ensures exists k: nat | i < k < j ::
              && Halts(states[k], events[k])
              && Arbitrate(states[j], events[j].now).1.commandRevision > states[k].publicationRevision
              && states[j].Box(states[j].selected).command.receivedAt > events[k].now
  {
    hide PublishCheck, PublishModel, Arbitrate, StopModel;
    RunKeepsInvariant(config, states, events, j);
    FenceHolds(config, states, events, i, j);
    ApplyIsLeasedAndBounded(states[j], events[j].now);
    var k: nat :| i < k < j && BarrierFrom(states, events, k, states[j]);
    assert Halts(states[k], events[k]);
  }

  // ------------------------------------------------------------------ authority: after a stop

  /** A publication of `s` was accepted in the open range of steps between a and b. */
  ghost predicate PublishedBetween(states: seq<Model>, events: seq<Event>, a: nat, b: nat, s: Source)
    requires |states| == |events| + 1
  {
    exists p: nat | a < p < b && p < |events| :: Accepts(states[p], events[p], s)
  }

  /** Since the stop at step k the source has published, then an arbitration at a has selected it. */
  ghost predicate Reselected(states: seq<Model>, events: seq<Event>, k: nat, a: nat, s: Source, m: Model)
    requires |states| == |events| + 1 && a < |events|
  {
    && k < a
    && PublishedBetween(states, events, k, a, s)
    && BarrierFrom(states, events, a, m)
  }

  lemma {:induction false} AfterStop(
    config: Config, states: seq<Model>, events: seq<Event>, k: nat, n: nat, s: Source)
    requires IsRun(config, states, events) && k < n < |states| && s != NoSource
    requires Silences(states[k], events[k])
    ensures states[n].Box(s).command.valid ==> PublishedBetween(states, events, k, n, s)
    ensures states[n].selected == s ==>
              exists a: nat | k < a < n :: Reselected(states, events, k, a, s, states[n])
    decreases n
  {
    hide PublishCheck, PublishModel, Arbitrate, StopModel;
    RunKeepsInvariant(config, states, events, n - 1);
    var m, e, after := states[n - 1], events[n - 1], states[n];
    BoxStep(m, e, s);
    OwnerStep(m, e);
    if n > k + 1 {
      AfterStop(config, states, events, k, n - 1, s);
      assert PublishedBetween(states, events, k, n - 1, s) ==> PublishedBetween(states, events, k, n, s);
      assert Accepts(m, e, s) ==> PublishedBetween(states, events, k, n, s);
      if after.selected == s {
        if m.selected == s {
          var a: nat :| k < a < n - 1 && Reselected(states, events, k, a, s, m);
          assert Reselected(states, events, k, a, s, after);
        } else {
          assert Reselected(states, events, k, n - 1, s, after);
        }
      }
    }
  }

  /** A publication raises the revision counter; a mailbox above the counter of step a has been
      published after a. */
  lemma {:induction false} RevisionWitness(
    config: Config, states: seq<Model>, events: seq<Event>, a: nat, n: nat, s: Source)
    requires IsRun(config, states, events) && a < n < |states| && s != NoSource
    requires !events[a].Published?
    ensures states[n].Box(s).revision > states[a].publicationRevision ==>
              PublishedBetween(states, events, a, n, s)
    decreases n
  {
    hide PublishCheck, PublishModel, Arbitrate, StopModel;
    RunKeepsInvariant(config, states, events, n - 1);
    BoxStep(states[n - 1], events[n - 1], s);
    if n > a + 1 {
      RevisionWitness(config, states, events, a, n - 1, s);
      assert PublishedBetween(states, events, a, n - 1, s) ==> PublishedBetween(states, events, a, n, s);
      assert Accepts(states[n - 1], events[n - 1], s) ==> PublishedBetween(states, events, a, n, s);
    }
  }

  /** After a stop, an APPLY of a source needs two newly accepted publications of that source with
      an arbitration that answered STOP between them. */
  lemma {:induction false} StopNeedsTwoPublications(
    config: Config, states: seq<Model>, events: seq<Event>, k: nat, j: nat)
    requires IsRun(config, states, events) && k < j < |events|
    requires Silences(states[k], events[k]) && Applies(states[j], events[j])
    ensures var s := states[j].selected;
            exists p: nat, a: nat, q: nat | k < p < a < q < j ::
              && Accepts(states[p], events[p], s)
              && Halts(states[a], events[a])
              && Accepts(states[q], events[q], s)
  {
    hide PublishCheck, PublishModel, Arbitrate, StopModel;
    var s := states[j].selected;
    RunKeepsInvariant(config, states, events, j);
    OwnerStep(states[j], events[j]);
    ApplyIsLeasedAndBounded(states[j], events[j].now);
    AfterStop(config, states, events, k, j, s);
    var a: nat :| k < a < j && Reselected(states, events, k, a, s, states[j]);
    RevisionWitness(config, states, events, a, j, s);
    var p: nat :| k < p < a && p < |events| && Accepts(states[p], events[p], s);
    var q: nat :| a < q < j && q < |events| && Accepts(states[q], events[q], s);
    assert Halts(states[a], events[a]);
  }
}
