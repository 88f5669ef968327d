/** The command authority: one prioritised mailbox per command source, with leases, stream and
    sequence ordering, and the barrier that keeps a new owner from inheriting old commands.

    The first half is the transition function of the authority on values; the class at the end is
    the in-place form, proved to follow it step by step. */
module CommandAuthority {
  import opened MachineIntegers
  import opened Prelude

  const RETIRED_STREAM_CAPACITY: nat := 16
  const SOURCE_COUNT: nat := 4

  /** In rising priority; NoSource is the absence of an owner and never a valid publisher. */
  datatype Source = NoSource | Bluetooth | Lan | Rc

  function Index(source: Source): nat {
    match source
    case NoSource => 0
    case Bluetooth => 1
    case Lan => 2
    case Rc => 3
  }

  datatype Velocity = Velocity(vx: real, vy: real, wz: real)

  const ZERO_VELOCITY: Velocity := Velocity(0.0, 0.0, 0.0)

  /** `finite` is the outcome of the finiteness test on the three floats of `body`. */
  datatype Command = Command(
    streamId: U64, sequence: U64, receivedAt: U64, ttl: U64,
    valid: bool, deadman: bool, finite: bool, body: Velocity)

  datatype Config = Config(velocityLimit: Velocity, movingEpsilon: Velocity, maxTtl: U64)

  datatype PublishResult =
    | PublishOk
    | NotInitialized
    | InvalidSource
    | StreamIdZero
    | StreamRetired
    | StreamHistoryFull
    | SequenceNotIncreasing
    | ClockRegression
    | TimestampInFuture
    | TimestampRegression
    | TtlInvalid
    | ExpiredOnArrival
    | NonfiniteVelocity
    | VelocityLimit
    | CounterExhausted

  datatype Decision = Invalid | Stop | Apply | FaultStop

  datatype Reason =
    | NoFreshSource
    | SourceSwitch
    | WaitingFreshAfterSwitch
    | SelectedSourceExpired
    | SelectedSourceInvalidated
    | CommandApplied
    | ExplicitStop
    | ClockRegressed
    | CountersExhausted
    | Uninitialized

  datatype Mailbox = Mailbox(command: Command, revision: U64, retired: seq<U64>, initialized: bool)

  const NO_COMMAND: Command := Command(0, 0, 0, 0, false, false, true, ZERO_VELOCITY)
  const EMPTY_MAILBOX: Mailbox := Mailbox(NO_COMMAND, 0, [], false)
  const EMPTY_MAILBOXES: seq<Mailbox> := [EMPTY_MAILBOX, EMPTY_MAILBOX, EMPTY_MAILBOX, EMPTY_MAILBOX]

  type Mailboxes = s: seq<Mailbox> | |s| == SOURCE_COUNT witness EMPTY_MAILBOXES

  datatype Model = Model(
    config: Config,
    mailboxes: Mailboxes,
    selected: Source,
    granted: bool,
    outputMoving: bool,
    exhausted: bool,
    epoch: U64,
    publicationRevision: U64,
    barrierRevision: U64,
    barrierTime: U64,
    lastNow: U64,
    hasTime: bool,
    output: Velocity,
    initialized: bool)
  {
    function Box(source: Source): Mailbox {
      mailboxes[Index(source)]
    }
  }

  datatype CycleResult = CycleResult(
    decision: Decision, reason: Reason, previousSource: Source, selectedSource: Source,
    commandRevision: U64, output: Velocity)

  // ---------------------------------------------------------------- pure helpers of the source

  predicate ConfigValid(config: Config) {
    && config.maxTtl != 0
    && config.velocityLimit.vx > 0.0 && config.velocityLimit.vy > 0.0 && config.velocityLimit.wz > 0.0
    && config.movingEpsilon.vx >= 0.0 && config.movingEpsilon.vy >= 0.0 && config.movingEpsilon.wz >= 0.0
    && config.movingEpsilon.vx <= config.velocityLimit.vx
    && config.movingEpsilon.vy <= config.velocityLimit.vy
    && config.movingEpsilon.wz <= config.velocityLimit.wz
  }

  predicate IsMoving(config: Config, velocity: Velocity) {
    || Abs(velocity.vx) > config.movingEpsilon.vx
    || Abs(velocity.vy) > config.movingEpsilon.vy
    || Abs(velocity.wz) > config.movingEpsilon.wz
  }

  predicate WithinLimits(config: Config, velocity: Velocity) {
    && Abs(velocity.vx) <= config.velocityLimit.vx
    && Abs(velocity.vy) <= config.velocityLimit.vy
    && Abs(velocity.wz) <= config.velocityLimit.wz
  }

  predicate Fresh(box: Mailbox, now: U64) {
    && box.initialized && box.command.valid
    && box.command.receivedAt <= now
    && now - box.command.receivedAt < box.command.ttl
  }

  predicate Expired(box: Mailbox, now: U64) {
    && box.initialized && box.command.valid
    && box.command.receivedAt <= now
    && now - box.command.receivedAt >= box.command.ttl
  }

  function HighestFresh(boxes: Mailboxes, now: U64): (source: Source)
    ensures source != NoSource ==> Fresh(boxes[Index(source)], now)
    ensures forall s | s != NoSource && Fresh(boxes[Index(s)], now) :: Index(s) <= Index(source)
  {
    if Fresh(boxes[3], now) then Rc
    else if Fresh(boxes[2], now) then Lan
    else if Fresh(boxes[1], now) then Bluetooth
    else NoSource
  }

  function Normalized(command: Command): Command {
    if !command.valid || !command.deadman then command.(body := ZERO_VELOCITY) else command
  }

  // ------------------------------------------------------------------- the transition function

  function Initial(config: Config): Model {
    Model(config, EMPTY_MAILBOXES, NoSource, false, false, false, 0, 0, 0, 0, 0, false,
          ZERO_VELOCITY, true)
  }

  function Revoked(m: Model): Model {
    m.(granted := false, outputMoving := false, output := ZERO_VELOCITY)
  }

  function Cycle(m: Model, previous: Source, decision: Decision, reason: Reason, revision: U64): CycleResult {
    CycleResult(decision, reason, previous, m.selected, revision, m.output)
  }

  function Silenced(box: Mailbox): Mailbox {
    box.(command := box.command.(valid := false))
  }

  /** The slot of NoSource is never published to, so only the three sources are silenced. */
  function Invalidated(boxes: Mailboxes): Mailboxes {
    seq(SOURCE_COUNT, i requires 0 <= i < SOURCE_COUNT => if i == 0 then boxes[i] else Silenced(boxes[i]))
  }

  /** An explicit stop: every mailbox loses its command, nobody owns the authority. */
  function StopModel(m: Model, now: U64): Model {
    var clock := if !m.hasTime || now >= m.lastNow then now else m.lastNow;
    m.(mailboxes := Invalidated(m.mailboxes), selected := NoSource,
       exhausted := m.exhausted || m.epoch == U64_MAX,
       epoch := if m.epoch == U64_MAX then m.epoch else m.epoch + 1,
       barrierRevision := m.publicationRevision, barrierTime := clock,
       lastNow := clock, hasTime := true,
       granted := false, outputMoving := false, output := ZERO_VELOCITY)
  }

  /** The checks of a publication in the order they are made; the counter check comes last. */
  function PublishCheck(m: Model, source: Source, command: Command, now: U64): PublishResult {
    var box := m.Box(source);
    var streamChanged := box.initialized && command.streamId != box.command.streamId;
    if !m.initialized then NotInitialized
    else if source == NoSource then InvalidSource
    else if command.streamId == 0 then StreamIdZero
    else if m.hasTime && now < m.lastNow then ClockRegression
    else if command.receivedAt > now then TimestampInFuture
    else if command.ttl == 0 || command.ttl > m.config.maxTtl
            || command.receivedAt > U64_MAX - command.ttl then TtlInvalid
    else if now - command.receivedAt >= command.ttl then ExpiredOnArrival
    else if command.valid && command.deadman && !command.finite then NonfiniteVelocity
    else if command.valid && command.deadman && !WithinLimits(m.config, command.body) then VelocityLimit
    else if box.initialized && command.receivedAt < box.command.receivedAt then TimestampRegression
    else if box.initialized && !streamChanged && command.sequence <= box.command.sequence then
      SequenceNotIncreasing
    else if streamChanged && command.streamId in box.retired then StreamRetired
    else if streamChanged && |box.retired| >= RETIRED_STREAM_CAPACITY then StreamHistoryFull
    else if m.publicationRevision == U64_MAX then CounterExhausted
    else PublishOk
  }

  predicate IsOrderRejection(result: PublishResult) {
    result == SequenceNotIncreasing || result == StreamRetired || result == StreamHistoryFull
  }

  function AcceptedBox(box: Mailbox, command: Command, revision: U64): Mailbox {
    var streamChanged := box.initialized && command.streamId != box.command.streamId;
    Mailbox(Normalized(command), revision,
            if streamChanged then box.retired + [box.command.streamId] else box.retired, true)
  }

  /** What an accepted publication leaves behind.  A selected source that changes its own stream
      loses the authority at once. */
  function StoreModel(m: Model, source: Source, command: Command, now: U64): Model
    requires m.publicationRevision < U64_MAX
  {
    var box := m.Box(source);
    var revision := m.publicationRevision + 1;
    var loses := box.initialized && command.streamId != box.command.streamId && m.selected == source;
    m.(publicationRevision := revision,
       mailboxes := m.mailboxes[Index(source) := AcceptedBox(box, command, revision)],
       lastNow := now, hasTime := true,
       selected := if loses then NoSource else m.selected,
       granted := m.granted && !loses,
       outputMoving := m.outputMoving && !loses,
       output := if loses then ZERO_VELOCITY else m.output)
  }

  function PublishModel(m: Model, source: Source, command: Command, now: U64): Model {
    var result := PublishCheck(m, source, command, now);
    if result == PublishOk then StoreModel(m, source, command, now)
    else if result == CounterExhausted then m.(exhausted := true)
    else if IsOrderRejection(result) && (!command.valid || !command.deadman) then StopModel(m, now)
    else m
  }

  predicate SwitchExhausts(m: Model, desired: Source) {
    m.epoch == U64_MAX || (desired != NoSource && m.publicationRevision == U64_MAX)
  }

  /** Hands the authority to `desired`.  The new owner must publish again after the barrier. */
  function SwitchModel(m: Model, desired: Source, now: U64): Model {
    m.(selected := if SwitchExhausts(m, desired) then NoSource else desired,
       exhausted := m.exhausted || SwitchExhausts(m, desired),
       epoch := if m.epoch == U64_MAX then m.epoch else m.epoch + 1,
       barrierRevision := m.publicationRevision, barrierTime := now,
       granted := false, outputMoving := false, output := ZERO_VELOCITY)
  }

  function SwitchResult(m: Model, desired: Source, now: U64): CycleResult {
    var after := SwitchModel(m, desired, now);
    if SwitchExhausts(m, desired) then
      Cycle(after, m.selected, FaultStop, CountersExhausted, 0)
    else if m.selected != NoSource && !Fresh(m.Box(m.selected), now) then
      Cycle(after, m.selected, if m.outputMoving then FaultStop else Stop,
            if Expired(m.Box(m.selected), now) then SelectedSourceExpired else SelectedSourceInvalidated, 0)
    else
      Cycle(after, m.selected, Stop, SourceSwitch, 0)
  }

  function Arbitrate(m: Model, now: U64): (Model, CycleResult) {
    if !m.initialized then
      (m, CycleResult(Invalid, Uninitialized, NoSource, NoSource, 0, ZERO_VELOCITY))
    else if m.hasTime && now < m.lastNow then
      (m, Cycle(m, m.selected, Invalid, ClockRegressed, 0))
    else
      var seen := m.(lastNow := now, hasTime := true);
      var desired := HighestFresh(m.mailboxes, now);
      if desired != m.selected then
        (SwitchModel(seen, desired, now), SwitchResult(seen, desired, now))
      else if m.selected == NoSource then
        (Revoked(seen), Cycle(Revoked(seen), NoSource, Stop, NoFreshSource, 0))
      else
        var box := m.Box(m.selected);
        if box.revision <= m.barrierRevision || box.command.receivedAt <= m.barrierTime then
          (Revoked(seen), Cycle(Revoked(seen), m.selected, Stop, WaitingFreshAfterSwitch, 0))
        else
          var output := if box.command.deadman then box.command.body else ZERO_VELOCITY;
          var applied := seen.(granted := true, output := output,
                               outputMoving := IsMoving(m.config, output));
          (applied, Cycle(applied, m.selected, Apply, CommandApplied, box.revision))
  }

  function ExplicitlyStopped(m: Model, now: U64): (Model, CycleResult) {
    if !m.initialized then
      (m, CycleResult(Invalid, Uninitialized, NoSource, NoSource, 0, ZERO_VELOCITY))
    else
      var stopped := StopModel(m, now);
      (stopped, Cycle(stopped, m.selected, Stop, ExplicitStop, 0))
  }

  // -------------------------------------------------------------------------- the in-place form

  class Authority {
    var config: Config
    const mailboxes: array<Mailbox>
    var selected: Source
    var granted: bool
    var outputMoving: bool
    var exhausted: bool
    var epoch: U64
    var publicationRevision: U64
    var barrierRevision: U64
    var barrierTime: U64
    var lastNow: U64
    var hasTime: bool
    var output: Velocity
    var initialized: bool

    ghost predicate Valid() {
      mailboxes.Length == SOURCE_COUNT
    }

    ghost function Contents(): Model
      reads this, mailboxes
      requires Valid()
    {
      Model(config, mailboxes[..], selected, granted, outputMoving, exhausted, epoch,
            publicationRevision, barrierRevision, barrierTime, lastNow, hasTime,
            output, initialized)
    }

    constructor ()
      ensures Valid() && fresh(mailboxes) && !initialized
    {
      mailboxes := new Mailbox[SOURCE_COUNT](_ => EMPTY_MAILBOX);
      config := Config(ZERO_VELOCITY, ZERO_VELOCITY, 0);
      selected, granted, outputMoving, exhausted := NoSource, false, false, false;
      epoch, publicationRevision, barrierRevision, barrierTime := 0, 0, 0, 0;
      lastNow, hasTime, output := 0, false, ZERO_VELOCITY;
      initialized := false;
    }

    method Init(config: Config) returns (ok: bool)
      requires Valid()
      modifies this, mailboxes
      ensures ok == initialized == ConfigValid(config)
      ensures ok ==> Contents() == Initial(config)
    {
      for i := 0 to SOURCE_COUNT
        invariant forall k | 0 <= k < i :: mailboxes[k] == EMPTY_MAILBOX
      {
        mailboxes[i] := EMPTY_MAILBOX;
      }
      selected, granted, outputMoving, exhausted := NoSource, false, false, false;
      epoch, publicationRevision, barrierRevision, barrierTime := 0, 0, 0, 0;
      lastNow, hasTime, output := 0, false, ZERO_VELOCITY;
      initialized := false;
      if !ConfigValid(config) {
        return false;
      }
      this.config := config;
      initialized := true;
      assert mailboxes[..] == EMPTY_MAILBOXES;
      return true;
    }

    method Revoke()
      modifies `granted, `outputMoving, `output
      ensures !granted && !outputMoving && output == ZERO_VELOCITY
    {
      granted := false;
      outputMoving := false;
      output := ZERO_VELOCITY;
    }

    /** Nothing published up to now may be applied any more. */
    method SetBarrier(now: U64)
      requires Valid()
      modifies `barrierRevision, `barrierTime, `granted, `outputMoving, `output
      ensures Contents() == old(Contents()).(
                barrierRevision := publicationRevision, barrierTime := now,
                granted := false, outputMoving := false, output := ZERO_VELOCITY)
    {
      barrierRevision := publicationRevision;
      barrierTime := now;
      Revoke();
    }

    method FreshestSource(now: U64) returns (source: Source)
      requires Valid()
      ensures source == HighestFresh(mailboxes[..], now)
    {
      if Fresh(mailboxes[Index(Rc)], now) {
        return Rc;
      } else if Fresh(mailboxes[Index(Lan)], now) {
        return Lan;
      } else if Fresh(mailboxes[Index(Bluetooth)], now) {
        return Bluetooth;
      }
      return NoSource;
    }

    method InvalidateAll()
      requires Valid()
      modifies mailboxes
      ensures mailboxes[..] == Invalidated(old(mailboxes[..]))
    {
      for i := Index(Bluetooth) to Index(Rc) + 1
        invariant forall k | 0 <= k < SOURCE_COUNT ::
          mailboxes[k] == if 1 <= k < i then Silenced(old(mailboxes[k])) else old(mailboxes[k])
      {
        mailboxes[i] := Silenced(mailboxes[i]);
      }
    }

    method StopNow(now: U64) returns (result: CycleResult)
      requires Valid()
      modifies this, mailboxes
      ensures Contents() == ExplicitlyStopped(old(Contents()), now).0
      ensures result == ExplicitlyStopped(old(Contents()), now).1
    {
      hide Invalidated;
      if !initialized {
        return CycleResult(Invalid, Uninitialized, NoSource, NoSource, 0, ZERO_VELOCITY);
      }
      ghost var before := Contents();
      var previous := selected;
      if !hasTime || now >= lastNow {
        lastNow, hasTime := now, true;
      }
      InvalidateAll();
      if epoch == U64_MAX {
        exhausted := true;
      } else {
        epoch := epoch + 1;
      }
      selected := NoSource;
      SetBarrier(lastNow);
      assert Contents() == StopModel(before, now);
      return CycleResult(Stop, ExplicitStop, previous, selected, 0, output);
    }

    /** Has the stream been given up by this mailbox before? */
    method IsRetired(box: Mailbox, streamId: U64) returns (found: bool)
      ensures found == (streamId in box.retired)
    {
      for i := 0 to |box.retired|
        invariant streamId !in box.retired[..i]
      {
        if box.retired[i] == streamId {
          return true;
        }
      }
      return false;
    }

    method CheckPublication(source: Source, command: Command, now: U64) returns (result: PublishResult)
      requires Valid()
      ensures result == PublishCheck(Contents(), source, command, now)
    {
      if !initialized {
        return NotInitialized;
      }
      if source == NoSource {
        return InvalidSource;
      }
      if command.streamId == 0 {
        return StreamIdZero;
      }
      if hasTime && now < lastNow {
        return ClockRegression;
      }
      if command.receivedAt > now {
        return TimestampInFuture;
      }
      if command.ttl == 0 || command.ttl > config.maxTtl || command.receivedAt > U64_MAX - command.ttl {
        return TtlInvalid;
      }
      if now - command.receivedAt >= command.ttl {
        return ExpiredOnArrival;
      }
      if command.valid && command.deadman && !command.finite {
        return NonfiniteVelocity;
      }
      if command.valid && command.deadman && !WithinLimits(config, command.body) {
        return VelocityLimit;
      }
      var box := mailboxes[Index(source)];
      var streamChanged := box.initialized && command.streamId != box.command.streamId;
      if box.initialized && command.receivedAt < box.command.receivedAt {
        return TimestampRegression;
      }
      if box.initialized && !streamChanged && command.sequence <= box.command.sequence {
        return SequenceNotIncreasing;
      }
      if streamChanged {
        var retired := IsRetired(box, command.streamId);
        if retired {
          return StreamRetired;
        }
        if |box.retired| >= RETIRED_STREAM_CAPACITY {
          return StreamHistoryFull;
        }
      }
      return if publicationRevision == U64_MAX then CounterExhausted else PublishOk;
    }

    method Publish(source: Source, command: Command, now: U64) returns (result: PublishResult)
      requires Valid()
      modifies this, mailboxes
      ensures result == PublishCheck(old(Contents()), source, command, now)
      ensures Contents() == PublishModel(old(Contents()), source, command, now)
    {
      result := CheckPublication(source, command, now);
      if IsOrderRejection(result) {
        RejectOrder(command, now);
      } else if result == CounterExhausted {
        exhausted := true;
      } else if result == PublishOk {
        Store(source, command, now);
      }
    }

    method Store(source: Source, command: Command, now: U64)
      requires Valid() && publicationRevision < U64_MAX
      modifies this, mailboxes
      ensures Contents() == StoreModel(old(Contents()), source, command, now)
    {
      hide Normalized;
      ghost var before := Contents();
      var box := mailboxes[Index(source)];
      var streamChanged := box.initialized && command.streamId != box.command.streamId;
      publicationRevision := publicationRevision + 1;
      if streamChanged {
        box := box.(retired := box.retired + [box.command.streamId]);
      }
      mailboxes[Index(source)] :=
        box.(command := Normalized(command), revision := publicationRevision, initialized := true);
      if streamChanged && selected == source {
        selected := NoSource;
        Revoke();
      }
      lastNow, hasTime := now, true;
      assert mailboxes[..] == StoreModel(before, source, command, now).mailboxes;
    }

    /** A release that arrives out of order is rejected, and still stops. */
    method RejectOrder(command: Command, now: U64)
      requires Valid() && initialized
      modifies this, mailboxes
      ensures Contents() == if !command.valid || !command.deadman then StopModel(old(Contents()), now)
                            else old(Contents())
    {
      if !command.valid || !command.deadman {
        var _ := StopNow(now);
      }
    }

    /** The state part of a switch; tells whether one of the counters is exhausted. */
    method HandOver(desired: Source, now: U64) returns (exhausts: bool)
      requires Valid()
      modifies this
      ensures exhausts == SwitchExhausts(old(Contents()), desired)
      ensures Contents() == SwitchModel(old(Contents()), desired, now)
    {
      ghost var before := Contents();
      exhausts := false;
      SetBarrier(now);
      selected := desired;
      if epoch == U64_MAX {
        exhausts := true;
      } else {
        epoch := epoch + 1;
        exhausts := desired != NoSource && publicationRevision == U64_MAX;
      }
      if exhausts {
        exhausted := true;
        selected := NoSource;
      }
      assert Contents() == SwitchModel(before, desired, now);
    }

    method SwitchSource(desired: Source, now: U64) returns (result: CycleResult)
      requires Valid()
      modifies this
      ensures Contents() == SwitchModel(old(Contents()), desired, now)
      ensures result == SwitchResult(old(Contents()), desired, now)
    {
      hide Fresh, Expired, SwitchModel;
      var previous := selected;
      var wasMoving := outputMoving;
      var previousFresh, previousExpired := false, false;
      if previous != NoSource {
        previousFresh := Fresh(mailboxes[Index(previous)], now);
        previousExpired := Expired(mailboxes[Index(previous)], now);
      }
      var decision, reason := Stop, SourceSwitch;
      var exhausts := HandOver(desired, now);
      if previous != NoSource && !previousFresh {
        reason := if previousExpired then SelectedSourceExpired else SelectedSourceInvalidated;
        decision := if wasMoving then FaultStop else Stop;
      }
      if exhausts {
        decision, reason := FaultStop, CountersExhausted;
      }
      result := CycleResult(decision, reason, previous, selected, 0, output);
    }

    method ArbitrateNow(now: U64) returns (result: CycleResult)
      requires Valid()
      modifies this
      ensures Contents() == Arbitrate(old(Contents()), now).0
      ensures result == Arbitrate(old(Contents()), now).1
    {
      hide Fresh, Expired, HighestFresh, SwitchModel, SwitchResult, IsMoving;
      if !initialized {
        return CycleResult(Invalid, Uninitialized, NoSource, NoSource, 0, ZERO_VELOCITY);
      }
      if hasTime && now < lastNow {
        return CycleResult(Invalid, ClockRegressed, selected, selected, 0, output);
      }
      lastNow, hasTime := now, true;
      var desired := FreshestSource(now);
      if desired != selected {
        result := SwitchSource(desired, now);
        return;
      }
      if selected == NoSource {
        Revoke();
        return CycleResult(Stop, NoFreshSource, selected, selected, 0, output);
      }
      var box := mailboxes[Index(selected)];
      if box.revision <= barrierRevision || box.command.receivedAt <= barrierTime {
        Revoke();
        return CycleResult(Stop, WaitingFreshAfterSwitch, selected, selected, 0, output);
      }
      granted := true;
      output := if box.command.deadman then box.command.body else ZERO_VELOCITY;
      outputMoving := IsMoving(config, output);
      return CycleResult(Apply, CommandApplied, selected, selected, box.revision, output);
    }
  }
}
