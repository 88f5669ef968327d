/** The interlock between the radio receiver and the network: one receiver channel decides which of
    the two has priority, and a change of mind needs a number of new frames that agree. */
module RcLanInterlock {
  import opened MachineIntegers
  import opened Prelude

  datatype State =
    | Disabled
    | NoSignal
    | Failsafe
    | PpmPriority
    | PpmLost
    | ChannelUnavailable
    | PpmPriorityCandidate
    | FailsafeCandidate

  datatype Config = Config(enabled: bool, channel: U8, activeMax: U16, confirmFrames: U8)

  /** `frame` is the number of the last accepted receiver frame; re-reading a frame repeats it. */
  datatype Observation = Observation(receiver: bool, signal: bool, frame: U32, channels: seq<U16>)

  datatype Model = Model(
    config: Config, state: State, committed: State, candidate: State,
    candidateFrames: U32, lastFrame: U32, epoch: U32)

  predicate ConfigValid(config: Config) {
    config.enabled ==>
      0 < config.channel <= 14 && config.activeMax > 0 && config.confirmFrames > 0
  }

  function Initial(config: Config): Model {
    var start := if config.enabled then NoSignal else Disabled;
    Model(config, start, start, Disabled, 0, 0, 0)
  }

  predicate Absent(config: Config, o: Observation) {
    !o.receiver || !o.signal || |o.channels| < config.channel
  }

  /** What a present channel shows. */
  function Shown(config: Config, o: Observation): State
    requires config.channel > 0 && !Absent(config, o)
  {
    if o.channels[config.channel - 1] <= config.activeMax then PpmPriority else Failsafe
  }

  /** What one observation says, before any confirmation. */
  function Observed(m: Model, o: Observation): State
    requires ConfigValid(m.config)
  {
    if !m.config.enabled then Disabled
    else if !o.receiver || !o.signal then if m.epoch > 0 then PpmLost else NoSignal
    else if |o.channels| < m.config.channel then ChannelUnavailable
    else Shown(m.config, o)
  }

  predicate NewFrame(m: Model, o: Observation) {
    o.signal && o.frame != 0 && o.frame != m.lastFrame
  }

  /** One more agreeing frame for `next`; enough of them commit it. */
  function Counted(m: Model, next: State): Model {
    var frames := if m.candidate == next then (m.candidateFrames + 1) % TWO_32 else 1;
    if frames >= m.config.confirmFrames then
      m.(candidate := next, candidateFrames := 0, committed := next, state := next,
         epoch := if next == PpmPriority && m.committed != PpmPriority then (m.epoch + 1) % TWO_32 else m.epoch)
    else
      m.(candidate := next, candidateFrames := frames,
         state := if next == PpmPriority then PpmPriorityCandidate else FailsafeCandidate)
  }

  function Update(m: Model, o: Observation): Model
    requires ConfigValid(m.config)
  {
    var next := Observed(m, o);
    var seen := if NewFrame(m, o) then m.(lastFrame := o.frame) else m;
    if !m.config.enabled then
      seen.(committed := next, candidate := next, candidateFrames := 0, state := next)
    else if next == NoSignal || next == PpmLost || next == ChannelUnavailable then
      seen.(candidateFrames := 0, candidate := m.committed, state := next)
    else if next == m.committed then
      seen.(candidateFrames := 0, candidate := next, state := next)
    else if NewFrame(m, o) then Counted(seen, next)
    else if m.candidateFrames == 0 then seen.(state := m.committed)
    else seen
  }

  function AuthorityState(m: Model): State {
    if m.state == PpmPriorityCandidate || m.state == FailsafeCandidate then m.committed else m.state
  }

  predicate LanAllowed(m: Model) {
    var s := AuthorityState(m);
    s == Disabled || s == NoSignal || s == Failsafe || s == PpmLost
  }

  // -------------------------------------------------------------------------- the in-place form

  class Interlock {
    var config: Config
    var state: State
    var committed: State
    var candidate: State
    var candidateFrames: U32
    var lastFrame: U32
    var epoch: U32
    var initialized: bool

    ghost predicate Valid()
      reads this
    {
      initialized ==> ConfigValid(config)
    }

    ghost function Contents(): Model
      reads this
    {
      Model(config, state, committed, candidate, candidateFrames, lastFrame, epoch)
    }

    constructor ()
      ensures Valid() && !initialized
    {
      config := Config(false, 0, 0, 0);
      state, committed, candidate := Disabled, Disabled, Disabled;
      candidateFrames, lastFrame, epoch, initialized := 0, 0, 0, false;
    }

    method Init(config: Config) returns (ok: bool)
      requires Valid()
      modifies this
      ensures Valid() && ok == ConfigValid(config)
      ensures ok ==> initialized && Contents() == Initial(config)
    {
      if config.enabled && (config.channel == 0 || config.channel > 14 || config.activeMax == 0) {
        return false;
      }
      state, committed, candidate := Disabled, Disabled, Disabled;
      candidateFrames, lastFrame, epoch, initialized := 0, 0, 0, false;
      this.config := config;
      if config.enabled && config.confirmFrames == 0 {
        return false;
      }
      state := if config.enabled then NoSignal else Disabled;
      committed := state;
      initialized := true;
      return true;
    }

    /** What one observation says, before any confirmation. */
    method Observe(o: Observation) returns (next: State)
      requires initialized && ConfigValid(config)
      ensures next == Observed(Contents(), o)
    {
      next := Disabled;
      if config.enabled {
        if !o.receiver || !o.signal {
          next := if epoch > 0 then PpmLost else NoSignal;
        } else if |o.channels| < config.channel {
          next := ChannelUnavailable;
        } else {
          next := if o.channels[config.channel - 1] <= config.activeMax then PpmPriority else Failsafe;
        }
      }
    }

    /** A new frame that differs from the committed state. */
    method Count(next: State)
      requires initialized && ConfigValid(config)
      modifies `candidate, `candidateFrames, `epoch, `committed, `state
      ensures Contents() == Counted(old(Contents()), next)
    {
      if candidate == next {
        candidateFrames := (candidateFrames + 1) % TWO_32;
      } else {
        candidate := next;
        candidateFrames := 1;
      }
      if candidateFrames >= config.confirmFrames {
        if next == PpmPriority && committed != PpmPriority {
          epoch := (epoch + 1) % TWO_32;
        }
        committed := next;
        candidateFrames := 0;
        state := next;
      } else {
        state := if next == PpmPriority then PpmPriorityCandidate else FailsafeCandidate;
      }
    }

    method UpdateNow(o: Observation) returns (ok: bool, lanAllowed: bool)
      requires Valid()
      modifies this
      ensures Valid() && ok == old(initialized) && initialized == old(initialized)
      ensures ok ==> Contents() == Update(old(Contents()), o) && lanAllowed == LanAllowed(Contents())
      ensures !ok ==> Contents() == old(Contents())
    {
      hide Observed, Counted, ConfigValid;
      if !initialized {
        return false, false;
      }
      var next := Observe(o);
      var newFrame := o.signal && o.frame != 0 && o.frame != lastFrame;
      if newFrame {
        lastFrame := o.frame;
      }
      if !config.enabled {
        committed := next;
        candidate := next;
        candidateFrames := 0;
        state := next;
      } else if next == NoSignal || next == PpmLost || next == ChannelUnavailable {
        candidateFrames := 0;
        candidate := committed;
        state := next;
      } else if next == committed {
        candidateFrames := 0;
        candidate := next;
        state := next;
      } else if newFrame {
        Count(next);
      } else if candidateFrames == 0 {
        state := committed;
      }
      var authority := if state == PpmPriorityCandidate || state == FailsafeCandidate then committed else state;
      return true, authority == Disabled || authority == NoSignal || authority == Failsafe || authority == PpmLost;
    }
  }

  // ---------------------------------------------------------------------------------------- runs

  ghost predicate IsRun(config: Config, states: seq<Model>, observations: seq<Observation>) {
    && ConfigValid(config)
    && |states| == |observations| + 1
    && states[0] == Initial(config)
    && (forall i | 0 <= i < |states| :: states[i].config == config)
    && forall i | 0 <= i < |observations| :: states[i + 1] == Update(states[i], observations[i])
  }

  /** Between two frames of a candidate the count is below the threshold, so it never wraps. */
  predicate Invariant(m: Model) {
    && ConfigValid(m.config)
    && (!m.config.enabled ==> m.committed == m.state == Disabled && m.candidateFrames == 0 && m.epoch == 0)
    && (m.config.enabled ==>
          && (m.committed == NoSignal || m.committed == Failsafe || m.committed == PpmPriority)
          && m.candidateFrames < m.config.confirmFrames
          && (m.candidateFrames > 0 ==>
                && (m.candidate == PpmPriority || m.candidate == Failsafe) && m.candidate != m.committed
                && m.state == (if m.candidate == PpmPriority then PpmPriorityCandidate else FailsafeCandidate))
          && (m.candidateFrames == 0 ==> m.state != PpmPriorityCandidate && m.state != FailsafeCandidate)
          && (m.candidateFrames == 0 && (m.state == Failsafe || m.state == PpmPriority) ==> m.state == m.committed))
  }

  lemma {:induction false} UpdateKeepsInvariant(m: Model, o: Observation)
    requires Invariant(m)
    ensures Invariant(Update(m, o))
  {
  }

  lemma {:induction false} RunKeepsInvariant(config: Config, states: seq<Model>, observations: seq<Observation>, n: nat)
    requires IsRun(config, states, observations) && n < |states|
    ensures Invariant(states[n]) && states[n].config == config
  {
    hide Update;
    if n > 0 {
      RunKeepsInvariant(config, states, observations, n - 1);
      UpdateKeepsInvariant(states[n - 1], observations[n - 1]);
      UpdateKeepsConfig(states[n - 1], observations[n - 1]);
    }
  }

  lemma {:induction false} UpdateKeepsConfig(m: Model, o: Observation)
    requires ConfigValid(m.config)
    ensures Update(m, o).config == m.config
  {
  }

  // ------------------------------------------------------------------------------ confirmation

  /** Does this observation leave a count for `candidate` standing? */
  predicate Tolerated(m: Model, o: Observation, candidate: State)
    requires ConfigValid(m.config)
  {
    && m.config.enabled && !Absent(m.config, o)
    && Observed(m, o) != m.committed
    && (NewFrame(m, o) ==> Observed(m, o) == candidate)
  }

  /** `agreeing` are the steps before n at which a new frame showed `candidate`: no frame is counted
      twice in a row, and nothing between them spoke against the candidate. */
  ghost predicate Evidence(
    states: seq<Model>, observations: seq<Observation>, agreeing: seq<nat>, n: nat, candidate: State)
    requires |states| == |observations| + 1 && n < |states|
    requires forall i | 0 <= i < |states| :: ConfigValid(states[i].config)
  {
    && (forall k | 0 <= k < |agreeing| ::
          agreeing[k] < n && NewFrame(states[agreeing[k]], observations[agreeing[k]])
          && Observed(states[agreeing[k]], observations[agreeing[k]]) == candidate)
    && (forall k | 0 < k < |agreeing| ::
          agreeing[k - 1] < agreeing[k]
          && observations[agreeing[k - 1]].frame != observations[agreeing[k]].frame)
    && (|agreeing| > 0 ==>
          forall i | agreeing[0] <= i < n ::
            Tolerated(states[i], observations[i], candidate) && states[i].committed == states[agreeing[0]].committed)
  }

  /** What one observation does to a standing count. */
  lemma {:induction false} CountStep(m: Model, o: Observation)
    requires Invariant(m) && m.config.enabled && Update(m, o).candidateFrames > 0
    ensures var after := Update(m, o);
            && after.committed == m.committed && Tolerated(m, o, after.candidate)
            && (NewFrame(m, o) ==>
                  && Observed(m, o) == after.candidate && after.lastFrame == o.frame
                  && (after.candidateFrames == 1
                      || (m.candidate == after.candidate && after.candidateFrames == m.candidateFrames + 1)))
            && (!NewFrame(m, o) ==>
                  m.candidate == after.candidate && after.candidateFrames == m.candidateFrames
                  && after.lastFrame == m.lastFrame)
  {
  }

  /** A count of c stands on c agreeing new frames. */
  lemma {:induction false} CountHasEvidence(
    config: Config, states: seq<Model>, observations: seq<Observation>, n: nat) returns (agreeing: seq<nat>)
    requires IsRun(config, states, observations) && n < |states| && config.enabled
    requires states[n].candidateFrames > 0
    ensures |agreeing| == states[n].candidateFrames
    ensures Evidence(states, observations, agreeing, n, states[n].candidate)
    ensures observations[agreeing[|agreeing| - 1]].frame == states[n].lastFrame
    ensures states[agreeing[0]].committed == states[n].committed
  {
    hide Update, Tolerated, Observed, NewFrame;
    var m, o := states[n - 1], observations[n - 1];
    RunKeepsInvariant(config, states, observations, n - 1);
    CountStep(m, o);
    if NewFrame(m, o) && states[n].candidateFrames == 1 {
      agreeing := [n - 1];
    } else {
      agreeing := CountHasEvidence(config, states, observations, n - 1);
      if NewFrame(m, o) {
        NewFrameDiffers(m, o);
        agreeing := agreeing + [n - 1];
      }
    }
  }

  lemma {:induction false} NewFrameDiffers(m: Model, o: Observation)
    requires NewFrame(m, o)
    ensures o.frame != m.lastFrame
  {
  }

  lemma {:induction false} TakeoverStep(m: Model, o: Observation)
    requires Invariant(m) && Update(m, o).epoch != m.epoch
    ensures m.config.enabled && NewFrame(m, o) && Observed(m, o) == PpmPriority != m.committed
    ensures Tolerated(m, o, PpmPriority) && Update(m, o).committed == PpmPriority
    ensures Update(m, o).epoch == (m.epoch + 1) % TWO_32
    ensures m.config.confirmFrames == 1
            || (m.candidate == PpmPriority && m.candidateFrames + 1 == m.config.confirmFrames)
  {
  }

  /** The priority epoch moves only on as many new frames showing priority as the configuration asks
      for, the last of them just now, with no absence, no return to the committed state and no new
      frame to the contrary since the first of them. */
  lemma {:induction false} TakeoverIsConfirmed(
    config: Config, states: seq<Model>, observations: seq<Observation>, j: nat) returns (agreeing: seq<nat>)
    requires IsRun(config, states, observations) && j < |observations|
    requires states[j + 1].epoch != states[j].epoch
    ensures |agreeing| == config.confirmFrames && agreeing[|agreeing| - 1] == j
    ensures Evidence(states, observations, agreeing, j + 1, PpmPriority)
  {
    hide Update, Tolerated, Observed, NewFrame;
    RunKeepsInvariant(config, states, observations, j);
    TakeoverStep(states[j], observations[j]);
    NewFrameDiffers(states[j], observations[j]);
    if config.confirmFrames == 1 {
      agreeing := [j];
    } else {
      agreeing := CountHasEvidence(config, states, observations, j);
      agreeing := agreeing + [j];
    }
  }

  /** A present observation against a standing candidate cancels it exactly when it is a new frame or
      shows the committed state; a re-read frame that shows neither is ignored. */
  lemma {:induction false} OppositionCancelsIff(m: Model, o: Observation)
    requires Invariant(m) && m.config.enabled && m.candidateFrames > 0
    requires !Absent(m.config, o) && Observed(m, o) != m.candidate
    ensures var after := Update(m, o);
            (after.candidateFrames == 0 || after.candidate != m.candidate) <==>
              (NewFrame(m, o) || Observed(m, o) == m.committed)
  {
  }

  /** So the ignored opposition needs a receiver that has not committed anything yet. */
  lemma {:induction false} IgnoredOppositionIsEarly(m: Model, o: Observation)
    requires Invariant(m) && m.config.enabled && m.candidateFrames > 0
    requires !Absent(m.config, o) && Observed(m, o) != m.candidate
    requires Update(m, o).candidateFrames > 0 && Update(m, o).candidate == m.candidate
    ensures m.committed == NoSignal && !NewFrame(m, o)
  {
  }

  /** Two new frames take over although a re-read frame in between showed the opposite. */
  lemma {:induction false} OppositionCanBeIgnored()
    ensures var config := Config(true, 1, 1500, 2);
            var m := Update(Update(Update(Initial(config),
                                          Observation(true, true, 1, [1000])),
                                   Observation(true, true, 1, [2000])),
                            Observation(true, true, 2, [1000]));
            m.epoch == 1 && m.committed == PpmPriority && Shown(config, Observation(true, true, 1, [2000])) == Failsafe
  {
    var config := Config(true, 1, 1500, 2);
    var a := Update(Initial(config), Observation(true, true, 1, [1000]));
    assert a == Model(config, PpmPriorityCandidate, NoSignal, PpmPriority, 1, 1, 0);
    var b := Update(a, Observation(true, true, 1, [2000]));
    assert b == a;
  }

  /** The receivers hand out the number of a frame together with its channels: among the present
      observations from `low` up to n the number is not zero, and equal numbers mean equal channels. */
  ghost predicate NumbersNameFrames(config: Config, observations: seq<Observation>, low: nat, n: nat)
    requires n <= |observations|
  {
    && (forall i | low <= i < n && !Absent(config, observations[i]) :: observations[i].frame != 0)
    && forall i, k | low <= i < k < n && !Absent(config, observations[i]) && !Absent(config, observations[k])
                     && observations[i].frame == observations[k].frame ::
         observations[i].channels == observations[k].channels
  }

  /** Since a new frame, the last frame number is that of the latest new frame. */
  lemma {:induction false} LatestNewFrame(
    config: Config, states: seq<Model>, observations: seq<Observation>, from: nat, k: nat) returns (i: nat)
    requires IsRun(config, states, observations) && from < k < |states|
    requires NewFrame(states[from], observations[from])
    ensures from <= i < k && NewFrame(states[i], observations[i]) && states[k].lastFrame == observations[i].frame
  {
    hide Observed, Counted;
    if k == from + 1 || NewFrame(states[k - 1], observations[k - 1]) {
      i := k - 1;
    } else {
      i := LatestNewFrame(config, states, observations, from, k - 1);
    }
    UpdateNumbers(states[k - 1], observations[k - 1]);
  }

  lemma {:induction false} UpdateNumbers(m: Model, o: Observation)
    requires ConfigValid(m.config)
    ensures Update(m, o).lastFrame == if NewFrame(m, o) then o.frame else m.lastFrame
  {
  }

  /** With such receivers no opposition is ever ignored: from its first agreeing frame on, every single
      observation behind a count or a takeover shows the candidate. */
  lemma {:induction false} NothingOpposes(
    config: Config, states: seq<Model>, observations: seq<Observation>, agreeing: seq<nat>, n: nat, candidate: State)
    requires IsRun(config, states, observations) && n < |states| && config.enabled
    requires agreeing != [] && Evidence(states, observations, agreeing, n, candidate)
    requires NumbersNameFrames(config, observations, agreeing[0], n)
    ensures forall k | agreeing[0] <= k < n ::
              !Absent(config, observations[k]) && Observed(states[k], observations[k]) == candidate
  {
    hide Update;
    forall k: nat | agreeing[0] <= k < n
      ensures !Absent(config, observations[k]) && Observed(states[k], observations[k]) == candidate
    {
      assert Tolerated(states[k], observations[k], candidate);
      if !NewFrame(states[k], observations[k]) {
        var i := LatestNewFrame(config, states, observations, agreeing[0], k);
        assert Tolerated(states[i], observations[i], candidate);
        assert observations[i].frame == observations[k].frame;
      }
    }
  }

  /** Absence always cancels. */
  lemma {:induction false} AbsenceCancels(m: Model, o: Observation)
    requires Invariant(m) && m.config.enabled && Absent(m.config, o)
    ensures Update(m, o).candidateFrames == 0 && Update(m, o).committed == m.committed
    ensures Update(m, o).epoch == m.epoch
  {
  }

  // ------------------------------------------------------------------------- priority and the LAN

  /** A channel that shows priority shuts the LAN out exactly when priority is committed. */
  lemma {:induction false} PriorityShutsOutIff(m: Model, o: Observation)
    requires Invariant(m) && m.config.enabled && !Absent(m.config, o) && Shown(m.config, o) == PpmPriority
    ensures !LanAllowed(Update(m, o)) <==> Update(m, o).committed == PpmPriority
  {
  }

  /** Once priority is committed the LAN comes back only when the receiver falls silent, or when a
      failsafe has been confirmed by new frames. */
  lemma {:induction false} LanReturns(m: Model, o: Observation)
    requires Invariant(m) && m.config.enabled && m.committed == PpmPriority
    requires !LanAllowed(m) && LanAllowed(Update(m, o))
    ensures || ((!o.receiver || !o.signal) && Update(m, o).state == PpmLost && m.epoch > 0)
            || ((!o.receiver || !o.signal) && Update(m, o).state == NoSignal && m.epoch == 0)
            || (NewFrame(m, o) && Observed(m, o) == Failsafe && Update(m, o).committed == Failsafe)
  {
  }

  /** The number of takeovers from step i up to step k. */
  function Takeovers(states: seq<Model>, i: nat, k: nat): nat
    requires i <= k < |states|
  {
    if i == k then 0 else Takeovers(states, i, k - 1) + if states[k].epoch != states[k - 1].epoch then 1 else 0
  }

  /** The epoch counts the takeovers, modulo its 32 bits. */
  lemma {:induction false} EpochCountsTakeovers(
    config: Config, states: seq<Model>, observations: seq<Observation>, i: nat, k: nat)
    requires IsRun(config, states, observations) && i <= k < |states|
    ensures states[k].epoch == (states[i].epoch + Takeovers(states, i, k)) % TWO_32
  {
    hide Update;
    if i < k {
      EpochCountsTakeovers(config, states, observations, i, k - 1);
      if states[k].epoch != states[k - 1].epoch {
        RunKeepsInvariant(config, states, observations, k - 1);
        TakeoverStep(states[k - 1], observations[k - 1]);
        AddModulo(states[i].epoch + Takeovers(states, i, k - 1), 1);
      }
    }
  }

  /** Equal epochs mean that no takeover was committed in between, short of 2^32 of them. */
  lemma {:induction false} SameEpochMeansNoTakeover(
    config: Config, states: seq<Model>, observations: seq<Observation>, i: nat, k: nat)
    requires IsRun(config, states, observations) && i <= k < |states|
    requires Takeovers(states, i, k) < TWO_32
    ensures states[i].epoch == states[k].epoch <==> Takeovers(states, i, k) == 0
  {
    EpochCountsTakeovers(config, states, observations, i, k);
  }
}
