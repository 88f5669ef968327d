/** How the receiver wins and loses priority over every run, told from its frames alone. */
module RcLanConfirmation {
  import opened MachineIntegers
  import opened Prelude
  import opened RcLanInterlock

  /** The selected channel is present and shows this side of its threshold. */
  predicate Shows(config: Config, o: Observation, side: State) {
    && o.receiver && o.signal && 0 < config.channel <= |o.channels|
    && (side == PpmPriority || side == Failsafe)
    && (side == PpmPriority <==> o.channels[config.channel - 1] <= config.activeMax)
  }

  /** The number of the last frame received before observation n; zero before the first. */
  function LastReceived(observations: seq<Observation>, n: nat): U32
    requires n <= |observations|
  {
    if n == 0 then 0
    else if observations[n - 1].signal && observations[n - 1].frame != 0 then observations[n - 1].frame
    else LastReceived(observations, n - 1)
  }

  /** Observation i brings another frame than the last one. */
  predicate Brings(observations: seq<Observation>, i: nat)
    requires i < |observations|
  {
    observations[i].signal && observations[i].frame != 0 && observations[i].frame != LastReceived(observations, i)
  }

  /** How many other frames the observations from low up to n bring. */
  function Frames(observations: seq<Observation>, low: nat, n: nat): nat
    requires low <= n <= |observations|
  {
    if n == low then 0 else Frames(observations, low, n - 1) + if Brings(observations, n - 1) then 1 else 0
  }

  lemma {:induction false} NewIffBrings(
    config: Config, states: seq<Model>, observations: seq<Observation>, n: nat)
    requires IsRun(config, states, observations) && n < |states|
    ensures states[n].lastFrame == LastReceived(observations, n)
    ensures n < |observations| ==> (NewFrame(states[n], observations[n]) <==> Brings(observations, n))
  {
    hide Observed, Counted, Update;
    if n > 0 {
      NewIffBrings(config, states, observations, n - 1);
      UpdateNumbers(states[n - 1], observations[n - 1]);
    }
  }

  /** One observation that shows `side`. */
  lemma {:induction false} ShownStep(m: Model, o: Observation, side: State)
    requires Invariant(m) && m.config.enabled && Shows(m.config, o, side)
    ensures var after := Update(m, o);
            && (m.committed == side ==> after.committed == side)
            && (m.committed != side && NewFrame(m, o) ==>
                  var frames := if m.candidate == side then m.candidateFrames + 1 else 1;
                  if frames >= m.config.confirmFrames then after.committed == side
                  else after.candidate == side && after.candidateFrames == frames)
            && (m.committed != side && !NewFrame(m, o) ==>
                  after.candidate == m.candidate && after.candidateFrames == m.candidateFrames)
            && (after.committed == side ==> after.state == side)
  {
  }

  lemma {:induction false} FramesAreCounted(
    config: Config, states: seq<Model>, observations: seq<Observation>, low: nat, n: nat, side: State)
    requires IsRun(config, states, observations) && low <= n < |states| && config.enabled
    requires forall i | low <= i < n :: Shows(config, observations[i], side)
    ensures || states[n].committed == side
            || Frames(observations, low, n) == 0
            || (states[n].candidate == side && states[n].candidateFrames >= Frames(observations, low, n))
    decreases n
  {
    hide Update, Shows, Brings, NewFrame;
    if low < n {
      FramesAreCounted(config, states, observations, low, n - 1, side);
      RunKeepsInvariant(config, states, observations, n - 1);
      ShownStep(states[n - 1], observations[n - 1], side);
      NewIffBrings(config, states, observations, n - 1);
    }
  }

  /** As many frames as the configuration asks for, with nothing else seen between them, always commit the
      side that they show, whatever was committed before; priority then shuts the LAN out, and a failsafe
      lets it in. */
  lemma {:induction false} ConfirmationCommits(
    config: Config, states: seq<Model>, observations: seq<Observation>, low: nat, n: nat, side: State)
    requires IsRun(config, states, observations) && low < n < |states| && config.enabled
    requires forall i | low <= i < n :: Shows(config, observations[i], side)
    requires Frames(observations, low, n) >= config.confirmFrames
    ensures states[n].committed == states[n].state == side
    ensures LanAllowed(states[n]) <==> side == Failsafe
  {
    hide Update, Frames;
    FramesAreCounted(config, states, observations, low, n, side);
    RunKeepsInvariant(config, states, observations, n);
    RunKeepsInvariant(config, states, observations, n - 1);
    ShownStep(states[n - 1], observations[n - 1], side);
  }

  lemma {:induction false} CommitStep(m: Model, o: Observation)
    requires Invariant(m) && Update(m, o).committed != m.committed
    ensures var side := Update(m, o).committed;
            && m.config.enabled && NewFrame(m, o) && Shows(m.config, o, side)
            && Observed(m, o) == side && Tolerated(m, o, side)
            && (m.config.confirmFrames == 1
                || (m.candidate == side && m.candidateFrames + 1 == m.config.confirmFrames))
  {
  }

  /** And nothing else commits a side: every change of what is committed, in either direction, stands on
      that many agreeing frames, the last of them just now. */
  lemma {:induction false} CommitmentIsConfirmed(
    config: Config, states: seq<Model>, observations: seq<Observation>, j: nat) returns (agreeing: seq<nat>)
    requires IsRun(config, states, observations) && j < |observations|
    requires states[j + 1].committed != states[j].committed
    ensures 0 < |agreeing| == config.confirmFrames && agreeing[|agreeing| - 1] == j
    ensures Evidence(states, observations, agreeing, j + 1, states[j + 1].committed)
    ensures Shows(config, observations[j], states[j + 1].committed)
  {
    hide Update, Tolerated, Observed, NewFrame;
    RunKeepsInvariant(config, states, observations, j);
    CommitStep(states[j], observations[j]);
    NewFrameDiffers(states[j], observations[j]);
    if config.confirmFrames == 1 {
      agreeing := [j];
    } else {
      agreeing := CountHasEvidence(config, states, observations, j);
      agreeing := agreeing + [j];
    }
  }

  /** The epoch moves exactly when priority is committed anew. */
  lemma {:induction false} EpochMovesIff(m: Model, o: Observation)
    requires Invariant(m)
    ensures var after := Update(m, o);
            after.epoch != m.epoch <==> after.committed == PpmPriority != m.committed
  {
  }

  /** The LAN is allowed exactly when the interlock is off, when the receiver is silent, or when the channel
      is there and priority is not committed. */
  lemma {:induction false} LanAllowedIff(m: Model, o: Observation)
    requires Invariant(m)
    ensures var after := Update(m, o);
            LanAllowed(after) <==>
              || !m.config.enabled
              || !o.receiver || !o.signal
              || (|o.channels| >= m.config.channel && after.committed != PpmPriority)
  {
  }

  /** What is shown to the outside: a silent receiver counts as lost once priority has been taken, and an
      absent channel as unavailable. */
  lemma {:induction false} AbsenceIsShown(m: Model, o: Observation)
    requires Invariant(m) && m.config.enabled
    ensures var after := Update(m, o);
            && (after.state == PpmLost <==> (!o.receiver || !o.signal) && m.epoch != 0)
            && (after.state == NoSignal && m.committed != NoSignal ==> !o.receiver || !o.signal)
            && ((!o.receiver || !o.signal) && m.epoch == 0 ==> after.state == NoSignal)
            && (after.state == ChannelUnavailable <==> o.receiver && o.signal && |o.channels| < m.config.channel)
  {
  }
}
