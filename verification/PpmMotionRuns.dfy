/** The intents of the radio over every run: their order, their numbers, and what each of them needs. */
module PpmMotionRuns {
  import opened MachineIntegers
  import opened PpmMotion

  datatype Stimulus = Stimulus(input: Input, rcActive: bool)

  ghost predicate IsRun(config: Config, states: seq<Model>, outputs: seq<Output>, stimuli: seq<Stimulus>) {
    && ConfigValid(config)
    && |states| == |stimuli| + 1 && |outputs| == |stimuli|
    && states[0] == Initial(config)
    && forall i | 0 <= i < |stimuli| ::
         && InputValid(stimuli[i].input) && states[i].config == config
         && states[i + 1] == Step(states[i], stimuli[i].input, stimuli[i].rcActive).0
         && outputs[i] == Step(states[i], stimuli[i].input, stimuli[i].rcActive).1
  }

  predicate Invariant(m: Model) {
    && (!m.priority <==> m.phase == Inactive)
    && (m.phase == ArmPending || m.phase == Armed ==> m.stream == m.nonce != 0)
    && m.pendingFrames < ARM_PENDING_MAX
    && (m.phase == ArmPending ==> m.sequence == 1)
    && m.nonce > 0
  }

  lemma {:induction false} StepKeepsInvariant(m: Model, input: Input, rcActive: bool)
    requires ConfigValid(m.config) && InputValid(input) && Invariant(m)
    ensures Invariant(Step(m, input, rcActive).0) && Step(m, input, rcActive).0.config == m.config
  {
    hide HasPriority, BothNeutral, Normalized, SpeedScale;
  }

  lemma {:induction false} RunKeepsInvariant(
    config: Config, states: seq<Model>, outputs: seq<Output>, stimuli: seq<Stimulus>, n: nat)
    requires IsRun(config, states, outputs, stimuli) && n < |states|
    ensures Invariant(states[n]) && states[n].config == config
  {
    hide Step, ConfigValid;
    if n > 0 {
      RunKeepsInvariant(config, states, outputs, stimuli, n - 1);
      StepKeepsInvariant(states[n - 1], stimuli[n - 1].input, stimuli[n - 1].rcActive);
    }
  }

  // -------------------------------------------------------------------------- the order of intents

  /** Reading (STOP (ARM COMMAND*)* STOP)*: before a session, after its opening STOP, in a stream. */
  datatype Reader = Closed | Open | Streaming | Stuck

  function Read(r: Reader, action: Action): Reader {
    match action
    case NoAction => r
    case StopAction => if r == Closed then Open else if r == Stuck then Stuck else Closed
    case ArmAction => if r == Open || r == Streaming then Streaming else Stuck
    case CommandAction => if r == Streaming then Streaming else Stuck
  }

  function ReadAll(outputs: seq<Output>): Reader {
    if outputs == [] then Closed else Read(ReadAll(outputs[..|outputs| - 1]), outputs[|outputs| - 1].action)
  }

  /** Where the reader stands, told from the model. */
  predicate Agrees(r: Reader, m: Model) {
    match m.phase
    case Inactive => r == Closed
    case WaitNeutral => r == Open || r == Streaming
    case ArmPending => r == Streaming
    case Armed => r == Streaming
  }

  lemma {:induction false} StepAgrees(r: Reader, m: Model, input: Input, rcActive: bool)
    requires ConfigValid(m.config) && InputValid(input) && Invariant(m) && Agrees(r, m)
    ensures Agrees(Read(r, Step(m, input, rcActive).1.action), Step(m, input, rcActive).0)
  {
    hide HasPriority, BothNeutral, Normalized, SpeedScale;
  }

  /** The intents of every run, silence left out, are a prefix of (STOP (ARM COMMAND*)* STOP)*. */
  lemma {:induction false} IntentsAreInOrder(
    config: Config, states: seq<Model>, outputs: seq<Output>, stimuli: seq<Stimulus>, n: nat)
    requires IsRun(config, states, outputs, stimuli) && n < |states|
    ensures Agrees(ReadAll(outputs[..n]), states[n]) && ReadAll(outputs[..n]) != Stuck
  {
    hide Step, ConfigValid;
    if n > 0 {
      IntentsAreInOrder(config, states, outputs, stimuli, n - 1);
      RunKeepsInvariant(config, states, outputs, stimuli, n - 1);
      StepAgrees(ReadAll(outputs[..n - 1]), states[n - 1], stimuli[n - 1].input, stimuli[n - 1].rcActive);
      assert outputs[..n][..n - 1] == outputs[..n - 1];
    }
  }

  // ----------------------------------------------------------------------- what an intent requires

  /** An ARM or COMMAND needs a new frame with priority; an ARM a neutral one, a COMMAND an active
      application.  A STOP is an edge of priority. */
  lemma {:induction false} WhatIntentsNeed(m: Model, input: Input, rcActive: bool)
    requires ConfigValid(m.config) && InputValid(input) && Invariant(m)
    ensures var output := Step(m, input, rcActive).1;
            && (output.action == ArmAction || output.action == CommandAction ==>
                  NewFrame(m, input) && HasPriority(m.config, input) && m.priority)
            && (output.action == ArmAction ==>
                  BothNeutral(m.config, input) && output.stream == NextNonce(m.nonce) && output.sequence == 1)
            && (output.action == CommandAction ==>
                  m.phase == Armed && rcActive && output.stream == m.stream
                  && output.sequence == (m.sequence + 1) % TWO_64 && output.deadman)
            && (output.action == StopAction <==> m.priority != HasPriority(m.config, input))
            && (Step(m, input, rcActive).0.priority == HasPriority(m.config, input))
  {
    hide HasPriority, BothNeutral, Normalized, SpeedScale;
  }

  /** What a COMMAND asks for is within range: axes between -1 and 1, a scale within its ends, and no
      motion on an axis whose stick is in the dead band. */
  lemma {:induction false} CommandIsBounded(m: Model, input: Input, rcActive: bool)
    requires ConfigValid(m.config) && InputValid(input)
    requires Step(m, input, rcActive).1.action == CommandAction
    ensures var output, c := Step(m, input, rcActive).1, m.config;
            && -1.0 <= output.vx <= 1.0 && -1.0 <= output.wz <= 1.0
            && c.scaleMin <= output.scale <= c.scaleMax
            && (output.vx == 0.0 <==> Neutral(input.channels[c.throttle.channel - 1], c.throttle.center, c.deadband))
            && (output.wz == 0.0 <==> Neutral(input.channels[c.steering.channel - 1], c.steering.center, c.deadband))
  {
    var c := m.config;
    AxisRange(c, c.throttle, input.channels[c.throttle.channel - 1]);
    AxisRange(c, c.steering, input.channels[c.steering.channel - 1]);
    ScaleRange(c, input.channels[c.scaleChannel - 1]);
    hide HasPriority, BothNeutral, Normalized, SpeedScale, Neutral;
  }

  predicate Speaks(output: Output) {
    output.action == ArmAction || output.action == CommandAction
  }

  function Intents(outputs: seq<Output>): nat {
    if outputs == [] then 0
    else Intents(outputs[..|outputs| - 1]) + if Speaks(outputs[|outputs| - 1]) then 1 else 0
  }

  /** How often the frame number was new among the first n stimuli. */
  function NewFrames(states: seq<Model>, stimuli: seq<Stimulus>, n: nat): nat
    requires n <= |stimuli| && |states| == |stimuli| + 1
  {
    if n == 0 then 0
    else NewFrames(states, stimuli, n - 1) + if NewFrame(states[n - 1], stimuli[n - 1].input) then 1 else 0
  }

  /** No frame yields more than one ARM or COMMAND, whatever happens to the application. */
  lemma {:induction false} OneIntentPerFrame(
    config: Config, states: seq<Model>, outputs: seq<Output>, stimuli: seq<Stimulus>, i: nat, n: nat)
    requires IsRun(config, states, outputs, stimuli) && i <= n <= |stimuli|
    ensures Intents(outputs[..n]) - Intents(outputs[..i])
            <= NewFrames(states, stimuli, n) - NewFrames(states, stimuli, i)
  {
    hide Step, ConfigValid, NewFrame;
    if i < n {
      OneIntentPerFrame(config, states, outputs, stimuli, i, n - 1);
      RunKeepsInvariant(config, states, outputs, stimuli, n - 1);
      WhatIntentsNeed(states[n - 1], stimuli[n - 1].input, stimuli[n - 1].rcActive);
      assert outputs[..n][..n - 1] == outputs[..n - 1];
    }
  }

  // ------------------------------------------------------------------------------- stream numbers

  const NONCES: nat := 0xFFFF_FFFF_FFFF_FFFF

  function Arms(outputs: seq<Output>): nat {
    if outputs == [] then 0
    else Arms(outputs[..|outputs| - 1]) + if outputs[|outputs| - 1].action == ArmAction then 1 else 0
  }

  /** The number of the k-th stream. */
  function StreamNumber(k: nat): nat {
    1 + (STREAM_PREFIX - 1 + k) % NONCES
  }

  lemma {:induction false} NextStreamNumber(k: nat)
    ensures StreamNumber(k) <= U64_MAX && NextNonce(StreamNumber(k)) == StreamNumber(k + 1)
  {
    var r := (STREAM_PREFIX - 1 + k) % NONCES;
    assert (STREAM_PREFIX + k) % NONCES == if r == NONCES - 1 then 0 else r + 1;
  }

  lemma {:induction false} NonceStep(m: Model, input: Input, rcActive: bool)
    requires ConfigValid(m.config) && InputValid(input)
    ensures Step(m, input, rcActive).0.nonce ==
              if Step(m, input, rcActive).1.action == ArmAction then NextNonce(m.nonce) else m.nonce
  {
    hide HasPriority, BothNeutral, Normalized, SpeedScale;
  }

  lemma {:induction false} NonceCountsArms(
    config: Config, states: seq<Model>, outputs: seq<Output>, stimuli: seq<Stimulus>, n: nat)
    requires IsRun(config, states, outputs, stimuli) && n < |states|
    ensures states[n].nonce == StreamNumber(Arms(outputs[..n]))
  {
    hide Step, ConfigValid;
    if n == 0 {
      FirstNumber();
    } else {
      NonceCountsArms(config, states, outputs, stimuli, n - 1);
      NonceStep(states[n - 1], stimuli[n - 1].input, stimuli[n - 1].rcActive);
      NextStreamNumber(Arms(outputs[..n - 1]));
      assert outputs[..n][..n - 1] == outputs[..n - 1];
    }
    hide StreamNumber, NextNonce;
  }

  lemma {:induction false} FirstNumber()
    ensures StreamNumber(0) == STREAM_PREFIX
  {
  }

  lemma {:induction false} SameNumberIff(j: nat, k: nat)
    requires j <= k
    ensures StreamNumber(j) == StreamNumber(k) <==> (k - j) % NONCES == 0
  {
    var a, b := STREAM_PREFIX - 1 + j, STREAM_PREFIX - 1 + k;
    assert a == a / NONCES * NONCES + a % NONCES && b == b / NONCES * NONCES + b % NONCES;
    var q := b / NONCES - a / NONCES;
    assert k - j == q * NONCES + (b % NONCES - a % NONCES);
    Residue(k - j, q, b % NONCES - a % NONCES);
  }

  lemma {:induction false} Residue(x: int, q: int, r: int)
    requires x == q * NONCES + r && r < NONCES && -r < NONCES
    ensures x % NONCES == 0 <==> r == 0
  {
    if r >= 0 {
      Remainder(x, q, r);
    } else {
      Remainder(x, q - 1, r + NONCES);
    }
  }

  lemma {:induction false} Remainder(x: int, q: int, r: int)
    requires x == q * NONCES + r && 0 <= r < NONCES
    ensures x % NONCES == r
  {
  }

  lemma {:induction false} ArmsGrow(outputs: seq<Output>, i: nat, n: nat)
    requires i <= n <= |outputs|
    ensures Arms(outputs[..i]) <= Arms(outputs[..n])
    ensures i < n && outputs[i].action == ArmAction ==> Arms(outputs[..i]) + 1 <= Arms(outputs[..n])
  {
    if i < n {
      ArmsGrow(outputs, i, n - 1);
      assert outputs[..n][..n - 1] == outputs[..n - 1];
    }
  }

  /** Two ARM intents carry the same stream number exactly when the number of ARMs between them is a
      multiple of 2^64 - 1: every stream is fresh until then. */
  lemma {:induction false} StreamsAreFresh(
    config: Config, states: seq<Model>, outputs: seq<Output>, stimuli: seq<Stimulus>, i: nat, j: nat)
    requires IsRun(config, states, outputs, stimuli) && i < j < |stimuli|
    requires outputs[i].action == ArmAction && outputs[j].action == ArmAction
    ensures outputs[i].stream == outputs[j].stream <==>
              (Arms(outputs[..j]) - Arms(outputs[..i])) % NONCES == 0
    ensures Arms(outputs[..j]) > Arms(outputs[..i])
  {
    hide Step, ConfigValid, StreamNumber, NextNonce;
    ArmNumber(config, states, outputs, stimuli, i);
    ArmNumber(config, states, outputs, stimuli, j);
    ArmsGrow(outputs, i, j);
    SameNumberIff(Arms(outputs[..i]) + 1, Arms(outputs[..j]) + 1);
  }

  lemma {:induction false} ArmNumber(
    config: Config, states: seq<Model>, outputs: seq<Output>, stimuli: seq<Stimulus>, i: nat)
    requires IsRun(config, states, outputs, stimuli) && i < |stimuli| && outputs[i].action == ArmAction
    ensures outputs[i].stream == StreamNumber(Arms(outputs[..i]) + 1)
  {
    hide Step, ConfigValid, StreamNumber, NextNonce;
    RunKeepsInvariant(config, states, outputs, stimuli, i);
    NonceCountsArms(config, states, outputs, stimuli, i);
    WhatIntentsNeed(states[i], stimuli[i].input, stimuli[i].rcActive);
    NextStreamNumber(Arms(outputs[..i]));
  }

  // ----------------------------------------------------------------------------- sequence numbers

  /** The COMMANDs among outputs a + 1 to n - 1. */
  function CommandsSince(outputs: seq<Output>, a: nat, n: nat): nat
    requires a < n <= |outputs|
  {
    if n == a + 1 then 0
    else CommandsSince(outputs, a, n - 1) + if outputs[n - 1].action == CommandAction then 1 else 0
  }

  /** The application has been active with the radio from step h up to step n. */
  predicate Following(stimuli: seq<Stimulus>, h: nat, n: nat)
    requires h <= n <= |stimuli|
  {
    forall k | h <= k < n :: stimuli[k].rcActive
  }

  /** The stream that is live at n was armed at a; all intents since are its COMMANDs, numbered on from
      the ARM, and from step h on the application has followed. */
  ghost predicate StreamSince(
    states: seq<Model>, outputs: seq<Output>, stimuli: seq<Stimulus>, a: nat, n: nat)
    requires |states| == |stimuli| + 1 && |outputs| == |stimuli| && a < n <= |outputs|
  {
    && outputs[a].action == ArmAction && states[n].stream == outputs[a].stream
    && (forall k | a < k < n ::
          || outputs[k].action == NoAction
          || (outputs[k].action == CommandAction && outputs[k].stream == outputs[a].stream))
    && states[n].sequence == (1 + CommandsSince(outputs, a, n)) % TWO_64
    && (states[n].phase == ArmPending ==> CommandsSince(outputs, a, n) == 0)
    && (states[n].phase == Armed ==>
          exists h: nat | a < h < n :: Following(stimuli, h, n))
  }

  lemma {:induction false} StreamStep(m: Model, input: Input, rcActive: bool)
    requires ConfigValid(m.config) && InputValid(input) && Invariant(m)
    ensures var (after, output) := Step(m, input, rcActive);
            && (after.phase == ArmPending || after.phase == Armed ==>
                 || (output.action == ArmAction && after.phase == ArmPending
                     && after.stream == output.stream && after.sequence == 1)
                 || ((m.phase == ArmPending || m.phase == Armed) && after.stream == m.stream
                     && ((output.action == NoAction && after.sequence == m.sequence)
                         || (output.action == CommandAction && m.phase == Armed && output.stream == m.stream
                             && after.sequence == (m.sequence + 1) % TWO_64))))
            && (after.phase == Armed ==> rcActive)
            && (after.phase == ArmPending && output.action != ArmAction ==>
                  output.action == NoAction && m.phase == ArmPending)
  {
    hide HasPriority, BothNeutral, Normalized, SpeedScale;
  }

  lemma {:induction false} NextSequence(n: nat)
    ensures ((1 + n) % TWO_64 + 1) % TWO_64 == (1 + (n + 1)) % TWO_64
  {
  }

  lemma {:induction false} LiveStreamOrigin(
    config: Config, states: seq<Model>, outputs: seq<Output>, stimuli: seq<Stimulus>, n: nat) returns (a: nat)
    requires IsRun(config, states, outputs, stimuli) && n < |states|
    requires states[n].phase == ArmPending || states[n].phase == Armed
    ensures a < n && StreamSince(states, outputs, stimuli, a, n)
  {
    hide Step, ConfigValid;
    assert n > 0;
    RunKeepsInvariant(config, states, outputs, stimuli, n - 1);
    var m, output := states[n - 1], outputs[n - 1];
    StreamStep(m, stimuli[n - 1].input, stimuli[n - 1].rcActive);
    if output.action == ArmAction {
      a := n - 1;
      assert CommandsSince(outputs, a, n) == 0;
    } else {
      a := LiveStreamOrigin(config, states, outputs, stimuli, n - 1);
      NextSequence(CommandsSince(outputs, a, n - 1));
      if states[n].phase == Armed {
        var h: nat := n - 1;
        if m.phase == Armed {
          h :| a < h < n - 1 && Following(stimuli, h, n - 1);
        }
        assert Following(stimuli, h, n);
      }
    }
  }

  /** Every COMMAND belongs to the ARM at a: same stream, nothing but its COMMANDs in between, numbers
      2, 3, 4 and so on modulo 2^64, and the application active from some step h before it. */
  lemma {:induction false} CommandsAreNumbered(
    config: Config, states: seq<Model>, outputs: seq<Output>, stimuli: seq<Stimulus>, j: nat) returns (a: nat, h: nat)
    requires IsRun(config, states, outputs, stimuli) && j < |stimuli| && outputs[j].action == CommandAction
    ensures a < h < j && outputs[a].action == ArmAction && outputs[a].stream == outputs[j].stream
    ensures outputs[j].sequence == (2 + CommandsSince(outputs, a, j)) % TWO_64
    ensures forall k | a < k < j :: outputs[k].action == NoAction
                                   || (outputs[k].action == CommandAction && outputs[k].stream == outputs[j].stream)
    ensures Following(stimuli, h, j + 1)
  {
    hide Step, ConfigValid;
    RunKeepsInvariant(config, states, outputs, stimuli, j);
    WhatIntentsNeed(states[j], stimuli[j].input, stimuli[j].rcActive);
    a := LiveStreamOrigin(config, states, outputs, stimuli, j);
    NextSequence(CommandsSince(outputs, a, j));
    h :| a < h < j && Following(stimuli, h, j);
  }
}
