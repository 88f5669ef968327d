/** What the radio asks for: the direction and the size of a COMMAND by the positions of the sticks, and
    which frame yields which intent. */
module PpmMotionAnswers {
  import opened MachineIntegers
  import opened PpmMotion
  import opened PpmMotionRuns

  // ----------------------------------------------------------------------------------- the axes

  lemma {:induction false} Scaling(part: int, span: int)
    requires span > 0
    ensures part as real / span as real * span as real == part as real
  {
  }

  lemma {:induction false} SignOfPart(part: int, span: int)
    requires span > 0
    ensures part > 0 <==> part as real / span as real > 0.0
    ensures part < 0 <==> part as real / span as real < 0.0
    ensures part <= span <==> part as real / span as real <= 1.0
    ensures part >= -span <==> part as real / span as real >= -1.0
  {
    Scaling(part, span);
  }

  /** An axis points forward exactly above the dead band and backward exactly below it, the other way round
      when it is reversed. */
  lemma {:induction false} AxisDirection(c: Config, axis: Axis, pulse: U16)
    requires AxisValid(c, axis) && (axis.sign == -1 || axis.sign == 1)
    ensures var n := axis.sign as real * Normalized(axis, c.deadband, pulse);
            && (n > 0.0 <==> pulse > axis.center + c.deadband)
            && (n < 0.0 <==> pulse + c.deadband < axis.center)
  {
    var delta: int := pulse - axis.center;
    if delta > c.deadband {
      SignOfPart(delta - c.deadband, axis.max - axis.center - c.deadband);
    } else if delta < -(c.deadband as int) {
      SignOfPart(delta + c.deadband, axis.center - c.deadband - axis.min);
    }
  }

  lemma {:induction false} ForwardPart(c: Config, axis: Axis, pulse: U16)
    requires AxisValid(c, axis) && axis.sign == 1 && axis.center + c.deadband < pulse <= axis.max
    ensures Normalized(axis, c.deadband, pulse) * (axis.max - axis.center - c.deadband) as real
            == (pulse - axis.center - c.deadband) as real
  {
    SignOfPart(pulse - axis.center - c.deadband, axis.max - axis.center - c.deadband);
    Scaling(pulse - axis.center - c.deadband, axis.max - axis.center - c.deadband);
  }

  lemma {:induction false} BackwardPart(c: Config, axis: Axis, pulse: U16)
    requires AxisValid(c, axis) && axis.sign == 1 && axis.min <= pulse < axis.center - c.deadband
    ensures Normalized(axis, c.deadband, pulse) * (axis.center - c.deadband - axis.min) as real
            == (pulse + c.deadband - axis.center) as real
  {
    SignOfPart(pulse + c.deadband - axis.center, axis.center - c.deadband - axis.min);
    Scaling(pulse + c.deadband - axis.center, axis.center - c.deadband - axis.min);
  }

  /** Between the dead band and the end of the axis it grows in proportion to the pulse. */
  lemma {:induction false} AxisIsLinear(c: Config, axis: Axis, pulse: U16)
    requires AxisValid(c, axis) && (axis.sign == -1 || axis.sign == 1)
    ensures var n := axis.sign as real * Normalized(axis, c.deadband, pulse);
            && (axis.center + c.deadband < pulse <= axis.max ==>
                  n * (axis.max - axis.center - c.deadband) as real == (pulse - axis.center - c.deadband) as real)
            && (axis.min <= pulse < axis.center - c.deadband ==>
                  n * (axis.center - c.deadband - axis.min) as real == (pulse + c.deadband - axis.center) as real)
  {
    hide Normalized;
    Reversed(axis, c.deadband, pulse);
    if axis.center + c.deadband < pulse <= axis.max {
      ForwardPart(c, axis.(sign := 1), pulse);
    } else if axis.min <= pulse < axis.center - c.deadband {
      BackwardPart(c, axis.(sign := 1), pulse);
    }
  }

  /** The speed knob: its lower end at and below the lower pulse, its upper end at and above the upper pulse,
      and in between in proportion. */
  lemma {:induction false} ScaleIsLinear(c: Config, pulse: U16)
    requires ConfigValid(c)
    ensures pulse <= c.scaleMinUs ==> SpeedScale(c, pulse) == c.scaleMin
    ensures pulse >= c.scaleMaxUs ==> SpeedScale(c, pulse) == c.scaleMax
    ensures c.scaleMinUs <= pulse <= c.scaleMaxUs ==>
              (SpeedScale(c, pulse) - c.scaleMin) * (c.scaleMaxUs - c.scaleMinUs) as real
              == (pulse - c.scaleMinUs) as real * (c.scaleMax - c.scaleMin)
  {
    var part: int, span: int := pulse - c.scaleMinUs, c.scaleMaxUs - c.scaleMinUs;
    SignOfPart(part, span);
    Scaling(part, span);
    Proportion(part as real, span as real, c.scaleMax - c.scaleMin);
    if part >= span {
      Scaling(part - span, span);
    }
  }

  lemma {:induction false} Proportion(part: real, span: real, width: real)
    requires span > 0.0
    ensures part / span * width * span == part * width
  {
  }

  // ------------------------------------------------------------------------------------ the intents

  /** The channel is meant and its pulse is one that a receiver sends. */
  predicate Readable(c: Config, input: Input, channel: U8) {
    0 < channel <= |input.channels| && channel <= input.count && c.validMin <= input.channels[channel - 1] <= c.validMax
  }

  /** The receiver is heard, the four channels are readable, and the switch is in its active range. */
  predicate Takes(c: Config, input: Input) {
    && input.signal
    && Readable(c, input, c.throttle.channel) && Readable(c, input, c.steering.channel)
    && Readable(c, input, c.enableChannel) && Readable(c, input, c.scaleChannel)
    && input.channels[c.enableChannel - 1] <= c.enableActiveMax
  }

  /** The stick rests: its pulse is no further from the centre than the dead band. */
  predicate Rests(c: Config, axis: Axis, input: Input) {
    0 < axis.channel <= |input.channels|
    && axis.center - c.deadband <= input.channels[axis.channel - 1] <= axis.center + c.deadband
  }

  lemma {:induction false} PriorityIff(c: Config, input: Input)
    requires ConfigValid(c) && InputValid(input)
    ensures HasPriority(c, input) <==> Takes(c, input)
    ensures BothNeutral(c, input) <==> Rests(c, c.throttle, input) && Rests(c, c.steering, input)
  {
  }

  /** The frame is another one than the last that was heard. */
  predicate Another(m: Model, input: Input) {
    input.signal && !(m.haveFrame && input.frame == m.lastFrame)
  }

  /** Which input yields which intent: an ARM at rest, a COMMAND while the application follows, each on
      another frame only; a STOP when the radio takes or loses the wheel; otherwise nothing. */
  lemma {:induction false} IntentIff(m: Model, input: Input, rcActive: bool)
    requires ConfigValid(m.config) && InputValid(input) && Invariant(m)
    ensures var (after, output) := Step(m, input, rcActive); var takes := Takes(m.config, input);
            && (output.action == StopAction <==> takes != m.priority)
            && (output.action == ArmAction <==>
                  && takes && m.priority && Another(m, input) && m.phase == WaitNeutral
                  && Rests(m.config, m.config.throttle, input) && Rests(m.config, m.config.steering, input))
            && (output.action == CommandAction <==>
                  takes && m.priority && Another(m, input) && m.phase == Armed && rcActive)
            && after.priority == takes
            && (output.action != CommandAction ==>
                  output.vx == 0.0 && output.wz == 0.0 && output.scale == 0.0 && !output.deadman)
            && (output.action == NoAction || output.action == StopAction ==> output.stream == 0 && output.sequence == 0)
  {
    PriorityIff(m.config, input);
    hide HasPriority, BothNeutral, Normalized, SpeedScale, Takes, Rests;
  }

  /** Where the source stands afterwards: a stream is armed exactly when the application follows its ARM, or
      goes on following; the second frame after an unanswered ARM gives it up. */
  lemma {:induction false} PhaseIff(m: Model, input: Input, rcActive: bool)
    requires ConfigValid(m.config) && InputValid(input) && Invariant(m)
    ensures var (after, output) := Step(m, input, rcActive); var goesOn := Takes(m.config, input) && m.priority;
            && (after.phase == Inactive <==> !Takes(m.config, input))
            && (after.phase == Armed <==> goesOn && rcActive && (m.phase == ArmPending || m.phase == Armed))
            && (after.phase == ArmPending <==>
                  || output.action == ArmAction
                  || (goesOn && m.phase == ArmPending && !rcActive && !(Another(m, input) && m.pendingFrames >= 1)))
            && (output.action == ArmAction ==> after.pendingFrames == 0)
            && (after.phase == ArmPending && output.action != ArmAction ==>
                  after.pendingFrames == m.pendingFrames + if Another(m, input) then 1 else 0)
            && after.haveFrame == (m.haveFrame || input.signal)
            && after.lastFrame == (if input.signal then input.frame else m.lastFrame)
            && (!Takes(m.config, input) ==> after.stream == 0 && after.sequence == 0)
  {
    PriorityIff(m.config, input);
    hide HasPriority, BothNeutral, Normalized, SpeedScale, Takes, Rests;
  }

  /** In every run, an ARM that waits for the application has seen at most one other frame since. */
  lemma {:induction false} UnansweredArmIsGivenUp(
    config: Config, states: seq<Model>, outputs: seq<Output>, stimuli: seq<Stimulus>, a: nat, n: nat)
    requires IsRun(config, states, outputs, stimuli) && a < n < |states| && outputs[a].action == ArmAction
    requires states[n].phase == ArmPending && forall i | a < i < n :: outputs[i].action != ArmAction
    ensures NewFrames(states, stimuli, n) - NewFrames(states, stimuli, a + 1) == states[n].pendingFrames <= 1
    decreases n
  {
    hide Step, ConfigValid, Takes;
    RunKeepsInvariant(config, states, outputs, stimuli, n);
    RunKeepsInvariant(config, states, outputs, stimuli, n - 1);
    PhaseIff(states[n - 1], stimuli[n - 1].input, stimuli[n - 1].rcActive);
    if n > a + 1 {
      UnansweredArmIsGivenUp(config, states, outputs, stimuli, a, n - 1);
    }
  }

  lemma {:induction false} CommandReads(m: Model, input: Input, rcActive: bool)
    requires ConfigValid(m.config) && InputValid(input)
    requires Step(m, input, rcActive).1.action == CommandAction
    ensures var output, c := Step(m, input, rcActive).1, m.config;
            && output.vx == Normalized(c.throttle, c.deadband, input.channels[c.throttle.channel - 1])
            && output.wz == Normalized(c.steering, c.deadband, input.channels[c.steering.channel - 1])
            && output.scale == SpeedScale(c, input.channels[c.scaleChannel - 1])
  {
    hide HasPriority, BothNeutral, Normalized, SpeedScale;
  }

  /** The stick of the axis points to this side: beyond the dead band, the other way round on a reversed
      axis. */
  predicate Points(c: Config, axis: Axis, pulse: U16, forward: bool) {
    if forward == (axis.sign == 1) then pulse > axis.center + c.deadband else pulse + c.deadband < axis.center
  }

  lemma {:induction false} AxisPoints(c: Config, axis: Axis, pulse: U16)
    requires AxisValid(c, axis) && (axis.sign == -1 || axis.sign == 1)
    ensures Normalized(axis, c.deadband, pulse) > 0.0 <==> Points(c, axis, pulse, true)
    ensures Normalized(axis, c.deadband, pulse) < 0.0 <==> Points(c, axis, pulse, false)
  {
    hide Normalized;
    AxisDirection(c, axis, pulse);
  }

  /** A COMMAND goes where the sticks point: forward or backward with the throttle, turning with the
      steering, and as fast as the knob allows. */
  lemma {:induction false} CommandFollowsTheSticks(m: Model, input: Input, rcActive: bool)
    requires ConfigValid(m.config) && InputValid(input)
    requires Step(m, input, rcActive).1.action == CommandAction
    ensures var output, c := Step(m, input, rcActive).1, m.config;
            var throttle, steering := input.channels[c.throttle.channel - 1], input.channels[c.steering.channel - 1];
            var knob := input.channels[c.scaleChannel - 1];
            && (output.vx > 0.0 <==> Points(c, c.throttle, throttle, true))
            && (output.vx < 0.0 <==> Points(c, c.throttle, throttle, false))
            && (output.wz > 0.0 <==> Points(c, c.steering, steering, true))
            && (output.wz < 0.0 <==> Points(c, c.steering, steering, false))
            && (knob <= c.scaleMinUs ==> output.scale == c.scaleMin)
            && (knob >= c.scaleMaxUs ==> output.scale == c.scaleMax)
            && (c.scaleMinUs <= knob <= c.scaleMaxUs ==>
                  (output.scale - c.scaleMin) * (c.scaleMaxUs - c.scaleMinUs) as real
                  == (knob - c.scaleMinUs) as real * (c.scaleMax - c.scaleMin))
  {
    hide Step, Normalized, SpeedScale, Points;
    var c := m.config;
    CommandReads(m, input, rcActive);
    AxisPoints(c, c.throttle, input.channels[c.throttle.channel - 1]);
    AxisPoints(c, c.steering, input.channels[c.steering.channel - 1]);
    ScaleIsLinear(c, input.channels[c.scaleChannel - 1]);
  }

  /** The number of the last frame that was heard before stimulus n. */
  function LastHeard(stimuli: seq<Stimulus>, n: nat): (frame: U32)
    requires n <= |stimuli|
  {
    if n == 0 then 0
    else if stimuli[n - 1].input.signal then stimuli[n - 1].input.frame
    else LastHeard(stimuli, n - 1)
  }

  /** In every run a frame counts as another one exactly when it is the first that is heard, or has another
      number than the last one; and a source that waits for nothing keeps nothing of what it waited for. */
  lemma {:induction false} AnotherIff(
    config: Config, states: seq<Model>, outputs: seq<Output>, stimuli: seq<Stimulus>, n: nat)
    requires IsRun(config, states, outputs, stimuli) && n < |states|
    ensures states[n].haveFrame <==> exists i | 0 <= i < n :: stimuli[i].input.signal
    ensures states[n].lastFrame == LastHeard(stimuli, n)
    ensures n < |stimuli| ==>
              (Another(states[n], stimuli[n].input) <==>
                 && stimuli[n].input.signal
                 && ((forall i | 0 <= i < n :: !stimuli[i].input.signal)
                     || stimuli[n].input.frame != LastHeard(stimuli, n)))
    ensures states[n].phase != ArmPending ==> states[n].pendingFrames == 0
    ensures states[n].phase == Inactive ==> states[n].stream == 0 && states[n].sequence == 0
  {
    hide Step, ConfigValid, Takes;
    if n > 0 {
      AnotherIff(config, states, outputs, stimuli, n - 1);
      RunKeepsInvariant(config, states, outputs, stimuli, n - 1);
      PhaseIff(states[n - 1], stimuli[n - 1].input, stimuli[n - 1].rcActive);
      NothingPending(states[n - 1], stimuli[n - 1].input, stimuli[n - 1].rcActive);
    }
  }

  lemma {:induction false} NothingPending(m: Model, input: Input, rcActive: bool)
    requires ConfigValid(m.config) && InputValid(input) && Invariant(m)
    requires m.phase != ArmPending ==> m.pendingFrames == 0
    ensures var after := Step(m, input, rcActive).0; after.phase != ArmPending ==> after.pendingFrames == 0
  {
    hide HasPriority, BothNeutral, Normalized, SpeedScale;
  }
}
