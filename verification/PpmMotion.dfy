/** Driving from the radio: pulse widths become ARM, COMMAND and STOP intents of one stream after
    another.  Scales and axes are reals here. */
module PpmMotion {
  import opened MachineIntegers

  const CHANNELS: nat := 14
  const ARM_PENDING_MAX: nat := 2
  const STREAM_PREFIX: U64 := 0x5243_0000_0000_0000

  datatype Axis = Axis(channel: U8, min: U16, center: U16, max: U16, sign: int)

  datatype Config = Config(
    throttle: Axis, steering: Axis, enableChannel: U8, enableActiveMax: U16, deadband: U16,
    validMin: U16, validMax: U16, scaleChannel: U8, scaleMinUs: U16, scaleMaxUs: U16,
    scaleMin: real, scaleMax: real)

  /** `count` of the 14 channels are meant; `frame` numbers the last valid receiver frame. */
  datatype Input = Input(signal: bool, frame: U32, count: U8, channels: seq<U16>)

  datatype Phase = Inactive | WaitNeutral | ArmPending | Armed

  datatype Action = NoAction | StopAction | ArmAction | CommandAction

  datatype Output = Output(
    action: Action, stream: U64, sequence: U64, vx: real, wz: real, scale: real, deadman: bool)

  datatype Model = Model(
    config: Config, phase: Phase, priority: bool, haveFrame: bool, lastFrame: U32,
    pendingFrames: U8, nonce: U64, stream: U64, sequence: U64)

  const NOTHING: Output := Output(NoAction, 0, 0, 0.0, 0.0, 0.0, false)
  const STOP: Output := NOTHING.(action := StopAction)

  predicate ChannelValid(channel: U8) {
    0 < channel <= CHANNELS
  }

  predicate AxisValid(c: Config, axis: Axis) {
    && axis.min >= c.validMin && axis.max <= c.validMax
    && axis.min + c.deadband < axis.center && axis.center + c.deadband < axis.max
  }

  predicate ConfigValid(c: Config) {
    && ChannelValid(c.throttle.channel) && ChannelValid(c.steering.channel)
    && ChannelValid(c.enableChannel) && ChannelValid(c.scaleChannel)
    && c.throttle.channel != c.steering.channel && c.throttle.channel != c.enableChannel
    && c.steering.channel != c.enableChannel
    && c.scaleChannel != c.throttle.channel && c.scaleChannel != c.steering.channel
    && c.scaleChannel != c.enableChannel
    && c.enableActiveMax > 0 && c.deadband > 0 && c.validMin < c.validMax
    && c.validMin <= c.enableActiveMax <= c.validMax
    && AxisValid(c, c.throttle) && AxisValid(c, c.steering)
    && c.validMin <= c.scaleMinUs < c.scaleMaxUs <= c.validMax
    && 0.0 < c.scaleMin <= c.scaleMax <= 1.0
    && (c.throttle.sign == -1 || c.throttle.sign == 1) && (c.steering.sign == -1 || c.steering.sign == 1)
  }

  predicate InputValid(input: Input) {
    |input.channels| == CHANNELS
  }

  predicate PulseValid(c: Config, pulse: U16) {
    c.validMin <= pulse <= c.validMax
  }

  predicate HasChannels(c: Config, input: Input)
    requires ConfigValid(c) && InputValid(input)
  {
    && input.signal
    && input.count >= c.enableChannel && input.count >= c.throttle.channel
    && input.count >= c.steering.channel && input.count >= c.scaleChannel
    && PulseValid(c, input.channels[c.throttle.channel - 1])
    && PulseValid(c, input.channels[c.steering.channel - 1])
    && PulseValid(c, input.channels[c.enableChannel - 1])
    && PulseValid(c, input.channels[c.scaleChannel - 1])
  }

  predicate HasPriority(c: Config, input: Input)
    requires ConfigValid(c) && InputValid(input)
  {
    HasChannels(c, input) && input.channels[c.enableChannel - 1] <= c.enableActiveMax
  }

  predicate Neutral(pulse: U16, center: U16, deadband: U16) {
    var difference: int := pulse - center;
    (if difference < 0 then -difference else difference) <= deadband
  }

  function Clamp(x: real): real {
    if x > 1.0 then 1.0 else if x < -1.0 then -1.0 else x
  }

  function Normalized(axis: Axis, deadband: U16, pulse: U16): real {
    var delta: int := pulse - axis.center;
    if -(deadband as int) <= delta <= deadband then 0.0
    else
      var span: int := if delta > 0 then axis.max - axis.center - deadband else axis.center - deadband - axis.min;
      var past: int := if delta > 0 then delta - deadband else delta + deadband;
      var normalized := if span > 0 then Clamp(past as real / span as real) else 0.0;
      if axis.sign < 0 then -normalized else normalized
  }

  /** Where the pulse lies between the two ends of the scale. */
  function ScalePosition(c: Config, pulse: U16): (position: real)
    requires c.scaleMinUs != c.scaleMaxUs
    ensures 0.0 <= position <= 1.0
  {
    var normalized := (pulse - c.scaleMinUs) as real / (c.scaleMaxUs - c.scaleMinUs) as real;
    if normalized < 0.0 then 0.0 else if normalized > 1.0 then 1.0 else normalized
  }

  function SpeedScale(c: Config, pulse: U16): real
    requires c.scaleMinUs != c.scaleMaxUs
  {
    c.scaleMin + ScalePosition(c, pulse) * (c.scaleMax - c.scaleMin)
  }

  function Initial(config: Config): Model {
    Model(config, Inactive, false, false, 0, 0, STREAM_PREFIX, 0, 0)
  }

  predicate NewFrame(m: Model, input: Input) {
    input.signal && (!m.haveFrame || input.frame != m.lastFrame)
  }

  function NextNonce(nonce: U64): U64 {
    if nonce == U64_MAX then 1 else nonce + 1
  }

  function Seen(m: Model, input: Input): Model {
    if input.signal then m.(haveFrame := true, lastFrame := input.frame) else m
  }

  predicate BothNeutral(c: Config, input: Input)
    requires ConfigValid(c) && InputValid(input)
  {
    && Neutral(input.channels[c.throttle.channel - 1], c.throttle.center, c.deadband)
    && Neutral(input.channels[c.steering.channel - 1], c.steering.center, c.deadband)
  }

  /** A new frame with priority in the phases that can speak. */
  function Spoken(m: Model, input: Input): (Model, Output)
    requires ConfigValid(m.config) && InputValid(input)
  {
    if m.phase == WaitNeutral then
      if !BothNeutral(m.config, input) then (m, NOTHING)
      else
        var stream := NextNonce(m.nonce);
        (m.(nonce := stream, stream := stream, sequence := 1, phase := ArmPending, pendingFrames := 0),
         NOTHING.(action := ArmAction, stream := stream, sequence := 1))
    else if m.phase == Armed then
      var sequence := (m.sequence + 1) % TWO_64;
      (m.(sequence := sequence),
       Output(CommandAction, m.stream, sequence,
              Normalized(m.config.throttle, m.config.deadband, input.channels[m.config.throttle.channel - 1]),
              Normalized(m.config.steering, m.config.deadband, input.channels[m.config.steering.channel - 1]),
              SpeedScale(m.config, input.channels[m.config.scaleChannel - 1]), true))
    else (m, NOTHING)
  }

  function Step(m: Model, input: Input, rcActive: bool): (Model, Output)
    requires ConfigValid(m.config) && InputValid(input)
  {
    var seen := Seen(m, input);
    if !HasPriority(m.config, input) then
      (seen.(priority := false, phase := Inactive, pendingFrames := 0, stream := 0, sequence := 0),
       if m.priority then STOP else NOTHING)
    else if !m.priority then (seen.(priority := true, phase := WaitNeutral, pendingFrames := 0), STOP)
    else if m.phase == ArmPending then
      if rcActive then (seen.(phase := Armed, pendingFrames := 0), NOTHING)
      else if NewFrame(m, input) then
        var pending := (m.pendingFrames + 1) % 0x100;
        (if pending >= ARM_PENDING_MAX then seen.(phase := WaitNeutral, pendingFrames := 0)
         else seen.(pendingFrames := pending), NOTHING)
      else (seen, NOTHING)
    else if m.phase == Armed && !rcActive then (seen.(phase := WaitNeutral, pendingFrames := 0), NOTHING)
    else if !NewFrame(m, input) then (seen, NOTHING)
    else Spoken(seen, input)
  }

  // -------------------------------------------------------------------------- the in-place form

  class Source {
    var config: Config
    var phase: Phase
    var priorityActive: bool
    var haveFrame: bool
    var lastFrame: U32
    var pendingFrames: U8
    var nonce: U64
    var stream: U64
    var sequence: U64
    var initialized: bool

    ghost predicate Valid()
      reads this
    {
      initialized ==> ConfigValid(config)
    }

    ghost function Contents(): Model
      reads this
    {
      Model(config, phase, priorityActive, haveFrame, lastFrame, pendingFrames, nonce, stream, sequence)
    }

    constructor ()
      ensures Valid() && !initialized
    {
      var axis := Axis(0, 0, 0, 0, 0);
      config := Config(axis, axis, 0, 0, 0, 0, 0, 0, 0, 0, 0.0, 0.0);
      phase, priorityActive, haveFrame, lastFrame, pendingFrames := Inactive, false, false, 0, 0;
      nonce, stream, sequence, initialized := 0, 0, 0, false;
    }

    method Init(config: Config) returns (ok: bool)
      requires Valid()
      modifies this
      ensures Valid() && ok == ConfigValid(config)
      ensures ok ==> initialized && Contents() == Initial(config)
      ensures !ok ==> initialized == old(initialized) && Contents() == old(Contents())
    {
      if !ConfigValid(config) {
        return false;
      }
      this.config := config;
      phase, priorityActive, haveFrame, lastFrame, pendingFrames := Inactive, false, false, 0, 0;
      nonce, stream, sequence, initialized := STREAM_PREFIX, 0, 0, true;
      return true;
    }

    method StepNow(input: Input, rcActive: bool) returns (ok: bool, output: Output)
      requires Valid() && InputValid(input)
      modifies this
      ensures Valid() && ok == initialized == old(initialized)
      ensures ok ==> (Contents(), output) == Step(old(Contents()), input, rcActive)
      ensures !ok ==> Contents() == old(Contents())
    {
      hide Normalized, SpeedScale, HasChannels;
      output := NOTHING;
      if !initialized {
        return false, output;
      }
      ok := true;
      var priority := HasPriority(config, input);
      var newFrame := false;
      if input.signal {
        newFrame := !haveFrame || input.frame != lastFrame;
        haveFrame := true;
        lastFrame := input.frame;
      }
      if !priority {
        if priorityActive {
          output := output.(action := StopAction);
        }
        priorityActive := false;
        phase := Inactive;
        pendingFrames := 0;
        stream := 0;
        sequence := 0;
        return;
      }
      if !priorityActive {
        priorityActive := true;
        phase := WaitNeutral;
        pendingFrames := 0;
        output := output.(action := StopAction);
        return;
      }
      if phase == ArmPending {
        if rcActive {
          phase := Armed;
          pendingFrames := 0;
        } else if newFrame {
          pendingFrames := (pendingFrames + 1) % 0x100;
          if pendingFrames >= ARM_PENDING_MAX {
            phase := WaitNeutral;
            pendingFrames := 0;
          }
        }
        return;
      }
      if phase == Armed && !rcActive {
        phase := WaitNeutral;
        pendingFrames := 0;
        return;
      }
      if !newFrame {
        return;
      }
      output := Speak(input);
    }

    method Speak(input: Input) returns (output: Output)
      requires Valid() && initialized && InputValid(input)
      modifies `nonce, `stream, `sequence, `phase, `pendingFrames
      ensures Valid() && (Contents(), output) == Spoken(old(Contents()), input)
    {
      output := NOTHING;
      var throttle := input.channels[config.throttle.channel - 1];
      var steering := input.channels[config.steering.channel - 1];
      if phase == WaitNeutral {
        if !Neutral(throttle, config.throttle.center, config.deadband)
           || !Neutral(steering, config.steering.center, config.deadband) {
          return;
        }
        nonce := (nonce + 1) % TWO_64;
        if nonce == 0 {
          nonce := nonce + 1;
        }
        stream := nonce;
        sequence := 1;
        phase := ArmPending;
        pendingFrames := 0;
        return NOTHING.(action := ArmAction, stream := stream, sequence := sequence);
      }
      if phase == Armed {
        sequence := (sequence + 1) % TWO_64;
        return Output(CommandAction, stream, sequence,
                      Normalized(config.throttle, config.deadband, throttle),
                      Normalized(config.steering, config.deadband, steering),
                      SpeedScale(config, input.channels[config.scaleChannel - 1]), true);
      }
    }
  }

  // ------------------------------------------------------------------------------------- the axes

  lemma {:induction false} DivideOrder(x: real, y: real, span: real)
    requires span > 0.0 && x <= y
    ensures x / span <= y / span
  {
  }

  lemma {:induction false} DivideSign(x: int, span: int)
    requires span > 0
    ensures x > 0 ==> 0.0 < x as real / span as real
    ensures x < 0 ==> x as real / span as real < 0.0
    ensures x >= span ==> x as real / span as real >= 1.0
    ensures x < span ==> x as real / span as real < 1.0
    ensures x <= -span ==> x as real / span as real <= -1.0
    ensures x > -span ==> x as real / span as real > -1.0
  {
    if x >= span {
      DivideOrder(span as real, x as real, span as real);
    }
  }

  /** An axis is a number between -1 and 1; it is zero exactly in the dead band around the centre, and
      full exactly from the calibrated end on. */
  lemma {:induction false} AxisRange(c: Config, axis: Axis, pulse: U16)
    requires AxisValid(c, axis) && (axis.sign == -1 || axis.sign == 1)
    ensures var n := Normalized(axis, c.deadband, pulse);
            && -1.0 <= n <= 1.0
            && (n == 0.0 <==> Neutral(pulse, axis.center, c.deadband))
            && (n == axis.sign as real <==> pulse >= axis.max)
            && (n == -(axis.sign as real) <==> pulse <= axis.min)
  {
    var delta: int := pulse - axis.center;
    if delta > c.deadband {
      DivideSign(delta - c.deadband, axis.max - axis.center - c.deadband);
    } else if delta < -(c.deadband as int) {
      DivideSign(delta + c.deadband, axis.center - c.deadband - axis.min);
    }
  }

  /** And more stick never means less of it, or never more of it on a reversed axis. */
  lemma {:induction false} AxisIsMonotone(c: Config, axis: Axis, low: U16, high: U16)
    requires AxisValid(c, axis) && (axis.sign == -1 || axis.sign == 1) && low <= high
    ensures axis.sign as real * Normalized(axis, c.deadband, low)
            <= axis.sign as real * Normalized(axis, c.deadband, high)
  {
    ForwardIsMonotone(c, axis.(sign := 1), low, high);
    Reversed(axis, c.deadband, low);
    Reversed(axis, c.deadband, high);
  }

  /** An axis is the forward one times its sign. */
  lemma {:induction false} Reversed(axis: Axis, deadband: U16, pulse: U16)
    requires axis.sign == -1 || axis.sign == 1
    ensures axis.sign as real * Normalized(axis, deadband, pulse) == Normalized(axis.(sign := 1), deadband, pulse)
  {
  }

  lemma {:induction false} ForwardIsMonotone(c: Config, axis: Axis, low: U16, high: U16)
    requires AxisValid(c, axis) && axis.sign == 1 && low <= high
    ensures Normalized(axis, c.deadband, low) <= Normalized(axis, c.deadband, high)
  {
    AxisRange(c, axis, low);
    AxisRange(c, axis, high);
    var dead: int := c.deadband;
    var a: int, b: int := low - axis.center, high - axis.center;
    if a > dead {
      DivideOrder((a - dead) as real, (b - dead) as real, (axis.max - axis.center - dead) as real);
    } else if b < -dead {
      DivideOrder((a + dead) as real, (b + dead) as real, (axis.center - dead - axis.min) as real);
    } else if b > dead {
      DivideSign(b - dead, axis.max - axis.center - dead);
      if a < -dead {
        DivideSign(a + dead, axis.center - dead - axis.min);
      }
    } else if a < -dead {
      DivideSign(a + dead, axis.center - dead - axis.min);
    }
  }

  lemma {:induction false} Blend(t: real, low: real, high: real)
    requires 0.0 <= t <= 1.0 && low <= high
    ensures low <= low + t * (high - low) <= high
  {
  }

  /** The speed scale stays between its two ends, so it never stops and never amplifies. */
  lemma {:induction false} ScaleRange(c: Config, pulse: U16)
    requires ConfigValid(c)
    ensures 0.0 < c.scaleMin <= SpeedScale(c, pulse) <= c.scaleMax <= 1.0
  {
    hide ScalePosition;
    Blend(ScalePosition(c, pulse), c.scaleMin, c.scaleMax);
  }
}
